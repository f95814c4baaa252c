/**
 * The account registry and the record types it shares with the contact
 * list: accounts are appended with a time-derived id and a date-only
 * creation stamp.
 */
module Accounts {
  import opened Common
  import opened Text

  datatype Account = Account(
    id: string,
    companyName: string,
    cnpj: string,
    address: string,
    responsible: string,
    createdAt: string)

  datatype Contact = Contact(
    id: string,
    fullName: string,
    email: string,
    phone: string,
    accountId: string,
    leadSource: Option<string>,
    notes: Option<string>,
    createdAt: string)

  /** What the add-account dialog submits: an `Account` without `id` and
      `createdAt`. */
  datatype AccountDraft = AccountDraft(companyName: string, cnpj: string, address: string, responsible: string)

  /** `newAccount`: the submitted fields, the id `Date.now().toString()` taken
      from `stamp`, and the date part of `new Date().toISOString()`. */
  function NewAccount(draft: AccountDraft, stamp: nat, isoNow: string): (a: Account)
    ensures a.companyName == draft.companyName && a.cnpj == draft.cnpj
    ensures a.address == draft.address && a.responsible == draft.responsible
    ensures a.id == NatToString(stamp)
    ensures a.createdAt == DatePart(isoNow) && 'T' !in a.createdAt
  {
    Account(NatToString(stamp), draft.companyName, draft.cnpj, draft.address, draft.responsible, DatePart(isoNow))
  }

  /** `addAccount`: the new account goes at the end; the stored ones are kept
      as they are and in order. */
  function AddAccount(accounts: seq<Account>, draft: AccountDraft, stamp: nat, isoNow: string): (r: seq<Account>)
    ensures |r| == |accounts| + 1
    ensures r[..|accounts|] == accounts
    ensures r[|accounts|] == NewAccount(draft, stamp, isoNow)
  {
    accounts + [NewAccount(draft, stamp, isoNow)]
  }

  /** For a timestamp of the form "<date>T<time>", `createdAt` is "<date>". */
  lemma AccountCreatedOnDate(draft: AccountDraft, stamp: nat, date: string, time: string)
    requires 'T' !in date
    ensures NewAccount(draft, stamp, date + "T" + time).createdAt == date
  {
    DatePartOfTimestamp(date, time);
  }

  /** Nothing keeps ids apart: adding at a moment that matches a stored id
      leaves two accounts with that id. */
  lemma AddAccountMayDuplicateId(accounts: seq<Account>, draft: AccountDraft, stamp: nat, isoNow: string, k: nat)
    requires k < |accounts| && accounts[k].id == NatToString(stamp)
    ensures var r := AddAccount(accounts, draft, stamp, isoNow);
            r[k].id == r[|accounts|].id && k != |accounts|
  {
    var r := AddAccount(accounts, draft, stamp, isoNow);
    assert r[k] == accounts[k];
  }
}
