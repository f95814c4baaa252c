/**
 * The contact list: contacts are appended with a time-derived id and a
 * date-only creation stamp, and each shows the name of its account, looked
 * up in an account list this page never changes.
 */
module Contacts {
  import opened Common
  import opened Text
  import opened Accounts

  /** What the add-contact dialog submits: a `Contact` without `id` and
      `createdAt`, the optional fields included. */
  datatype ContactDraft = ContactDraft(
    fullName: string,
    email: string,
    phone: string,
    accountId: string,
    leadSource: Option<string>,
    notes: Option<string>)

  function NewContact(draft: ContactDraft, stamp: nat, isoNow: string): (c: Contact)
    ensures c.fullName == draft.fullName && c.email == draft.email && c.phone == draft.phone
    ensures c.accountId == draft.accountId && c.leadSource == draft.leadSource && c.notes == draft.notes
    ensures c.id == NatToString(stamp)
    ensures c.createdAt == DatePart(isoNow) && 'T' !in c.createdAt
  {
    Contact(NatToString(stamp), draft.fullName, draft.email, draft.phone, draft.accountId,
            draft.leadSource, draft.notes, DatePart(isoNow))
  }

  /** `addContact`: the new contact goes at the end; the others are kept as
      they are and in order. */
  function AddContact(contacts: seq<Contact>, draft: ContactDraft, stamp: nat, isoNow: string): (r: seq<Contact>)
    ensures |r| == |contacts| + 1
    ensures r[..|contacts|] == contacts
    ensures r[|contacts|] == NewContact(draft, stamp, isoNow)
  {
    contacts + [NewContact(draft, stamp, isoNow)]
  }

  /** `accounts.find(acc => acc.id === accountId)`: the first account with
      that id, if any. */
  function FindAccount(accounts: seq<Account>, accountId: string): (r: Option<Account>)
    ensures r.None? <==> forall k :: 0 <= k < |accounts| ==> accounts[k].id != accountId
    ensures r.Some? ==> exists k :: 0 <= k < |accounts| && accounts[k] == r.value
                                    && accounts[k].id == accountId
                                    && forall j :: 0 <= j < k ==> accounts[j].id != accountId
  {
    if accounts == [] then None
    else if accounts[0].id == accountId then Some(accounts[0])
    else
      var r := FindAccount(accounts[1..], accountId);
      assert forall k :: 0 < k < |accounts| ==> accounts[k] == accounts[1..][k - 1];
      r
  }

  const AccountNotFound: string := "Conta não encontrada"

  /** `getAccountName`: the found account's `companyName`, or the fallback
      when there is none or, through `||`, when that name is empty. */
  function GetAccountName(accounts: seq<Account>, accountId: string): (name: string)
    ensures name != []
  {
    var found := FindAccount(accounts, accountId);
    if found.Some? && found.value.companyName != [] then found.value.companyName else AccountNotFound
  }

  /** The fallback shows exactly for a missing account or an empty name
      (assuming no company is literally called by the fallback text). */
  lemma FallbackCases(accounts: seq<Account>, accountId: string)
    requires forall k :: 0 <= k < |accounts| ==> accounts[k].companyName != AccountNotFound
    ensures GetAccountName(accounts, accountId) == AccountNotFound
        <==> (forall k :: 0 <= k < |accounts| ==> accounts[k].id != accountId)
             || FindAccount(accounts, accountId).value.companyName == []
  {
    var found := FindAccount(accounts, accountId);
    if found.Some? {
      var k :| 0 <= k < |accounts| && accounts[k] == found.value;
    }
  }

  /** An account appended to the looked-up list with a new id and a non-empty
      name is found by that id; every name looked up before is looked up the
      same afterwards. */
  lemma AddedAccountIsNamed(accounts: seq<Account>, draft: AccountDraft, stamp: nat, isoNow: string, other: string)
    requires forall k :: 0 <= k < |accounts| ==> accounts[k].id != NatToString(stamp)
    requires draft.companyName != []
    ensures GetAccountName(AddAccount(accounts, draft, stamp, isoNow), NatToString(stamp)) == draft.companyName
    ensures FindAccount(accounts, other).Some?
            ==> GetAccountName(AddAccount(accounts, draft, stamp, isoNow), other) == GetAccountName(accounts, other)
  {
    FindAccountAppend(accounts, NewAccount(draft, stamp, isoNow), NatToString(stamp));
    FindAccountAppend(accounts, NewAccount(draft, stamp, isoNow), other);
  }

  /** Appending an account changes a lookup only when it was a miss. */
  lemma {:induction false} FindAccountAppend(accounts: seq<Account>, a: Account, accountId: string)
    ensures FindAccount(accounts + [a], accountId)
         == if FindAccount(accounts, accountId).Some? then FindAccount(accounts, accountId)
            else if a.id == accountId then Some(a) else None
  {
    if accounts != [] {
      assert (accounts + [a])[1..] == accounts[1..] + [a];
      FindAccountAppend(accounts[1..], a, accountId);
    }
  }
}
