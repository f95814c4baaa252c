/**
 * The interaction log as the history panel shows it: newest first, with
 * scheduled items that are still open highlighted, overdue ones flagged, and
 * a "mark completed" button on the open scheduled ones.
 */
module History {
  import opened Common
  import opened Board

  // ---------------------------------------------------------------------------
  // [...interactions].sort((a, b) => date(b) - date(a))

  /** Newest first: no interaction is listed before a newer one. */
  predicate NewestFirst(s: seq<Interaction>)
  {
    forall i, j :: 0 <= i < j < |s| ==> s[i].date >= s[j].date
  }

  /** The interactions of `s` logged at instant `d`, in the order of `s`. */
  function WithDate(s: seq<Interaction>, d: int): (r: seq<Interaction>)
    ensures forall k :: 0 <= k < |r| ==> r[k].date == d
  {
    if s == [] then []
    else (if s[0].date == d then [s[0]] else []) + WithDate(s[1..], d)
  }

  /** Places `x` in a newest-first list in front of every interaction that is
      not newer than it. */
  function Insert(x: Interaction, t: seq<Interaction>): (r: seq<Interaction>)
    requires NewestFirst(t)
    ensures multiset(r) == multiset{x} + multiset(t)
    ensures NewestFirst(r)
    ensures |r| == |t| + 1
    ensures r[0] == x || (t != [] && r[0] == t[0])
  {
    if t == [] || x.date >= t[0].date then
      NewestFirstCons(x, t);
      [x] + t
    else
      var tail := Insert(x, t[1..]);
      assert t == [t[0]] + t[1..];
      NewestFirstCons(t[0], tail);
      [t[0]] + tail
  }

  /** A newest-first list stays newest first under a head that is not older
      than its first element. */
  lemma NewestFirstCons(y: Interaction, t: seq<Interaction>)
    requires NewestFirst(t)
    requires t == [] || y.date >= t[0].date
    ensures NewestFirst([y] + t)
  {
    var r := [y] + t;
    forall i, j | 0 <= i < j < |r|
      ensures r[i].date >= r[j].date
    {
      assert r[j] == t[j - 1];
      if i == 0 {
        assert t[0].date >= t[j - 1].date;
      } else {
        assert r[i] == t[i - 1];
      }
    }
  }

  /** The copy `sortedInteractions`. `Array.prototype.sort` is stable, so
      interactions logged at the same instant keep their input order; this is
      an insertion sort, which orders the same way. */
  function SortNewestFirst(s: seq<Interaction>): (r: seq<Interaction>)
    ensures NewestFirst(r)
    ensures multiset(r) == multiset(s)
    ensures |r| == |s|
  {
    if s == [] then []
    else
      assert s == [s[0]] + s[1..];
      Insert(s[0], SortNewestFirst(s[1..]))
  }

  lemma WithDateCons(y: Interaction, s: seq<Interaction>, d: int)
    ensures WithDate([y] + s, d) == (if y.date == d then [y] else []) + WithDate(s, d)
  {
    assert ([y] + s)[1..] == s;
  }

  lemma {:induction false} InsertWithDate(x: Interaction, t: seq<Interaction>, d: int)
    requires NewestFirst(t)
    ensures WithDate(Insert(x, t), d) == (if x.date == d then [x] else []) + WithDate(t, d)
  {
    if t == [] || x.date >= t[0].date {
      WithDateCons(x, t, d);
    } else {
      var rest := t[1..];
      assert t == [t[0]] + rest;
      InsertWithDate(x, rest, d);
      WithDateCons(t[0], Insert(x, rest), d);
      WithDateCons(t[0], rest, d);
      if x.date == d {
        assert t[0].date != d;
      }
    }
  }

  /** Stability: the interactions logged at any one instant appear in the
      sorted copy in the same order as in the input. */
  lemma {:induction false} SortIsStable(s: seq<Interaction>, d: int)
    ensures WithDate(SortNewestFirst(s), d) == WithDate(s, d)
  {
    if s != [] {
      SortIsStable(s[1..], d);
      InsertWithDate(s[0], SortNewestFirst(s[1..]), d);
    }
  }

  /** A log already listed newest first is shown as it is. */
  lemma {:induction false} SortKeepsNewestFirstLog(s: seq<Interaction>)
    requires NewestFirst(s)
    ensures SortNewestFirst(s) == s
  {
    if s != [] {
      SortKeepsNewestFirstLog(s[1..]);
    }
  }

  /** "Nenhuma interação registrada ainda": decided on the input, which is
      empty exactly when the sorted copy is. */
  predicate ShowsEmptyState(s: seq<Interaction>)
  {
    |s| == 0
  }

  lemma EmptyStateIffNothingListed(s: seq<Interaction>)
    ensures ShowsEmptyState(s) <==> SortNewestFirst(s) == []
  {
  }

  // ---------------------------------------------------------------------------
  // Per-item conditions

  /** `interaction.scheduledFor && !interaction.completed`. */
  predicate IsScheduled(i: Interaction)
  {
    i.scheduledFor.Some? && !i.completed
  }

  /** `isScheduled && new Date(interaction.scheduledFor) < new Date()`. */
  predicate IsPastDue(i: Interaction, now: int)
  {
    IsScheduled(i) && i.scheduledFor.value < now
  }

  /** The "Marcar como concluído" button: inside the `scheduledFor` block, for
      an interaction not yet completed, when a handler was supplied. */
  predicate ShowsCompleteButton(i: Interaction, hasHandler: bool)
  {
    i.scheduledFor.Some? && !i.completed && hasHandler
  }

  /** The button is offered exactly on the highlighted (scheduled and open)
      interactions, whenever there is a handler, and an overdue one is always
      among them; a completed one never has it. */
  lemma ButtonOnScheduledOnly(i: Interaction, hasHandler: bool, now: int)
    ensures ShowsCompleteButton(i, hasHandler) <==> IsScheduled(i) && hasHandler
    ensures IsPastDue(i, now) ==> IsScheduled(i) && i.scheduledFor.value < now
    ensures i.completed ==> !ShowsCompleteButton(i, hasHandler) && !IsPastDue(i, now)
  {
  }
}
