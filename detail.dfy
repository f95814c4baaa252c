/**
 * The opportunity detail page's interaction log: adding an interaction,
 * marking one completed, and the pending and overdue lists.
 */
module Detail {
  import opened Common
  import opened Text
  import opened Board
  import opened History

  /** What the add-interaction dialog submits: type, description and an
      optional scheduled instant. */
  datatype InteractionDraft = InteractionDraft(kind: InteractionType, description: string, scheduledFor: Option<int>)

  /** `newInteraction`: the draft spread first, then `id` from `Date.now()`
      (`stamp`), `date` from the clock (`now`) and `completed` set exactly
      when nothing is scheduled. */
  function NewInteraction(draft: InteractionDraft, stamp: nat, now: int): (i: Interaction)
    ensures i.kind == draft.kind && i.description == draft.description && i.scheduledFor == draft.scheduledFor
    ensures i.id == NatToString(stamp) && i.date == now
    ensures i.completed <==> draft.scheduledFor.None?
  {
    Interaction(NatToString(stamp), draft.kind, draft.description, now, draft.scheduledFor, draft.scheduledFor.None?)
  }

  /** `addInteraction`: one interaction appended; nothing else changes. */
  function AddInteraction(o: Opportunity, draft: InteractionDraft, stamp: nat, now: int): (r: Opportunity)
    ensures |r.interactions| == |o.interactions| + 1
    ensures r.interactions[..|o.interactions|] == o.interactions
    ensures r.interactions[|o.interactions|] == NewInteraction(draft, stamp, now)
    ensures r.(interactions := o.interactions) == o
  {
    o.(interactions := o.interactions + [NewInteraction(draft, stamp, now)])
  }

  function Completed(i: Interaction): Interaction
  {
    i.(completed := true)
  }

  /** The `map` inside `markInteractionCompleted`. */
  function CompleteMatching(list: seq<Interaction>, interactionId: string): (r: seq<Interaction>)
    ensures |r| == |list|
    ensures forall k :: 0 <= k < |list| ==>
      r[k] == if list[k].id == interactionId then Completed(list[k]) else list[k]
  {
    if list == [] then []
    else
      [if list[0].id == interactionId then Completed(list[0]) else list[0]]
      + CompleteMatching(list[1..], interactionId)
  }

  /** `markInteractionCompleted`: every interaction with that id is completed;
      nothing else about the opportunity changes. */
  function MarkInteractionCompleted(o: Opportunity, interactionId: string): (r: Opportunity)
    ensures r.(interactions := o.interactions) == o
    ensures |r.interactions| == |o.interactions|
    ensures forall k :: 0 <= k < |o.interactions| ==>
      r.interactions[k].completed == (o.interactions[k].completed || o.interactions[k].id == interactionId)
      && r.interactions[k].(completed := o.interactions[k].completed) == o.interactions[k]
  {
    o.(interactions := CompleteMatching(o.interactions, interactionId))
  }

  /** Marking again changes nothing, and an id that is not in the log changes
      nothing either. */
  lemma MarkCompletedIsIdempotent(o: Opportunity, interactionId: string)
    ensures MarkInteractionCompleted(MarkInteractionCompleted(o, interactionId), interactionId)
         == MarkInteractionCompleted(o, interactionId)
    ensures (forall k :: 0 <= k < |o.interactions| ==> o.interactions[k].id != interactionId)
            ==> MarkInteractionCompleted(o, interactionId) == o
  {
    var once := MarkInteractionCompleted(o, interactionId);
    var twice := MarkInteractionCompleted(once, interactionId);
    assert twice.interactions == once.interactions;
    if forall k :: 0 <= k < |o.interactions| ==> o.interactions[k].id != interactionId {
      assert once.interactions == o.interactions;
    }
  }

  /** Marking never reopens an interaction; marking and then adding comes to
      the same log as adding and then marking, unless the new interaction
      happens to carry the marked id. */
  lemma MarkThenAddCommute(o: Opportunity, interactionId: string, draft: InteractionDraft, stamp: nat, now: int)
    requires NatToString(stamp) != interactionId
    ensures AddInteraction(MarkInteractionCompleted(o, interactionId), draft, stamp, now)
         == MarkInteractionCompleted(AddInteraction(o, draft, stamp, now), interactionId)
  {
    var a := AddInteraction(MarkInteractionCompleted(o, interactionId), draft, stamp, now);
    var b := MarkInteractionCompleted(AddInteraction(o, draft, stamp, now), interactionId);
    assert a.interactions == b.interactions;
  }

  // ---------------------------------------------------------------------------
  // getPendingInteractions and getOverdueInteractions

  /** `getPendingInteractions`: scheduled, not completed, not before `now`. */
  function PendingInteractions(list: seq<Interaction>, now: int): (r: seq<Interaction>)
    ensures |r| <= |list|
    ensures forall i :: i in r <==> i in list && IsScheduled(i) && !IsPastDue(i, now)
  {
    if list == [] then []
    else
      var i := list[0];
      (if i.scheduledFor.Some? && !i.completed && i.scheduledFor.value >= now then [i] else [])
      + PendingInteractions(list[1..], now)
  }

  /** `getOverdueInteractions`: scheduled, not completed, before `now`. */
  function OverdueInteractions(list: seq<Interaction>, now: int): (r: seq<Interaction>)
    ensures |r| <= |list|
    ensures forall i :: i in r <==> i in list && IsPastDue(i, now)
  {
    if list == [] then []
    else
      var i := list[0];
      (if i.scheduledFor.Some? && !i.completed && i.scheduledFor.value < now then [i] else [])
      + OverdueInteractions(list[1..], now)
  }

  /** The open scheduled interactions, whatever their date. */
  function OpenScheduled(list: seq<Interaction>): (r: seq<Interaction>)
    ensures forall i :: i in r <==> i in list && IsScheduled(i)
  {
    if list == [] then []
    else (if IsScheduled(list[0]) then [list[0]] else []) + OpenScheduled(list[1..])
  }

  /** Pending and overdue split the open scheduled interactions: no
      interaction is in both, and together they hold each one exactly once. */
  lemma {:induction false} PendingAndOverdueSplitOpenScheduled(list: seq<Interaction>, now: int)
    ensures multiset(PendingInteractions(list, now)) + multiset(OverdueInteractions(list, now))
         == multiset(OpenScheduled(list))
    ensures forall i :: !(i in PendingInteractions(list, now) && i in OverdueInteractions(list, now))
  {
    if list != [] {
      PendingAndOverdueSplitOpenScheduled(list[1..], now);
    }
  }

  /** Completed and unscheduled interactions are in neither list. */
  lemma ClosedOrUnscheduledInNeither(list: seq<Interaction>, now: int, i: Interaction)
    requires i.completed || i.scheduledFor.None?
    ensures i !in PendingInteractions(list, now) && i !in OverdueInteractions(list, now)
  {
  }

  /** After `markInteractionCompleted`, nothing with that id is pending or
      overdue any more. */
  lemma MarkedLeavesBothLists(o: Opportunity, interactionId: string, now: int)
    ensures forall i :: i in PendingInteractions(MarkInteractionCompleted(o, interactionId).interactions, now)
                        ==> i.id != interactionId
    ensures forall i :: i in OverdueInteractions(MarkInteractionCompleted(o, interactionId).interactions, now)
                        ==> i.id != interactionId
  {
    var after := MarkInteractionCompleted(o, interactionId).interactions;
    forall i | i in after && i.id == interactionId
      ensures i.completed
    {
      var k :| 0 <= k < |after| && after[k] == i;
    }
  }

  /** A newly added interaction scheduled at or after `now` joins the end of
      the pending list; one without a schedule joins neither list. */
  lemma {:induction false} AddedScheduledIsPending(o: Opportunity, draft: InteractionDraft, stamp: nat, now: int)
    ensures var after := AddInteraction(o, draft, stamp, now).interactions;
            var added := NewInteraction(draft, stamp, now);
            PendingInteractions(after, now)
            == PendingInteractions(o.interactions, now)
               + (if draft.scheduledFor.Some? && draft.scheduledFor.value >= now then [added] else [])
  {
    PendingConcat(o.interactions, [NewInteraction(draft, stamp, now)], now);
  }

  lemma {:induction false} PendingConcat(a: seq<Interaction>, b: seq<Interaction>, now: int)
    ensures PendingInteractions(a + b, now) == PendingInteractions(a, now) + PendingInteractions(b, now)
  {
    if a == [] {
      assert a + b == b;
    } else {
      assert (a + b)[1..] == a[1..] + b;
      PendingConcat(a[1..], b, now);
    }
  }
}
