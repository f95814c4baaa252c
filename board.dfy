/**
 * The sales-pipeline board: the list of opportunities, the two handlers that
 * change it (move to a stage, mark as lost) and the per-stage views the
 * columns are given (the opportunities of a stage and their total value).
 */
module Board {
  import opened Common

  /** The five `PIPELINE_STAGES` ids. */
  datatype StageId = Lead | Qualified | Proposal | Negotiation | Closed

  /** The outcome overlay `'em-andamento' | 'perdida' | 'ganha'`. */
  datatype Status = EmAndamento | Perdida | Ganha

  datatype InteractionType = Call | Email | Meeting | Note | Reminder

  /** One entry of an opportunity's interaction log. `date` and `scheduledFor`
      are instants in milliseconds, the values their ISO strings denote. */
  datatype Interaction = Interaction(
    id: string,
    kind: InteractionType,
    description: string,
    date: int,
    scheduledFor: Option<int>,
    completed: bool)

  /** An opportunity. `value` is a whole amount; `status` is `None` on the
      board's own records, which have no such property. */
  datatype Opportunity = Opportunity(
    id: string,
    contactName: string,
    company: string,
    value: int,
    stage: StageId,
    isLost: bool,
    createdAt: string,
    responsible: string,
    timeInStage: int,
    lossReason: Option<string>,
    status: Option<Status>,
    interactions: seq<Interaction>)


  // ---------------------------------------------------------------------------
  // moveOpportunity and markAsLost

  function Moved(opp: Opportunity, newStage: StageId): Opportunity
  {
    opp.(stage := newStage, timeInStage := 0)
  }

  /** `moveOpportunity`: the opportunities with that id go to `newStage`
      with their day counter reset; nothing else changes. */
  function MoveOpportunity(opps: seq<Opportunity>, opportunityId: string, newStage: StageId)
    : (r: seq<Opportunity>)
    ensures |r| == |opps|
    ensures forall k :: 0 <= k < |opps| ==>
      r[k] == if opps[k].id == opportunityId then Moved(opps[k], newStage) else opps[k]
  {
    if opps == [] then []
    else
      [if opps[0].id == opportunityId then Moved(opps[0], newStage) else opps[0]]
      + MoveOpportunity(opps[1..], opportunityId, newStage)
  }

  function MarkedLost(opp: Opportunity, reason: string): Opportunity
  {
    opp.(isLost := true, lossReason := Some(reason))
  }

  /** `markAsLost`: the opportunities with that id are flagged lost with the
      given reason; stage, day counter and status are left as they were. */
  function MarkAsLost(opps: seq<Opportunity>, opportunityId: string, reason: string)
    : (r: seq<Opportunity>)
    ensures |r| == |opps|
    ensures forall k :: 0 <= k < |opps| ==>
      r[k] == if opps[k].id == opportunityId then MarkedLost(opps[k], reason) else opps[k]
  {
    if opps == [] then []
    else
      [if opps[0].id == opportunityId then MarkedLost(opps[0], reason) else opps[0]]
      + MarkAsLost(opps[1..], opportunityId, reason)
  }

  /** An id that is not on the board changes nothing. */
  lemma UnknownIdChangesNothing(opps: seq<Opportunity>, opportunityId: string, newStage: StageId, reason: string)
    requires forall k :: 0 <= k < |opps| ==> opps[k].id != opportunityId
    ensures MoveOpportunity(opps, opportunityId, newStage) == opps
    ensures MarkAsLost(opps, opportunityId, reason) == opps
  {
    assert forall k :: 0 <= k < |opps| ==> MoveOpportunity(opps, opportunityId, newStage)[k] == opps[k];
    assert forall k :: 0 <= k < |opps| ==> MarkAsLost(opps, opportunityId, reason)[k] == opps[k];
  }

  /** Only the last move counts, and repeating a move changes nothing more. */
  lemma MoveTwice(opps: seq<Opportunity>, opportunityId: string, first: StageId, second: StageId)
    ensures MoveOpportunity(MoveOpportunity(opps, opportunityId, first), opportunityId, second)
         == MoveOpportunity(opps, opportunityId, second)
  {
    var r := MoveOpportunity(MoveOpportunity(opps, opportunityId, first), opportunityId, second);
    assert forall k :: 0 <= k < |opps| ==> r[k] == MoveOpportunity(opps, opportunityId, second)[k];
  }

  /** Dropping an opportunity on its own stage is not a no-op: a non-zero day
      counter is reset. */
  lemma MoveToSameStageResetsCounter(opps: seq<Opportunity>, k: nat)
    requires k < |opps| && opps[k].timeInStage != 0
    ensures MoveOpportunity(opps, opps[k].id, opps[k].stage) != opps
    ensures MoveOpportunity(opps, opps[k].id, opps[k].stage)[k].timeInStage == 0
  {
    assert MoveOpportunity(opps, opps[k].id, opps[k].stage)[k].timeInStage == 0;
  }

  /** Marking as lost again with the same reason changes nothing; with a
      different reason, only the later reason is kept. */
  lemma MarkAsLostTwice(opps: seq<Opportunity>, opportunityId: string, first: string, second: string)
    ensures MarkAsLost(MarkAsLost(opps, opportunityId, first), opportunityId, second)
         == MarkAsLost(opps, opportunityId, second)
  {
    var r := MarkAsLost(MarkAsLost(opps, opportunityId, first), opportunityId, second);
    assert forall k :: 0 <= k < |opps| ==> r[k] == MarkAsLost(opps, opportunityId, second)[k];
  }

  // ---------------------------------------------------------------------------
  // getOpportunitiesByStage and getTotalValue

  /** `getOpportunitiesByStage`: the opportunities in stage `s`. */
  function OpportunitiesByStage(opps: seq<Opportunity>, s: StageId): (r: seq<Opportunity>)
    ensures |r| <= |opps|
    ensures forall o :: o in r <==> o in opps && o.stage == s
  {
    if opps == [] then []
    else (if opps[0].stage == s then [opps[0]] else []) + OpportunitiesByStage(opps[1..], s)
  }

  /** The stage filter works piece by piece, so it keeps list order. */
  lemma {:induction false} ByStageConcat(a: seq<Opportunity>, b: seq<Opportunity>, s: StageId)
    ensures OpportunitiesByStage(a + b, s) == OpportunitiesByStage(a, s) + OpportunitiesByStage(b, s)
  {
    if a == [] {
      assert a + b == b;
    } else {
      assert (a + b)[1..] == a[1..] + b;
      ByStageConcat(a[1..], b, s);
    }
  }

  /** The opportunities of all five stages, gathered column by column. */
  function AllColumns(opps: seq<Opportunity>): multiset<Opportunity>
  {
    multiset(OpportunitiesByStage(opps, Lead)) + multiset(OpportunitiesByStage(opps, Qualified))
    + multiset(OpportunitiesByStage(opps, Proposal)) + multiset(OpportunitiesByStage(opps, Negotiation))
    + multiset(OpportunitiesByStage(opps, Closed))
  }

  /** Unfolds one column by one opportunity. */
  lemma ColumnStep(opps: seq<Opportunity>, s: StageId)
    requires opps != []
    ensures multiset(OpportunitiesByStage(opps, s))
         == (if opps[0].stage == s then multiset{opps[0]} else multiset{}) + multiset(OpportunitiesByStage(opps[1..], s))
  {
  }

  /** Unfolds `AllColumns` by one opportunity: it lands in exactly one column. */
  lemma AllColumnsStep(opps: seq<Opportunity>)
    requires opps != []
    ensures AllColumns(opps) == multiset{opps[0]} + AllColumns(opps[1..])
  {
    ColumnStep(opps, Lead);
    ColumnStep(opps, Qualified);
    ColumnStep(opps, Proposal);
    ColumnStep(opps, Negotiation);
    ColumnStep(opps, Closed);
  }

  /** The five columns together show every opportunity exactly once. */
  lemma {:induction false} StagesPartitionBoard(opps: seq<Opportunity>)
    ensures AllColumns(opps) == multiset(opps)
    ensures |OpportunitiesByStage(opps, Lead)| + |OpportunitiesByStage(opps, Qualified)|
          + |OpportunitiesByStage(opps, Proposal)| + |OpportunitiesByStage(opps, Negotiation)|
          + |OpportunitiesByStage(opps, Closed)| == |opps|
  {
    if opps != [] {
      StagesPartitionBoard(opps[1..]);
      AllColumnsStep(opps);
      assert opps == [opps[0]] + opps[1..];
    }
    assert |AllColumns(opps)| == |multiset(opps)|;
  }

  /** The opportunities of stage `s` that are not lost. */
  function OpenInStage(opps: seq<Opportunity>, s: StageId): (r: seq<Opportunity>)
    ensures forall o :: o in r <==> o in opps && o.stage == s && !o.isLost
  {
    if opps == [] then []
    else (if opps[0].stage == s && !opps[0].isLost then [opps[0]] else []) + OpenInStage(opps[1..], s)
  }

  /** `reduce((sum, opp) => sum + opp.value, 0)`. */
  function SumValues(opps: seq<Opportunity>): (total: int)
    ensures (forall k :: 0 <= k < |opps| ==> opps[k].value >= 0) ==> total >= 0
    ensures (forall k :: 0 <= k < |opps| ==> opps[k].value == 0) ==> total == 0
  {
    if opps == [] then 0 else opps[0].value + SumValues(opps[1..])
  }

  /** `getTotalValue`: the value of the stage's opportunities that are not lost. */
  function TotalValue(opps: seq<Opportunity>, s: StageId): (total: int)
    ensures (forall o :: o in opps ==> o.value >= 0) ==> total >= 0
    ensures (forall o :: o in opps ==> o.stage != s || o.isLost) ==> total == 0
  {
    SumValues(OpenInStage(opps, s))
  }

  /** The value of every opportunity that is not lost, whatever its stage. */
  function OpenValue(opps: seq<Opportunity>): int
  {
    if opps == [] then 0 else (if opps[0].isLost then 0 else opps[0].value) + OpenValue(opps[1..])
  }

  /** Unfolds `TotalValue` by one opportunity. */
  lemma TotalValueStep(opps: seq<Opportunity>, s: StageId)
    requires opps != []
    ensures TotalValue(opps, s)
         == (if opps[0].stage == s && !opps[0].isLost then opps[0].value else 0) + TotalValue(opps[1..], s)
  {
    var rest := OpenInStage(opps[1..], s);
    if opps[0].stage == s && !opps[0].isLost {
      assert ([opps[0]] + rest)[1..] == rest;
    } else {
      assert [] + rest == rest;
    }
  }

  /** The five column totals add up to the value of everything not lost:
      a lost opportunity contributes nothing to any column. */
  lemma {:induction false} StageTotalsAddUp(opps: seq<Opportunity>)
    ensures TotalValue(opps, Lead) + TotalValue(opps, Qualified) + TotalValue(opps, Proposal)
          + TotalValue(opps, Negotiation) + TotalValue(opps, Closed) == OpenValue(opps)
  {
    if opps != [] {
      StageTotalsAddUp(opps[1..]);
      TotalValueStep(opps, Lead);
      TotalValueStep(opps, Qualified);
      TotalValueStep(opps, Proposal);
      TotalValueStep(opps, Negotiation);
      TotalValueStep(opps, Closed);
    }
  }

  /** Moving opportunities between stages does not change the value the
      board shows in total. */
  lemma {:induction false} MoveKeepsOpenValue(opps: seq<Opportunity>, opportunityId: string, newStage: StageId)
    ensures OpenValue(MoveOpportunity(opps, opportunityId, newStage)) == OpenValue(opps)
  {
    if opps != [] {
      MoveKeepsOpenValue(opps[1..], opportunityId, newStage);
      assert MoveOpportunity(opps, opportunityId, newStage)[1..] == MoveOpportunity(opps[1..], opportunityId, newStage);
    }
  }

  /** The opportunities without the given id. */
  function WithoutId(opps: seq<Opportunity>, opportunityId: string): (r: seq<Opportunity>)
    ensures forall o :: o in r <==> o in opps && o.id != opportunityId
  {
    if opps == [] then []
    else (if opps[0].id == opportunityId then [] else [opps[0]]) + WithoutId(opps[1..], opportunityId)
  }

  /** After `markAsLost`, every column total is what it would be if that
      opportunity were not on the board at all. */
  lemma {:induction false} MarkAsLostDropsFromTotal(opps: seq<Opportunity>, opportunityId: string,
                                                    reason: string, s: StageId)
    ensures TotalValue(MarkAsLost(opps, opportunityId, reason), s) == TotalValue(WithoutId(opps, opportunityId), s)
  {
    if opps != [] {
      var marked := MarkAsLost(opps, opportunityId, reason);
      var kept := WithoutId(opps, opportunityId);
      MarkAsLostDropsFromTotal(opps[1..], opportunityId, reason, s);
      assert marked[1..] == MarkAsLost(opps[1..], opportunityId, reason);
      TotalValueStep(marked, s);
      if opps[0].id == opportunityId {
        assert kept == WithoutId(opps[1..], opportunityId);
      } else {
        assert kept == [opps[0]] + WithoutId(opps[1..], opportunityId);
        assert kept[1..] == WithoutId(opps[1..], opportunityId);
        TotalValueStep(kept, s);
      }
    }
  }

  /** After a move, the moved opportunity is listed under its new stage, with
      its day counter at zero, and under no other stage. */
  lemma MovedShowsUnderNewStage(opps: seq<Opportunity>, opportunityId: string, newStage: StageId, other: StageId)
    requires other != newStage
    ensures forall o :: o in OpportunitiesByStage(MoveOpportunity(opps, opportunityId, newStage), other)
                        ==> o.id != opportunityId
    ensures forall o :: o in MoveOpportunity(opps, opportunityId, newStage) && o.id == opportunityId
                        ==> o in OpportunitiesByStage(MoveOpportunity(opps, opportunityId, newStage), newStage)
                            && o.timeInStage == 0
  {
    var r := MoveOpportunity(opps, opportunityId, newStage);
    forall o | o in r && o.id == opportunityId
      ensures o.stage == newStage && o.timeInStage == 0
    {
      var k :| 0 <= k < |r| && r[k] == o;
    }
  }
}
