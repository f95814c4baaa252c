/**
 * One column of the pipeline board: its split into active and lost
 * opportunities, the count on its header badge, the order in which its
 * cards are listed, its empty state, and what a drop on it asks the board
 * to do.
 */
module Column {
  import opened Common
  import opened Board

  /** `opportunities.filter(opp => !opp.isLost)`. */
  function ActiveOpportunities(opps: seq<Opportunity>): (r: seq<Opportunity>)
    ensures |r| <= |opps|
    ensures forall k :: 0 <= k < |r| ==> !r[k].isLost
    ensures forall o :: o in r <==> o in opps && !o.isLost
  {
    if opps == [] then []
    else (if opps[0].isLost then [] else [opps[0]]) + ActiveOpportunities(opps[1..])
  }

  /** `opportunities.filter(opp => opp.isLost)`. */
  function LostOpportunities(opps: seq<Opportunity>): (r: seq<Opportunity>)
    ensures |r| <= |opps|
    ensures forall k :: 0 <= k < |r| ==> r[k].isLost
    ensures forall o :: o in r <==> o in opps && o.isLost
  {
    if opps == [] then []
    else (if opps[0].isLost then [opps[0]] else []) + LostOpportunities(opps[1..])
  }

  /** The two filters take the input apart piece by piece, so each keeps
      the order the opportunities have in the input. */
  lemma SplitConcat(a: seq<Opportunity>, b: seq<Opportunity>)
    ensures ActiveOpportunities(a + b) == ActiveOpportunities(a) + ActiveOpportunities(b)
    ensures LostOpportunities(a + b) == LostOpportunities(a) + LostOpportunities(b)
  {
    ActiveConcat(a, b);
    LostConcat(a, b);
  }

  lemma {:induction false} ActiveConcat(a: seq<Opportunity>, b: seq<Opportunity>)
    ensures ActiveOpportunities(a + b) == ActiveOpportunities(a) + ActiveOpportunities(b)
  {
    if a == [] {
      assert a + b == b;
    } else {
      assert (a + b)[1..] == a[1..] + b;
      ActiveConcat(a[1..], b);
      var x := if a[0].isLost then [] else [a[0]];
      assert ActiveOpportunities(a + b) == x + (ActiveOpportunities(a[1..]) + ActiveOpportunities(b));
    }
  }

  lemma {:induction false} LostConcat(a: seq<Opportunity>, b: seq<Opportunity>)
    ensures LostOpportunities(a + b) == LostOpportunities(a) + LostOpportunities(b)
  {
    if a == [] {
      assert a + b == b;
    } else {
      assert (a + b)[1..] == a[1..] + b;
      LostConcat(a[1..], b);
      var x := if a[0].isLost then [a[0]] else [];
      assert LostOpportunities(a + b) == x + (LostOpportunities(a[1..]) + LostOpportunities(b));
    }
  }

  /** Every opportunity of the column is either active or lost, once. */
  lemma {:induction false} SplitPartitions(opps: seq<Opportunity>)
    ensures multiset(ActiveOpportunities(opps)) + multiset(LostOpportunities(opps)) == multiset(opps)
    ensures |ActiveOpportunities(opps)| + |LostOpportunities(opps)| == |opps|
  {
    if opps != [] {
      SplitPartitions(opps[1..]);
      assert opps == [opps[0]] + opps[1..];
    }
    assert |multiset(ActiveOpportunities(opps)) + multiset(LostOpportunities(opps))| == |multiset(opps)|;
  }

  /** The number on the header badge: the opportunities that are not lost. */
  function BadgeCount(opps: seq<Opportunity>): (n: nat)
    ensures n <= |opps|
  {
    |ActiveOpportunities(opps)|
  }

  /** The badge leaves out exactly the lost opportunities. */
  lemma BadgeCountsActiveOnly(opps: seq<Opportunity>)
    ensures BadgeCount(opps) == |opps| - |LostOpportunities(opps)|
    ensures BadgeCount(opps) == |opps| <==> forall o :: o in opps ==> !o.isLost
  {
    SplitPartitions(opps);
    if BadgeCount(opps) == |opps| {
      assert LostOpportunities(opps) == [];
    } else {
      assert LostOpportunities(opps) != [];
      assert LostOpportunities(opps)[0] in LostOpportunities(opps);
    }
  }

  /** The cards in the order they are listed: every active one, then every
      lost one. */
  function RenderedCards(opps: seq<Opportunity>): (r: seq<Opportunity>)
    ensures |r| == |opps|
    ensures multiset(r) == multiset(opps)
  {
    SplitPartitions(opps);
    ActiveOpportunities(opps) + LostOpportunities(opps)
  }

  /** No lost card is listed before an active one. */
  lemma ActiveCardsComeFirst(opps: seq<Opportunity>, i: int, j: int)
    requires 0 <= i < j < |RenderedCards(opps)|
    ensures RenderedCards(opps)[i].isLost ==> RenderedCards(opps)[j].isLost
  {
    var a := ActiveOpportunities(opps);
    if i < |a| {
      assert !RenderedCards(opps)[i].isLost;
    } else {
      assert RenderedCards(opps)[j] == LostOpportunities(opps)[j - |a|];
    }
  }

  /** A column already in active-then-lost order is listed as it is. */
  lemma {:induction false} RenderKeepsGroupedColumn(active: seq<Opportunity>, lost: seq<Opportunity>)
    requires forall k :: 0 <= k < |active| ==> !active[k].isLost
    requires forall k :: 0 <= k < |lost| ==> lost[k].isLost
    ensures RenderedCards(active + lost) == active + lost
  {
    var both := active + lost;
    ActiveConcat(active, lost);
    LostConcat(active, lost);
    AllActive(active);
    AllLost(lost);
    assert active + [] == active;
    assert [] + lost == lost;
    calc {
      RenderedCards(both);
      ActiveOpportunities(both) + LostOpportunities(both);
      (active + []) + ([] + lost);
    }
  }

  lemma {:induction false} AllActive(s: seq<Opportunity>)
    requires forall k :: 0 <= k < |s| ==> !s[k].isLost
    ensures ActiveOpportunities(s) == s && LostOpportunities(s) == []
  {
    if s != [] {
      AllActive(s[1..]);
    }
  }

  lemma {:induction false} AllLost(s: seq<Opportunity>)
    requires forall k :: 0 <= k < |s| ==> s[k].isLost
    ensures ActiveOpportunities(s) == [] && LostOpportunities(s) == s
  {
    if s != [] {
      AllLost(s[1..]);
    }
  }

  /** The "Nenhuma oportunidade nesta etapa" message: shown only for a column
      with no opportunity at all, lost ones included. */
  predicate ShowsEmptyState(opps: seq<Opportunity>)
    ensures ShowsEmptyState(opps) <==> ActiveOpportunities(opps) == [] && LostOpportunities(opps) == []
  {
    |opps| == 0
  }

  /** A column showing only lost cards does not show the empty message,
      although its badge reads 0. */
  lemma EmptyStateCountsLostCards(opps: seq<Opportunity>)
    ensures ShowsEmptyState(opps) ==> BadgeCount(opps) == 0
    ensures ShowsEmptyState(opps) <==> RenderedCards(opps) == []
  {
  }

  /** The request a drop makes of the board: `onMoveOpportunity(id, stage)`. */
  datatype MoveRequest = MoveRequest(opportunityId: string, newStage: StageId)

  /** `handleDrop`: the id the dragged card carried, and this column's stage. */
  function HandleDrop(column: StageId, draggedId: string): (req: MoveRequest)
    ensures req.opportunityId == draggedId && req.newStage == column
  {
    MoveRequest(draggedId, column)
  }

  /** Carrying out a drop on a column lists the dropped opportunity in that
      column, with its day counter reset, and in no other. */
  lemma DropListsUnderColumn(opps: seq<Opportunity>, column: StageId, draggedId: string, k: nat)
    requires k < |opps| && opps[k].id == draggedId
    ensures var req := HandleDrop(column, draggedId);
            var after := MoveOpportunity(opps, req.opportunityId, req.newStage);
            after[k] in OpportunitiesByStage(after, column) && after[k].timeInStage == 0
            && forall s :: s != column ==> after[k] !in OpportunitiesByStage(after, s)
  {
  }

  /** The header total equals the sum of the values of the cards the column
      lists as active. */
  lemma {:induction false} TotalIsActiveSum(opps: seq<Opportunity>, s: StageId)
    ensures TotalValue(opps, s) == SumValues(ActiveOpportunities(OpportunitiesByStage(opps, s)))
  {
    if opps != [] {
      TotalIsActiveSum(opps[1..], s);
      TotalValueStep(opps, s);
      var x := opps[0];
      var rest := OpportunitiesByStage(opps[1..], s);
      if x.stage == s {
        assert OpportunitiesByStage(opps, s) == [x] + rest;
        SplitConcat([x], rest);
        if !x.isLost {
          assert ActiveOpportunities([x]) == [x];
          assert ([x] + ActiveOpportunities(rest))[1..] == ActiveOpportunities(rest);
        } else {
          assert ActiveOpportunities([x]) == [];
          assert [] + ActiveOpportunities(rest) == ActiveOpportunities(rest);
        }
      } else {
        assert OpportunitiesByStage(opps, s) == rest;
      }
    }
  }
}
