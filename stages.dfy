/**
 * The pipeline-stage configuration screen: the list of stages a sales
 * pipeline is made of, with append, edit, activate/deactivate, reorder and
 * delete, and the table that shows the stages sorted by their `order`.
 */
module Stages {
  import opened Common
  import opened Text

  datatype PipelineStage = PipelineStage(
    id: string,
    name: string,
    color: string,
    order: int,
    description: Option<string>,
    isActive: bool,
    createdAt: string)

  /** What the add and edit dialogs submit. A `description` of `None` is a
      record without that key, which an object spread does not copy. */
  datatype StageFormData = StageFormData(name: string, description: Option<string>, color: string)

  datatype Direction = Up | Down

  /** What pressing an arrow does to the list: nothing (the early return at
      either end), a new list, or a `TypeError` thrown before the state is set. */
  datatype MoveOutcome = Skipped | Reordered(stages: seq<PipelineStage>) | Crashed

  function Ids(stages: seq<PipelineStage>): (ids: seq<string>)
    ensures |ids| == |stages| && forall k :: 0 <= k < |stages| ==> ids[k] == stages[k].id
  {
    seq(|stages|, k requires 0 <= k < |stages| => stages[k].id)
  }

  /** Every stage's `order` is its 1-based position. */
  predicate OrdersAreSequential(stages: seq<PipelineStage>)
  {
    forall k :: 0 <= k < |stages| ==> stages[k].order == k + 1
  }

  // ---------------------------------------------------------------------------
  // addStage, updateStage, toggleStageActive, deleteStage

  /** The stage `addStage` creates; its id is `stage_<Date.now()>`. */
  function NewStage(count: nat, data: StageFormData, stamp: nat, isoNow: string): PipelineStage
  {
    PipelineStage("stage_" + NatToString(stamp), data.name, data.color, count + 1,
                  data.description, true, isoNow)
  }

  /** `addStage`: one active stage appended at the end, numbered after the
      current count; the stages already there are untouched. */
  function AddStage(stages: seq<PipelineStage>, data: StageFormData, stamp: nat, isoNow: string)
    : (r: seq<PipelineStage>)
    ensures |r| == |stages| + 1 && r[..|stages|] == stages
    ensures r[|stages|].isActive && r[|stages|].order == |stages| + 1
    ensures r[|stages|].name == data.name && r[|stages|].color == data.color
    ensures r[|stages|].description == data.description && r[|stages|].createdAt == isoNow
  {
    stages + [NewStage(|stages|, data, stamp, isoNow)]
  }

  /** `{ ...stage, ...stageData }`: name and color replaced, description
      replaced when the form carries one. */
  function ApplyForm(stage: PipelineStage, data: StageFormData): PipelineStage
  {
    stage.(name := data.name, color := data.color,
           description := if data.description.Some? then data.description else stage.description)
  }

  /** `updateStage`: the stages with the given id take the form's fields;
      every other stage, and every other field, is kept. */
  function UpdateStage(stages: seq<PipelineStage>, stageId: string, data: StageFormData)
    : (r: seq<PipelineStage>)
    ensures |r| == |stages|
    ensures forall k :: 0 <= k < |stages| ==>
      r[k] == if stages[k].id == stageId then ApplyForm(stages[k], data) else stages[k]
    ensures forall k :: 0 <= k < |stages| ==>
      && r[k].id == stages[k].id && r[k].order == stages[k].order
      && r[k].isActive == stages[k].isActive && r[k].createdAt == stages[k].createdAt
  {
    if stages == [] then []
    else
      [if stages[0].id == stageId then ApplyForm(stages[0], data) else stages[0]]
      + UpdateStage(stages[1..], stageId, data)
  }

  /** `toggleStageActive`: `isActive` flipped on the stages with that id. */
  function ToggleStageActive(stages: seq<PipelineStage>, stageId: string): (r: seq<PipelineStage>)
    ensures |r| == |stages|
    ensures forall k :: 0 <= k < |stages| ==>
      r[k] == if stages[k].id == stageId then stages[k].(isActive := !stages[k].isActive) else stages[k]
  {
    if stages == [] then []
    else
      [if stages[0].id == stageId then stages[0].(isActive := !stages[0].isActive) else stages[0]]
      + ToggleStageActive(stages[1..], stageId)
  }

  /** Toggling the same stage twice gives back the original list. */
  lemma ToggleTwiceRestores(stages: seq<PipelineStage>, stageId: string)
    ensures ToggleStageActive(ToggleStageActive(stages, stageId), stageId) == stages
  {
    var r := ToggleStageActive(ToggleStageActive(stages, stageId), stageId);
    assert forall k :: 0 <= k < |stages| ==> r[k] == stages[k];
  }

  /** `deleteStage`: the stages with that id are dropped, the others kept
      as they are (their `order` is not renumbered). */
  function DeleteStage(stages: seq<PipelineStage>, stageId: string): (r: seq<PipelineStage>)
    ensures |r| <= |stages|
    ensures forall st :: st in r <==> st in stages && st.id != stageId
    ensures (forall k :: 0 <= k < |stages| ==> stages[k].id != stageId) ==> r == stages
  {
    if stages == [] then []
    else (if stages[0].id == stageId then [] else [stages[0]]) + DeleteStage(stages[1..], stageId)
  }

  /** Deleting works piece by piece, so the kept stages stay in their
      relative order. */
  lemma {:induction false} DeleteStageConcat(a: seq<PipelineStage>, b: seq<PipelineStage>, stageId: string)
    ensures DeleteStage(a + b, stageId) == DeleteStage(a, stageId) + DeleteStage(b, stageId)
  {
    if a == [] {
      assert a + b == b;
    } else {
      assert (a + b)[1..] == a[1..] + b;
      DeleteStageConcat(a[1..], b, stageId);
    }
  }

  /** Deleting the stage just added (under an id no other stage has) gives
      back the list as it was. */
  lemma AddThenDeleteRestores(stages: seq<PipelineStage>, data: StageFormData, stamp: nat, isoNow: string)
    requires forall k :: 0 <= k < |stages| ==> stages[k].id != "stage_" + NatToString(stamp)
    ensures DeleteStage(AddStage(stages, data, stamp, isoNow), "stage_" + NatToString(stamp)) == stages
  {
    var added := NewStage(|stages|, data, stamp, isoNow);
    DeleteStageConcat(stages, [added], added.id);
    assert DeleteStage([added], added.id) == [];
  }

  /** Adding keeps the orders sequential; so do editing and toggling. */
  lemma EditsKeepOrdersSequential(stages: seq<PipelineStage>, data: StageFormData, stamp: nat,
                                  isoNow: string, stageId: string)
    requires OrdersAreSequential(stages)
    ensures OrdersAreSequential(AddStage(stages, data, stamp, isoNow))
    ensures OrdersAreSequential(UpdateStage(stages, stageId, data))
    ensures OrdersAreSequential(ToggleStageActive(stages, stageId))
  {
  }

  /** Deleting does not renumber, so a later add can repeat an order that
      is still in use: delete any stage but the last from a list numbered
      1..n, and the next stage added is numbered n, like the last stage,
      which is still there. */
  lemma DeleteThenAddRepeatsOrder(stages: seq<PipelineStage>, k: nat, data: StageFormData, stamp: nat,
                                  isoNow: string)
    requires OrdersAreSequential(stages)
    requires k < |stages| - 1
    requires forall j :: 0 <= j < |stages| && j != k ==> stages[j].id != stages[k].id
    ensures var r := AddStage(DeleteStage(stages, stages[k].id), data, stamp, isoNow);
            && |r| == |stages|
            && r[|r| - 2] == stages[|stages| - 1]
            && r[|r| - 1].order == r[|r| - 2].order == |stages|
  {
    var n := |stages|;
    DeleteUniqueId(stages, k, stages[k].id);
    var kept := DeleteStage(stages, stages[k].id);
    assert |kept| == n - 1;
    assert kept[n - 2] == stages[k + 1..][n - 2 - k];
    var r := AddStage(kept, data, stamp, isoNow);
    assert r[n - 2] == kept[n - 2];
  }

  /** Deleting a stage whose id no other stage has removes just that one. */
  lemma {:induction false} DeleteUniqueId(stages: seq<PipelineStage>, k: nat, stageId: string)
    requires k < |stages| && stages[k].id == stageId
    requires forall j :: 0 <= j < |stages| && j != k ==> stages[j].id != stageId
    ensures DeleteStage(stages, stageId) == stages[..k] + stages[k + 1..]
  {
    var rest := stages[1..];
    if k == 0 {
      DeleteAbsent(rest, stageId);
    } else {
      DeleteUniqueId(rest, k - 1, stageId);
      assert stages[..k] == [stages[0]] + rest[..k - 1];
      assert stages[k + 1..] == rest[k..];
    }
  }

  lemma DeleteAbsent(stages: seq<PipelineStage>, stageId: string)
    requires forall j :: 0 <= j < |stages| ==> stages[j].id != stageId
    ensures DeleteStage(stages, stageId) == stages
  {
  }

  /** The counts on the "Etapas Ativas" and "Etapas Inativas" cards. */
  function ActiveCount(stages: seq<PipelineStage>): (n: nat)
    ensures n <= |stages|
    ensures n == 0 <==> forall k :: 0 <= k < |stages| ==> !stages[k].isActive
    ensures n == |stages| <==> forall k :: 0 <= k < |stages| ==> stages[k].isActive
  {
    if stages == [] then 0 else (if stages[0].isActive then 1 else 0) + ActiveCount(stages[1..])
  }

  function InactiveCount(stages: seq<PipelineStage>): (n: nat)
    ensures n <= |stages|
    ensures n == 0 <==> forall k :: 0 <= k < |stages| ==> stages[k].isActive
    ensures n == |stages| <==> forall k :: 0 <= k < |stages| ==> !stages[k].isActive
  {
    if stages == [] then 0 else (if stages[0].isActive then 0 else 1) + InactiveCount(stages[1..])
  }

  /** The two cards add up to "Total de Etapas". */
  lemma {:induction false} ActivePlusInactiveIsTotal(stages: seq<PipelineStage>)
    ensures ActiveCount(stages) + InactiveCount(stages) == |stages|
  {
    if stages != [] {
      ActivePlusInactiveIsTotal(stages[1..]);
    }
  }

  // ---------------------------------------------------------------------------
  // moveStage

  /** `stages.findIndex(s => s.id === stageId)`: the first position with that
      id, or -1. */
  function FindIndex(stages: seq<PipelineStage>, stageId: string): (i: int)
    ensures -1 <= i < |stages|
    ensures 0 <= i ==> stages[i].id == stageId
    ensures forall k :: 0 <= k < |stages| && (i == -1 || k < i) ==> stages[k].id != stageId
  {
    if stages == [] then -1
    else if stages[0].id == stageId then 0
    else
      var i := FindIndex(stages[1..], stageId);
      if i == -1 then -1 else i + 1
  }

  /** The destructuring swap of positions `i` and `j`. */
  function Swap(stages: seq<PipelineStage>, i: nat, j: nat): seq<PipelineStage>
    requires i < |stages| && j < |stages|
  {
    stages[i := stages[j]][j := stages[i]]
  }

  /** The `forEach` that sets every `order` to its 1-based position. */
  function Renumbered(stages: seq<PipelineStage>): seq<PipelineStage>
  {
    seq(|stages|, k requires 0 <= k < |stages| => stages[k].(order := k + 1))
  }

  /** What `moveStage` produces. The guard only looks at the two ends, so an
      id that is not in the list (index -1) gets through it: moving it up
      swaps two non-index properties and then renumbers the list; moving it
      down puts `undefined` at position 0 and the `forEach` throws there. */
  function MoveResult(stages: seq<PipelineStage>, stageId: string, direction: Direction): (outcome: MoveOutcome)
    ensures outcome.Reordered? ==> |outcome.stages| == |stages|
    ensures outcome.Crashed? <==>
      direction == Down && stages != [] && forall k :: 0 <= k < |stages| ==> stages[k].id != stageId
  {
    var i := FindIndex(stages, stageId);
    if i == -1 then
      if direction == Up then Reordered(Renumbered(stages))
      else if stages == [] then Skipped
      else
        assert direction == Down && stages != [];
        assert forall k :: 0 <= k < |stages| ==> stages[k].id != stageId;
        Crashed
    else
      match direction
      case Up => if i == 0 then Skipped else Reordered(Renumbered(Swap(stages, i, i - 1)))
      case Down => if i == |stages| - 1 then Skipped else Reordered(Renumbered(Swap(stages, i, i + 1)))
  }

  /** `moveStage`: copies the list into a fresh array, swaps the stage with
      its neighbour and renumbers every stage in place. */
  method MoveStage(stages: seq<PipelineStage>, stageId: string, direction: Direction)
    returns (outcome: MoveOutcome)
    ensures outcome == MoveResult(stages, stageId, direction)
  {
    var currentIndex := FindIndex(stages, stageId);
    if (direction == Up && currentIndex == 0) || (direction == Down && currentIndex == |stages| - 1) {
      return Skipped;
    }
    var newStages := new PipelineStage[|stages|](k requires 0 <= k < |stages| => stages[k]);
    if currentIndex == -1 {
      if direction == Down {
        return Crashed;
      }
    } else {
      var targetIndex := if direction == Up then currentIndex - 1 else currentIndex + 1;
      newStages[currentIndex], newStages[targetIndex] := newStages[targetIndex], newStages[currentIndex];
    }
    ghost var swapped := newStages[..];
    var index := 0;
    while index < newStages.Length
      invariant 0 <= index <= newStages.Length == |swapped|
      invariant forall k :: 0 <= k < index ==> newStages[k] == swapped[k].(order := k + 1)
      invariant forall k :: index <= k < newStages.Length ==> newStages[k] == swapped[k]
    {
      newStages[index] := newStages[index].(order := index + 1);
      index := index + 1;
    }
    assert newStages[..] == Renumbered(swapped);
    return Reordered(newStages[..]);
  }

  /** Pressing "up" on the first stage or "down" on the last changes nothing. */
  lemma MoveAtEndsIsSkipped(stages: seq<PipelineStage>, direction: Direction)
    requires |stages| > 0
    ensures direction == Up ==> MoveResult(stages, stages[0].id, Up) == Skipped
    ensures direction == Down && (forall k :: 0 <= k < |stages| - 1 ==> stages[k].id != stages[|stages| - 1].id)
      ==> MoveResult(stages, stages[|stages| - 1].id, Down) == Skipped
  {
  }

  /** Any other move of a stage that is in the list swaps it with its
      neighbour and renumbers: afterwards the orders are 1..n, the stage sits
      at the neighbour's position and the neighbour at its position, and
      every other stage keeps its place, with only `order` rewritten. */
  lemma MoveSwapsNeighbours(stages: seq<PipelineStage>, stageId: string, direction: Direction)
    requires 0 <= FindIndex(stages, stageId)
    requires MoveResult(stages, stageId, direction) != Skipped
    ensures var i := FindIndex(stages, stageId);
            var t := if direction == Up then i - 1 else i + 1;
            && 0 <= t < |stages|
            && MoveResult(stages, stageId, direction).Reordered?
            && var r := MoveResult(stages, stageId, direction).stages;
            && |r| == |stages|
            && OrdersAreSequential(r)
            && r[t] == stages[i].(order := t + 1)
            && r[i] == stages[t].(order := i + 1)
            && forall k :: 0 <= k < |stages| && k != i && k != t ==> r[k] == stages[k].(order := k + 1)
  {
  }

  /** A successful move is a permutation of the stages: the same ids, each
      as many times as before. */
  lemma MovePermutes(stages: seq<PipelineStage>, stageId: string, direction: Direction)
    requires MoveResult(stages, stageId, direction).Reordered?
    ensures multiset(Ids(MoveResult(stages, stageId, direction).stages)) == multiset(Ids(stages))
    ensures OrdersAreSequential(MoveResult(stages, stageId, direction).stages)
  {
    var i := FindIndex(stages, stageId);
    var r := MoveResult(stages, stageId, direction).stages;
    if i == -1 {
      assert Ids(r) == Ids(stages);
    } else {
      var t := if direction == Up then i - 1 else i + 1;
      assert Ids(r) == Ids(stages)[i := stages[t].id][t := stages[i].id];
    }
  }

  // ---------------------------------------------------------------------------
  // The table's `stages.sort((a, b) => a.order - b.order)`, in place

  predicate SortedByOrder(stages: seq<PipelineStage>)
  {
    forall i, j :: 0 <= i < j < |stages| ==> stages[i].order <= stages[j].order
  }

  /** The stages numbered `v`, in list order. A stable sort keeps each of
      these lists as it was. */
  function WithOrder(stages: seq<PipelineStage>, v: int): seq<PipelineStage>
  {
    if stages == [] then []
    else (if stages[0].order == v then [stages[0]] else []) + WithOrder(stages[1..], v)
  }

  lemma {:induction false} WithOrderConcat(a: seq<PipelineStage>, b: seq<PipelineStage>, v: int)
    ensures WithOrder(a + b, v) == WithOrder(a, v) + WithOrder(b, v)
  {
    if a == [] {
      assert a + b == b;
    } else {
      assert (a + b)[1..] == a[1..] + b;
      WithOrderConcat(a[1..], b, v);
    }
  }

  /** Swapping two neighbours with different orders keeps every `WithOrder` list. */
  lemma WithOrderSwapAdjacent(s: seq<PipelineStage>, j: int, v: int)
    requires 0 < j < |s| && s[j - 1].order != s[j].order
    ensures WithOrder(s[j - 1 := s[j]][j := s[j - 1]], v) == WithOrder(s, v)
  {
    var t := s[j - 1 := s[j]][j := s[j - 1]];
    assert s == s[..j - 1] + [s[j - 1], s[j]] + s[j + 1..];
    assert t == s[..j - 1] + [s[j], s[j - 1]] + s[j + 1..];
    WithOrderConcat(s[..j - 1] + [s[j - 1], s[j]], s[j + 1..], v);
    WithOrderConcat(s[..j - 1], [s[j - 1], s[j]], v);
    WithOrderConcat(s[..j - 1] + [s[j], s[j - 1]], s[j + 1..], v);
    WithOrderConcat(s[..j - 1], [s[j], s[j - 1]], v);
    assert [s[j - 1], s[j]][1..] == [s[j]];
    assert [s[j], s[j - 1]][1..] == [s[j - 1]];
  }

  method SwapAdjacent(a: array<PipelineStage>, j: int)
    requires 0 < j < a.Length && a[j - 1].order > a[j].order
    modifies a
    ensures a[..] == old(a[..])[j - 1 := old(a[j])][j := old(a[j - 1])]
    ensures StablyRearranged(a[..], old(a[..]))
  {
    ghost var before := a[..];
    a[j - 1], a[j] := a[j], a[j - 1];
    assert a[..] == before[j - 1 := before[j]][j := before[j - 1]];
    forall v ensures WithOrder(a[..], v) == WithOrder(before, v) {
      WithOrderSwapAdjacent(before, j, v);
    }
  }

  /** Same elements, and the same relative order among stages with equal
      `order`. */
  ghost predicate StablyRearranged(s: seq<PipelineStage>, t: seq<PipelineStage>)
  {
    multiset(s) == multiset(t) && forall v :: WithOrder(s, v) == WithOrder(t, v)
  }

  /** One pass of insertion sort: moves `a[i]` down into the sorted prefix
      `a[..i]`, past the stages with a strictly greater order. */
  method InsertIntoSorted(a: array<PipelineStage>, i: int)
    requires 0 <= i < a.Length
    requires forall p, q :: 0 <= p < q < i ==> a[p].order <= a[q].order
    modifies a
    ensures forall p, q :: 0 <= p < q <= i ==> a[p].order <= a[q].order
    ensures StablyRearranged(a[..], old(a[..]))
    ensures a[i + 1..] == old(a[i + 1..])
    ensures (i == 0 || old(a[i - 1].order) <= old(a[i].order)) ==> a[..] == old(a[..])
  {
    var j := i;
    while j > 0 && a[j - 1].order > a[j].order
      invariant 0 <= j <= i
      invariant forall p, q :: 0 <= p < q <= i && p != j && q != j ==> a[p].order <= a[q].order
      invariant forall q :: j < q <= i ==> a[j].order < a[q].order
      invariant StablyRearranged(a[..], old(a[..]))
      invariant a[i + 1..] == old(a[i + 1..])
      invariant j == i ==> a[..] == old(a[..])
      invariant j < i ==> old(a[i - 1].order) > old(a[i].order)
    {
      SwapAdjacent(a, j);
      j := j - 1;
    }
  }

  /** The render-time sort: an in-place stable sort by ascending `order`
      (insertion sort by neighbour swaps). A list already in order is left
      exactly as it is. */
  method SortByOrder(a: array<PipelineStage>)
    modifies a
    ensures SortedByOrder(a[..])
    ensures StablyRearranged(a[..], old(a[..]))
    ensures SortedByOrder(old(a[..])) ==> a[..] == old(a[..])
  {
    var i := 0;
    while i < a.Length
      invariant 0 <= i <= a.Length
      invariant forall p, q :: 0 <= p < q < i ==> a[p].order <= a[q].order
      invariant StablyRearranged(a[..], old(a[..]))
      invariant SortedByOrder(old(a[..])) ==> a[..] == old(a[..])
    {
      InsertIntoSorted(a, i);
      i := i + 1;
    }
  }

  /** After a successful move the list is already in order, so the table's
      sort leaves it as it is. */
  lemma SequentialIsSorted(stages: seq<PipelineStage>)
    requires OrdersAreSequential(stages)
    ensures SortedByOrder(stages)
  {
  }
}
