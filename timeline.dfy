/**
 * The stage-history timeline of an opportunity: how a number of days is
 * written, which entries count as completed or current, and the "Tempo
 * total" figure folded over the entries.
 */
module Timeline {
  import opened Common
  import opened Text
  import opened Board

  /** One stay of the opportunity in a stage. `enteredAt` is an instant in
      milliseconds; `leftAt` is kept as the string it is, since only its
      truthiness is read. */
  datatype StageHistoryEntry = StageHistoryEntry(
    id: string,
    stage: StageId,
    enteredAt: int,
    leftAt: Option<string>,
    daysInStage: Option<int>,
    movedBy: string,
    previousStage: Option<StageId>)

  const MillisecondsPerDay: int := 1000 * 60 * 60 * 24

  // ---------------------------------------------------------------------------
  // formatDuration

  /** `formatDuration`: `!days` catches both an absent count and 0, so the
      'menos de 1 dia' branch after it is never taken. */
  function FormatDuration(days: Option<int>): (text: string)
    ensures text == [] <==> days.None? || days.value == 0
    ensures text == "1 dia" <==> days == Some(1)
  {
    if days.None? || days.value == 0 then ""
    else if days.value == 1 then "1 dia"
    else IntToString(days.value) + " dias"
  }

  /** The text is empty exactly for an absent count and for 0, and the
      'menos de 1 dia' text is never produced. */
  lemma FormatDurationEmptyCases(days: Option<int>)
    ensures FormatDuration(days) == "" <==> days.None? || days.value == 0
    ensures FormatDuration(days) != "menos de 1 dia"
  {
    var text := FormatDuration(days);
    if days.Some? && days.value != 0 && days.value != 1 {
      assert text[|text| - 1] == 's';
    }
  }

  /** Different non-zero counts are written differently, so the text
      determines the count. */
  lemma FormatDurationInjective(a: int, b: int)
    requires a != 0 && b != 0
    requires FormatDuration(Some(a)) == FormatDuration(Some(b))
    ensures a == b
  {
    var ta, tb := FormatDuration(Some(a)), FormatDuration(Some(b));
    if a != 1 && b != 1 {
      var sa, sb := IntToString(a), IntToString(b);
      assert sa == ta[..|ta| - 5];
      assert sb == tb[..|tb| - 5];
      IntToStringInjective(a, b);
    }
  }

  // ---------------------------------------------------------------------------
  // isCompleted and isCurrentStage

  /** `!!history.leftAt`: an empty string counts as not left. */
  predicate IsCompleted(e: StageHistoryEntry)
    ensures IsCompleted(e) <==> e.leftAt != None && e.leftAt != Some("")
  {
    e.leftAt.Some? && e.leftAt.value != []
  }

  /** `history.stage === currentStage && !history.leftAt`. */
  predicate IsCurrentStage(e: StageHistoryEntry, currentStage: StageId)
  {
    e.stage == currentStage && !IsCompleted(e)
  }

  /** The three icons: a completed entry is never marked current, and an entry
      that is neither is an open stay in another stage. */
  lemma CompletedAndCurrentExclusive(e: StageHistoryEntry, currentStage: StageId)
    ensures !(IsCompleted(e) && IsCurrentStage(e, currentStage))
    ensures !IsCompleted(e) && !IsCurrentStage(e, currentStage) <==> !IsCompleted(e) && e.stage != currentStage
  {
  }

  // ---------------------------------------------------------------------------
  // The "Tempo total" reduce

  /** `Math.floor((now - enteredAt) / 86400000)`: whole days elapsed, rounded
      down, also when `enteredAt` lies in the future. */
  function DaysSince(enteredAt: int, now: int): (d: int)
    ensures d * MillisecondsPerDay <= now - enteredAt < (d + 1) * MillisecondsPerDay
  {
    (now - enteredAt) / MillisecondsPerDay
  }

  /** What one entry adds to the total: its recorded days; failing that, the
      days since it was entered when it is in the current stage; else 0. */
  function EntryDays(e: StageHistoryEntry, currentStage: StageId, now: int): int
  {
    if e.daysInStage.Some? then e.daysInStage.value
    else if e.stage == currentStage then DaysSince(e.enteredAt, now)
    else 0
  }

  /** `stageHistory.reduce((sum, stage) => ..., 0)`, continued from `sum`. */
  function TotalDaysFrom(sum: int, entries: seq<StageHistoryEntry>, currentStage: StageId, now: int): (total: int)
    ensures (forall k :: 0 <= k < |entries| ==> EntryDays(entries[k], currentStage, now) >= 0) ==> total >= sum
    decreases entries
  {
    if entries == [] then sum
    else TotalDaysFrom(sum + EntryDays(entries[0], currentStage, now), entries[1..], currentStage, now)
  }

  /** The folded total, before `formatDuration`. */
  function TotalDays(entries: seq<StageHistoryEntry>, currentStage: StageId, now: int): (total: int)
    ensures (forall k :: 0 <= k < |entries| ==> EntryDays(entries[k], currentStage, now) >= 0) ==> total >= 0
    ensures entries == [] ==> total == 0
  {
    TotalDaysFrom(0, entries, currentStage, now)
  }

  /** "Tempo total": the total, written by `formatDuration`. */
  function TotalDuration(entries: seq<StageHistoryEntry>, currentStage: StageId, now: int): (text: string)
    ensures text == [] <==> TotalDays(entries, currentStage, now) == 0
    ensures entries == [] ==> text == []
  {
    FormatDuration(Some(TotalDays(entries, currentStage, now)))
  }

  /** The entries' contributions, added up from the right: the reference the
      fold is checked against. */
  function SumOfEntryDays(entries: seq<StageHistoryEntry>, currentStage: StageId, now: int): int
  {
    if entries == [] then 0
    else EntryDays(entries[0], currentStage, now) + SumOfEntryDays(entries[1..], currentStage, now)
  }

  lemma {:induction false} FoldFromAddsSum(sum: int, entries: seq<StageHistoryEntry>, currentStage: StageId, now: int)
    ensures TotalDaysFrom(sum, entries, currentStage, now) == sum + SumOfEntryDays(entries, currentStage, now)
    decreases entries
  {
    if entries != [] {
      FoldFromAddsSum(sum + EntryDays(entries[0], currentStage, now), entries[1..], currentStage, now);
    }
  }

  /** The fold adds up every entry's contribution. */
  lemma TotalDaysIsSum(entries: seq<StageHistoryEntry>, currentStage: StageId, now: int)
    ensures TotalDays(entries, currentStage, now) == SumOfEntryDays(entries, currentStage, now)
  {
    FoldFromAddsSum(0, entries, currentStage, now);
  }

  lemma {:induction false} SumOfEntryDaysConcat(a: seq<StageHistoryEntry>, b: seq<StageHistoryEntry>,
                                                currentStage: StageId, now: int)
    ensures SumOfEntryDays(a + b, currentStage, now)
         == SumOfEntryDays(a, currentStage, now) + SumOfEntryDays(b, currentStage, now)
  {
    if a == [] {
      assert a + b == b;
    } else {
      assert (a + b)[1..] == a[1..] + b;
      SumOfEntryDaysConcat(a[1..], b, currentStage, now);
    }
  }

  /** Appending entries adds their days to the total. */
  lemma TotalDaysConcat(a: seq<StageHistoryEntry>, b: seq<StageHistoryEntry>, currentStage: StageId, now: int)
    ensures TotalDays(a + b, currentStage, now)
         == TotalDays(a, currentStage, now) + TotalDays(b, currentStage, now)
  {
    TotalDaysIsSum(a + b, currentStage, now);
    TotalDaysIsSum(a, currentStage, now);
    TotalDaysIsSum(b, currentStage, now);
    SumOfEntryDaysConcat(a, b, currentStage, now);
  }

  /** When every entry has its days recorded, the total is their sum and does
      not depend on the clock or on the current stage. */
  lemma {:induction false} RecordedDaysIgnoreClock(entries: seq<StageHistoryEntry>, currentStage: StageId,
                                                   otherStage: StageId, now: int, later: int)
    requires forall k :: 0 <= k < |entries| ==> entries[k].daysInStage.Some?
    ensures SumOfEntryDays(entries, currentStage, now) == SumOfEntryDays(entries, otherStage, later)
  {
    if entries != [] {
      RecordedDaysIgnoreClock(entries[1..], currentStage, otherStage, now, later);
    }
  }

  /** An open stay in the current stage counts the whole days since it was
      entered, whether or not it has been closed: only a recorded count
      overrides the clock. */
  lemma CurrentEntryCountsElapsedDays(e: StageHistoryEntry, now: int)
    requires e.daysInStage.None?
    ensures TotalDays([e], e.stage, now) == DaysSince(e.enteredAt, now)
    ensures TotalDays([e], e.stage, now + MillisecondsPerDay) == TotalDays([e], e.stage, now) + 1
  {
    assert [e][1..] == [];
    assert TotalDays([e], e.stage, now) == TotalDaysFrom(EntryDays(e, e.stage, now), [], e.stage, now);
    assert TotalDays([e], e.stage, now + MillisecondsPerDay)
        == TotalDaysFrom(EntryDays(e, e.stage, now + MillisecondsPerDay), [], e.stage, now + MillisecondsPerDay);
    var d := DaysSince(e.enteredAt, now);
    var d' := DaysSince(e.enteredAt, now + MillisecondsPerDay);
    assert (d + 1) * MillisecondsPerDay <= now + MillisecondsPerDay - e.enteredAt < (d + 2) * MillisecondsPerDay;
    assert d' == d + 1;
  }
}
