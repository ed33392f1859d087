/** The timeline's gap compressor (5G_Emulator_API/core_network/amf-test-visualize.py), over exact
    rationals. */
module GapCompressor {
  datatype Event = Event(start: real, end: real)

  /** Where a gap was cut: the cut in the adjusted timeline, and the gap in the original. */
  datatype Region = Region(start: real, end: real, actualStart: real, actualEnd: real)

  const THRESHOLD := 500.0

  ghost predicate SortedByStart(events: seq<Event>) {
    forall i, j | 0 <= i < j < |events| :: events[i].start <= events[j].start
  }

  /** Nanoseconds become milliseconds from the first start. */
  function Relative(events: seq<Event>, i: nat): Event
    requires i < |events|
  {
    Event((events[i].start - events[0].start) / 1000000.0, (events[i].end - events[0].start) / 1000000.0)
  }

  /** The gap between an event and the one before it; negative if they overlap. */
  function Gap(events: seq<Event>, i: nat): real
    requires 0 < i < |events|
  {
    Relative(events, i).start - Relative(events, i - 1).end
  }

  function Excess(events: seq<Event>, i: nat): real
    requires 0 < i < |events|
  {
    if Gap(events, i) > THRESHOLD then Gap(events, i) - THRESHOLD else 0.0
  }

  /** Everything cut out up to an event. */
  function Compression(events: seq<Event>, i: nat): real
    requires i < |events|
  {
    if i == 0 then 0.0 else Compression(events, i - 1) + Excess(events, i)
  }

  function Regions(events: seq<Event>, n: nat): seq<Region>
    requires n <= |events|
  {
    if n <= 1 then []
    else
      var before := Regions(events, n - 1);
      if Gap(events, n - 1) > THRESHOLD then
        var cut := Relative(events, n - 2).end - Compression(events, n - 2);
        before + [Region(cut, cut + THRESHOLD, Relative(events, n - 2).end, Relative(events, n - 1).start)]
      else before
  }

  function RemovedBy(regions: seq<Region>): real {
    if regions == [] then 0.0
    else
      var r := regions[|regions| - 1];
      RemovedBy(regions[..|regions| - 1]) + ((r.actualEnd - r.actualStart) - (r.end - r.start))
  }

  /** The recorded regions account for the whole compression. */
  lemma {:induction false} RegionsAccountForCompression(events: seq<Event>, n: nat)
    requires 0 < n <= |events|
    ensures RemovedBy(Regions(events, n)) == Compression(events, n - 1)
  {
    if n == 1 {
    } else {
      RegionsAccountForCompression(events, n - 1);
      var before := Regions(events, n - 1);
      if Gap(events, n - 1) > THRESHOLD {
        assert Regions(events, n)[..|before|] == before;
      }
    }
  }

  /** Every adjusted time is the original less the compression so far. */
  ghost predicate ExactShift(events: seq<Event>, adjusted: seq<Event>) {
    |adjusted| == |events| &&
    forall i | 0 <= i < |events| ::
      && adjusted[i].start == Relative(events, i).start - Compression(events, i)
      && adjusted[i].end == Relative(events, i).end - Compression(events, i)
  }

  lemma DurationIsRelative(events: seq<Event>, i: nat)
    requires i < |events|
    ensures (events[i].end - events[i].start) / 1000000.0 == Relative(events, i).end - Relative(events, i).start
    ensures i == 0 ==> Relative(events, i).start == 0.0
  {}

  /** The loop body for every event but the first. */
  method FollowGap(events: seq<Event>, i: nat, lastEnd: real, cumulative: real, recorded: seq<Region>)
    returns (adjustedStart: real, total: real, regions: seq<Region>)
    requires 0 < i < |events|
    requires lastEnd == Relative(events, i - 1).end - Compression(events, i - 1)
    requires cumulative == Compression(events, i - 1) && recorded == Regions(events, i)
    ensures adjustedStart == Relative(events, i).start - Compression(events, i)
    ensures total == Compression(events, i) && regions == Regions(events, i + 1)
  {
    hide Relative;
    total, regions := cumulative, recorded;
    var actualGap := Relative(events, i).start - Relative(events, i - 1).end;
    var gap := actualGap;
    if actualGap > THRESHOLD {
      total := total + (actualGap - THRESHOLD);
      gap := THRESHOLD;
      regions := regions + [Region(lastEnd, lastEnd + gap, Relative(events, i - 1).end, Relative(events, i).start)];
    }
    adjustedStart := lastEnd + gap;
  }

  method Compress(events: seq<Event>) returns (adjusted: seq<Event>, regions: seq<Region>, total: real)
    requires SortedByStart(events)
    ensures ExactShift(events, adjusted)
    ensures regions == Regions(events, |events|)
    ensures events != [] ==> total == Compression(events, |events| - 1)
    ensures events == [] ==> total == 0.0
  {
    hide Relative, Excess;
    adjusted, regions, total := [], [], 0.0;
    for i := 0 to |events|
      invariant |adjusted| == i
      invariant forall j | 0 <= j < i ::
        && adjusted[j].start == Relative(events, j).start - Compression(events, j)
        && adjusted[j].end == Relative(events, j).end - Compression(events, j)
      invariant regions == Regions(events, i)
      invariant total == if i == 0 then 0.0 else Compression(events, i - 1)
    {
      var row := Relative(events, i);
      var adjustedStart := 0.0;
      if i > 0 {
        adjustedStart, total, regions := FollowGap(events, i, adjusted[i - 1].end, total, regions);
      }
      var duration := (events[i].end - events[i].start) / 1000000.0;
      DurationIsRelative(events, i);
      adjusted := adjusted + [Event(adjustedStart, adjustedStart + duration)];
    }
  }

  /** The time from one event to the next, of nanoseconds in milliseconds. */
  function Pause(events: seq<Event>, i: nat): real
    requires 0 < i < |events|
  {
    (events[i].start - events[i - 1].end) / 1000000.0
  }

  /** The region lies between the event and the one before it where they now are, 500 ms apart, and remembers
      where the pause was. */
  predicate Marks(events: seq<Event>, adjusted: seq<Event>, r: Region, i: nat)
    requires 0 < i < |events| == |adjusted|
  {
    && r.start == adjusted[i - 1].end && r.end == adjusted[i].start && r.end - r.start == 500.0
    && r.actualStart == (events[i - 1].end - events[0].start) / 1000000.0
    && r.actualEnd == (events[i].start - events[0].start) / 1000000.0
  }

  lemma CutRegion(events: seq<Event>, adjusted: seq<Event>, i: nat)
    requires 0 < i < |events| && ExactShift(events, adjusted) && Gap(events, i) > THRESHOLD
    ensures Regions(events, i + 1)[..|Regions(events, i)|] == Regions(events, i)
    ensures |Regions(events, i + 1)| == |Regions(events, i)| + 1
    ensures Marks(events, adjusted, Regions(events, i + 1)[|Regions(events, i)|], i)
  {
    assert Compression(events, i) == Compression(events, i - 1) + Gap(events, i) - THRESHOLD;
  }

  /** The events that follow a pause of more than 500 ms. */
  ghost function LongPauses(events: seq<Event>, n: nat): (places: seq<nat>)
    requires n <= |events|
    ensures forall k | 0 <= k < |places| :: 0 < places[k] < n
  {
    if n <= 1 then []
    else LongPauses(events, n - 1) + if Pause(events, n - 1) > 500.0 then [n - 1] else []
  }

  lemma {:induction false} LongPausesExactly(events: seq<Event>, n: nat, i: nat)
    requires i < n <= |events|
    ensures i in LongPauses(events, n) <==> 0 < i && Pause(events, i) > 500.0
    ensures var places := LongPauses(events, n); forall j, k | 0 <= j < k < |places| :: places[j] < places[k]
  {
    if n <= 1 {
    } else {
      hide Pause;
      LongPausesExactly(events, n - 1, if i < n - 1 then i else 0);
    }
  }

  lemma PauseIsGap(events: seq<Event>, i: nat)
    requires 0 < i < |events|
    ensures Pause(events, i) == Gap(events, i)
  {}

  lemma {:induction false} OneRegionEach(events: seq<Event>, n: nat)
    requires n <= |events|
    ensures |LongPauses(events, n)| == |Regions(events, n)|
  {
    if n <= 1 {
    } else {
      OneRegionEach(events, n - 1);
      PauseIsGap(events, n - 1);
      hide Pause, Gap;
    }
  }

  lemma AtEachPause(events: seq<Event>, n: nat)
    requires 0 < n < |events|
    ensures LongPauses(events, n + 1) ==
            LongPauses(events, n) + if Gap(events, n) > THRESHOLD then [n] else []
    ensures |LongPauses(events, n)| == |Regions(events, n)| && |LongPauses(events, n + 1)| == |Regions(events, n + 1)|
    ensures Regions(events, n + 1)[..|Regions(events, n)|] == Regions(events, n)
  {
    OneRegionEach(events, n);
    OneRegionEach(events, n + 1);
    PauseIsGap(events, n);
    hide Pause, Gap, Relative, Compression;
  }

  /** The k-th region is the one that the k-th long pause adds. */
  lemma {:induction false} AddedByPause(events: seq<Event>, n: nat, k: nat, i: nat)
    requires n <= |events| && k < |LongPauses(events, n)| && LongPauses(events, n)[k] == i
    ensures 0 < i < n && Gap(events, i) > THRESHOLD && |Regions(events, i)| == k
    ensures k < |Regions(events, n)| && k < |Regions(events, i + 1)|
    ensures Regions(events, n)[k] == Regions(events, i + 1)[k]
  {
    assert n > 1;
    AtEachPause(events, n - 1);
    hide Pause, Gap, Relative, Compression, LongPauses, Regions;
    var before, after := Regions(events, n - 1), Regions(events, n);
    if k < |before| {
      AddedByPause(events, n - 1, k, i);
      assert after[k] == after[..|before|][k];
    } else {
      assert i == n - 1;
    }
  }

  /** There is one region for each pause of more than 500 ms, in order. */
  lemma RegionsAreTheLongPauses(events: seq<Event>, adjusted: seq<Event>, n: nat, k: nat)
    requires n <= |events| && ExactShift(events, adjusted)
    ensures |LongPauses(events, n)| == |Regions(events, n)|
    ensures k < |Regions(events, n)| ==>
            Marks(events, adjusted, Regions(events, n)[k], LongPauses(events, n)[k])
  {
    OneRegionEach(events, n);
    if k < |Regions(events, n)| {
      var i := LongPauses(events, n)[k];
      AddedByPause(events, n, k, i);
      CutRegion(events, adjusted, i);
      hide Regions, LongPauses, Gap, Relative, Compression, ExactShift, Marks;
    }
  }

  // ---------- what the shift keeps ----------

  /** Durations stay, and every gap to the previous event becomes at most the threshold. */
  lemma DurationsAndGaps(events: seq<Event>, adjusted: seq<Event>, i: nat)
    requires ExactShift(events, adjusted) && i < |events|
    ensures adjusted[i].end - adjusted[i].start == (events[i].end - events[i].start) / 1000000.0
    ensures i > 0 ==>
            adjusted[i].start - adjusted[i - 1].end == if Gap(events, i) > THRESHOLD then THRESHOLD else Gap(events, i)
  {}

  ghost predicate WellTimed(events: seq<Event>) {
    forall i | 0 <= i < |events| :: events[i].start <= events[i].end
  }

  /** Before every gap that is cut, no earlier event outlasts the one that the gap is measured from. */
  ghost predicate CutsClean(events: seq<Event>) {
    forall j, i | 0 <= i < j < |events| && Gap(events, j) > THRESHOLD :: events[i].end <= events[j - 1].end
  }

  function Duration(events: seq<Event>, i: nat): real
    requires i < |events|
  {
    Relative(events, i).end - Relative(events, i).start
  }

  /** No cut gap is measured from an event that ends more than the threshold before it starts. */
  ghost predicate ForwardCuts(events: seq<Event>) {
    forall k | 0 < k < |events| && Gap(events, k) > THRESHOLD :: Duration(events, k - 1) >= -THRESHOLD
  }

  lemma WellTimedIsForward(events: seq<Event>)
    requires WellTimed(events)
    ensures ForwardCuts(events)
  {}

  /** What is cut out before an event is at most the time from the start of the previous one, exactly when
      the gap is no cut or the previous event does not end too early. */
  lemma ExcessFits(events: seq<Event>, k: nat)
    requires SortedByStart(events) && 0 < k < |events|
    ensures Excess(events, k) <= Relative(events, k).start - Relative(events, k - 1).start <==>
            (Gap(events, k) > THRESHOLD ==> Duration(events, k - 1) >= -THRESHOLD)
  {
    assert events[k - 1].start <= events[k].start;
  }

  lemma {:induction false} CompressionNeverShrinks(events: seq<Event>, i: nat, k: nat)
    requires i <= k < |events|
    ensures Compression(events, i) <= Compression(events, k)
    decreases k
  {
    if i == k {
    } else {
      CompressionNeverShrinks(events, i, k - 1);
    }
  }

  lemma {:induction false} CompressionFits(events: seq<Event>, i: nat, k: nat)
    requires SortedByStart(events) && ForwardCuts(events) && i <= k < |events|
    ensures Compression(events, k) - Compression(events, i) <= Relative(events, k).start - Relative(events, i).start
    decreases k
  {
    if i == k {
    } else {
      CompressionFits(events, i, k - 1);
      ExcessFits(events, k);
      hide Relative, Excess, SortedByStart;
    }
  }

  lemma CompressionGrows(events: seq<Event>, i: nat, k: nat)
    requires SortedByStart(events) && WellTimed(events) && i <= k < |events|
    ensures 0.0 <= Compression(events, k) - Compression(events, i)
    ensures Compression(events, k) - Compression(events, i) <= Relative(events, k).start - Relative(events, i).start
  {
    CompressionNeverShrinks(events, i, k);
    WellTimedIsForward(events);
    CompressionFits(events, i, k);
    hide *;
  }

  /** Starts never move apart, whatever the durations; and none change places exactly when no cut gap is
      measured from an event that ends more than the threshold before it starts. */
  lemma StartOrderKeptExactly(events: seq<Event>, adjusted: seq<Event>)
    requires SortedByStart(events) && ExactShift(events, adjusted)
    ensures forall i, k | 0 <= i <= k < |events| ::
              adjusted[k].start - adjusted[i].start <= Relative(events, k).start - Relative(events, i).start
    ensures (forall i, k | 0 <= i <= k < |events| :: adjusted[i].start <= adjusted[k].start) <==> ForwardCuts(events)
  {
    hide Relative, Gap, Duration, Compression;
    forall i, k | 0 <= i <= k < |events|
      ensures adjusted[k].start - adjusted[i].start <= Relative(events, k).start - Relative(events, i).start
      ensures ForwardCuts(events) ==> adjusted[i].start <= adjusted[k].start
    {
      CompressionNeverShrinks(events, i, k);
      if ForwardCuts(events) { CompressionFits(events, i, k); }
    }
    if k :| 0 < k < |events| && Gap(events, k) > THRESHOLD && Duration(events, k - 1) < -THRESHOLD {
      BackwardCutSwaps(events, adjusted, k);
    }
  }

  lemma BackwardCutSwaps(events: seq<Event>, adjusted: seq<Event>, k: nat)
    requires SortedByStart(events) && ExactShift(events, adjusted) && 0 < k < |events|
    requires Gap(events, k) > THRESHOLD && Duration(events, k - 1) < -THRESHOLD
    ensures adjusted[k].start < adjusted[k - 1].start
  {
    ExcessFits(events, k);
    assert Compression(events, k) == Compression(events, k - 1) + Excess(events, k);
    hide Relative, Excess, Compression, SortedByStart;
  }

  /** The time from the end of one event to the start of another. */
  function Spacing(a: Event, b: Event): real { b.start - a.end }

  function Min(a: real, b: real): real { if a <= b then a else b }

  /** Events that were further apart than the threshold stay at least that far apart, and the others keep
      their distance or overlap. */
  ghost predicate SpacingKept(events: seq<Event>, i: nat, k: nat)
    requires i < k < |events|
  {
    Spacing(Relative(events, i), Relative(events, k)) - (Compression(events, k) - Compression(events, i)) >=
    Min(THRESHOLD, Spacing(Relative(events, i), Relative(events, k)))
  }

  lemma RelativeOrder(events: seq<Event>, i: nat, k: nat)
    requires i < |events| && k < |events|
    ensures events[i].end <= events[k].end <==> Relative(events, i).end <= Relative(events, k).end
    ensures events[i].start <= events[k].start <==> Relative(events, i).start <= Relative(events, k).start
    ensures events[i].end <= events[k].start <==> Relative(events, i).end <= Relative(events, k).start
    ensures events[i].start <= events[k].end <==> Relative(events, i).start <= Relative(events, k).end
  {}

  lemma {:induction false} CleanCutsKeepSpacing(events: seq<Event>, i: nat, k: nat)
    requires SortedByStart(events) && WellTimed(events) && CutsClean(events) && i < k < |events|
    ensures SpacingKept(events, i, k)
    decreases k
  {
    if i == k - 1 {
    } else {
      CleanCutsKeepSpacing(events, i, k - 1);
      RelativeOrder(events, k - 1, k);
      RelativeOrder(events, k - 1, k - 1);
      RelativeOrder(events, i, k - 1);
      hide Relative;
    }
  }

  lemma UncleanCutLosesSpacing(events: seq<Event>, i: nat, j: nat)
    requires SortedByStart(events) && WellTimed(events) && i < j < |events|
    requires Gap(events, j) > THRESHOLD && events[i].end > events[j - 1].end
    ensures !SpacingKept(events, i, j)
  {
    CompressionGrows(events, i, j - 1);
    RelativeOrder(events, i, j - 1);
    hide Relative;
  }

  /** The compression keeps events apart, up to the threshold, exactly when every cut is clean. */
  lemma ApartExactly(events: seq<Event>, adjusted: seq<Event>)
    requires SortedByStart(events) && WellTimed(events) && ExactShift(events, adjusted)
    ensures CutsClean(events) <==>
            forall i, k | 0 <= i < k < |events| ::
              Spacing(adjusted[i], adjusted[k]) >= Min(THRESHOLD, Spacing(Relative(events, i), Relative(events, k)))
  {
    hide Relative, Gap, Compression;
    forall i, k | 0 <= i < k < |events|
      ensures SpacingKept(events, i, k) <==>
              Spacing(adjusted[i], adjusted[k]) >= Min(THRESHOLD, Spacing(Relative(events, i), Relative(events, k)))
    {}
    hide Spacing, Min, SpacingKept;
    if CutsClean(events) {
      forall i, k | 0 <= i < k < |events| ensures SpacingKept(events, i, k) { CleanCutsKeepSpacing(events, i, k); }
    } else {
      var j, i :| 0 <= i < j < |events| && Gap(events, j) > THRESHOLD && events[i].end > events[j - 1].end;
      UncleanCutLosesSpacing(events, i, j);
    }
  }

  /** So with clean cuts events that were apart stay apart. */
  lemma ApartStaysApart(events: seq<Event>, adjusted: seq<Event>, i: nat, k: nat)
    requires SortedByStart(events) && WellTimed(events) && CutsClean(events) && ExactShift(events, adjusted)
    requires i < k < |events| && events[i].end <= events[k].start
    ensures adjusted[i].end <= adjusted[k].start
  {
    ApartExactly(events, adjusted);
    RelativeOrder(events, i, k);
    assert Spacing(adjusted[i], adjusted[k]) >= Min(THRESHOLD, Spacing(Relative(events, i), Relative(events, k)));
    hide Relative, CutsClean;
  }

  /** An event that outlasts the next one can run into a third that began long after it had ended: the
      gap is measured from the end of the previous event alone. */
  lemma LongEventRunsIntoLater()
    ensures var events := [Event(0.0, 1000000000.0), Event(10000000.0, 20000000.0), Event(2000000000.0, 2100000000.0)];
            SortedByStart(events) && WellTimed(events) && events[0].end < events[2].start &&
            forall adjusted: seq<Event> | ExactShift(events, adjusted) :: adjusted[2].start < adjusted[0].end
  {
    var events := [Event(0.0, 1000000000.0), Event(10000000.0, 20000000.0), Event(2000000000.0, 2100000000.0)];
    assert Gap(events, 1) == -990.0;
    assert Gap(events, 2) == 1980.0;
    assert Compression(events, 1) == 0.0;
    assert Compression(events, 2) == 1480.0;
  }
}
