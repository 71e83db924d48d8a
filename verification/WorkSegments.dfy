/**
 Split tasks: relativeWorkSegments (internal/desktop/app_charts.go) and the check on persisted segments,
 validatePlannedWorkSegments (internal/desktop/app_documents.go). Compression works on whole days; the
 check reads offsets as reals, the model of finite floating-point numbers.
 */
module WorkSegments {
  import opened Wrappers

  datatype Segment = Segment(start: int, end: int)

  predicate Increasing(days: seq<int>) { forall i, j :: 0 <= i < j < |days| ==> days[i] < days[j] }

  /** The days first, first + 1, …, last - 1. */
  function Days(first: int, last: int): (days: seq<int>)
    requires first <= last
    ensures |days| == last - first && forall i :: 0 <= i < |days| ==> days[i] == first + i
  {
    seq(last - first, i => first + i)
  }

  predicate NonEmpty(s: Segment) { s.start < s.end }

  /** The days the segments cover, in order. */
  function Expand(segments: seq<Segment>): seq<int>
    requires forall s :: s in segments ==> NonEmpty(s)
  {
    if segments == [] then []
    else
      var last := segments[|segments| - 1];
      assert last in segments && NonEmpty(last);
      Expand(segments[..|segments| - 1]) + Days(last.start, last.end)
  }

  /** Days shifted to start at zero. */
  function Shifted(days: seq<int>): seq<int> { seq(|days|, i requires 0 <= i < |days| => days[i] - days[0]) }

  /** Each segment ends at least a day before the next begins: none could be merged. */
  predicate Separated(segments: seq<Segment>) {
    forall i :: 0 < i < |segments| ==> segments[i - 1].end < segments[i].start
  }

  function TotalLength(segments: seq<Segment>): int {
    if segments == [] then 0
    else TotalLength(segments[..|segments| - 1]) + segments[|segments| - 1].end - segments[|segments| - 1].start
  }

  // ---------- Compression ----------

  lemma ExpandOneMore(segments: seq<Segment>, s: Segment)
    requires (forall x :: x in segments ==> NonEmpty(x)) && NonEmpty(s)
    ensures (forall x :: x in segments + [s] ==> NonEmpty(x))
    ensures Expand(segments + [s]) == Expand(segments) + Days(s.start, s.end)
  {
    assert (segments + [s])[..|segments|] == segments;
  }

  lemma DaysOneMore(first: int, last: int)
    requires first <= last
    ensures Days(first, last + 1) == Days(first, last) + [last]
  {
  }

  function Run(start: int, prev: int): (s: Segment)
    requires start <= prev
    ensures NonEmpty(s) && s.start == start && s.end == prev + 1
  {
    Segment(start, prev + 1)
  }

  /** What a finished list of segments says about the days done. */
  ghost predicate Compresses(segs: seq<Segment>, done: seq<int>) {
    && (forall s :: s in segs ==> NonEmpty(s)) && (segs != [] ==> segs[0].start == 0)
    && Separated(segs) && Expand(segs) == done
  }

  /** The segments so far cover earlier, and the run still open goes from runStart to prev. */
  ghost predicate Compressing(segs: seq<Segment>, earlier: seq<int>, runStart: int, prev: int, done: seq<int>) {
    && Compresses(segs, earlier) && 0 <= runStart <= prev && done == earlier + Days(runStart, prev + 1)
    && (segs == [] ==> runStart == 0) && (segs != [] ==> segs[|segs| - 1].end < runStart)
  }

  lemma ExtendRun(segs: seq<Segment>, earlier: seq<int>, runStart: int, prev: int, done: seq<int>)
    requires Compressing(segs, earlier, runStart, prev, done)
    ensures Compressing(segs, earlier, runStart, prev + 1, done + [prev + 1])
  {
    DaysOneMore(runStart, prev + 1);
  }

  lemma CloseRun(segs: seq<Segment>, earlier: seq<int>, runStart: int, prev: int, done: seq<int>)
    requires Compressing(segs, earlier, runStart, prev, done)
    ensures Compresses(segs + [Run(runStart, prev)], done)
  {
    ExpandOneMore(segs, Run(runStart, prev));
  }

  /** relativeWorkSegments. */
  method RelativeWorkSegments(workDays: seq<int>) returns (segs: seq<Segment>)
    requires Increasing(workDays)
    ensures segs == [] <==> workDays == []
    ensures Compresses(segs, Shifted(workDays))
  {
    segs := [];
    if |workDays| == 0 { return; }
    var base := workDays[0];
    var runStart, prev := 0, 0;
    ghost var shifted, earlier := Shifted(workDays), [];
    for idx := 0 to |workDays|
      invariant idx == 0 ==> segs == [] && earlier == []
      invariant idx > 0 ==>
                  prev == workDays[idx - 1] - base
                  && Compressing(segs, earlier, runStart, prev, shifted[..idx])
    {
      var rel := workDays[idx] - base;
      assert shifted[..idx + 1] == shifted[..idx] + [rel];
      if idx == 0 {
        runStart, prev := rel, rel;
        assert Days(0, 1) == [0] && shifted[..1] == [0] && Expand(segs) == [];
        assert Compressing(segs, [], 0, 0, shifted[..1]);
      } else {
        assert workDays[idx - 1] < workDays[idx];
        if rel == prev + 1 {
          ExtendRun(segs, earlier, runStart, prev, shifted[..idx]);
          prev := rel;
        } else {
          CloseRun(segs, earlier, runStart, prev, shifted[..idx]);
          segs := segs + [Run(runStart, prev)];
          earlier := shifted[..idx];
          runStart, prev := rel, rel;
          assert Days(rel, rel + 1) == [rel];
          assert Compressing(segs, earlier, rel, rel, shifted[..idx + 1]);
        }
      }
    }
    assert shifted[..|workDays|] == shifted;
    CloseRun(segs, earlier, runStart, prev, shifted);
    segs := segs + [Run(runStart, prev)];
  }

  // ---------- What the persisted segments must satisfy ----------

  /** NaN and the infinities are the offsets that are not finite. */
  datatype Offset = Finite(value: real) | NotFinite

  datatype Stored = Stored(start: Offset, end: Offset)

  datatype Problem = NotFiniteOffset | StartsBeforeTask | EndsBeforeStart | Overlaps

  /** What is wrong with segment i, if anything, checked in this order. */
  function Check(segments: seq<Stored>, i: nat): Option<Problem>
    requires i < |segments|
  {
    var s := segments[i];
    if s.start.NotFinite? || s.end.NotFinite? then Some(NotFiniteOffset)
    else if s.start.value < 0.0 then Some(StartsBeforeTask)
    else if s.end.value <= s.start.value then Some(EndsBeforeStart)
    else if i > 0 && segments[i - 1].end.Finite? && s.start.value < segments[i - 1].end.value then Some(Overlaps)
    else None
  }

  /** Each problem is named exactly when those that are looked for before it are absent. */
  lemma ProblemsAreNamed(segments: seq<Stored>, i: nat)
    requires i < |segments|
    ensures var s, found := segments[i], Check(segments, i);
            if s.start.NotFinite? || s.end.NotFinite? then found == Some(NotFiniteOffset)
            else
              && (found == Some(StartsBeforeTask) <==> s.start.value < 0.0)
              && (found == Some(EndsBeforeStart) <==> s.start.value >= 0.0 && s.start.value >= s.end.value)
              && (found == Some(Overlaps) <==>
                    && 0.0 <= s.start.value < s.end.value
                    && i > 0 && segments[i - 1].end.Finite? && segments[i - 1].end.value > s.start.value)
              && found != Some(NotFiniteOffset)
  {
  }

  /** Finite, non-empty, not before day zero, in order and without overlap. */
  ghost predicate Sound(segments: seq<Stored>) {
    && (forall i :: 0 <= i < |segments| ==>
          segments[i].start.Finite? && segments[i].end.Finite?
          && 0.0 <= segments[i].start.value < segments[i].end.value)
    && forall i, j :: 0 <= i < j < |segments| ==> segments[i].end.value <= segments[j].start.value
  }

  /** validatePlannedWorkSegments: the first problem and its index, or nothing exactly when the segments are sound. */
  method Validate(segments: seq<Stored>) returns (r: Option<(nat, Problem)>)
    ensures r.None? <==> Sound(segments)
    ensures r.Some? ==> r.value.0 < |segments| && Check(segments, r.value.0) == Some(r.value.1)
                        && forall k :: 0 <= k < r.value.0 ==> Check(segments, k) == None
  {
    var previousEnd := 0.0;
    for i := 0 to |segments|
      invariant i > 0 ==> segments[i - 1].end == Finite(previousEnd)
      invariant Sound(segments[..i])
      invariant forall k :: 0 <= k < i ==> Check(segments, k) == None
    {
      var s := segments[i];
      if s.start.NotFinite? || s.end.NotFinite? { return Some((i, NotFiniteOffset)); }
      if s.start.value < 0.0 { return Some((i, StartsBeforeTask)); }
      if s.end.value <= s.start.value { return Some((i, EndsBeforeStart)); }
      if i > 0 && s.start.value < previousEnd {
        assert segments[i - 1].end.value > segments[i].start.value;
        return Some((i, Overlaps));
      }
      SoundOneMore(segments, i);
      previousEnd := s.end.value;
    }
    assert segments[..|segments|] == segments;
    r := None;
  }

  lemma SoundOneMore(segments: seq<Stored>, i: nat)
    requires i < |segments| && Sound(segments[..i]) && Check(segments, i) == None
    ensures Sound(segments[..i + 1])
  {
    var before, after := segments[..i], segments[..i + 1];
    forall j, k | 0 <= j < k < |after| ensures after[j].end.value <= after[k].start.value {
      if k < i { assert before[j].end.value <= before[k].start.value; }
      else if j < i - 1 {
        assert before[j].end.value <= before[i - 1].start.value < before[i - 1].end.value;
      }
    }
  }

  function Store(segs: seq<Segment>): seq<Stored> {
    seq(|segs|, i requires 0 <= i < |segs| => Stored(Finite(segs[i].start as real), Finite(segs[i].end as real)))
  }

  lemma {:induction false} StartsGrow(segs: seq<Segment>, i: nat, j: nat)
    requires i < j < |segs| && Separated(segs) && forall s :: s in segs ==> NonEmpty(s)
    ensures segs[i].end < segs[j].start
    decreases j
  {
    assert segs[j - 1] in segs;
    if i < j - 1 { StartsGrow(segs, i, j - 1); }
  }

  /** The segments relativeWorkSegments produces always pass the check. */
  lemma CompressedDaysAreSound(segs: seq<Segment>)
    requires (forall s :: s in segs ==> NonEmpty(s)) && Separated(segs) && (segs != [] ==> segs[0].start == 0)
    ensures Sound(Store(segs))
  {
    forall i | 0 <= i < |segs| ensures 0 <= segs[i].start < segs[i].end {
      assert segs[i] in segs && segs[0] in segs;
      if i > 0 { StartsGrow(segs, 0, i); }
    }
    forall i, j | 0 <= i < j < |segs| ensures segs[i].end <= segs[j].start { StartsGrow(segs, i, j); }
  }

  /** The lengths add up to the number of days. */
  lemma {:induction false} LengthsAddUpToTheDays(segs: seq<Segment>)
    requires forall s :: s in segs ==> NonEmpty(s)
    ensures TotalLength(segs) == |Expand(segs)|
  {
    if segs != [] {
      var before, last := segs[..|segs| - 1], segs[|segs| - 1];
      assert last in segs;
      LengthsAddUpToTheDays(before);
    }
  }

  lemma {:induction false} DaysInExpansion(segs: seq<Segment>, d: int)
    requires forall s :: s in segs ==> NonEmpty(s)
    ensures d in Expand(segs) <==> exists s :: s in segs && s.start <= d < s.end
  {
    if segs != [] {
      var before, last := segs[..|segs| - 1], segs[|segs| - 1];
      assert segs == before + [last] && last in segs;
      DaysInExpansion(before, d);
      var days := Days(last.start, last.end);
      if last.start <= d < last.end { assert days[d - last.start] == d; }
    }
  }

  /** Runs are maximal: the day a segment ends on is not worked. */
  lemma RunsAreMaximal(segs: seq<Segment>, i: nat)
    requires i < |segs| && Separated(segs) && forall s :: s in segs ==> NonEmpty(s)
    ensures segs[i].end !in Expand(segs)
  {
    var d := segs[i].end;
    DaysInExpansion(segs, d);
    forall j | 0 <= j < |segs| ensures !(segs[j].start <= d < segs[j].end) {
      assert segs[j] in segs && segs[i] in segs;
      if j < i { StartsGrow(segs, j, i); } else if i < j { StartsGrow(segs, i, j); }
    }
  }
}
