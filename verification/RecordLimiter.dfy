/**
 recordLimiter (internal/analytics/import.go): how many bytes a reader may hand out past the start of the
 record being read. A read may return fewer bytes than asked for, and its own error.
 */
module RecordLimiter {

  const MAX_RECORD: nat := 16 * 1024 * 1024

  /** One call: the buffer's length, what the source would fill, and where the current record starts. */
  datatype Call = Call(asked: nat, available: nat, rowStart: nat)

  function Min(a: int, b: int): int { if a < b then a else b }

  /** The bytes one call hands out when `read` were handed out before it. */
  function Granted(read: nat, c: Call): nat
    requires c.rowStart <= read
  {
    var used := read - c.rowStart;
    if used > MAX_RECORD then 0 else Min(Min(c.asked, MAX_RECORD - used + 1), c.available)
  }

  class Limiter {
    var read: nat

    constructor ()
      ensures read == 0
    {
      read := 0;
    }

    method Read(c: Call) returns (n: nat, tooLarge: bool)
      requires c.rowStart <= read
      modifies this
      ensures n == Granted(old(read), c) && read == old(read) + n && n <= c.asked && n <= c.available
      ensures read - c.rowStart <= MAX_RECORD + 1 || read == old(read)
      ensures tooLarge <==> read - c.rowStart > MAX_RECORD
      ensures !tooLarge && c.asked > 0 && c.available > 0 ==> n > 0
      ensures old(read) - c.rowStart + Min(c.asked, c.available) <= MAX_RECORD ==>
              !tooLarge && n == Min(c.asked, c.available)
    {
      var used := read - c.rowStart;
      if used > MAX_RECORD { return 0, true; }
      var room := MAX_RECORD - used + 1;
      var length := if c.asked > room then room else c.asked;
      n := if c.available < length then c.available else length;
      read := read + n;
      tooLarge := read - c.rowStart > MAX_RECORD;
    }
  }

  /** The bytes handed out after a run of calls. */
  function ReadAfter(calls: seq<Call>): nat
    requires Ordered(calls)
    decreases |calls|, 1
  {
    if calls == [] then 0
    else
      var before := ReadAfter(calls[..|calls| - 1]);
      before + Granted(before, calls[|calls| - 1])
  }

  /** Record starts never go back, and never pass what was handed out. */
  predicate Ordered(calls: seq<Call>)
    decreases |calls|, 0
  {
    if calls == [] then true
    else
      && Ordered(calls[..|calls| - 1])
      && calls[|calls| - 1].rowStart <= ReadAfter(calls[..|calls| - 1])
      && (|calls| > 1 ==> calls[|calls| - 2].rowStart <= calls[|calls| - 1].rowStart)
  }

  /** Over any run, no record ever has more than one byte past the limit handed out. */
  lemma {:induction false} RunNeverPassesTheLimit(calls: seq<Call>)
    requires Ordered(calls) && calls != []
    ensures ReadAfter(calls) - calls[|calls| - 1].rowStart <= MAX_RECORD + 1
    decreases |calls|
  {
    if |calls| > 1 { RunNeverPassesTheLimit(calls[..|calls| - 1]); }
  }

  /** What the calls would hand out without a limit. */
  function Unlimited(calls: seq<Call>): nat {
    if calls == [] then 0
    else
      var last := calls[|calls| - 1];
      Unlimited(calls[..|calls| - 1]) + if last.asked <= last.available then last.asked else last.available
  }

  /** Nothing is held back from a run whose records all stay within the limit. */
  lemma {:induction false} SmallRecordsAreReadWhole(calls: seq<Call>)
    requires Ordered(calls)
    requires forall n :: 0 < n <= |calls| ==> Unlimited(calls[..n]) - calls[n - 1].rowStart <= MAX_RECORD
    ensures ReadAfter(calls) == Unlimited(calls)
    decreases |calls|
  {
    if calls != [] {
      var before := calls[..|calls| - 1];
      forall n | 0 < n <= |before| ensures Unlimited(before[..n]) - before[n - 1].rowStart <= MAX_RECORD {
        assert before[..n] == calls[..n];
      }
      SmallRecordsAreReadWhole(before);
      assert calls[..|calls|] == calls;
    }
  }

  /** Once a record is too large, every further call for it is refused. */
  lemma RefusalIsSticky(calls: seq<Call>, c: Call)
    requires Ordered(calls) && calls != [] && c.rowStart == calls[|calls| - 1].rowStart
    requires ReadAfter(calls) - c.rowStart > MAX_RECORD
    ensures Ordered(calls + [c]) && ReadAfter(calls + [c]) == ReadAfter(calls)
  {
    assert (calls + [c])[..|calls|] == calls;
  }
}
