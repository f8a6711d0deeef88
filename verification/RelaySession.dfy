// The relay's per-session receive buffer (internal/relayapi/broker.go).
//
// Session carries out the locked sections on its fields. The interleaving of
// the pump, any number of readers, their timers and Close is in RelaySystem.
module RelaySession {
  import opened Prelude

  const MAX_READ_BYTES: nat := 262144
  const DEFAULT_READ_MAX: nat := 4096
  const MAX_READ_TIMEOUT_MS: nat := 55000
  const DEFAULT_TIMEOUT_MS: nat := 2000
  const SESSION_BUF_CAP: nat := 1048576
  const CHUNK: nat := 32768

  datatype Options = Options(timeoutMs: int, maxBytes: int, delimiter: seq<byte>, lines: bool)

  /** A read request after clamping. */
  datatype Request = Request(maxBytes: nat, delimiter: seq<byte>, lines: bool) {
    predicate Valid() {
      && 0 < maxBytes <= MAX_READ_BYTES
      && (lines ==> delimiter == [NEWLINE])
    }
  }

  /** Of the values from 1 to max, the one closest to n. */
  predicate Closest(n: int, max: nat, r: nat) {
    0 < r <= max && forall m: nat | 0 < m <= max :: Distance(n, r) <= Distance(n, m)
  }

  function Distance(a: int, b: int): nat { if a <= b then b - a else a - b }

  /** A budget that is asked for is met as closely as the limits allow, and a delimiter is kept unless
      whole lines are asked for. */
  function Clamp(o: Options): (r: Request)
    ensures r.Valid() && r.lines == o.lines
    ensures !o.lines ==> r.delimiter == o.delimiter
    ensures if o.maxBytes > 0 then Closest(o.maxBytes, MAX_READ_BYTES, r.maxBytes) else r.maxBytes == DEFAULT_READ_MAX
  {
    Request(
      if o.maxBytes <= 0 then DEFAULT_READ_MAX else Min(o.maxBytes, MAX_READ_BYTES),
      if o.lines then [NEWLINE] else o.delimiter,
      o.lines)
  }

  /** A timeout that is asked for is met as closely as the limit allows. */
  function ClampTimeout(o: Options): (ms: nat)
    ensures 0 < ms <= MAX_READ_TIMEOUT_MS
    ensures if o.timeoutMs > 0 then Closest(o.timeoutMs, MAX_READ_TIMEOUT_MS, ms) else ms == DEFAULT_TIMEOUT_MS
  {
    if o.timeoutMs <= 0 then DEFAULT_TIMEOUT_MS else Min(o.timeoutMs, MAX_READ_TIMEOUT_MS)
  }

  // ---- Searching ----

  predicate OccursAt(s: seq<byte>, d: seq<byte>, i: nat) {
    i + |d| <= |s| && s[i..i + |d|] == d
  }

  function IndexFrom(s: seq<byte>, d: seq<byte>, i: nat): (r: Option<nat>)
    ensures r.Some? ==> OccursAt(s, d, r.value) && i <= r.value
    ensures r.Some? ==> forall j: nat | i <= j < r.value :: !OccursAt(s, d, j)
    ensures r.None? ==> forall j: nat | i <= j :: !OccursAt(s, d, j)
    decreases |s| - i
  {
    if i + |d| > |s| then None
    else if OccursAt(s, d, i) then Some(i)
    else if i == |s| then None
    else IndexFrom(s, d, i + 1)
  }

  /** bytes.Index: the first occurrence. */
  function Index(s: seq<byte>, d: seq<byte>): Option<nat> { IndexFrom(s, d, 0) }

  // ---- What a take removes ----

  /** How many bytes takeLocked consumes; 0 means the read keeps waiting. */
  function TakeCount(buf: seq<byte>, maxBytes: nat, d: seq<byte>): nat {
    if |d| > 0 then
      match Index(buf, d)
      case Some(i) =>
        if i + |d| <= maxBytes then i + |d| else if |buf| >= maxBytes then maxBytes else 0
      case None => if |buf| >= maxBytes then maxBytes else 0
    else Min(|buf|, maxBytes)
  }

  lemma TakeFits(buf: seq<byte>, maxBytes: nat, d: seq<byte>)
    ensures TakeCount(buf, maxBytes, d) <= |buf| && TakeCount(buf, maxBytes, d) <= maxBytes
  {
  }

  /** The line loop: whole takes while there is budget and something to take. */
  function LinesCount(buf: seq<byte>, maxBytes: nat): (n: nat)
    ensures n <= |buf| && n <= maxBytes
    decreases maxBytes
  {
    TakeFits(buf, maxBytes, [NEWLINE]);
    var n := TakeCount(buf, maxBytes, [NEWLINE]);
    if n == 0 then 0 else n + LinesCount(buf[n..], maxBytes - n)
  }

  function Available(buf: seq<byte>, r: Request): (n: nat)
    requires r.Valid()
    ensures n <= |buf| && n <= r.maxBytes
  {
    TakeFits(buf, r.maxBytes, r.delimiter);
    if r.lines then LinesCount(buf, r.maxBytes) else TakeCount(buf, r.maxBytes, r.delimiter)
  }

  datatype Result = Result(data: seq<byte>, timedOut: bool, eof: bool)

  datatype Pass = Done(r: Result) | Sleep

  /** One locked pass of readWith's loop: its outcome and whether it broadcasts. */
  function PassOutcome(buf: seq<byte>, closed: bool, expired: bool, r: Request): (Pass, bool)
    requires r.Valid()
  {
    var n := Available(buf, r);
    var all := Min(|buf|, r.maxBytes);
    if n > 0 then (Done(Result(buf[..n], false, false)), true)
    else if closed then (Done(Result(buf[..all], false, all == |buf|)), false)
    else if expired then (Done(Result(buf[..all], true, false)), false)
    else (Sleep, false)
  }

  function Consumed(p: Pass): seq<byte> {
    if p.Done? then p.r.data else []
  }

  // ---- The session object ----

  datatype PumpState = Checking | Asleep | Reading | Stopped

  class Session {
    var buf: seq<byte>
    var closed: bool
    var bytesIn: nat
    var broadcasts: nat

    constructor ()
      ensures buf == [] && !closed && bytesIn == 0 && broadcasts == 0
    {
      buf, closed, bytesIn, broadcasts := [], false, 0, 0;
    }

    /** The pump's check before it reads: sleep while full, stop once closed. */
    method PumpCheck() returns (next: PumpState)
      ensures next == PumpAfterCheck(|buf|, closed)
    {
      if |buf| >= SESSION_BUF_CAP && !closed { return Asleep; }
      return if closed then Stopped else Reading;
    }

    method PumpAppend(chunk: seq<byte>, failed: bool)
      modifies this
      ensures buf == old(buf) + chunk && bytesIn == old(bytesIn) + |chunk|
      ensures closed == (old(closed) || failed) && broadcasts == old(broadcasts) + 1
    {
      if |chunk| > 0 {
        buf := buf + chunk;
        bytesIn := bytesIn + |chunk|;
      }
      if failed { closed := true; }
      broadcasts := broadcasts + 1;
    }

    method TakeLocked(maxBytes: nat, d: seq<byte>) returns (out: Option<seq<byte>>)
      requires maxBytes > 0
      modifies this`buf, this`broadcasts
      ensures var n := TakeCount(old(buf), maxBytes, d);
              && (out.Some? <==> n > 0)
              && (out.Some? ==> n <= |old(buf)| && out.value == old(buf)[..n] && buf == old(buf)[n..])
              && (out.None? ==> buf == old(buf))
              && broadcasts == old(broadcasts) + if n > 0 then 1 else 0
    {
      if |d| > 0 {
        var i := Index(buf, d);
        if i.Some? && i.value + |d| <= maxBytes {
          out := Some(buf[..i.value + |d|]);
          buf := buf[i.value + |d|..];
          broadcasts := broadcasts + 1;
          return;
        }
        if |buf| >= maxBytes {
          out := Some(buf[..maxBytes]);
          buf := buf[maxBytes..];
          broadcasts := broadcasts + 1;
          return;
        }
        return None;
      }
      if |buf| > 0 {
        var n := Min(|buf|, maxBytes);
        out := Some(buf[..n]);
        buf := buf[n..];
        broadcasts := broadcasts + 1;
        return;
      }
      return None;
    }

    /** The follow-on takes of a line read: keeps taking while lines are already buffered. */
    method TakeMoreLines(first: seq<byte>, maxBytes: nat) returns (have: seq<byte>)
      requires |first| <= maxBytes
      modifies this`buf, this`broadcasts
      ensures first <= have && have + buf == first + old(buf)
      ensures |have| == |first| + LinesCount(old(buf), maxBytes - |first|)
      ensures broadcasts >= old(broadcasts)
    {
      hide TakeCount;
      have := first;
      while |have| < maxBytes
        invariant first <= have && |have| <= maxBytes && have + buf == first + old(buf)
        invariant |first| + LinesCount(old(buf), maxBytes - |first|) == |have| + LinesCount(buf, maxBytes - |have|)
        invariant broadcasts >= old(broadcasts)
      {
        var more := TakeLocked(maxBytes - |have|, [NEWLINE]);
        if more.None? { return; }
        have := have + more.value;
      }
    }

    method ReadPass(r: Request, expired: bool) returns (p: Pass)
      requires r.Valid()
      modifies this`buf, this`broadcasts
      ensures p == PassOutcome(old(buf), closed, expired, r).0
      ensures Consumed(p) + buf == old(buf)
      ensures broadcasts > old(broadcasts) <==> PassOutcome(old(buf), closed, expired, r).1
      ensures broadcasts >= old(broadcasts)
    {
      hide TakeCount;
      TakeFits(buf, r.maxBytes, r.delimiter);
      var have := TakeLocked(r.maxBytes, r.delimiter);
      if have.Some? {
        if r.lines {
          var more := TakeMoreLines(have.value, r.maxBytes);
          have := Some(more);
        }
        assert |have.value| == Available(old(buf), r);
        assert have.value + buf == old(buf);
        assert have.value == old(buf)[..|have.value|];
        return Done(Result(have.value, false, false));
      }
      if closed || expired {
        var n := Min(|buf|, r.maxBytes);
        var rest := buf[..n];
        buf := buf[n..];
        return Done(if closed then Result(rest, false, |buf| == 0) else Result(rest, true, false));
      }
      return Sleep;
    }

    method Close()
      modifies this`closed, this`broadcasts
      ensures closed && broadcasts == old(broadcasts) + 1
    {
      closed := true;
      broadcasts := broadcasts + 1;
    }
  }

  function PumpAfterCheck(size: nat, closed: bool): PumpState {
    if size >= SESSION_BUF_CAP && !closed then Asleep
    else if closed then Stopped
    else Reading
  }

  // ---- What a read returns ----

  /** A plain read sleeps exactly when nothing is buffered, the session is open and its deadline has
      not passed. With anything buffered it returns at once, all of it or as much as was asked for. */
  lemma PlainRead(buf: seq<byte>, closed: bool, expired: bool, r: Request)
    requires r.Valid() && !r.lines && r.delimiter == []
    ensures var p := PassOutcome(buf, closed, expired, r).0;
            && (p.Sleep? <==> buf == [] && !closed && !expired)
            && (p.Done? && !p.r.timedOut && !p.r.eof <==> buf != [])
            && (buf != [] ==> p.Done? && p.r.data != [] && p.r.data <= buf
                              && (p.r.data == buf || |p.r.data| == r.maxBytes))
  {
  }

  /** Any read times out exactly when its deadline has passed in an open session with nothing to take,
      and then it returns everything buffered. */
  lemma TimedOutRead(buf: seq<byte>, closed: bool, expired: bool, r: Request)
    requires r.Valid()
    ensures var p := PassOutcome(buf, closed, expired, r).0;
            && (p.Sleep? <==> Available(buf, r) == 0 && !closed && !expired)
            && (p.Done? && p.r.timedOut <==> Available(buf, r) == 0 && !closed && expired)
            && (p.Done? && p.r.timedOut ==> p.r.data == buf && !p.r.eof)
  {
    if Available(buf, r) == 0 {
      NothingAvailableIsShort(buf, r);
      assert buf[..|buf|] == buf;
    }
  }

  /** A plain delimiter read that neither timed out nor reports EOF, of an open or a closed session,
      ends at the first occurrence, or fills maxBytes with no occurrence ending inside it. */
  lemma DelimiterRead(buf: seq<byte>, closed: bool, expired: bool, r: Request)
    requires r.Valid() && !r.lines && r.delimiter != []
    requires var p := PassOutcome(buf, closed, expired, r).0; p.Done? && !p.r.timedOut && !p.r.eof
    ensures var data, d := PassOutcome(buf, closed, expired, r).0.r.data, r.delimiter;
            && data <= buf && 0 < |data| <= r.maxBytes
            && (forall i: nat | i + |d| < |data| :: !OccursAt(buf, d, i))
            && ((|d| <= |data| && OccursAt(buf, d, |data| - |d|))
                || (|data| == r.maxBytes && forall i: nat | i + |d| <= |data| :: !OccursAt(buf, d, i)))
  {
    if closed { ClosedRead(buf, expired, r); }
  }

  /** A delimiter read keeps waiting exactly when the delimiter is not buffered and the buffer is
      shorter than the request. */
  lemma DelimiterWaitsIff(buf: seq<byte>, r: Request)
    requires r.Valid() && r.delimiter != []
    ensures Available(buf, r) == 0 <==> |buf| < r.maxBytes && forall i: nat :: !OccursAt(buf, r.delimiter, i)
  {
  }

  function AfterLastNewline(buf: seq<byte>): (n: nat)
    ensures n <= |buf| && (n > 0 ==> buf[n - 1] == NEWLINE)
    ensures forall i | n <= i < |buf| :: buf[i] != NEWLINE
  {
    if buf == [] then 0
    else if buf[|buf| - 1] == NEWLINE then |buf|
    else AfterLastNewline(buf[..|buf| - 1])
  }

  lemma NewlineAt(buf: seq<byte>, i: nat)
    ensures OccursAt(buf, [NEWLINE], i) <==> i < |buf| && buf[i] == NEWLINE
  {
    if i < |buf| { assert buf[i..i + 1] == [buf[i]]; }
  }

  lemma AfterLastUnique(buf: seq<byte>, n: nat)
    requires n <= |buf| && (n > 0 ==> buf[n - 1] == NEWLINE) && forall i | n <= i < |buf| :: buf[i] != NEWLINE
    ensures AfterLastNewline(buf) == n
  {
    var m := AfterLastNewline(buf);
    if m > n || n > m { assert false; }
  }

  lemma AfterLastSplit(buf: seq<byte>, n: nat)
    requires 0 < n <= |buf| && buf[n - 1] == NEWLINE
    ensures AfterLastNewline(buf) == n + AfterLastNewline(buf[n..])
  {
    var m := AfterLastNewline(buf[n..]);
    if m > 0 { assert buf[n..][m - 1] == buf[n + m - 1]; }
    forall i | n + m <= i < |buf| ensures buf[i] != NEWLINE { assert buf[i] == buf[n..][i - n]; }
    AfterLastUnique(buf, n + m);
  }

  /** The line loop in closed form: a full budget, or everything up to the last newline. */
  lemma {:induction false} LinesCountIs(buf: seq<byte>, maxBytes: nat)
    ensures LinesCount(buf, maxBytes) == if |buf| >= maxBytes then maxBytes else AfterLastNewline(buf)
    decreases maxBytes
  {
    hide TakeCount;
    TakeFits(buf, maxBytes, [NEWLINE]);
    TakeIsALine(buf, maxBytes);
    var n := TakeCount(buf, maxBytes, [NEWLINE]);
    if n == 0 {
      if maxBytes > 0 { AfterLastUnique(buf, 0); }
    } else {
      LinesCountIs(buf[n..], maxBytes - n);
      if |buf| < maxBytes { AfterLastSplit(buf, n); }
    }
  }

  /** With room to spare a take ends in a newline, or finds none at all. */
  lemma TakeIsALine(buf: seq<byte>, maxBytes: nat)
    ensures var n := TakeCount(buf, maxBytes, [NEWLINE]);
            && (n == 0 && maxBytes > 0 ==> |buf| < maxBytes && forall i | 0 <= i < |buf| :: buf[i] != NEWLINE)
            && (n > 0 && |buf| < maxBytes ==> n <= |buf| && buf[n - 1] == NEWLINE)
  {
    forall i: nat | i < |buf| ensures OccursAt(buf, [NEWLINE], i) <==> buf[i] == NEWLINE { NewlineAt(buf, i); }
  }

  /** A line read that neither timed out nor reports EOF, of an open or a closed session, is
      non-empty, within budget, and ends in a newline or fills the budget; if it is shorter, no
      newline stays buffered. */
  lemma LineRead(buf: seq<byte>, closed: bool, expired: bool, r: Request)
    requires r.Valid() && r.lines
    requires var p := PassOutcome(buf, closed, expired, r).0; p.Done? && !p.r.timedOut && !p.r.eof
    ensures var data := PassOutcome(buf, closed, expired, r).0.r.data;
            && data <= buf && 0 < |data| <= r.maxBytes
            && (data[|data| - 1] == NEWLINE || |data| == r.maxBytes)
            && (|data| < r.maxBytes ==> forall i | |data| <= i < |buf| :: buf[i] != NEWLINE)
  {
    LinesCountIs(buf, r.maxBytes);
    if closed { ClosedRead(buf, expired, r); }
  }

  predicate WholeLines(data: seq<byte>) { data == [] || data[|data| - 1] == NEWLINE }

  /** A line read gives only whole lines exactly when the buffer holds a newline and is shorter than
      the request, or a newline happens to sit on the byte budget, or there was nothing at all: a
      timeout or the end of the session hands out a partial line. */
  lemma WholeLinesIff(buf: seq<byte>, closed: bool, expired: bool, r: Request)
    requires r.Valid() && r.lines && PassOutcome(buf, closed, expired, r).0.Done?
    ensures WholeLines(PassOutcome(buf, closed, expired, r).0.r.data) <==>
              if |buf| >= r.maxBytes then buf[r.maxBytes - 1] == NEWLINE else NEWLINE in buf || buf == []
  {
    LinesCountIs(buf, r.maxBytes);
    var n := AfterLastNewline(buf);
    if Available(buf, r) == 0 {
      NothingAvailableIsShort(buf, r);
      assert buf[..|buf|] == buf;
    } else if |buf| < r.maxBytes {
      assert buf[n - 1] in buf;
    }
  }

  /** A buffered complete line followed by part of the next one: the second line is cut. */
  lemma LineCutAtBudget()
    ensures PassOutcome([65, 10, 66, 67, 10], false, false, Request(3, [10], true)).0
            == Done(Result([65, 10, 66], false, false))
  {
    LinesCountIs([65, 10, 66, 67, 10], 3);
    assert [65, 10, 66, 67, 10][..3] == [65, 10, 66];
  }

  /** With nothing left to take, the closed branch drains the buffer and reports EOF. Any read of
      a closed session reports EOF exactly when it had nothing to take, and then nothing is left. */
  lemma ClosedRead(buf: seq<byte>, expired: bool, r: Request)
    requires r.Valid()
    ensures var p := PassOutcome(buf, true, expired, r).0;
            && p.Done? && !p.r.timedOut
            && (p.r.eof <==> Available(buf, r) == 0)
            && (p.r.eof ==> p.r.data == buf)
  {
    if Available(buf, r) == 0 {
      NothingAvailableIsShort(buf, r);
      assert buf[..|buf|] == buf;
    }
  }

  lemma NothingAvailableIsShort(buf: seq<byte>, r: Request)
    requires r.Valid() && Available(buf, r) == 0
    ensures |buf| < r.maxBytes
  {
    if r.lines { LinesCountIs(buf, r.maxBytes); }
  }

  /** EOF is never reported while the session is open, nor with bytes left behind. */
  lemma EofMeansDrained(buf: seq<byte>, closed: bool, expired: bool, r: Request)
    requires r.Valid()
    ensures var p := PassOutcome(buf, closed, expired, r).0; p.Done? && p.r.eof ==> closed && p.r.data == buf
  {
    if closed { ClosedRead(buf, expired, r); }
  }

  /** Taking bytes off the front never gives a waiting read something to take. */
  lemma RemovalKeepsWaiting(buf: seq<byte>, n: nat, r: Request)
    requires r.Valid() && n <= |buf| && Available(buf, r) == 0
    ensures Available(buf[n..], r) == 0
  {
    NothingAvailableIsShort(buf, r);
    if r.lines {
      LinesCountIs(buf, r.maxBytes);
      LinesCountIs(buf[n..], r.maxBytes);
      forall i | 0 <= i < |buf| - n ensures buf[n..][i] != NEWLINE { assert buf[n..][i] == buf[n + i]; }
      AfterLastUnique(buf[n..], 0);
    } else if r.delimiter != [] {
      DelimiterWaitsIff(buf, r);
      forall i: nat ensures !OccursAt(buf[n..], r.delimiter, i) {
        if OccursAt(buf[n..], r.delimiter, i) {
          assert buf[n..][i..i + |r.delimiter|] == buf[n + i..n + i + |r.delimiter|];
          assert OccursAt(buf, r.delimiter, n + i);
        }
      }
      DelimiterWaitsIff(buf[n..], r);
    }
  }
}
