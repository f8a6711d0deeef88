// Size-capped, newline-delimited framing (internal/proto/proto.go).
//
// JSON is not modelled: a message is its encoded line, which contains no newline.
module Framing {
  import opened Prelude

  const MAX_CONTROL_MESSAGE: nat := 65536
  const VERSION_FLOOR: int := 1
  const VERSION: int := 1

  // ---- The buffered reader ----

  datatype SliceStatus = FoundNewline | BufferFull | StreamError

  function NewlineIndex(s: seq<byte>): (i: nat)
    ensures i <= |s| && (i < |s| ==> s[i] == NEWLINE) && forall j | 0 <= j < i :: s[j] != NEWLINE
  {
    if s == [] then 0 else if s[0] == NEWLINE then 0 else 1 + NewlineIndex(s[1..])
  }

  lemma NewlineIndexUnique(s: seq<byte>, i: nat)
    requires i < |s| && s[i] == NEWLINE && forall j | 0 <= j < i :: s[j] != NEWLINE
    ensures NewlineIndex(s) == i
  {
    var k := NewlineIndex(s);
    if k < i || i < k { assert false; }
  }

  /** bufio.Reader over a stream: rest is what the stream still holds before its final error. */
  class Reader {
    var rest: seq<byte>

    constructor (stream: seq<byte>)
      ensures rest == stream
    {
      rest := stream;
    }

    /** ReadSlice('\n') as documented; room is how many bytes the buffer can hold at this call. */
    method ReadSlice(room: nat) returns (chunk: seq<byte>, status: SliceStatus)
      requires room > 0
      modifies this
      ensures chunk + rest == old(rest)
      ensures status == FoundNewline ==> chunk != [] && NewlineIndex(old(rest)) == |chunk| - 1
      ensures status == BufferFull ==> |chunk| == room && NewlineIndex(old(rest)) == room + NewlineIndex(rest)
      ensures status == StreamError ==> chunk == old(rest) && NewlineIndex(old(rest)) == |old(rest)|
    {
      var i := NewlineIndex(rest);
      if i < |rest| && i < room {
        chunk, status := rest[..i + 1], FoundNewline;
      } else if |rest| >= room {
        chunk, status := rest[..room], BufferFull;
      } else {
        chunk, status := rest, StreamError;
      }
      assert chunk + rest[|chunk|..] == rest;
      if status == BufferFull { SplitNewline(chunk, rest[|chunk|..]); }
      rest := rest[|chunk|..];
    }

    /** ReadFrame's loop. room(n) is the buffer room at the n-th slice: the result is the same
        whatever those are, so it does not depend on how the stream is chunked. */
    method ReadFrame(room: nat -> nat) returns (f: Frame)
      requires forall n: nat :: room(n) > 0
      modifies this
      ensures f == FrameOf(old(rest))
      ensures f.Line? ==> rest == old(rest)[|f.bytes| + 1..]
    {
      hide NewlineIndex;
      ghost var stream := rest;
      var buf: seq<byte> := [];
      var n := 0;
      while true
        invariant buf + rest == stream && |buf| <= MAX_CONTROL_MESSAGE
        invariant NewlineIndex(stream) == |buf| + NewlineIndex(rest)
        decreases |rest|
      {
        ghost var before := rest;
        var chunk, status := ReadSlice(room(n));
        assert buf + before == (buf + chunk) + rest;
        buf := buf + chunk;
        n := n + 1;
        if |buf| > MAX_CONTROL_MESSAGE { return TooLarge; }
        if status == FoundNewline {
          assert buf[..|buf| - 1] == stream[..|buf| - 1];
          return Line(buf[..|buf| - 1]);
        }
        if status == BufferFull { continue; }
        return Broken;
      }
    }

    /** Conn.Read: raw bytes, starting with whatever was buffered past the header. */
    method Read(n: nat) returns (data: seq<byte>)
      modifies this
      ensures data + rest == old(rest) && |data| == Min(n, |old(rest)|)
    {
      var k := Min(n, |rest|);
      data := rest[..k];
      rest := rest[k..];
    }
  }

  lemma SplitNewline(a: seq<byte>, b: seq<byte>)
    requires forall j | 0 <= j < |a| :: a[j] != NEWLINE
    ensures NewlineIndex(a + b) == |a| + NewlineIndex(b)
  {
    var i := NewlineIndex(b);
    if i < |b| {
      assert (a + b)[|a| + i] == b[i];
      forall j | 0 <= j < |a| + i ensures (a + b)[j] != NEWLINE {
        if j >= |a| { assert (a + b)[j] == b[j - |a|]; }
      }
      NewlineIndexUnique(a + b, |a| + i);
    } else {
      var k := NewlineIndex(a + b);
      if k < |a| + |b| {
        assert false;
      }
    }
  }

  /** What ReadFrame makes of a stream: a line, an oversized frame, or the stream's own error. */
  datatype Frame = Line(bytes: seq<byte>) | TooLarge | Broken

  function FrameOf(s: seq<byte>): Frame {
    var i := NewlineIndex(s);
    if i < |s| then (if i + 1 <= MAX_CONTROL_MESSAGE then Line(s[..i]) else TooLarge)
    else if |s| > MAX_CONTROL_MESSAGE then TooLarge
    else Broken
  }

  lemma FrameIs(s: seq<byte>, i: nat)
    requires i <= |s| && (i < |s| ==> s[i] == NEWLINE) && forall j | 0 <= j < i :: s[j] != NEWLINE
    ensures NewlineIndex(s) == i
  {
    if i < |s| { NewlineIndexUnique(s, i); }
  }

  /** A frame once decided stays as it is, whatever follows on the stream. A stream is undecided exactly
      while it has no newline and is within the cap; a newline then makes a line of it, unless it has
      used up the cap. */
  lemma FramesAreFinal(a: seq<byte>, b: seq<byte>)
    ensures FrameOf(a) != Broken ==> FrameOf(a + b) == FrameOf(a)
    ensures FrameOf(a) == Broken <==> NewlineFree(a) && |a| <= MAX_CONTROL_MESSAGE
    ensures FrameOf(a) == Broken ==>
              FrameOf(a + [NEWLINE]) == if |a| < MAX_CONTROL_MESSAGE then Line(a) else TooLarge
  {
    var i := NewlineIndex(a);
    if i < |a| {
      assert (a + b)[i] == NEWLINE && (a + b)[..i] == a[..i];
      forall j | 0 <= j < i ensures (a + b)[j] != NEWLINE { assert (a + b)[j] == a[j]; }
      FrameIs(a + b, i);
    } else {
      SplitNewline(a, b);
      SplitNewline(a, [NEWLINE]);
      assert (a + [NEWLINE])[..|a|] == a;
    }
  }

  // ---- Round trip ----

  predicate NewlineFree(f: seq<byte>) { forall j | 0 <= j < |f| :: f[j] != NEWLINE }

  function Encode(frames: seq<seq<byte>>): seq<byte> {
    if frames == [] then [] else frames[0] + [NEWLINE] + Encode(frames[1..])
  }

  /** Reading n frames in a row: the lines, and where the reader stands afterwards. */
  function ReadFrames(s: seq<byte>, n: nat): Option<(seq<seq<byte>>, seq<byte>)> {
    if n == 0 then Some(([], s))
    else match FrameOf(s)
      case Line(f) =>
        (match ReadFrames(s[Min(|f| + 1, |s|)..], n - 1)
         case Some((fs, rest)) => Some(([f] + fs, rest))
         case None => None)
      case _ => None
  }

  lemma FirstFrame(f: seq<byte>, after: seq<byte>)
    requires NewlineFree(f)
    ensures var s := f + [NEWLINE] + after;
            FrameOf(s) == (if |f| < MAX_CONTROL_MESSAGE then Line(f) else TooLarge) && s[|f| + 1..] == after
  {
    var s := f + [NEWLINE] + after;
    assert s[|f|] == NEWLINE && s[..|f|] == f;
    NewlineIndexUnique(s, |f|);
  }

  lemma ReadOne(s: seq<byte>, f: seq<byte>, after: seq<byte>, n: nat)
    requires n > 0 && FrameOf(s) == Line(f) && |f| < |s| && s[|f| + 1..] == after
    ensures ReadFrames(s, n) == match ReadFrames(after, n - 1)
                                case Some((fs, rest)) => Some(([f] + fs, rest))
                                case None => None
  {
    hide FrameOf;
  }

  lemma ReadNone(s: seq<byte>)
    ensures ReadFrames(s, 0) == Some(([], s))
  {
  }

  lemma EncodeStart(frames: seq<seq<byte>>, raw: seq<byte>)
    ensures Encode(frames) + raw == if frames == [] then raw else frames[0] + [NEWLINE] + (Encode(frames[1..]) + raw)
  {
  }

  predicate Sendable(f: seq<byte>) { NewlineFree(f) && |f| < MAX_CONTROL_MESSAGE }

  /** Newline-free frames shorter than the cap, followed by raw bytes, are read back as exactly
      those frames, with the reader standing at the first raw byte. */
  lemma {:induction false} FramesThenRawBytes(frames: seq<seq<byte>>, raw: seq<byte>)
    requires forall f | f in frames :: Sendable(f)
    ensures ReadFrames(Encode(frames) + raw, |frames|) == Some((frames, raw))
  {
    hide FrameOf, Encode, ReadFrames;
    EncodeStart(frames, raw);
    if frames == [] {
      ReadNone(raw);
    } else {
      var f, after := frames[0], Encode(frames[1..]) + raw;
      assert Sendable(f);
      FirstFrame(f, after);
      FramesThenRawBytes(frames[1..], raw);
      assert [f] + frames[1..] == frames;
      ReadOne(f + [NEWLINE] + after, f, after, |frames|);
    }
  }

  // ---- Sending ----

  class Writer {
    var wire: seq<byte>

    constructor ()
      ensures wire == []
    {
      wire := [];
    }

    /** Send and WriteHeaderFrame: the size check counts the line without its newline. The stream
        takes up to `room` bytes; a write it does not take whole is an error. */
    method Send(line: seq<byte>, room: nat) returns (ok: bool)
      modifies this
      ensures ok == (SendAccepts(line) && |line| < room)
      ensures wire == if !SendAccepts(line) then old(wire)
                      else old(wire) + Encode([line])[..Min(room, |Encode([line])|)]
      ensures ok ==> wire == old(wire) + Encode([line])
    {
      if |line| > MAX_CONTROL_MESSAGE { return false; }
      var frame := line + [NEWLINE];
      assert Encode([line]) == frame + Encode([]) == frame;
      wire := wire + frame[..Min(room, |frame|)];
      return |frame| <= room;
    }
  }

  predicate SendAccepts(line: seq<byte>) { |line| <= MAX_CONTROL_MESSAGE }

  /** Lines sent one after the other put the encoding of them all on the wire. */
  lemma {:induction false} EncodeAppend(frames: seq<seq<byte>>, last: seq<byte>)
    ensures Encode(frames + [last]) == Encode(frames) + Encode([last])
  {
    if frames != [] {
      assert (frames + [last])[1..] == frames[1..] + [last];
      EncodeAppend(frames[1..], last);
    }
  }

  /** Everything sent is read back exactly when every line is strictly shorter than the cap; a
      line of exactly the cap is accepted by Send and refused by ReadFrame. */
  lemma {:induction false} SentIsReadBackIff(lines: seq<seq<byte>>)
    requires forall f | f in lines :: NewlineFree(f) && SendAccepts(f)
    ensures ReadFrames(Encode(lines), |lines|) == Some((lines, [])) <==>
            forall f | f in lines :: |f| != MAX_CONTROL_MESSAGE
    ensures ReadFrames(Encode(lines), |lines|).Some? ==> forall f | f in lines :: |f| != MAX_CONTROL_MESSAGE
  {
    if forall f | f in lines :: |f| != MAX_CONTROL_MESSAGE {
      FramesThenRawBytes(lines, []);
      assert Encode(lines) + [] == Encode(lines);
    } else {
      FirstFrame(lines[0], Encode(lines[1..]));
      if |lines[0]| < MAX_CONTROL_MESSAGE {
        SentIsReadBackIff(lines[1..]);
        assert exists f :: f in lines[1..] && |f| == MAX_CONTROL_MESSAGE by {
          var f :| f in lines && |f| == MAX_CONTROL_MESSAGE;
          assert f in [lines[0]] + lines[1..];
        }
      }
    }
  }

  /** The boundary case exists: a line of 65536 bytes passes Send and cannot be received. */
  lemma CapSizedLineIsLost()
    ensures var line: seq<byte> := seq(MAX_CONTROL_MESSAGE, _ => 65);
            NewlineFree(line) && SendAccepts(line) && FrameOf(Encode([line])) == TooLarge
  {
    var line: seq<byte> := seq(MAX_CONTROL_MESSAGE, _ => 65);
    FirstFrame(line, []);
    assert Encode([line]) == line + [NEWLINE] + [];
  }

  // ---- Version negotiation ----

  predicate Common(v: int) { VERSION_FLOOR <= v <= VERSION }

  /** The highest version both sides support; an error exactly when there is none. */
  method Negotiate(peer: seq<int>) returns (r: Option<int>)
    ensures r.Some? ==> r.value in peer && Common(r.value) && forall v | v in peer && Common(v) :: v <= r.value
    ensures r.None? <==> forall v | v in peer :: !Common(v)
  {
    var best := 0;
    for i := 0 to |peer|
      invariant best == 0 ==> forall j | 0 <= j < i :: !Common(peer[j])
      invariant best != 0 ==> best in peer && Common(best)
      invariant best != 0 ==> forall j | 0 <= j < i && Common(peer[j]) :: peer[j] <= best
    {
      if VERSION_FLOOR <= peer[i] <= VERSION && peer[i] > best { best := peer[i]; }
    }
    return if best == 0 then None else Some(best);
  }
}
