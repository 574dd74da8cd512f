/** A chunk iterator read as a byte stream. */
module Streaming {
  import opened Wrappers
  import Statements

  type byte = bv8

  /** The chunks that are still to come and the bytes of the last one not yet delivered.  When `breaks`
      holds the iterator does not stop after the last chunk but raises, as a lost connection makes it. */
  datatype Stream = Stream(chunks: seq<seq<byte>>, buf: seq<byte>, breaks: bool) {
    /** All bytes that have not been delivered. */
    function Rest(): seq<byte> {
      buf + Concat(chunks)
    }

    /** Pulls chunks until there is something to deliver or nothing is left. */
    function Filled(): Stream
      decreases |chunks|
    {
      if buf == [] && chunks != [] then Stream(chunks[1..], chunks[0], breaks).Filled() else this
    }

    /** What one read into a buffer of the given size delivers, if it does not raise, and the stream after it. */
    function Read(size: nat): (Option<seq<byte>>, Stream) {
      var filled := Filled();
      if filled.buf == [] && breaks then (None, Stream([], [], false))
      else
        var n := Statements.Min(size, |filled.buf|);
        (Some(filled.buf[..n]), Stream(filled.chunks, filled.buf[n..], breaks))
    }

    /** What a row of reads delivers in all, up to the one that raises, and the stream after them. */
    function Reads(sizes: seq<nat>): (seq<byte>, Stream)
      decreases |sizes|
    {
      if sizes == [] then ([], this)
      else
        match Read(sizes[0])
        case (None, next) => ([], next)
        case (Some(bytes), next) =>
          var (more, last) := next.Reads(sizes[1..]);
          (bytes + more, last)
    }
  }

  function Concat(chunks: seq<seq<byte>>): seq<byte> {
    if chunks == [] then [] else chunks[0] + Concat(chunks[1..])
  }

  class IteratorIO {
    var chunks: seq<seq<byte>>
    var breaks: bool
    var buf: seq<byte>

    constructor (chunks: seq<seq<byte>>, breaks: bool)
      ensures Value() == Stream(chunks, [], breaks) && Value().Rest() == Concat(chunks)
    {
      this.chunks, this.breaks, buf := chunks, breaks, [];
    }

    function Value(): Stream
      reads this
    {
      Stream(chunks, buf, breaks)
    }

    /** Reads into `b`: the bytes delivered and those still to come are the bytes there were, the rest
        of `b` is left alone, and a non-empty buffer gets nothing only when nothing was left and the
        iterator has stopped.  The iterator's exception is passed on, after everything was delivered. */
    method ReadInto(b: array<byte>) returns (r: Option<nat>)
      modifies this, b
      ensures r.Some? ==> r.value <= b.Length && old(Value()).Read(b.Length) == (Some(b[..r.value]), Value())
      ensures r.Some? ==> b[..r.value] + Value().Rest() == old(Value().Rest())
      ensures r.Some? ==> b[r.value..] == old(b[..])[r.value..]
      ensures r.Some? && b.Length > 0 ==> (r.value == 0 <==> old(Value().Rest()) == [] && !old(breaks))
      ensures r.None? <==> old(Value().Rest()) == [] && old(breaks)
      ensures r.None? ==> old(Value()).Read(b.Length) == (None, Value()) && b[..] == old(b[..])
    {
      hide Stream.Filled, Stream.Read, Stream.Rest;
      ghost var start := Value();
      ReadConserves(start, b.Length);
      ReadFilled(start, b.Length);
      while buf == []
        invariant Value().Filled() == start.Filled() && breaks == start.breaks
        invariant b[..] == old(b[..])
        decreases |chunks|
      {
        Pull(Value());
        if chunks == [] {
          if breaks {
            breaks := false;
            return None;
          }
          assert b[..0] == [];
          return Some(0);
        }
        var chunk := chunks[0];
        chunks := chunks[1..];
        if chunk != [] {
          buf := chunk;
        }
      }
      Pull(Value());
      var n := Statements.Min(b.Length, |buf|);
      forall i | 0 <= i < n {
        b[i] := buf[i];
      }
      assert b[..n] == buf[..n];
      buf := buf[n..];
      return Some(n);
    }
  }

  lemma {:induction false} FilledConserves(s: Stream)
    ensures s.Filled().Rest() == s.Rest() && s.Filled().breaks == s.breaks
    ensures s.Filled().buf == [] ==> s.Filled().chunks == [] && s.Rest() == []
    decreases |s.chunks|
  {
    if s.buf == [] && s.chunks != [] {
      FilledConserves(Stream(s.chunks[1..], s.chunks[0], s.breaks));
    }
  }

  lemma {:induction false} Pull(s: Stream)
    ensures s.buf != [] || s.chunks == [] ==> s.Filled() == s
    ensures s.buf == [] && s.chunks != [] ==> s.Filled() == Stream(s.chunks[1..], s.chunks[0], s.breaks).Filled()
  {
  }

  lemma {:induction false} ReadFilled(s: Stream, size: nat)
    ensures var f := s.Filled();
            s.Read(size) ==
            if f.buf == [] && s.breaks then (None, Stream([], [], false))
            else var n := Statements.Min(size, |f.buf|); (Some(f.buf[..n]), Stream(f.chunks, f.buf[n..], s.breaks))
  {
    hide Stream.Filled;
  }

  /** One read neither loses, adds nor reorders a byte.  It raises only when everything was delivered, and
      comes back empty from a non-empty request only when there is nothing to raise either. */
  lemma {:induction false} ReadConserves(s: Stream, size: nat)
    ensures match s.Read(size)
            case (None, next) => s.Rest() == [] && s.breaks && next.Rest() == []
            case (Some(bytes), next) =>
              && |bytes| <= size && next.breaks == s.breaks
              && bytes + next.Rest() == s.Rest()
              && (size > 0 ==> (bytes == [] <==> s.Rest() == []))
              && !(s.Rest() == [] && s.breaks)
  {
    FilledConserves(s);
    var f := s.Filled();
    var n := Statements.Min(size, |f.buf|);
    assert f.buf[..n] + f.buf[n..] == f.buf;
    assert f.buf[..n] + (f.buf[n..] + Concat(f.chunks)) == f.buf + Concat(f.chunks);
  }

  /** Whatever the sizes of the reads, zero included, delivered and remaining bytes are the original. */
  lemma {:induction false} ReadsConserve(s: Stream, sizes: seq<nat>)
    ensures var (bytes, last) := s.Reads(sizes); bytes + last.Rest() == s.Rest()
    decreases |sizes|
  {
    if sizes != [] {
      ReadConserves(s, sizes[0]);
      match s.Read(sizes[0])
      case (None, _) =>
      case (Some(bytes), next) =>
        ReadsConserve(next, sizes[1..]);
        var (more, last) := next.Reads(sizes[1..]);
        assert (bytes + more) + last.Rest() == bytes + (more + last.Rest());
    }
  }

  /** How many of the reads ask for something. */
  function Asking(sizes: seq<nat>): nat {
    if sizes == [] then 0 else (if sizes[0] > 0 then 1 else 0) + Asking(sizes[1..])
  }

  /** As many reads of something as there are bytes drain the stream, whether or not it breaks in the end:
      together they deliver the concatenation of the chunks. */
  lemma {:induction false} EnoughReadsDrain(chunks: seq<seq<byte>>, breaks: bool, sizes: seq<nat>)
    requires Asking(sizes) >= |Concat(chunks)|
    ensures var (bytes, last) := Stream(chunks, [], breaks).Reads(sizes);
            bytes == Concat(chunks) && last.Rest() == []
  {
    var s := Stream(chunks, [], breaks);
    ReadsConserve(s, sizes);
    ReadsExhaust(s, sizes);
    var (bytes, last) := s.Reads(sizes);
    assert [] + Concat(chunks) == Concat(chunks);
    assert bytes + [] == bytes;
  }

  lemma {:induction false} ReadsExhaust(s: Stream, sizes: seq<nat>)
    requires Asking(sizes) >= |s.Rest()|
    ensures s.Reads(sizes).1.Rest() == []
    decreases |sizes|
  {
    if sizes != [] {
      ReadConserves(s, sizes[0]);
      match s.Read(sizes[0])
      case (None, _) =>
      case (Some(bytes), next) =>
        if sizes[0] > 0 {
          assert |next.Rest()| == 0 || |next.Rest()| < |s.Rest()|;
        }
        ReadsExhaust(next, sizes[1..]);
    }
  }

  /** An asking read comes back empty if and only if everything was delivered and no exception is due, so a
      reader that stops at the first empty read has seen everything, and a broken stream is never taken
      for one that ended. */
  lemma {:induction false} EmptyReadMeansDone(chunks: seq<seq<byte>>, breaks: bool, sizes: seq<nat>, size: nat)
    requires size > 0
    ensures var (bytes, last) := Stream(chunks, [], breaks).Reads(sizes);
            && (last.Read(size).0 == Some([]) <==> bytes == Concat(chunks) && !last.breaks)
            && (last.Read(size).0 == None <==> bytes == Concat(chunks) && last.breaks)
  {
    var s := Stream(chunks, [], breaks);
    ReadsConserve(s, sizes);
    var (bytes, last) := s.Reads(sizes);
    ReadConserves(last, size);
    assert s.Rest() == Concat(chunks);
    if bytes == Concat(chunks) {
      assert |bytes + last.Rest()| == |bytes|;
    }
    if last.Rest() == [] {
      assert bytes + [] == bytes;
    }
  }
}
