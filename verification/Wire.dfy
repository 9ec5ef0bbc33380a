/** Byte strings made of consecutive parts: joining them, cutting them out again, and writing them. */
module Wire {
  import opened Basics

  /** Where part `i` starts when the parts have these widths. */
  function Offset(widths: seq<nat>, i: nat): (r: nat)
    requires i <= |widths|
  {
    if i == 0 then 0 else Offset(widths, i - 1) + widths[i - 1]
  }

  lemma {:induction false} OffsetsRise(widths: seq<nat>, i: nat, j: nat)
    requires i <= j <= |widths|
    ensures Offset(widths, i) <= Offset(widths, j)
  {
    if i < j { OffsetsRise(widths, i, j - 1); }
  }

  function Total(widths: seq<nat>): (r: nat) { Offset(widths, |widths|) }

  /** The part with index `i` of a byte string cut at these widths. */
  function Part(bytes: seq<byte>, widths: seq<nat>, i: nat): (r: seq<byte>)
    requires i < |widths| && Total(widths) <= |bytes|
    ensures |r| == widths[i]
  {
    OffsetsRise(widths, i + 1, |widths|);
    bytes[Offset(widths, i)..Offset(widths, i + 1)]
  }

  function Cut(bytes: seq<byte>, widths: seq<nat>): (parts: seq<seq<byte>>)
    requires Total(widths) <= |bytes|
    ensures |parts| == |widths| && forall i :: 0 <= i < |widths| ==> parts[i] == Part(bytes, widths, i)
                                                                     && |parts[i]| == widths[i]
  {
    seq(|widths|, i requires 0 <= i < |widths| => Part(bytes, widths, i))
  }

  predicate HasWidths(parts: seq<seq<byte>>, widths: seq<nat>) {
    |parts| == |widths| && forall i :: 0 <= i < |parts| ==> |parts[i]| == widths[i]
  }

  lemma {:induction false} JoinLength(parts: seq<seq<byte>>, widths: seq<nat>, n: nat)
    requires HasWidths(parts, widths) && n <= |parts|
    ensures |Join(parts[..n])| == Offset(widths, n)
  {
    if n > 0 {
      JoinLength(parts, widths, n - 1);
      assert parts[..n][..n - 1] == parts[..n - 1];
    }
  }

  lemma {:induction false} JoinPrefix(parts: seq<seq<byte>>, widths: seq<nat>, n: nat)
    requires HasWidths(parts, widths) && n <= |parts|
    ensures |Join(parts)| == Total(widths) && Offset(widths, n) <= Total(widths)
    ensures Join(parts)[..Offset(widths, n)] == Join(parts[..n])
    decreases |parts| - n
  {
    JoinLength(parts, widths, |parts|);
    assert parts[..|parts|] == parts;
    OffsetsRise(widths, n, |parts|);
    if n < |parts| {
      JoinPrefix(parts, widths, n + 1);
      assert parts[..n + 1] == parts[..n] + [parts[n]];
      JoinMore(parts[..n], parts[n]);
      JoinLength(parts, widths, n);
    }
  }

  lemma PrefixSlice(bytes: seq<byte>, joined: seq<byte>, lo: nat, hi: nat, part: seq<byte>)
    requires lo <= hi <= |joined| <= |bytes| && bytes[..|joined|] == joined && joined[..hi] == joined[..lo] + part
    ensures bytes[lo..hi] == part
  {
    assert joined[..hi][lo..] == part;
    assert bytes[lo..hi] == joined[..hi][lo..];
  }

  lemma JoinAt(parts: seq<seq<byte>>, widths: seq<nat>, rest: seq<byte>, i: nat)
    requires HasWidths(parts, widths) && i < |parts|
    ensures |Join(parts)| == Total(widths) && Part(Join(parts) + rest, widths, i) == parts[i]
  {
    JoinPrefix(parts, widths, i);
    JoinPrefix(parts, widths, i + 1);
    JoinMore(parts[..i], parts[i]);
    OffsetsRise(widths, i, i + 1);
    hide Join, Offset, HasWidths;
    assert parts[..i + 1] == parts[..i] + [parts[i]];
    PrefixSlice(Join(parts) + rest, Join(parts), Offset(widths, i), Offset(widths, i + 1), parts[i]);
  }

  /** Cutting undoes joining, whatever follows. */
  lemma CutJoin(parts: seq<seq<byte>>, widths: seq<nat>, rest: seq<byte>)
    requires HasWidths(parts, widths)
    ensures |Join(parts)| == Total(widths) && Cut(Join(parts) + rest, widths) == parts
  {
    JoinPrefix(parts, widths, |parts|);
    hide Join, Offset, Total, Part;
    forall i | 0 <= i < |parts| ensures Cut(Join(parts) + rest, widths)[i] == parts[i] {
      JoinAt(parts, widths, rest, i);
    }
  }

  /** Joining what was cut gives the bytes back. */
  lemma {:induction false} JoinCut(bytes: seq<byte>, widths: seq<nat>, n: nat)
    requires Total(widths) <= |bytes| && n <= |widths|
    ensures Offset(widths, n) <= |bytes| && Join(Cut(bytes, widths)[..n]) == bytes[..Offset(widths, n)]
  {
    hide *;
    if n == 0 {
      JoinNothing(bytes, widths);
    } else {
      CutAt(bytes, widths, n - 1);
      JoinCut(bytes, widths, n - 1);
      var parts := Cut(bytes, widths);
      JoinMore(parts[..n - 1], parts[n - 1]);
      assert parts[..n] == parts[..n - 1] + [parts[n - 1]];
      Extend(bytes, Offset(widths, n - 1), Offset(widths, n));
    }
  }

  lemma JoinNothing(bytes: seq<byte>, widths: seq<nat>)
    requires Total(widths) <= |bytes|
    ensures Offset(widths, 0) == 0 && Join(Cut(bytes, widths)[..0]) == []
  {
    assert Cut(bytes, widths)[..0] == [];
  }

  lemma CutAt(bytes: seq<byte>, widths: seq<nat>, i: nat)
    requires Total(widths) <= |bytes| && i < |widths|
    ensures Offset(widths, i) <= Offset(widths, i + 1) <= |bytes|
    ensures Cut(bytes, widths)[i] == bytes[Offset(widths, i)..Offset(widths, i + 1)]
  {
    OffsetsRise(widths, i + 1, |widths|);
    OffsetsRise(widths, i, i + 1);
  }

  lemma JoinWholeCut(bytes: seq<byte>, widths: seq<nat>)
    requires Total(widths) <= |bytes|
    ensures Join(Cut(bytes, widths)) == bytes[..Total(widths)]
  {
    JoinCut(bytes, widths, |widths|);
    hide Join, Offset, Part;
    assert Cut(bytes, widths)[..|widths|] == Cut(bytes, widths);
  }

  lemma ThreePieces(bytes: seq<byte>, n: nat, k: nat)
    requires n <= |bytes| && k <= |bytes| - n
    ensures (bytes[..n] + bytes[n..][..k]) + bytes[n..][k..] == bytes
  {
  }

  lemma Extend(bytes: seq<byte>, lo: nat, hi: nat)
    requires lo <= hi <= |bytes|
    ensures bytes[..hi] == bytes[..lo] + bytes[lo..hi]
  {
  }

  /** Copies a part into a buffer at the end of what has been written. */
  method Put(buffer: array<byte>, at: nat, part: seq<byte>, ghost parts: seq<seq<byte>>, ghost i: nat)
    requires at + |part| <= buffer.Length && i < |parts| && parts[i] == part && buffer[..at] == Join(parts[..i])
    modifies buffer
    ensures buffer[..at + |part|] == Join(parts[..i + 1])
  {
    ghost var before := buffer[..at];
    for k := 0 to |part|
      invariant buffer[..at] == before && buffer[at..at + k] == part[..k]
    {
      buffer[at + k] := part[k];
    }
    hide Join;
    assert Join(parts[..i + 1]) == before + part by {
      JoinMore(parts[..i], part);
      assert parts[..i + 1] == parts[..i] + [part];
    }
    assert buffer[at..at + |part|] == part;
    assert buffer[..at + |part|] == before + part;
  }

  /** How a writer answers one call: how much it says it took, and whether it also failed. */
  datatype Answer = Answer(written: int, failed: bool)

  datatype WriteError = InvalidCount | Failed | NoProgress

  /** The loop over partial writes; `sink` collects what the writer really took. */
  method WriteAll(data: seq<byte>, answers: nat -> Answer) returns (sink: seq<byte>, r: Result<(), WriteError>)
    ensures sink <= data && (r.Ok? ==> sink == data)
    ensures sink < data ==> r.Err?
    ensures (forall k: nat :: !answers(k).failed && answers(k).written > 0) ==> r.Ok? || r == Err(InvalidCount)
  {
    var left, calls := data, 0;
    sink := [];
    while |left| > 0
      invariant sink + left == data
      decreases |left|
    {
      var a := answers(calls);
      calls := calls + 1;
      if a.written < 0 || a.written > |left| { return sink, Err(InvalidCount); }
      sink, left := sink + left[..a.written], left[a.written..];
      if a.failed { return sink, Err(Failed); }
      if a.written == 0 { return sink, Err(NoProgress); }
    }
    r := Ok(());
  }
}
