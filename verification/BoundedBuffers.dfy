/** Bounded buffers over a stream that arrives in arbitrary reads: two that keep its
    last bytes and one that keeps either end and says whether it lost anything. */
module BoundedBuffers {
  import opened LineFraming

  function Suffix(s: seq<Byte>, n: nat): seq<Byte> {
    if |s| <= n then s else s[|s| - n..]
  }

  function Prefix(s: seq<Byte>, n: nat): seq<Byte> {
    if |s| <= n then s else s[..n]
  }

  /** The suffix is an end and the prefix a beginning of the bytes, as long as the limit and
      the bytes allow. */
  lemma EndsMean(s: seq<Byte>, n: nat)
    ensures exists lost: seq<Byte> :: s == lost + Suffix(s, n)
    ensures exists lost: seq<Byte> :: s == Prefix(s, n) + lost
    ensures |Suffix(s, n)| == |Prefix(s, n)| == if |s| < n then |s| else n
  {
    assert s == s[..|s| - |Suffix(s, n)|] + Suffix(s, n);
    assert s == Prefix(s, n) + s[|Prefix(s, n)|..];
  }

  /** A suffix of a suffix: forgetting early loses nothing of the end. */
  lemma SuffixAbsorbs(a: seq<Byte>, b: seq<Byte>, n: nat)
    ensures Suffix(Suffix(a, n) + b, n) == Suffix(a + b, n)
  {
  }

  lemma PrefixAbsorbs(a: seq<Byte>, b: seq<Byte>, n: nat)
    ensures Prefix(Prefix(a, n) + b, n) == Prefix(a + b, n)
  {
  }

  function Max(a: nat, b: nat): nat {
    if a < b then b else a
  }

  /** `peak` is the greatest length that the buffer ever had. */
  class ByteBuffer {
    var bytes: seq<Byte>
    ghost var peak: nat

    constructor ()
      ensures bytes == [] && peak == 0
    {
      bytes, peak := [], 0;
    }

    method Extend(chunk: seq<Byte>)
      modifies this
      ensures bytes == old(bytes) + chunk && peak == Max(old(peak), |bytes|)
    {
      bytes := bytes + chunk;
      peak := Max(peak, |bytes|);
    }

    method DrainFront(n: nat)
      requires n <= |bytes|
      modifies this
      ensures bytes == old(bytes)[n..] && peak == old(peak)
    {
      bytes := bytes[n..];
    }

    /** The sandbox reader: extend, then drop the excess. */
    method AppendThenDrain(chunk: seq<Byte>, maximum: nat)
      modifies this
      ensures bytes == Suffix(old(bytes) + chunk, maximum)
      ensures peak == Max(old(peak), |old(bytes)| + |chunk|)
    {
      Extend(chunk);
      if maximum < |bytes| {
        DrainFront(|bytes| - maximum);
      }
    }

    /** The host reader: make room first, so that the buffer never outgrows its limit.
        Its drain stays inside the buffer for any content. */
    method DrainThenAppend(chunk: seq<Byte>, maximum: nat)
      modifies this
      ensures bytes == Suffix(old(bytes) + chunk, maximum)
      ensures peak <= Max(old(peak), maximum)
    {
      if maximum <= |chunk| {
        bytes := [];
        Extend(chunk[|chunk| - maximum..]);
        return;
      }
      var needed := |bytes| + |chunk|;
      var excess := if maximum < needed then needed - maximum else 0;
      if 0 < excess {
        DrainFront(excess);
      }
      Extend(chunk);
    }
  }

  /** `read_pipe_bounded` on the host keeps the last `maximum` bytes of the stream. */
  method HostReadBounded(chunks: seq<seq<Byte>>, maximum: nat) returns (bytes: seq<Byte>)
    ensures bytes == Suffix(Concat(chunks), maximum)
  {
    var buffer := new ByteBuffer();
    for i := 0 to |chunks|
      invariant buffer.bytes == Suffix(Concat(chunks[..i]), maximum) && buffer.peak <= maximum
    {
      buffer.DrainThenAppend(chunks[i], maximum);
      SuffixAbsorbs(Concat(chunks[..i]), chunks[i], maximum);
      ConcatStep(chunks, i);
    }
    assert chunks[..|chunks|] == chunks;
    return buffer.bytes;
  }

  /** `read_bounded` for sandbox commands keeps the very same bytes. */
  method SandboxReadBounded(chunks: seq<seq<Byte>>, maximum: nat) returns (bytes: seq<Byte>)
    ensures bytes == Suffix(Concat(chunks), maximum)
  {
    var buffer := new ByteBuffer();
    for i := 0 to |chunks|
      invariant buffer.bytes == Suffix(Concat(chunks[..i]), maximum)
    {
      buffer.AppendThenDrain(chunks[i], maximum);
      SuffixAbsorbs(Concat(chunks[..i]), chunks[i], maximum);
      ConcatStep(chunks, i);
    }
    assert chunks[..|chunks|] == chunks;
    return buffer.bytes;
  }

  /** The single read that tail mode misjudges: it fills the limit exactly and is the
      whole stream. */
  predicate OneExactRead(chunks: seq<seq<Byte>>, maximum: nat) {
    |chunks| == 1 && |chunks[0]| == maximum
  }

  lemma {:induction false} NonEmptyConcat(chunks: seq<seq<Byte>>)
    requires forall i | 0 <= i < |chunks| :: chunks[i] != []
    ensures |chunks| <= |Concat(chunks)|
    ensures |chunks| == 1 ==> Concat(chunks) == chunks[0]
  {
    if chunks != [] {
      NonEmptyConcat(chunks[..|chunks| - 1]);
    }
  }

  /** What the lengths of a read and of everything before it say about the flag. */
  lemma FlagStep(chunks: seq<seq<Byte>>, i: nat, maximum: nat)
    requires i < |chunks| && forall k | 0 <= k < |chunks| :: chunks[k] != []
    ensures Concat(chunks[..i + 1]) == Concat(chunks[..i]) + chunks[i]
    ensures |chunks[i]| == maximum && Concat(chunks[..i]) == [] <==> OneExactRead(chunks[..i + 1], maximum)
    ensures OneExactRead(chunks[..i], maximum) ==> |Concat(chunks[..i])| == maximum
  {
    ConcatStep(chunks, i);
    NonEmptyConcat(chunks[..i]);
  }

  method KeepTail(bytes: seq<Byte>, truncated: bool, read: seq<Byte>, maximum: nat)
    returns (kept: seq<Byte>, lost: bool)
    ensures kept == Suffix(bytes + read, maximum)
    ensures lost <==> truncated || maximum <= |read| || maximum < |bytes| + |read|
  {
    if maximum <= |read| {
      return read[|read| - maximum..], true;
    }
    var needed := |bytes| + |read|;
    var overflow := if maximum < needed then needed - maximum else 0;
    kept, lost := bytes, truncated;
    if 0 < overflow {
      kept := kept[overflow..];
      lost := true;
    }
    kept := kept + read;
  }

  method KeepHead(bytes: seq<Byte>, truncated: bool, read: seq<Byte>, maximum: nat)
    returns (kept: seq<Byte>, lost: bool)
    requires |bytes| <= maximum
    ensures kept == Prefix(bytes + read, maximum)
    ensures lost <==> truncated || maximum < |bytes| + |read|
  {
    var remaining := maximum - |bytes|;
    kept := bytes + read[..if |read| < remaining then |read| else remaining];
    lost := truncated || remaining < |read|;
  }

  /** `read_bounded` of the ticket source. Every read returns at least one byte. The bytes
      are the exact prefix or suffix. For a limit above the 8192 bytes that a read can
      return, as all callers have, the flag says exactly whether any were lost; for smaller limits there is one
      more case in tail mode, the one exact read. */
  method ReadBounded(chunks: seq<seq<Byte>>, maximum: nat, retainTail: bool)
    returns (bytes: seq<Byte>, truncated: bool)
    requires forall i | 0 <= i < |chunks| :: chunks[i] != []
    ensures bytes == if retainTail then Suffix(Concat(chunks), maximum) else Prefix(Concat(chunks), maximum)
    ensures truncated <==>
              maximum < |Concat(chunks)| || (retainTail && |chunks| == 1 && |chunks[0]| == maximum)
    ensures (truncated <==> bytes != Concat(chunks)) <==> !(retainTail && |chunks| == 1 && |chunks[0]| == maximum)
    ensures 8192 < maximum && (forall i | 0 <= i < |chunks| :: |chunks[i]| <= 8192) ==>
              (truncated <==> maximum < |Concat(chunks)|)
  {
    hide Concat;
    bytes, truncated := [], false;
    NothingRead(chunks, maximum);
    for i := 0 to |chunks|
      invariant bytes == if retainTail then Suffix(Concat(chunks[..i]), maximum)
          else Prefix(Concat(chunks[..i]), maximum)
      invariant truncated <==> maximum < |Concat(chunks[..i])| || (retainTail && OneExactRead(chunks[..i], maximum))
    {
      var read := chunks[i];
      ghost var before := Concat(chunks[..i]);
      FlagStep(chunks, i, maximum);
      if retainTail {
        SuffixAbsorbs(before, read, maximum);
        bytes, truncated := KeepTail(bytes, truncated, read, maximum);
      } else {
        PrefixAbsorbs(before, read, maximum);
        bytes, truncated := KeepHead(bytes, truncated, read, maximum);
      }
    }
    assert chunks[..|chunks|] == chunks;
    WholeStream(chunks, maximum);
  }

  lemma NothingRead(chunks: seq<seq<Byte>>, maximum: nat)
    ensures Concat(chunks[..0]) == [] && !OneExactRead(chunks[..0], maximum)
  {
  }

  lemma WholeStream(chunks: seq<seq<Byte>>, maximum: nat)
    requires forall i | 0 <= i < |chunks| :: chunks[i] != []
    ensures OneExactRead(chunks, maximum) ==> |Concat(chunks)| == maximum
    ensures 8192 < maximum && (forall i | 0 <= i < |chunks| :: |chunks[i]| <= 8192) ==>
              !OneExactRead(chunks, maximum)
  {
    NonEmptyConcat(chunks);
  }
}
