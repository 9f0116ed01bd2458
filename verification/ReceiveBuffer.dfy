/** The receive buffer as Go lays it out: a window on a backing array. Byte
    strings handed out by the decoder are slices of the same array, so this
    model keeps the array, the window and every slice handed out. */
module ReceiveBuffer {
  import opened Words

  class Buffer {
    var backing: array<byte>
    var off: nat
    var end: nat

    /** Every slice handed out so far, with the bytes it showed at that time. */
    ghost var lent: set<(array<byte>, nat, nat, Bytes)>
    ghost var arrays: set<array<byte>>

    ghost predicate Valid()
      reads this, arrays
    {
      && backing in arrays
      && off <= end <= backing.Length
      && forall l :: l in lent ==>
          && l.0 in arrays
          && l.1 <= l.2 <= l.0.Length
          && (l.0 == backing ==> l.2 <= end)
          && l.0[l.1..l.2] == l.3
    }

    ghost function Contents(): Bytes
      requires Valid()
      reads this, arrays
    {
      backing[off..end]
    }

    /** `make([]byte, 0, 4096)`. */
    constructor ()
      ensures Valid() && Contents() == [] && lent == {} && fresh(arrays)
    {
      var a := new byte[4096];
      backing, off, end := a, 0, 0;
      lent, arrays := {}, {a};
    }

    /** `append` with enough capacity: only bytes past the window are written. */
    method AppendInPlace(chunk: Bytes)
      requires Valid() && end + |chunk| <= backing.Length
      modifies this`end, backing
      ensures Valid()
      ensures Contents() == old(Contents()) + chunk
    {
      var i := 0;
      while i < |chunk|
        invariant 0 <= i <= |chunk|
        invariant forall j :: 0 <= j < end ==> backing[j] == old(backing[j])
        invariant forall j :: 0 <= j < i ==> backing[end + j] == chunk[j]
        modifies backing
      {
        backing[end + i] := chunk[i];
        i := i + 1;
      }
      forall l | l in lent ensures l.0[l.1..l.2] == l.3 {
        if l.0 == backing {
          assert l.0[l.1..l.2] == old(l.0[l.1..l.2]);
        }
      }
      assert backing[off..end] == old(backing[off..end]);
      assert backing[end..end + |chunk|] == chunk;
      assert backing[off..end + |chunk|] == backing[off..end] + backing[end..end + |chunk|];
      end := end + |chunk|;
    }

    /** `append` without enough capacity: the bytes move to a new array. */
    method AppendMoved(chunk: Bytes, growth: nat)
      requires Valid()
      modifies this`backing, this`off, this`end, this`arrays
      ensures Valid() && fresh(backing) && arrays == old(arrays) + {backing}
      ensures Contents() == old(Contents()) + chunk
    {
      var joined := backing[off..end] + chunk;
      var a := new byte[|joined| + growth](i => if 0 <= i < |joined| then joined[i] else 0);
      assert a[0..|joined|] == joined;
      backing, off, end := a, 0, |joined|;
      arrays := arrays + {a};
    }

    /** `append(buf, chunk...)`: in place when the capacity suffices, otherwise
        into a new array of any larger capacity. Valid() says that no byte
        string handed out before has changed. */
    method Append(chunk: Bytes, growth: nat)
      requires Valid()
      modifies this`backing, this`off, this`end, this`arrays, backing
      ensures Valid() && fresh(arrays - old(arrays)) && old(arrays) <= arrays
      ensures Contents() == old(Contents()) + chunk
    {
      if end + |chunk| <= backing.Length {
        AppendInPlace(chunk);
      } else {
        AppendMoved(chunk, growth);
      }
    }

    /** `buf = buf[consumed:]`. */
    method Advance(consumed: nat)
      requires Valid() && consumed <= end - off
      modifies this`off
      ensures Valid() && Contents() == old(Contents())[consumed..]
    {
      off := off + consumed;
    }

    /** `readBytes`: `b[p : p+length]` is a slice of the buffer, not a copy. It
        need not even lie inside the frame being consumed. */
    method Lend(p: nat, length: nat) returns (a: array<byte>, lo: nat, hi: nat)
      requires Valid() && p + length <= end - off
      modifies this`lent
      ensures Valid() && lo <= hi <= a.Length
      ensures a[lo..hi] == Contents()[p..p + length]
      ensures lent == old(lent) + {(a, lo, hi, a[lo..hi])}
      ensures Contents() == old(Contents())
    {
      a, lo, hi := backing, off + p, off + p + length;
      SubSlice(a[..], off, end, p, length);
      assert a[lo..hi] == a[..][lo..hi] && backing[off..end] == a[..][off..end];
      lent := lent + {(a, lo, hi, a[lo..hi])};
    }
  }

  lemma SubSlice(s: Bytes, off: nat, end: nat, p: nat, length: nat)
    requires off <= end <= |s| && p + length <= end - off
    ensures s[off..end][p..p + length] == s[off + p..off + p + length]
  {
    var inner, outer := s[off..end][p..p + length], s[off + p..off + p + length];
    assert |inner| == |outer| == length;
    forall k | 0 <= k < length ensures inner[k] == outer[k] {
      assert s[off..end][p + k] == s[off + p + k];
    }
  }

  datatype Event = Read(chunk: Bytes, growth: nat) | Take(consumed: nat) | Slice(p: nat, length: nat)

  /** Any schedule of reads, slicings and consumptions, however the array is
      grown in between: a byte string handed out at the start still shows the
      same bytes at the end. */
  method Schedule(b: Buffer, events: seq<Event>, a: array<byte>, lo: nat, hi: nat)
    requires b.Valid() && lo <= hi <= a.Length && (a, lo, hi, a[lo..hi]) in b.lent
    modifies b, b.arrays
    ensures b.Valid()
    ensures a[lo..hi] == old(a[lo..hi])
  {
    ghost var mine := (a, lo, hi, a[lo..hi]);
    var i := 0;
    while i < |events|
      invariant 0 <= i <= |events|
      invariant b.Valid() && mine in b.lent
      invariant fresh(b.arrays - old(b.arrays))
    {
      match events[i] {
        case Read(chunk, growth) =>
          b.Append(chunk, growth);
        case Take(consumed) =>
          if consumed <= b.end - b.off {
            b.Advance(consumed);
          }
        case Slice(p, length) =>
          if p + length <= b.end - b.off {
            var x, y, z := b.Lend(p, length);
          }
      }
      i := i + 1;
    }
    assert mine.0[mine.1..mine.2] == mine.3;
  }
}
