/** The reader goroutine of `lotor/client.go`: bytes arrive in reads of any
    size, are appended to a buffer, and whole frames are taken off its front. */
module ReadLoop {
  import opened Words
  import opened Frames

  datatype Reading = Reading(delivered: seq<Frame>, buf: Bytes, panicked: bool)

  function Step(r: Reading, chunk: Bytes): Reading {
    if r.panicked then r
    else
      var d := Drain(r.buf + chunk);
      Reading(r.delivered + d.frames, d.rest, d.panicked)
  }

  /** The reader's state after a sequence of reads. */
  function Feed(chunks: seq<Bytes>): Reading {
    if chunks == [] then Reading([], [], false)
    else Step(Feed(chunks[..|chunks| - 1]), chunks[|chunks| - 1])
  }

  function Received(chunks: seq<Bytes>): Bytes {
    if chunks == [] then []
    else Received(chunks[..|chunks| - 1]) + chunks[|chunks| - 1]
  }

  class Reader {
    var buf: Bytes
    var delivered: seq<Frame>
    var panicked: bool

    ghost function State(): Reading
      reads this
    {
      Reading(delivered, buf, panicked)
    }

    constructor ()
      ensures State() == Feed([])
    {
      buf, delivered, panicked := [], [], false;
    }

    /** One `Read` that returned bytes: append them, then decode frames until
        none is complete. */
    method OnRead(chunk: Bytes)
      requires !panicked
      modifies this
      ensures State() == Step(old(State()), chunk)
    {
      buf := buf + chunk;
      ghost var start := delivered;
      var more := true;
      while more
        invariant delivered + Drain(buf).frames == start + Drain(old(buf) + chunk).frames
        invariant Drain(buf).rest == Drain(old(buf) + chunk).rest
        invariant Drain(buf).panicked == Drain(old(buf) + chunk).panicked
        invariant !more ==> !panicked ==> Drain(buf) == Drained([], buf, false)
        invariant panicked ==> !more && Drain(buf) == Drained([], buf, true)
        decreases |buf|, more
      {
        var r := TakeFrame(buf);
        match r
        case Incomplete =>
          more := false;
        case Panicked =>
          more, panicked := false, true;
        case Got(f, consumed) =>
          ghost var d := Drain(buf[consumed..]);
          assert delivered + ([f] + d.frames) == (delivered + [f]) + d.frames;
          buf := buf[consumed..];
          delivered := delivered + [f];
      }
      assert delivered + [] == delivered;
    }
  }

  lemma StepAppends(r: Reading, chunk: Bytes, d: Drained)
    requires !r.panicked && Drain(r.buf + chunk) == d
    ensures Step(r, chunk) == Reading(r.delivered + d.frames, d.rest, d.panicked)
  {
    hide Drain;
  }

  /** For every sequence of encoded frames and every way of cutting its bytes
      into reads: after the reads so far, exactly the frames wholly received
      have been delivered, in order, and the buffer is exactly the rest. */
  lemma {:induction false} Reassembly(fs: seq<Frame>, chunks: seq<Bytes>)
    requires AllFramable(fs) && Received(chunks) <= Stream(fs)
    ensures var got := Received(chunks);
            var k := Whole(fs, |got|);
            |Stream(fs[..k])| <= |got| && Feed(chunks) == Reading(fs[..k], got[|Stream(fs[..k])|..], false)
    decreases |chunks|
  {
    hide Drain, Stream, Whole, Framable;
    if chunks == [] {
      NothingReceived(fs);
    } else {
      var before, chunk := chunks[..|chunks| - 1], chunks[|chunks| - 1];
      var got := Received(before);
      var all := Received(chunks);
      assert all == got + chunk && got <= all;
      Reassembly(fs, before);
      var k := Whole(fs, |got|);
      var used := |Stream(fs[..k])|;
      var buf := got[used..];
      var tail := fs[k..];
      WholeSplit(fs, k, |all|);
      assert buf + chunk == all[used..];
      assert buf + chunk <= Stream(tail);
      DrainPrefix(tail, buf + chunk);
      var j := Whole(tail, |buf + chunk|);
      SplitStream(fs, k, j);
      assert fs[..k + j] == fs[..k] + tail[..j];
      StepAppends(Feed(before), chunk, Drain(buf + chunk));
    }
  }

  lemma NothingReceived(fs: seq<Frame>)
    requires AllFramable(fs)
    ensures Whole(fs, 0) == 0 && Stream(fs[..0]) == []
  {
    hide Framable;
  }

  lemma SplitStream(fs: seq<Frame>, k: nat, j: nat)
    requires AllFramable(fs) && k + j <= |fs|
    ensures |Stream(fs[..k + j])| == |Stream(fs[..k])| + |Stream(fs[k..][..j])|
  {
    hide Stream, Whole, Framable;
    var front := fs[..k + j];
    assert front[..k] == fs[..k] && front[k..] == fs[k..][..j];
    WholeSplit(front, k, |Stream(fs[..k])|);
  }
}
