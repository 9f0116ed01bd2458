/** The pipelined client of `lotor/client.go`: calls register a one-shot channel
    under a fresh request ID, the reader fans responses out to them. Each step
    below is one critical section or one channel operation, so a sequence of
    steps is a schedule of the callers and the reader. */
module Multiplexer {
  import opened Words
  import opened Frames

  /** `make(chan frame, 1)`, with how often it has been sent to and closed. */
  datatype Chan = Chan(buf: Option<Frame>, closed: bool, sends: nat, closes: nat)

  const FRESH := Chan(None, false, 0, 0)

  datatype Answer = WriteError | Reply(frame: Frame) | Disconnected | TimedOut
  datatype Progress = Writing | Waiting | Returned(answer: Answer)
  datatype Call = Call(id: uint32, chan: Chan, at: Progress)
  datatype ReaderAt = Reading | Sending(call: nat, frame: Frame) | Closing | Stopped | Crashed

  /** Calls are numbered in the order they registered; each owns one channel. */
  datatype State = State(pend: map<uint32, nat>, nextID: uint32, calls: seq<Call>, reader: ReaderAt)

  const INITIAL := State(map[], 0, [], Reading)

  datatype Label =
    | Register
    | WriteOk(call: nat)
    | WriteFail(call: nat)
    | Response(frame: Frame)
    | Send
    | ReadFail
    | CloseAll
    | Receive(call: nat)
    | Timeout(call: nat)

  predicate Enabled(s: State, l: Label) {
    match l
    case Register => true
    case WriteOk(i) => i < |s.calls| && s.calls[i].at.Writing?
    case WriteFail(i) => i < |s.calls| && s.calls[i].at.Writing?
    case Response(_) => s.reader.Reading?
    case Send => s.reader.Sending? && s.reader.call < |s.calls|
    case ReadFail => s.reader.Reading?
    case CloseAll => s.reader.Closing?
    case Receive(i) =>
      && i < |s.calls| && s.calls[i].at.Waiting?
      && (s.calls[i].chan.buf.Some? || s.calls[i].chan.closed)
    case Timeout(i) => i < |s.calls| && s.calls[i].at.Waiting?
  }

  predicate Registered(pend: map<uint32, nat>, c: Call, i: nat) {
    c.id in pend && pend[c.id] == i
  }

  function Closed(c: Chan): Chan {
    c.(closed := true, closes := c.closes + 1)
  }

  /** Closing the channel of every registered call. */
  function AfterClose(calls: seq<Call>, pend: map<uint32, nat>): (r: seq<Call>)
    ensures |r| == |calls|
  {
    seq(|calls|, i requires 0 <= i < |calls| =>
      if Registered(pend, calls[i], i) then calls[i].(chan := Closed(calls[i].chan)) else calls[i])
  }

  /** What a step does. A send on a closed channel panics; on a full one the
      reader stays where it is. */
  function Apply(s: State, l: Label): State
    requires Enabled(s, l)
  {
    match l
    case Register =>
      var id := (s.nextID + 1) % TWO32;
      s.(nextID := id, pend := s.pend[id := |s.calls|], calls := s.calls + [Call(id, FRESH, Writing)])
    case WriteOk(i) => s.(calls := s.calls[i := s.calls[i].(at := Waiting)])
    case WriteFail(i) =>
      s.(pend := s.pend - {s.calls[i].id}, calls := s.calls[i := s.calls[i].(at := Returned(WriteError))])
    case Response(f) =>
      if f.reqID in s.pend then s.(pend := s.pend - {f.reqID}, reader := Sending(s.pend[f.reqID], f)) else s
    case Send =>
      var i := s.reader.call;
      var c := s.calls[i].chan;
      if c.closed then s.(reader := Crashed)
      else if c.buf.Some? then s
      else
        var c' := c.(buf := Some(s.reader.frame), sends := c.sends + 1);
        s.(calls := s.calls[i := s.calls[i].(chan := c')], reader := Reading)
    case ReadFail => s.(reader := Closing)
    case CloseAll => s.(calls := AfterClose(s.calls, s.pend), pend := map[], reader := Stopped)
    case Receive(i) =>
      var c := s.calls[i];
      if c.chan.buf.Some?
      then s.(calls := s.calls[i := Call(c.id, c.chan.(buf := None), Returned(Reply(c.chan.buf.value)))])
      else s.(calls := s.calls[i := c.(at := Returned(Disconnected))])
    case Timeout(i) => s.(calls := s.calls[i := s.calls[i].(at := Returned(TimedOut))])
  }

  ghost function Only(pend: map<uint32, nat>, ids: set<uint32>): map<uint32, nat> {
    map id | id in pend && id in ids :: pend[id]
  }

  /** `pend` is what is left of `all` after deleting the keys in `closed`. */
  ghost predicate Remaining(all: map<uint32, nat>, closed: set<uint32>, pend: map<uint32, nat>) {
    pend == all - closed && closed <= all.Keys
  }

  lemma SomeLeft(all: map<uint32, nat>, closed: set<uint32>, pend: map<uint32, nat>)
    requires Remaining(all, closed, pend) && pend != map[]
    ensures pend.Keys != {}
  {
  }

  lemma AllLeft(all: map<uint32, nat>)
    ensures Remaining(all, {}, all)
  {
    assert all - {} == all;
  }

  lemma NoneLeft(all: map<uint32, nat>, closed: set<uint32>)
    requires Remaining(all, closed, map[])
    ensures closed == all.Keys
  {
    forall id | id in all ensures id in closed {
      assert id in closed || id in all - closed;
    }
  }

  lemma RemoveOne(all: map<uint32, nat>, closed: set<uint32>, pend: map<uint32, nat>, id: uint32)
    requires Remaining(all, closed, pend) && id in pend.Keys
    ensures Remaining(all, closed + {id}, pend - {id}) && |(pend - {id}).Keys| < |pend.Keys|
    ensures id in all && id !in closed && all[id] == pend[id]
  {
    assert pend - {id} == all - (closed + {id});
    assert (pend - {id}).Keys == pend.Keys - {id};
  }

  lemma CloseEnds(calls: seq<Call>, pend: map<uint32, nat>)
    ensures AfterClose(calls, Only(pend, {})) == calls && Only(pend, pend.Keys) == pend
  {
  }

  /** Closing one more registered channel. */
  lemma CloseNext(s: State, closed: set<uint32>, id: uint32)
    requires Inv(s) && id in s.pend && id !in closed
    ensures var i := s.pend[id];
      var before := AfterClose(s.calls, Only(s.pend, closed));
      && i < |before|
      && AfterClose(s.calls, Only(s.pend, closed + {id})) == before[i := before[i].(chan := Closed(before[i].chan))]
  {
    hide CallOk, Closed;
  }

  /** The client object. Each method is one atomic step of the schedule. */
  class Client {
    var pend: map<uint32, nat>
    var nextID: uint32
    var calls: seq<Call>
    var reader: ReaderAt

    ghost function View(): State
      reads this
    {
      State(pend, nextID, calls, reader)
    }

    constructor ()
      ensures View() == INITIAL
    {
      pend, nextID, calls, reader := map[], 0, [], Reading;
    }

    /** The first critical section of `do`. */
    method Start() returns (call: nat)
      modifies this
      ensures View() == Apply(old(View()), Register)
      ensures call == |old(calls)|
    {
      nextID := (nextID + 1) % TWO32;
      call := |calls|;
      calls := calls + [Call(nextID, FRESH, Writing)];
      pend := pend[nextID := call];
    }

    /** The write error path of `do`. */
    method Abandon(call: nat)
      requires Enabled(View(), WriteFail(call))
      modifies this
      ensures View() == Apply(old(View()), WriteFail(call))
    {
      pend := pend - {calls[call].id};
      calls := calls[call := calls[call].(at := Returned(WriteError))];
    }

    /** The critical section of `readLoop` for a RESP frame. */
    method Accept(f: Frame)
      requires Enabled(View(), Response(f))
      modifies this
      ensures View() == Apply(old(View()), Response(f))
    {
      if f.reqID in pend {
        var call := pend[f.reqID];
        pend := pend - {f.reqID};
        reader := Sending(call, f);
      }
    }

    /** The final critical section of `readLoop`: the map is ranged over in an
        arbitrary order. */
    method Shutdown()
      requires Enabled(View(), CloseAll) && Inv(View())
      modifies this
      ensures View() == Apply(old(View()), CloseAll)
    {
      hide Inv, AfterClose, Only, Remaining, Closed;
      ghost var closed := {};
      CloseEnds(calls, pend);
      AllLeft(pend);
      while pend != map[]
        invariant Remaining(old(pend), closed, pend)
        invariant View() == old(View()).(calls := calls, pend := pend)
        invariant calls == AfterClose(old(calls), Only(old(pend), closed))
        decreases |pend.Keys|
      {
        SomeLeft(old(pend), closed, pend);
        var id :| id in pend.Keys;
        var call := pend[id];
        RemoveOne(old(pend), closed, pend, id);
        CloseNext(old(View()), closed, id);
        calls := calls[call := calls[call].(chan := Closed(calls[call].chan))];
        pend := pend - {id};
        closed := closed + {id};
      }
      NoneLeft(old(pend), closed);
      reader := Stopped;
    }
  }

  // ---- every schedule ----

  predicate Pristine(c: Chan) {
    c == FRESH
  }

  ghost predicate CallOk(c: Call) {
    && c.chan.sends + c.chan.closes <= 1
    && (c.chan.closed <==> c.chan.closes == 1)
    && (c.chan.buf.Some? ==> c.chan.sends == 1 && c.chan.buf.value.reqID == c.id)
    && (c.at.Returned? && c.at.answer.Reply? ==>
         c.chan.sends == 1 && c.chan.buf.None? && c.at.answer.frame.reqID == c.id)
    && (c.at.Returned? && c.at.answer.Disconnected? ==> c.chan.closes == 1)
    && (c.chan.sends == 1 && c.chan.buf.None? ==> c.at.Returned? && c.at.answer.Reply?)
  }

  ghost predicate Inv(s: State) {
    && s.nextID == |s.calls| % TWO32
    && (forall i :: 0 <= i < |s.calls| ==> CallOk(s.calls[i]) && s.calls[i].id == (i + 1) % TWO32)
    && (forall id :: id in s.pend ==>
        && s.pend[id] < |s.calls| && s.calls[s.pend[id]].id == id
        && Pristine(s.calls[s.pend[id]].chan))
    && (s.reader.Sending? ==>
        && s.reader.call < |s.calls| && s.calls[s.reader.call].id == s.reader.frame.reqID
        && Pristine(s.calls[s.reader.call].chan)
        && forall id :: id in s.pend ==> s.pend[id] != s.reader.call)
    && !s.reader.Crashed?
  }

  lemma InvCloseAll(s: State)
    requires Inv(s) && Enabled(s, CloseAll)
    ensures Inv(Apply(s, CloseAll))
  {
    var s' := Apply(s, CloseAll);
    forall i | 0 <= i < |s'.calls|
      ensures CallOk(s'.calls[i]) && s'.calls[i].id == (i + 1) % TWO32
    {
      assert CallOk(s.calls[i]);
    }
  }

  lemma InvRegister(s: State)
    requires Inv(s)
    ensures Inv(Apply(s, Register))
  {
    var s' := Apply(s, Register);
    var n := |s.calls|;
    NextModulo(n);
    forall i | 0 <= i < |s'.calls|
      ensures CallOk(s'.calls[i]) && s'.calls[i].id == (i + 1) % TWO32
    {
      if i < n {
        assert s'.calls[i] == s.calls[i];
      }
    }
  }

  lemma NextModulo(n: nat)
    ensures (n % TWO32 + 1) % TWO32 == (n + 1) % TWO32
  {
  }

  lemma InvWriteFail(s: State, i: nat)
    requires Inv(s) && Enabled(s, WriteFail(i))
    ensures Inv(Apply(s, WriteFail(i)))
  {
    assert CallOk(s.calls[i]);
  }

  lemma InvSend(s: State)
    requires Inv(s) && Enabled(s, Send)
    ensures Inv(Apply(s, Send))
  {
    assert CallOk(s.calls[s.reader.call]);
  }

  lemma InvReceive(s: State, i: nat)
    requires Inv(s) && Enabled(s, Receive(i))
    ensures Inv(Apply(s, Receive(i)))
  {
    assert CallOk(s.calls[i]);
  }

  /** Every step keeps the invariant. */
  lemma InvStep(s: State, l: Label)
    requires Inv(s) && Enabled(s, l)
    ensures Inv(Apply(s, l))
  {
    match l
    case Register => InvRegister(s);
    case CloseAll => InvCloseAll(s);
    case WriteFail(i) => InvWriteFail(s, i);
    case Send => InvSend(s);
    case Receive(i) => InvReceive(s, i);
    case WriteOk(i) => assert CallOk(s.calls[i]);
    case Timeout(i) => assert CallOk(s.calls[i]);
    case Response(_) =>
    case ReadFail =>
  }

  /** The state a schedule leads to, if every step of it is possible. */
  function After(labels: seq<Label>): Option<State> {
    if labels == [] then Some(INITIAL)
    else
      var s := After(labels[..|labels| - 1]);
      var l := labels[|labels| - 1];
      if s.Some? && Enabled(s.value, l) then Some(Apply(s.value, l)) else None
  }

  lemma {:induction false} InvRun(labels: seq<Label>)
    requires After(labels).Some?
    ensures Inv(After(labels).value)
    decreases |labels|
  {
    hide Inv, Apply, Enabled;
    if labels == [] {
      InvInitial();
    } else {
      InvRun(labels[..|labels| - 1]);
      InvStep(After(labels[..|labels| - 1]).value, labels[|labels| - 1]);
    }
  }

  lemma InvInitial()
    ensures Inv(INITIAL)
  {
  }

  /** In every schedule: a pending channel is open and empty; every channel gets
      at most one frame or one close, never both; the reader's send neither
      blocks nor panics; and a call only returns a frame with its own ID. */
  lemma MultiplexingSafety(labels: seq<Label>)
    requires After(labels).Some?
    ensures var s := After(labels).value;
      && (forall id :: id in s.pend ==>
           s.pend[id] < |s.calls| && !s.calls[s.pend[id]].chan.closed && s.calls[s.pend[id]].chan.buf.None?)
      && (forall i :: 0 <= i < |s.calls| ==> s.calls[i].chan.sends + s.calls[i].chan.closes <= 1)
      && (forall i :: 0 <= i < |s.calls| && s.calls[i].at.Returned? && s.calls[i].at.answer.Reply? ==>
           s.calls[i].at.answer.frame.reqID == s.calls[i].id)
      && (s.reader.Sending? ==>
           && Enabled(s, Send) && Apply(s, Send).reader == Reading
           && Apply(s, Send).calls[s.reader.call].chan.buf == Some(s.reader.frame))
  {
    InvRun(labels);
    var s := After(labels).value;
    assert forall i :: 0 <= i < |s.calls| ==> CallOk(s.calls[i]);
  }

  // ---- no call is lost ----

  /** A call that has not returned is registered, or its frame is on its way or
      has been sent, or its channel is closed. */
  ghost predicate Accounted(s: State, i: nat)
    requires i < |s.calls|
  {
    var c := s.calls[i];
    || c.at.Returned? || Registered(s.pend, c, i) || (s.reader.Sending? && s.reader.call == i)
    || c.chan.sends == 1 || c.chan.closed
  }

  ghost predicate DistinctIds(s: State) {
    forall i, j :: 0 <= i < j < |s.calls| ==> s.calls[i].id != s.calls[j].id
  }

  lemma AccountedStep(s: State, l: Label)
    requires Inv(s) && Enabled(s, l) && DistinctIds(Apply(s, l))
    requires forall i :: 0 <= i < |s.calls| ==> Accounted(s, i)
    ensures forall i :: 0 <= i < |Apply(s, l).calls| ==> Accounted(Apply(s, l), i)
  {
    hide CallOk;
    var s' := Apply(s, l);
    forall i | 0 <= i < |s'.calls| ensures Accounted(s', i) {
      if i < |s.calls| {
        assert Accounted(s, i) && s'.calls[i].id == s.calls[i].id;
        AccountedOne(s, l, i);
      }
    }
  }

  lemma AccountedOne(s: State, l: Label, i: nat)
    requires Inv(s) && Enabled(s, l) && DistinctIds(Apply(s, l)) && i < |s.calls| && Accounted(s, i)
    requires i < |Apply(s, l).calls| && Apply(s, l).calls[i].id == s.calls[i].id
    ensures Accounted(Apply(s, l), i)
  {
    hide CallOk;
    var s' := Apply(s, l);
    match l
    case Register => assert s'.calls[|s.calls|].id != s'.calls[i].id;
    case WriteFail(j) => assert s'.calls[j].id == s.calls[j].id && (i != j ==> s.calls[j].id != s.calls[i].id);
    case _ =>
  }

  /** In every schedule of at most 2^32 requests, no call is forgotten: until it
      returns it is registered, answered or told of the disconnection. */
  lemma {:induction false} NoCallLost(labels: seq<Label>, i: nat)
    requires After(labels).Some? && i < |After(labels).value.calls| <= TWO32
    ensures Accounted(After(labels).value, i)
  {
    NoneLost(labels);
  }

  lemma {:induction false} NoneLost(labels: seq<Label>)
    requires After(labels).Some? && |After(labels).value.calls| <= TWO32
    ensures forall i :: 0 <= i < |After(labels).value.calls| ==> Accounted(After(labels).value, i)
    decreases |labels|
  {
    hide Inv, Apply, Enabled, Accounted;
    if labels == [] {
      assert After(labels) == Some(INITIAL);
    } else {
      var before, l := labels[..|labels| - 1], labels[|labels| - 1];
      var s := After(before).value;
      InvRun(before);
      CallsGrow(s, l);
      NoneLost(before);
      forall a: nat, b: nat | a < b < |After(labels).value.calls|
        ensures After(labels).value.calls[a].id != After(labels).value.calls[b].id
      {
        RequestIdsUnique(labels, a, b);
      }
      AccountedStep(s, l);
    }
  }

  lemma CallsGrow(s: State, l: Label)
    requires Enabled(s, l)
    ensures |s.calls| <= |Apply(s, l).calls|
  {
  }

  // ---- a response reaches its call ----

  /** The frame is on its way to call `i`, in its channel, or returned by it. */
  ghost predicate Carried(s: State, i: nat, f: Frame) {
    i < |s.calls| && (
      || s.reader == Sending(i, f)
      || s.calls[i].chan.buf == Some(f)
      || s.calls[i].at == Returned(Reply(f)))
  }

  lemma CarriedStep(s: State, l: Label, i: nat, f: Frame)
    requires Inv(s) && Enabled(s, l) && Carried(s, i, f)
    ensures Carried(Apply(s, l), i, f)
  {
    hide CallOk;
    if l.Receive? && l.call == i && s.calls[i].chan.buf != Some(f) {
      assert CallOk(s.calls[i]);
      ReceivedOnce(s, i, f);
    }
  }

  /** A call that has returned a frame, or whose frame the reader still holds,
      is not waiting for one in its channel. */
  lemma ReceivedOnce(s: State, i: nat, f: Frame)
    requires Inv(s) && i < |s.calls| && s.reader == Sending(i, f)
    ensures !Enabled(s, Receive(i))
  {
    hide CallOk;
  }

  /** Running on from a state. */
  function From(s: State, more: seq<Label>): Option<State> {
    if more == [] then Some(s)
    else
      var t := From(s, more[..|more| - 1]);
      var l := more[|more| - 1];
      if t.Some? && Enabled(t.value, l) then Some(Apply(t.value, l)) else None
  }

  lemma {:induction false} CarriedRun(s: State, more: seq<Label>, i: nat, f: Frame)
    requires Inv(s) && Carried(s, i, f) && From(s, more).Some?
    ensures Inv(From(s, more).value) && Carried(From(s, more).value, i, f)
    decreases |more|
  {
    hide Inv, Carried, Enabled, Apply;
    if more != [] {
      CarriedRun(s, more[..|more| - 1], i, f);
      var t := From(s, more[..|more| - 1]).value;
      InvStep(t, more[|more| - 1]);
      CarriedStep(t, more[|more| - 1], i, f);
    }
  }

  /** What a carried frame means for its call: once in the channel it is what a
      waiting call receives; and a call that returned without it had timed out
      or failed to write. */
  lemma CarriedMeans(s: State, i: nat, f: Frame)
    requires Inv(s) && Carried(s, i, f)
    ensures s.calls[i].at.Waiting? && !s.reader.Sending? ==>
      Enabled(s, Receive(i)) && Apply(s, Receive(i)).calls[i].at == Returned(Reply(f))
    ensures s.calls[i].at.Returned? ==>
      s.calls[i].at.answer == Reply(f) || s.calls[i].at.answer.TimedOut? || s.calls[i].at.answer.WriteError?
  {
    assert CallOk(s.calls[i]);
  }

  /** In every schedule, a response whose ID is registered reaches the channel
      of exactly that call, and whatever happens afterwards the call returns it,
      unless it had timed out or failed to write; it is never told of a
      disconnection instead. */
  lemma ResponseDelivered(labels: seq<Label>, f: Frame, more: seq<Label>)
    requires After(labels).Some? && Enabled(After(labels).value, Response(f)) && f.reqID in After(labels).value.pend
    requires From(Apply(After(labels).value, Response(f)), more).Some?
    ensures var s := After(labels).value;
      var i, s1, t := s.pend[f.reqID], Apply(s, Response(f)), From(Apply(s, Response(f)), more).value;
      && i < |s.calls| && s.calls[i].id == f.reqID
      && Enabled(s1, Send)
      && Apply(s1, Send).calls == s.calls[i := s.calls[i].(chan := s.calls[i].chan.(buf := Some(f), sends := 1))]
      && Carried(t, i, f)
      && (t.calls[i].at.Waiting? && !t.reader.Sending? ==>
           Enabled(t, Receive(i)) && Apply(t, Receive(i)).calls[i].at == Returned(Reply(f)))
      && (t.calls[i].at.Returned? ==>
           t.calls[i].at.answer == Reply(f) || t.calls[i].at.answer.TimedOut? || t.calls[i].at.answer.WriteError?)
  {
    hide After, From, CallOk;
    InvRun(labels);
    var s := After(labels).value;
    var i, s1 := s.pend[f.reqID], Apply(s, Response(f));
    InvStep(s, Response(f));
    CarriedRun(s1, more, i, f);
    CarriedMeans(From(s1, more).value, i, f);
  }

  /** Two calls share a request ID exactly when a multiple of 2^32 requests lies
      between them; with fewer than 2^32 requests, IDs are unique. */
  lemma RequestIdsUnique(labels: seq<Label>, i: nat, j: nat)
    requires After(labels).Some? && i < |After(labels).value.calls| && j < |After(labels).value.calls|
    ensures After(labels).value.calls[i].id == After(labels).value.calls[j].id <==> (i - j) % TWO32 == 0
    ensures |After(labels).value.calls| <= TWO32 ==>
      (After(labels).value.calls[i].id == After(labels).value.calls[j].id <==> i == j)
  {
    hide After;
    InvRun(labels);
    SameResidue(i + 1, j + 1);
  }

  lemma SameResidue(a: int, b: int)
    ensures a % TWO32 == b % TWO32 <==> (a - b) % TWO32 == 0
  {
    assert a == (a / TWO32) * TWO32 + a % TWO32;
    assert b == (b / TWO32) * TWO32 + b % TWO32;
  }
}
