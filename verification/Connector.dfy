/** `bridge/development/connector.go`: request slots shared by all connection
    generations, the active map of each generation, and cancellation. A step is
    one critical section or one effect of a request goroutine. */
module Connector {
  import opened Words

  datatype At =
    | Handling    // inside connector.handle; a panic ends it like a return
    | Writing     // sending the response
    | Leaving     // deferred function, before `<-connector.slots`
    | Forgetting  // slot given back, entry in the active map still there
    | Done

  datatype Request = Request(gen: nat, id: string, at: At, cancelled: bool, releases: nat)

  /** `over` is that the generation's context is cancelled; `ended` that
      `Connect` has returned. */
  datatype Generation = Generation(active: map<string, nat>, over: bool, ended: bool)

  datatype State = State(max: nat, used: nat, gens: seq<Generation>, requests: seq<Request>)

  /** `Lapse` is the context ending while `Connect` still runs: the keepalive
      goroutine gave up, or the caller's context was cancelled. `Expire` is a
      request's own deadline passing. */
  datatype Label =
    | Open
    | Accept(gen: nat, id: string, deadlineOk: bool)
    | CancelFrame(gen: nat, id: string)
    | Expire(request: nat)
    | Lapse(gen: nat)
    | End(gen: nat)
    | HandlerEnd(request: nat)
    | Written(request: nat, ok: bool)
    | Release(request: nat)
    | Forget(request: nat)

  predicate Running(s: State, g: nat) {
    g < |s.gens| && !s.gens[g].ended
  }

  predicate AtStep(s: State, n: nat, at: At) {
    n < |s.requests| && s.requests[n].at == at && s.requests[n].gen < |s.gens|
  }

  predicate Enabled(s: State, l: Label) {
    match l
    case Open => true
    case Accept(g, _, _) => Running(s, g)
    case CancelFrame(g, _) => Running(s, g)
    case Expire(n) => n < |s.requests| && !s.requests[n].at.Done?
    case Lapse(g) => Running(s, g)
    case End(g) => Running(s, g)
    case HandlerEnd(n) => AtStep(s, n, Handling)
    case Written(n, _) => AtStep(s, n, Writing)
    case Release(n) => AtStep(s, n, Leaving) && s.used > 0
    case Forget(n) => AtStep(s, n, Forgetting)
  }

  /** Cancelling a generation's context cancels every request made from it. */
  function CancelAll(requests: seq<Request>, g: nat): (r: seq<Request>)
    ensures |r| == |requests|
    ensures forall n :: 0 <= n < |r| ==>
      r[n] == if requests[n].gen == g then requests[n].(cancelled := true) else requests[n]
  {
    seq(|requests|, n requires 0 <= n < |requests| =>
      if requests[n].gen == g then requests[n].(cancelled := true) else requests[n])
  }

  function Finish(s: State, g: nat, ended: bool): State
    requires g < |s.gens|
  {
    s.(gens := s.gens[g := s.gens[g].(over := true, ended := s.gens[g].ended || ended)],
       requests := CancelAll(s.requests, g))
  }

  function Admit(s: State, g: nat, id: string): State
    requires g < |s.gens|
  {
    var r := Request(g, id, Handling, s.gens[g].over, 0);
    s.(used := s.used + 1,
       gens := s.gens[g := s.gens[g].(active := s.gens[g].active[id := |s.requests|])],
       requests := s.requests + [r])
  }

  function Apply(s: State, l: Label): State
    requires Enabled(s, l)
  {
    match l
    case Open => s.(gens := s.gens + [Generation(map[], false, false)])
    case Accept(g, id, deadlineOk) =>
      if id in s.gens[g].active || !deadlineOk || s.used >= s.max then Finish(s, g, true) else Admit(s, g, id)
    case CancelFrame(g, id) =>
      if id in s.gens[g].active && s.gens[g].active[id] < |s.requests| then
        var n := s.gens[g].active[id];
        s.(requests := s.requests[n := s.requests[n].(cancelled := true)])
      else s
    case Expire(n) => s.(requests := s.requests[n := s.requests[n].(cancelled := true)])
    case Lapse(g) => Finish(s, g, false)
    case End(g) => Finish(s, g, true)
    case HandlerEnd(n) => s.(requests := s.requests[n := s.requests[n].(at := Writing)])
    case Written(n, ok) =>
      var s' := s.(requests := s.requests[n := s.requests[n].(at := Leaving)]);
      if ok then s' else Finish(s', s.requests[n].gen, false)
    case Release(n) =>
      var r := s.requests[n];
      s.(used := s.used - 1, requests := s.requests[n := r.(at := Forgetting, releases := r.releases + 1)])
    case Forget(n) =>
      var r := s.requests[n];
      s.(gens := s.gens[r.gen := s.gens[r.gen].(active := s.gens[r.gen].active - {r.id})],
         requests := s.requests[n := r.(at := Done, cancelled := true)])
  }

  // ---- the invariant ----

  predicate HoldsSlot(r: Request) {
    r.at.Handling? || r.at.Writing? || r.at.Leaving?
  }

  /** The accepted requests that have not given their slot back. */
  function Held(requests: seq<Request>): nat {
    if requests == [] then 0
    else Held(requests[..|requests| - 1]) + if HoldsSlot(requests[|requests| - 1]) then 1 else 0
  }

  lemma {:induction false} HeldUpdate(requests: seq<Request>, n: nat, r: Request)
    requires n < |requests|
    ensures Held(requests[n := r]) ==
      Held(requests) - (if HoldsSlot(requests[n]) then 1 else 0) + (if HoldsSlot(r) then 1 else 0)
    decreases |requests|
  {
    var m := |requests| - 1;
    if n == m {
      assert requests[n := r][..m] == requests[..m];
    } else {
      assert requests[n := r][..m] == requests[..m][n := r];
      HeldUpdate(requests[..m], n, r);
    }
  }

  lemma {:induction false} HeldSame(a: seq<Request>, b: seq<Request>)
    requires |a| == |b| && forall n :: 0 <= n < |a| ==> HoldsSlot(a[n]) == HoldsSlot(b[n])
    ensures Held(a) == Held(b)
    decreases |a|
  {
    hide HoldsSlot;
    if a != [] {
      HeldSame(a[..|a| - 1], b[..|b| - 1]);
    }
  }

  ghost predicate RequestOk(s: State, n: nat)
    requires n < |s.requests|
  {
    var r := s.requests[n];
    && r.gen < |s.gens|
    && (!r.at.Done? ==> r.id in s.gens[r.gen].active && s.gens[r.gen].active[r.id] == n)
    && r.releases == (if HoldsSlot(r) then 0 else 1)
    && (s.gens[r.gen].over || r.at.Done? ==> r.cancelled)
  }

  ghost predicate GenerationOk(s: State, g: nat)
    requires g < |s.gens|
  {
    var gen := s.gens[g];
    && (gen.ended ==> gen.over)
    && forall id :: id in gen.active ==>
        && gen.active[id] < |s.requests| && s.requests[gen.active[id]].gen == g
        && s.requests[gen.active[id]].id == id && !s.requests[gen.active[id]].at.Done?
  }

  ghost predicate Inv(s: State) {
    && s.used == Held(s.requests) <= s.max
    && (forall n :: 0 <= n < |s.requests| ==> RequestOk(s, n))
    && (forall g :: 0 <= g < |s.gens| ==> GenerationOk(s, g))
  }

  lemma InvFinish(s: State, g: nat, ended: bool)
    requires Inv(s) && g < |s.gens|
    ensures Inv(Finish(s, g, ended))
  {
    var s' := Finish(s, g, ended);
    HeldSame(s.requests, s'.requests);
    forall n | 0 <= n < |s'.requests| ensures RequestOk(s', n) {
      assert RequestOk(s, n);
    }
    forall h | 0 <= h < |s'.gens| ensures GenerationOk(s', h) {
      assert GenerationOk(s, h);
    }
  }

  lemma InvAdmit(s: State, g: nat, id: string)
    requires Inv(s) && Running(s, g) && id !in s.gens[g].active && s.used < s.max
    ensures Inv(Admit(s, g, id))
  {
    var s' := Admit(s, g, id);
    assert s'.requests[..|s.requests|] == s.requests;
    forall n | 0 <= n < |s'.requests| ensures RequestOk(s', n) {
      if n < |s.requests| { assert RequestOk(s, n); }
    }
    forall h | 0 <= h < |s'.gens| ensures GenerationOk(s', h) {
      assert GenerationOk(s, h);
    }
  }

  /** Moving one request along, its generation's map unchanged. */
  lemma InvMove(s: State, n: nat, r: Request, used: nat)
    requires Inv(s) && n < |s.requests| && r.gen == s.requests[n].gen && r.id == s.requests[n].id
    requires !r.at.Done? && !s.requests[n].at.Done? && (s.requests[n].cancelled ==> r.cancelled)
    requires r.releases == (if HoldsSlot(r) then 0 else 1)
    requires used == Held(s.requests[n := r]) <= s.max
    ensures Inv(s.(requests := s.requests[n := r], used := used))
  {
    hide Held;
    var s' := s.(requests := s.requests[n := r], used := used);
    assert RequestOk(s, n);
    forall m | 0 <= m < |s'.requests| ensures RequestOk(s', m) {
      assert RequestOk(s, m);
    }
    forall h | 0 <= h < |s'.gens| ensures GenerationOk(s', h) {
      assert GenerationOk(s, h);
    }
  }

  lemma InvExpire(s: State, n: nat)
    requires Inv(s) && Enabled(s, Expire(n))
    ensures Inv(Apply(s, Expire(n)))
  {
    hide Held;
    assert RequestOk(s, n);
    HeldSame(s.requests, s.requests[n := s.requests[n].(cancelled := true)]);
    InvMove(s, n, s.requests[n].(cancelled := true), s.used);
  }

  lemma InvForget(s: State, n: nat)
    requires Inv(s) && AtStep(s, n, Forgetting)
    ensures Inv(Apply(s, Forget(n)))
  {
    hide Held;
    var s' := Apply(s, Forget(n));
    assert RequestOk(s, n);
    HeldUpdate(s.requests, n, s'.requests[n]);
    forall m | 0 <= m < |s'.requests| ensures RequestOk(s', m) {
      assert RequestOk(s, m);
    }
    forall h | 0 <= h < |s'.gens| ensures GenerationOk(s', h) {
      assert GenerationOk(s, h);
    }
  }

  lemma InvCancelFrame(s: State, g: nat, id: string)
    requires Inv(s) && Running(s, g)
    ensures Inv(Apply(s, CancelFrame(g, id)))
  {
    hide Held;
    assert GenerationOk(s, g);
    if id in s.gens[g].active {
      var n := s.gens[g].active[id];
      var r := s.requests[n].(cancelled := true);
      assert RequestOk(s, n);
      HeldUpdate(s.requests, n, r);
      InvMove(s, n, r, s.used);
    }
  }

  /** Every step keeps the invariant. */
  lemma InvStep(s: State, l: Label)
    requires Inv(s) && Enabled(s, l)
    ensures Inv(Apply(s, l)) && Apply(s, l).max == s.max
  {
    hide Held, HoldsSlot;
    match l
    case Open =>
      var s' := Apply(s, l);
      forall n | 0 <= n < |s'.requests| ensures RequestOk(s', n) { assert RequestOk(s, n); }
      forall h | 0 <= h < |s'.gens| ensures GenerationOk(s', h) {
        if h < |s.gens| { assert GenerationOk(s, h); }
      }
    case Accept(g, id, deadlineOk) =>
      if id in s.gens[g].active || !deadlineOk || s.used >= s.max {
        InvFinish(s, g, true);
      } else {
        InvAdmit(s, g, id);
      }
    case CancelFrame(g, id) => InvCancelFrame(s, g, id);
    case Expire(n) => InvExpire(s, n);
    case Lapse(g) => InvFinish(s, g, false);
    case End(g) => InvFinish(s, g, true);
    case HandlerEnd(n) => MoveAlong(s, n, Writing);
    case Written(n, ok) =>
      MoveAlong(s, n, Leaving);
      if !ok {
        InvFinish(s.(requests := s.requests[n := s.requests[n].(at := Leaving)]), s.requests[n].gen, false);
      }
    case Release(n) => InvRelease(s, n);
    case Forget(n) => InvForget(s, n);
  }

  lemma MoveAlong(s: State, n: nat, at: At)
    requires Inv(s) && n < |s.requests| && HoldsSlot(s.requests[n]) && (at == Writing || at == Leaving)
    ensures Inv(s.(requests := s.requests[n := s.requests[n].(at := at)]))
  {
    var r := s.requests[n].(at := at);
    assert RequestOk(s, n);
    HeldUpdate(s.requests, n, r);
    InvMove(s, n, r, s.used);
    assert s.(requests := s.requests[n := r], used := s.used) == s.(requests := s.requests[n := r]);
  }

  lemma InvRelease(s: State, n: nat)
    requires Inv(s) && AtStep(s, n, Leaving) && s.used > 0
    ensures Inv(Apply(s, Release(n)))
  {
    var r := s.requests[n].(at := Forgetting, releases := s.requests[n].releases + 1);
    assert RequestOk(s, n);
    HeldUpdate(s.requests, n, r);
    InvMove(s, n, r, s.used - 1);
  }

  // ---- every run, across all generations ----

  function Initial(max: nat): State {
    State(max, 0, [], [])
  }

  function After(max: nat, run: seq<Label>): Option<State> {
    if run == [] then Some(Initial(max))
    else
      var s := After(max, run[..|run| - 1]);
      var l := run[|run| - 1];
      if s.Some? && Enabled(s.value, l) then Some(Apply(s.value, l)) else None
  }

  lemma {:induction false} InvRun(max: nat, run: seq<Label>)
    requires After(max, run).Some?
    ensures Inv(After(max, run).value) && After(max, run).value.max == max
    decreases |run|
  {
    if run == [] {
    } else {
      hide Inv, Enabled, Apply;
      InvRun(max, run[..|run| - 1]);
      InvStep(After(max, run[..|run| - 1]).value, run[|run| - 1]);
    }
  }

  /** Slot accounting over every run and all reconnects: the slots in use are
      the accepted requests not yet released and never exceed the limit; a
      request gives its slot back at most once, and exactly once by the time it
      is done, so a goroutine about to release never waits. */
  lemma SlotAccounting(max: nat, run: seq<Label>)
    requires After(max, run).Some?
    ensures var s := After(max, run).value;
      && s.used == Held(s.requests) <= max
      && (forall n :: 0 <= n < |s.requests| ==> s.requests[n].releases <= 1)
      && (forall n :: 0 <= n < |s.requests| && s.requests[n].at.Done? ==> s.requests[n].releases == 1)
      && (forall n :: 0 <= n < |s.requests| && s.requests[n].at.Leaving? ==> Enabled(s, Release(n)))
  {
    hide After, Held;
    InvRun(max, run);
    var s := After(max, run).value;
    forall n | 0 <= n < |s.requests|
      ensures s.requests[n].releases <= 1 && (s.requests[n].at.Done? ==> s.requests[n].releases == 1)
      ensures s.requests[n].at.Leaving? ==> Enabled(s, Release(n))
    {
      assert RequestOk(s, n);
      if HoldsSlot(s.requests[n]) { HeldPositive(s.requests, n); }
    }
  }

  lemma {:induction false} HeldPositive(requests: seq<Request>, n: nat)
    requires n < |requests| && HoldsSlot(requests[n])
    ensures Held(requests) > 0
    decreases |requests|
  {
    if n < |requests| - 1 {
      HeldPositive(requests[..|requests| - 1], n);
    }
  }

  /** At most one handler per request ID and generation; and once a generation
      has ended, or a response could not be written, every request accepted in
      it is cancelled. */
  lemma GenerationSafety(max: nat, run: seq<Label>, m: nat, n: nat)
    requires After(max, run).Some? && m < |After(max, run).value.requests| && n < |After(max, run).value.requests|
    ensures var s := After(max, run).value;
      var a, b := s.requests[m], s.requests[n];
      && (a.gen == b.gen && a.id == b.id && !a.at.Done? && !b.at.Done? ==> m == n)
      && a.gen < |s.gens| && (s.gens[a.gen].ended || s.gens[a.gen].over || a.at.Done? ==> a.cancelled)
  {
    hide After, Held;
    InvRun(max, run);
    var s := After(max, run).value;
    assert RequestOk(s, m) && RequestOk(s, n);
    assert GenerationOk(s, s.requests[m].gen);
  }

  // ---- exactly when a generation is over and a request is cancelled ----

  /** The steps that end a generation's context: `Connect` returning, the context
      lapsing, a request it must refuse, a response it could not write. */
  ghost predicate Ends(s: State, l: Label, g: nat) {
    match l
    case End(h) => h == g
    case Lapse(h) => h == g
    case Accept(h, id, deadlineOk) =>
      h == g && g < |s.gens| && (id in s.gens[g].active || !deadlineOk || s.used >= s.max)
    case Written(n, ok) => !ok && n < |s.requests| && s.requests[n].gen == g
    case _ => false
  }

  /** The steps that cancel one request: its deadline, its own end, and a cancel
      frame with its ID while it is unfinished. */
  ghost predicate Stops(s: State, l: Label, n: nat)
    requires n < |s.requests|
  {
    || l == Expire(n) || l == Forget(n)
    || (l == CancelFrame(s.requests[n].gen, s.requests[n].id) && !s.requests[n].at.Done?)
  }

  /** What one step changes about generations and cancellation. */
  ghost predicate Changes(s: State, l: Label, s': State) {
    && |s.gens| <= |s'.gens| && |s.requests| <= |s'.requests| <= |s.requests| + 1
    && (forall g :: 0 <= g < |s.gens| ==> (s'.gens[g].over <==> s.gens[g].over || Ends(s, l, g)))
    && (forall g :: |s.gens| <= g < |s'.gens| ==> !s'.gens[g].over)
    && (forall n :: 0 <= n < |s.requests| ==>
         && s'.requests[n].gen == s.requests[n].gen && s'.requests[n].id == s.requests[n].id
         && (s'.requests[n].cancelled <==>
              s.requests[n].cancelled || Ends(s, l, s.requests[n].gen) || Stops(s, l, n)))
    && (forall n :: |s.requests| <= n < |s'.requests| ==>
         && s'.requests[n].gen < |s.gens| && !Ends(s, l, s'.requests[n].gen)
         && (s'.requests[n].cancelled <==> s.gens[s'.requests[n].gen].over))
  }

  lemma ChangesFinish(s: State, l: Label, g: nat)
    requires Enabled(s, l) && (l == End(g) || l == Lapse(g) || (l.Accept? && l.gen == g && Ends(s, l, g)))
    ensures g < |s.gens| && Changes(s, l, Finish(s, g, !l.Lapse?))
  {
  }

  lemma ChangesAdmit(s: State, l: Label)
    requires Enabled(s, l) && l.Accept? && !Ends(s, l, l.gen)
    ensures Changes(s, l, Admit(s, l.gen, l.id))
  {
  }

  lemma ChangesCancel(s: State, l: Label)
    requires Inv(s) && Enabled(s, l) && l.CancelFrame?
    ensures Changes(s, l, Apply(s, l))
  {
    hide Held;
    assert GenerationOk(s, l.gen);
    forall n | && 0 <= n < |s.requests| && s.requests[n].gen == l.gen
               && s.requests[n].id == l.id && !s.requests[n].at.Done?
      ensures l.id in s.gens[l.gen].active && s.gens[l.gen].active[l.id] == n
    {
      assert RequestOk(s, n);
    }
  }

  lemma ChangesWritten(s: State, l: Label)
    requires Enabled(s, l) && l.Written?
    ensures Changes(s, l, Apply(s, l))
  {
  }

  lemma ChangesForget(s: State, l: Label)
    requires Enabled(s, l) && l.Forget?
    ensures Changes(s, l, Apply(s, l))
  {
  }

  lemma ChangesOther(s: State, l: Label)
    requires Enabled(s, l) && (l.Open? || l.Expire? || l.HandlerEnd? || l.Release?)
    ensures Changes(s, l, Apply(s, l))
  {
  }

  lemma StepExact(s: State, l: Label)
    requires Inv(s) && Enabled(s, l)
    ensures Changes(s, l, Apply(s, l))
  {
    hide Changes, Inv, Finish, Admit;
    match l
    case Accept(g, _, _) =>
      if Ends(s, l, g) { ChangesFinish(s, l, g); } else { ChangesAdmit(s, l); }
    case End(g) => ChangesFinish(s, l, g);
    case Lapse(g) => ChangesFinish(s, l, g);
    case CancelFrame(_, _) => ChangesCancel(s, l);
    case Written(_, _) => ChangesWritten(s, l);
    case Forget(_) => ChangesForget(s, l);
    case _ => ChangesOther(s, l);
  }

  /** Some step of the run ended generation `g`. */
  ghost predicate WasEnded(max: nat, run: seq<Label>, g: nat) {
    exists k :: 0 <= k < |run| && After(max, run[..k]).Some? && EndedAt(After(max, run[..k]).value, run[k], g)
  }

  ghost predicate EndedAt(s: State, l: Label, g: nat) {
    g < |s.gens| && Ends(s, l, g)
  }

  /** Some step of the run cancelled request `n` by itself. */
  ghost predicate WasStopped(max: nat, run: seq<Label>, n: nat) {
    exists k :: 0 <= k < |run| && After(max, run[..k]).Some? && StoppedAt(After(max, run[..k]).value, run[k], n)
  }

  ghost predicate StoppedAt(s: State, l: Label, n: nat) {
    n < |s.requests| && Stops(s, l, n)
  }

  lemma EndedLonger(max: nat, run: seq<Label>, g: nat)
    requires run != [] && After(max, run).Some?
    ensures var before, l := run[..|run| - 1], run[|run| - 1];
      WasEnded(max, run, g) <==> WasEnded(max, before, g) || EndedAt(After(max, before).value, l, g)
  {
    hide After, EndedAt;
    var before, l := run[..|run| - 1], run[|run| - 1];
    AfterBefore(max, run);
    assert forall k :: 0 <= k < |before| ==> run[..k] == before[..k] && run[k] == before[k];
    assert run[..|run| - 1] == before;
  }

  lemma StoppedLonger(max: nat, run: seq<Label>, n: nat)
    requires run != [] && After(max, run).Some?
    ensures var before, l := run[..|run| - 1], run[|run| - 1];
      WasStopped(max, run, n) <==> WasStopped(max, before, n) || StoppedAt(After(max, before).value, l, n)
  {
    hide After, StoppedAt;
    var before, l := run[..|run| - 1], run[|run| - 1];
    AfterBefore(max, run);
    assert forall k :: 0 <= k < |before| ==> run[..k] == before[..k] && run[k] == before[k];
    assert run[..|run| - 1] == before;
  }

  lemma AfterBefore(max: nat, run: seq<Label>)
    requires run != [] && After(max, run).Some?
    ensures After(max, run[..|run| - 1]).Some?
    ensures Enabled(After(max, run[..|run| - 1]).value, run[|run| - 1])
    ensures After(max, run).value == Apply(After(max, run[..|run| - 1]).value, run[|run| - 1])
  {
    hide Enabled, Apply;
  }

  /** A generation is over if and only if some step of the run ended it. */
  lemma {:induction false} OverExact(max: nat, run: seq<Label>, g: nat)
    requires After(max, run).Some? && g < |After(max, run).value.gens|
    ensures After(max, run).value.gens[g].over <==> WasEnded(max, run, g)
    decreases |run|
  {
    hide Apply, Enabled, WasEnded, Ends, Inv;
    if run != [] {
      var before, l := run[..|run| - 1], run[|run| - 1];
      AfterBefore(max, run);
      var s := After(max, before).value;
      InvRun(max, before);
      StepExact(s, l);
      EndedLonger(max, run, g);
      if g < |s.gens| {
        OverExact(max, before, g);
      } else {
        NeverEnded(max, before, g);
      }
    }
  }

  lemma {:induction false} NeverEnded(max: nat, run: seq<Label>, g: nat)
    requires After(max, run).Some? && g >= |After(max, run).value.gens|
    ensures !WasEnded(max, run, g)
    decreases |run|
  {
    hide Apply, Enabled, Ends, Inv;
    if run != [] {
      AfterBefore(max, run);
      InvRun(max, run[..|run| - 1]);
      StepExact(After(max, run[..|run| - 1]).value, run[|run| - 1]);
      NeverEnded(max, run[..|run| - 1], g);
      EndedLonger(max, run, g);
    }
  }

  lemma {:induction false} NeverStopped(max: nat, run: seq<Label>, n: nat)
    requires After(max, run).Some? && n >= |After(max, run).value.requests|
    ensures !WasStopped(max, run, n)
    decreases |run|
  {
    hide Apply, Enabled, Stops, Inv;
    if run != [] {
      AfterBefore(max, run);
      InvRun(max, run[..|run| - 1]);
      StepExact(After(max, run[..|run| - 1]).value, run[|run| - 1]);
      NeverStopped(max, run[..|run| - 1], n);
      StoppedLonger(max, run, n);
    }
  }

  /** A request is cancelled if and only if its generation is over, or it was
      cancelled by name, by its deadline or by finishing. */
  lemma {:induction false} CancelledExact(max: nat, run: seq<Label>, n: nat)
    requires After(max, run).Some? && n < |After(max, run).value.requests|
    ensures var s := After(max, run).value;
      && s.requests[n].gen < |s.gens|
      && (s.requests[n].cancelled <==> s.gens[s.requests[n].gen].over || WasStopped(max, run, n))
    decreases |run|
  {
    hide Apply, Enabled, WasStopped, Ends, Inv, Stops;
    InvRun(max, run);
    InRange(After(max, run).value, n);
    if run != [] {
      var before, l := run[..|run| - 1], run[|run| - 1];
      AfterBefore(max, run);
      var s := After(max, before).value;
      InvRun(max, before);
      StepExact(s, l);
      StoppedLonger(max, run, n);
      if n < |s.requests| {
        CancelledExact(max, before, n);
      } else {
        NeverStopped(max, before, n);
      }
    }
  }

  lemma InRange(s: State, n: nat)
    requires Inv(s) && n < |s.requests|
    ensures s.requests[n].gen < |s.gens|
  {
    hide Held;
    assert RequestOk(s, n);
  }
}
