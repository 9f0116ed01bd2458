/** The imperative side of `bridge/development/connector.go`: the critical
    sections of `Connect`, the bounded response writer with `handle`, and the
    reconnect loop of `Run`. */
module ConnectorLoops {
  import opened Words
  import C = Connector

  /** One connector object; its fields are the shared state of `Connector`. */
  class Hub {
    const max: nat
    var used: nat
    var gens: seq<C.Generation>
    var requests: seq<C.Request>

    ghost function View(): C.State
      reads this
    {
      C.State(max, used, gens, requests)
    }

    constructor (max: nat)
      ensures View() == C.Initial(max)
    {
      this.max, used, gens, requests := max, 0, [], [];
    }

    /** The critical section for a "request" frame. */
    method OnRequest(g: nat, id: string, deadlineOk: bool) returns (accepted: bool)
      requires C.Inv(View()) && C.Enabled(View(), C.Accept(g, id, deadlineOk))
      modifies this
      ensures View() == C.Apply(old(View()), C.Accept(g, id, deadlineOk))
      ensures accepted <==> id !in old(gens)[g].active && deadlineOk && old(used) < max
      ensures accepted ==> |requests| == |old(requests)| + 1 && gens[g].over == old(gens)[g].over
      ensures accepted ==> requests[|old(requests)|].cancelled == old(gens)[g].over
      ensures !accepted ==> gens[g].ended && requests == C.CancelAll(old(requests), g)
    {
      if id in gens[g].active || !deadlineOk {
        OnEnd(g);
        return false;
      }
      if used >= max {
        OnEnd(g);
        return false;
      }
      used := used + 1;
      requests := requests + [C.Request(g, id, C.Handling, gens[g].over, 0)];
      gens := gens[g := gens[g].(active := gens[g].active[id := |requests| - 1])];
      accepted := true;
    }

    /** The critical section for a "cancel" frame. */
    method OnCancel(g: nat, id: string)
      requires C.Inv(View()) && C.Enabled(View(), C.CancelFrame(g, id))
      modifies this
      ensures View() == C.Apply(old(View()), C.CancelFrame(g, id))
      ensures forall n :: 0 <= n < |requests| && requests[n].gen == g && requests[n].id == id ==> requests[n].cancelled
    {
      assert C.GenerationOk(View(), g);
      if id in gens[g].active {
        var n := gens[g].active[id];
        requests := requests[n := requests[n].(cancelled := true)];
      }
      forall n | 0 <= n < |requests| && requests[n].gen == g && requests[n].id == id ensures requests[n].cancelled {
        assert C.RequestOk(old(View()), n);
      }
    }

    /** `Connect` returning: cancel whatever is active, in map order, and the
        generation's context with it. Requests already forgotten were cancelled
        when they finished, so both together cancel the whole generation. */
    method OnEnd(g: nat)
      requires C.Inv(View()) && C.Enabled(View(), C.End(g))
      modifies this
      ensures View() == C.Apply(old(View()), C.End(g))
    {
      var left := gens[g].active.Keys;
      assert C.GenerationOk(View(), g);
      forall n | 0 <= n < |requests| && requests[n].gen == g
        ensures requests[n].at.Done? || (requests[n].id in gens[g].active && gens[g].active[requests[n].id] == n)
        ensures requests[n].at.Done? ==> requests[n].cancelled
      {
        assert C.RequestOk(View(), n);
      }
      while left != {}
        invariant gens == old(gens) && used == old(used) && left <= old(gens)[g].active.Keys
        invariant |requests| == |old(requests)|
        invariant forall n :: 0 <= n < |requests| ==>
          (requests[n] == if old(requests)[n].gen == g && !old(requests)[n].at.Done? && old(requests)[n].id !in left
                          then old(requests)[n].(cancelled := true) else old(requests)[n])
        decreases |left|
      {
        var id :| id in left;
        var n := gens[g].active[id];
        requests := requests[n := requests[n].(cancelled := true)];
        left := left - {id};
      }
      gens := gens[g := gens[g].(over := true, ended := true)];
      assert requests == C.CancelAll(old(requests), g);
    }

    /** The deferred function of a request goroutine gives the slot back first,
        without the lock. */
    method Release(n: nat)
      requires C.Inv(View()) && C.Enabled(View(), C.Release(n))
      modifies this
      ensures View() == C.Apply(old(View()), C.Release(n))
      ensures C.Enabled(View(), C.Forget(n))
    {
      used := used - 1;
      var r := requests[n];
      requests := requests[n := r.(at := C.Forgetting, releases := r.releases + 1)];
    }

    /** Then, under the lock, it removes the entry from the active map. */
    method Forget(n: nat)
      requires C.Inv(View()) && C.Enabled(View(), C.Forget(n))
      modifies this
      ensures View() == C.Apply(old(View()), C.Forget(n))
      ensures requests[n].id !in gens[requests[n].gen].active
    {
      var r := requests[n];
      gens := gens[r.gen := gens[r.gen].(active := gens[r.gen].active - {r.id})];
      requests := requests[n := r.(at := C.Done, cancelled := true)];
    }
  }

  // ---- the bounded response ----

  const MAX_BODY_BYTES := 0x100_0000

  /** What a handler does with its response writer. */
  datatype Act = Header(status: nat) | Body(chunk: Bytes)

  function Joined(acts: seq<Act>): Bytes {
    if acts == [] then []
    else Joined(acts[..|acts| - 1]) + match acts[|acts| - 1] case Header(_) => [] case Body(b) => b
  }

  /** The first status set, explicitly or by the first write; 200 if none. */
  function FirstStatus(acts: seq<Act>): nat {
    if acts == [] then 0
    else
      var s := FirstStatus(acts[..|acts| - 1]);
      if s != 0 then s else match acts[|acts| - 1] case Header(h) => h case Body(_) => 200
  }

  class BoundedResponse {
    var body: Bytes
    var status: nat
    var overflow: bool

    /** Everything the handler attempted, in order. */
    ghost var acts: seq<Act>

    /** The buffer never exceeds the limit; it holds every byte written, unless
        all of it together would not fit. */
    ghost predicate Valid()
      reads this
    {
      && |body| <= MAX_BODY_BYTES && status == FirstStatus(acts)
      && (if overflow then |Joined(acts)| > MAX_BODY_BYTES else body == Joined(acts))
    }

    constructor ()
      ensures Valid() && acts == []
    {
      body, status, overflow, acts := [], 0, false, [];
    }

    method WriteHeader(s: nat)
      requires Valid()
      modifies this
      ensures Valid() && acts == old(acts) + [Header(s)]
    {
      if status == 0 {
        status := s;
      }
      acts := acts + [Header(s)];
      assert acts[..|acts| - 1] == old(acts);
    }

    method Write(chunk: Bytes) returns (ok: bool)
      requires Valid()
      modifies this
      ensures Valid() && acts == old(acts) + [Body(chunk)]
      ensures ok <==> |chunk| <= MAX_BODY_BYTES - |old(body)|
      ensures overflow <==> old(overflow) || !ok
    {
      if status == 0 {
        status := 200;
      }
      acts := acts + [Body(chunk)];
      assert acts[..|acts| - 1] == old(acts);
      if |chunk| > MAX_BODY_BYTES - |body| {
        overflow := true;
        return false;
      }
      body := body + chunk;
      ok := true;
    }
  }

  datatype Response = Response(status: nat, body: Bytes)

  /** `handle`: whatever the handler writes, and however it ends, the frame sent
      back is the handler's whole response when it returned and that response
      is in bounds and valid, and the fixed 502 otherwise; a body is never
      truncated. */
  method Handle(validJson: Bytes -> bool, unavailable: Bytes, acts: seq<Act>, panics: bool) returns (r: Response)
    ensures var status := if FirstStatus(acts) == 0 then 200 else FirstStatus(acts);
      r == if !panics && 200 <= status <= 599 && |Joined(acts)| <= MAX_BODY_BYTES && validJson(Joined(acts))
           then Response(status, Joined(acts)) else Response(502, unavailable)
  {
    var w := new BoundedResponse();
    var i := 0;
    while i < |acts|
      invariant 0 <= i <= |acts| && w.Valid() && w.acts == acts[..i] && fresh(w)
    {
      assert acts[..i + 1] == acts[..i] + [acts[i]];
      match acts[i] {
        case Header(s) => w.WriteHeader(s);
        case Body(b) => var ok := w.Write(b);
      }
      i := i + 1;
    }
    assert acts[..i] == acts;
    if panics {
      return Response(502, unavailable);
    }
    var status := if w.status == 0 then 200 else w.status;
    if w.overflow || status < 200 || status > 599 || !validJson(w.body) {
      return Response(502, unavailable);
    }
    r := Response(status, w.body);
  }

  // ---- reconnecting ----

  /** The doubling step of `Run`. */
  function NextDelay(delay: nat, max: nat): nat {
    if delay < max / 2 then delay * 2 else max
  }

  function DelayAfter(min: nat, max: nat, failures: nat): nat {
    if failures == 0 then min else NextDelay(DelayAfter(min, max, failures - 1), max)
  }

  /** Exponential backoff, in closed form: it doubles while the doubled delay
      stays below the maximum and is the maximum from then on. */
  lemma {:induction false} DelayClosedForm(min: nat, max: nat, k: nat)
    requires 0 < min <= max
    ensures k > 0 ==> DelayAfter(min, max, k) == if min * Pow2(k - 1) < max / 2 then min * Pow2(k) else max
    ensures min <= DelayAfter(min, max, k) <= max
    decreases k
  {
    hide Pow2;
    if k == 1 {
      Doubles(min, 0);
      One();
    } else if k > 1 {
      DelayClosedForm(min, max, k - 1);
      Doubles(min, k - 1);
      Doubles(min, k - 2);
    }
  }

  lemma Doubles(min: nat, k: nat)
    ensures min * Pow2(k + 1) == 2 * (min * Pow2(k))
  {
    assert min * (2 * Pow2(k)) == 2 * (min * Pow2(k));
  }

  lemma One()
    ensures Pow2(0) == 1
  {
  }

  /** How one `Connect` ended: whether `Run` gives up after it (a permanent
      error, a cancelled context, no entropy), whether it had lasted over ten
      seconds, and the random jitter drawn afterwards. */
  datatype Attempt = Attempt(final: bool, long: bool, jitter: nat)

  /** How many short connections have failed in a row before attempt `i`'s wait. */
  function Streak(attempts: seq<Attempt>, i: nat): nat
    requires i < |attempts|
  {
    if i == 0 || attempts[i].long then 0 else Streak(attempts, i - 1) + 1
  }

  function Backoff(min: nat, max: nat, attempts: seq<Attempt>, i: nat): nat
    requires i < |attempts|
  {
    DelayAfter(min, max, Streak(attempts, i))
  }

  lemma BackoffNext(min: nat, max: nat, attempts: seq<Attempt>, i: nat)
    requires i < |attempts|
    ensures Backoff(min, max, attempts, i) ==
      if i == 0 || attempts[i].long then min else NextDelay(Backoff(min, max, attempts, i - 1), max)
  {
  }

  /** `Run`, over any history of attempts: it stops at the first final one, and
      wait `i` lies between half and all of the backoff for the current streak
      of short connections. */
  method Run(min: nat, max: nat, attempts: seq<Attempt>) returns (waits: seq<nat>, stopped: bool)
    requires 0 < min <= max
    ensures |waits| <= |attempts| && (stopped <==> |waits| < |attempts|)
    ensures forall i :: 0 <= i < |waits| ==> !attempts[i].final
    ensures stopped ==> attempts[|waits|].final
    ensures forall i :: 0 <= i < |waits| ==> InRange(waits[i], Backoff(min, max, attempts, i))
  {
    hide InRange, Backoff;
    waits, stopped := [], false;
    var delay := min;
    var i := 0;
    while i < |attempts|
      invariant 0 <= i <= |attempts| && |waits| == i
      invariant min <= delay <= max
      invariant delay == if i == 0 then min else NextDelay(Backoff(min, max, attempts, i - 1), max)
      invariant forall j :: 0 <= j < i ==> !attempts[j].final
      invariant forall j :: 0 <= j < i ==> InRange(waits[j], Backoff(min, max, attempts, j))
    {
      if attempts[i].final {
        return waits, true;
      }
      if attempts[i].long {
        delay := min;
      }
      BackoffNext(min, max, attempts, i);
      var wait := Pause(delay, attempts[i].jitter);
      waits := waits + [wait];
      delay := NextDelay(delay, max);
      i := i + 1;
    }
  }

  /** Half the delay plus a random part of the other half. */
  method Pause(delay: nat, jitter: nat) returns (wait: nat)
    requires delay > 0
    ensures InRange(wait, delay)
  {
    var span := if delay / 2 > 1 then delay / 2 else 1;
    wait := delay / 2 + jitter % span;
    if wait < 1 {
      wait := 1;
    }
  }

  predicate InRange(wait: nat, delay: nat) {
    1 <= wait && delay / 2 <= wait <= delay
  }

  /** `sessionRefreshAt`, in nanoseconds: halfway through what is left of the
      lease, and within a minute. */
  function RefreshAt(now: nat, expires: nat): int
    requires now < expires
  {
    var half := (expires - now) / 2;
    now + if half < 60_000_000_000 then half else 60_000_000_000
  }

  /** A renewal always falls due before the lease runs out, with at least half
      of the remaining lease still ahead: a minute from now, or at the midpoint
      to within a nanosecond if that is sooner. */
  lemma RefreshInTime(now: nat, expires: nat)
    requires now < expires
    ensures now <= RefreshAt(now, expires) < expires
    ensures 2 * (expires - RefreshAt(now, expires)) >= expires - now
    ensures RefreshAt(now, expires) - now <= 60_000_000_000
    ensures RefreshAt(now, expires) - now == 60_000_000_000
         || 0 <= (expires - now) - 2 * (RefreshAt(now, expires) - now) <= 1
  {
  }
}
