/** `lotor/ownership.go`: the owner assertion cache and the single MOVED retry.
    Timestamps are microseconds in int64, and the arithmetic on them wraps. */
module Ownership {
  import opened Words

  const MINUTE := 60_000_000
  const MARGIN := 5_000_000
  const KEY_SIZE := 32

  /** int64 arithmetic. */
  function Wrap(x: int): int64 {
    (x + TWO63) % TWO64 - TWO63
  }

  /** A wall clock in microseconds since 1970; it stays a minute short of 2^63. */
  type Clock = t: int | 0 <= t < 0x7FFF_FFFF_0000_0000

  datatype Assertion = Assertion(
    tenantID: string,
    applicationID: string,
    environmentID: string,
    endpoint: string,
    ownerInstanceID: string,
    ownershipEpoch: int64,
    issuedAt: int64,
    expiresAt: int64,
    version: int,
    keyID: string,
    signature: string)

  const NO_ASSERTION := Assertion("", "", "", "", "", 0, 0, 0, 0, "", "")

  /** URL parsing, the key fingerprint and Ed25519 verification. */
  datatype Env = Env(addressOk: string -> bool, fingerprint: Bytes -> string, signed: (Bytes, Assertion) -> bool)

  /** `verifyOwnership`. */
  predicate Verifies(e: Env, v: Assertion, key: Bytes, now: Clock) {
    && v.version == 1 && v.ownershipEpoch >= 1 && v.ownerInstanceID != ""
    && v.tenantID != "" && v.applicationID != "" && v.environmentID != ""
    && v.issuedAt <= Wrap(now + MINUTE) && now < v.expiresAt && Wrap(v.expiresAt - v.issuedAt) <= MINUTE
    && e.addressOk(v.endpoint) && v.keyID == e.fingerprint(key) && e.signed(key, v)
  }

  predicate SameScope(a: Assertion, b: Assertion) {
    a.tenantID == b.tenantID && a.applicationID == b.applicationID && a.environmentID == b.environmentID
  }

  /** The freshness test on a cached assertion. */
  predicate Servable(v: Assertion, now: Clock) {
    v.version != 0 && Wrap(now + MARGIN) < v.expiresAt
  }

  // ---- time bounds ----

  lemma WrapIs(x: int)
    requires -TWO63 <= x < TWO63
    ensures Wrap(x) == x
  {
  }

  lemma WrapOver(x: int)
    requires TWO63 <= x < TWO64
    ensures Wrap(x) == x - TWO64
  {
    assert (x + TWO63) / TWO64 == 1;
  }

  /** What a verified assertion is, without wrapped arithmetic: signed with the
      key whose fingerprint it names, for a complete scope and an epoch, issued
      at most a minute ahead, not expired, and valid for at most a minute unless
      the difference of its times overflows. */
  ghost predicate Genuine(e: Env, v: Assertion, key: Bytes, now: Clock) {
    && e.signed(key, v) && v.keyID == e.fingerprint(key) && e.addressOk(v.endpoint)
    && v.version == 1 && v.ownershipEpoch >= 1 && v.ownerInstanceID != ""
    && v.tenantID != "" && v.applicationID != "" && v.environmentID != ""
    && v.issuedAt <= now + 60_000_000 && now < v.expiresAt
    && (v.expiresAt - v.issuedAt <= 60_000_000 || v.expiresAt - v.issuedAt >= TWO63)
  }

  lemma VerifiesExact(e: Env, v: Assertion, key: Bytes, now: Clock)
    ensures Verifies(e, v, key, now) <==> Genuine(e, v, key, now)
  {
    WrapIs(now + MINUTE);
    var d := v.expiresAt - v.issuedAt;
    if d >= TWO63 {
      WrapOver(d);
    } else if d >= -TWO63 {
      WrapIs(d);
    }
  }

  /** The cache is used exactly while more than five seconds are left. */
  lemma ServableExact(v: Assertion, now: Clock)
    ensures Servable(v, now) <==> v.version != 0 && v.expiresAt - now > 5_000_000
  {
    WrapIs(now + MARGIN);
  }

  /** A cached assertion is served with more than 5 s left, and less than 115 s
      after the clock reading it was verified against. */
  lemma CacheWindow(e: Env, v: Assertion, key: Bytes, verifiedAt: Clock, now: Clock)
    requires Verifies(e, v, key, verifiedAt) && v.issuedAt >= 0 && Servable(v, now)
    ensures v.expiresAt - now > MARGIN
    ensures now - verifiedAt < 115_000_000
  {
    WrapIs(now + MARGIN);
    WrapIs(verifiedAt + MINUTE);
    WrapIs(v.expiresAt - v.issuedAt);
  }

  /** The one-minute validity window is enforced exactly when the subtraction
      does not overflow; an assertion issued at or after 1970 never overflows. */
  lemma WindowExact(e: Env, v: Assertion, key: Bytes, now: Clock)
    requires Verifies(e, v, key, now)
    ensures v.expiresAt - v.issuedAt <= MINUTE <==> v.expiresAt - v.issuedAt < TWO63
    ensures v.issuedAt >= 0 ==> v.expiresAt - v.issuedAt <= MINUTE
  {
    WrapIs(now + MINUTE);
    var d := v.expiresAt - v.issuedAt;
    if d < TWO63 {
      WrapIs(d);
    } else {
      WrapOver(d);
    }
  }

  /** With a far enough negative issue time the check passes for a window of
      centuries. */
  lemma WindowOverflows()
    ensures exists e, v, key: Bytes, now ::
      Verifies(e, v, key, now) && v.expiresAt - v.issuedAt > 1_000_000 * MINUTE
  {
    var e := Env(s => true, k => "k", (k, a) => true);
    var v := Assertion("t", "a", "n", "lwp://h:1", "o", 1, -TWO63, 0x4000_0000_0000_0000, 1, "k", "");
    WrapOver(v.expiresAt - v.issuedAt);
    WrapIs(0 + MINUTE);
    var key: Bytes := [];
    assert Verifies(e, v, key, 0);
  }

  // ---- the resolver ----

  datatype KeyItem = KeyItem(keyID: string, algorithm: string, publicKey: Option<Bytes>)

  /** The key set a published list amounts to, if every item of it is in order
      and no key ID repeats. */
  function Collect(e: Env, items: seq<KeyItem>): (r: Option<map<string, Bytes>>)
    ensures r.Some? ==> forall id :: id in r.value ==> |r.value[id]| == KEY_SIZE && e.fingerprint(r.value[id]) == id
  {
    if items == [] then Some(map[])
    else
      var m := Collect(e, items[..|items| - 1]);
      var item := items[|items| - 1];
      if m.None? || item.keyID == "" || item.algorithm != "Ed25519" || item.publicKey.None?
         || |item.publicKey.value| != KEY_SIZE || item.keyID != e.fingerprint(item.publicKey.value)
         || item.keyID in m.value then None
      else Some(m.value[item.keyID := item.publicKey.value])
  }

  predicate InOrder(e: Env, item: KeyItem) {
    && item.keyID != "" && item.algorithm == "Ed25519" && item.publicKey.Some?
    && |item.publicKey.value| == 32 && item.keyID == e.fingerprint(item.publicKey.value)
  }

  ghost predicate AllInOrder(e: Env, items: seq<KeyItem>) {
    && (forall i :: 0 <= i < |items| ==> InOrder(e, items[i]))
    && (forall i, j :: 0 <= i < j < |items| ==> items[i].keyID != items[j].keyID)
  }

  ghost predicate Lists(items: seq<KeyItem>, id: string) {
    exists i :: 0 <= i < |items| && items[i].keyID == id
  }

  /** `m` files every listed key under its ID, and nothing else. */
  ghost predicate Files(items: seq<KeyItem>, m: map<string, Bytes>) {
    && (forall id :: id in m <==> Lists(items, id))
    && (forall i :: 0 <= i < |items| ==> items[i].keyID in m && Some(m[items[i].keyID]) == items[i].publicKey)
  }

  lemma OneMore(e: Env, before: seq<KeyItem>, item: KeyItem)
    ensures AllInOrder(e, before + [item]) <==>
      AllInOrder(e, before) && InOrder(e, item) && !Lists(before, item.keyID)
    ensures forall id :: Lists(before + [item], id) <==> Lists(before, id) || id == item.keyID
  {
    hide InOrder;
    var items := before + [item];
    assert items[|before|] == item && forall i :: 0 <= i < |before| ==> items[i] == before[i];
  }

  lemma FilesMore(before: seq<KeyItem>, m: map<string, Bytes>, item: KeyItem)
    requires Files(before, m) && item.publicKey.Some? && item.keyID !in m
    requires forall id :: Lists(before + [item], id) <==> Lists(before, id) || id == item.keyID
    ensures Files(before + [item], m[item.keyID := item.publicKey.value])
  {
    hide Lists;
    var items := before + [item];
    assert items[|before|] == item && forall i :: 0 <= i < |before| ==> items[i] == before[i];
  }

  /** A published list is taken if and only if every item is in order and no key
      ID repeats, and then it is taken whole. */
  lemma {:induction false} CollectExact(e: Env, items: seq<KeyItem>)
    ensures Collect(e, items).Some? <==> AllInOrder(e, items)
    ensures Collect(e, items).Some? ==> Files(items, Collect(e, items).value)
    decreases |items|
  {
    hide AllInOrder, Files, Lists;
    if items == [] {
      NoItems(e);
    } else {
      var before, item := items[..|items| - 1], items[|items| - 1];
      assert items == before + [item];
      CollectExact(e, before);
      OneMore(e, before, item);
      if Collect(e, before).Some? {
        FilesLists(before, Collect(e, before).value, item.keyID);
        if Collect(e, items).Some? {
          FilesMore(before, Collect(e, before).value, item);
        }
      }
    }
  }

  lemma NoItems(e: Env)
    ensures AllInOrder(e, []) && Files([], map[])
  {
  }

  lemma FilesLists(items: seq<KeyItem>, m: map<string, Bytes>, id: string)
    requires Files(items, m)
    ensures id in m <==> Lists(items, id)
  {
    hide Lists;
  }

  lemma {:induction false} CollectFails(e: Env, items: seq<KeyItem>, i: nat)
    requires i <= |items| && Collect(e, items[..i]).None?
    ensures Collect(e, items).None?
    decreases |items| - i
  {
    if i == |items| {
      assert items[..i] == items;
    } else {
      assert items[..i + 1][..i] == items[..i];
      CollectFails(e, items, i + 1);
    }
  }

  class Resolver {
    var keys: map<string, Bytes>
    var cached: Assertion
    ghost var verifiedAt: Clock
    ghost var verifiedKey: Bytes

    /** The cache is empty or holds a verified assertion, and every key is
        filed under its own fingerprint. */
    ghost predicate Valid(e: Env)
      reads this
    {
      && (forall id :: id in keys ==> |keys[id]| == KEY_SIZE && e.fingerprint(keys[id]) == id)
      && (cached.version != 0 ==> Verifies(e, cached, verifiedKey, verifiedAt))
    }

    constructor (ghost e: Env)
      ensures Valid(e) && cached == NO_ASSERTION
    {
      keys, cached, verifiedAt, verifiedKey := map[], NO_ASSERTION, 0, [];
    }

    /** `signingKey`: the published key set replaces the held one only if every
        item of it is in order; `published` is `None` when the fetch failed. */
    method SigningKey(e: Env, keyID: string, published: Option<seq<KeyItem>>) returns (key: Option<Bytes>)
      requires Valid(e)
      modifies this`keys
      ensures Valid(e)
      ensures key.Some? ==> |key.value| == KEY_SIZE && e.fingerprint(key.value) == keyID
      ensures keyID in old(keys) ==> keys == old(keys) && key == Some(old(keys)[keyID])
      ensures keyID !in old(keys) && published.Some? && Collect(e, published.value).Some? ==>
        keys == Collect(e, published.value).value && key == (if keyID in keys then Some(keys[keyID]) else None)
      ensures keyID !in old(keys) && (published.None? || Collect(e, published.value).None?) ==>
        keys == old(keys) && key == None
    {
      if keyID in keys && |keys[keyID]| == KEY_SIZE {
        return Some(keys[keyID]);
      }
      if published.None? {
        return None;
      }
      var items := published.value;
      var refreshed: map<string, Bytes> := map[];
      var i := 0;
      while i < |items|
        invariant 0 <= i <= |items|
        invariant Collect(e, items[..i]) == Some(refreshed)
      {
        var item := items[i];
        assert items[..i + 1][..i] == items[..i];
        if item.keyID == "" || item.algorithm != "Ed25519" || item.publicKey.None? || |item.publicKey.value| != KEY_SIZE
           || item.keyID != e.fingerprint(item.publicKey.value) || item.keyID in refreshed {
          CollectFails(e, items, i + 1);
          return None;
        }
        refreshed := refreshed[item.keyID := item.publicKey.value];
        i := i + 1;
      }
      assert items[..i] == items;
      keys := refreshed;
      key := if keyID in keys then Some(keys[keyID]) else None;
    }

    /** `Resolve`, holding the lock throughout. `now` is read before the fetch,
        and is what the fetched assertion is verified against. */
    method Resolve(e: Env, now: Clock, fetched: Option<Assertion>, published: Option<seq<KeyItem>>)
      returns (r: Option<Assertion>)
      requires Valid(e)
      modifies this
      ensures Valid(e)
      ensures Servable(old(cached), now) ==> r == Some(old(cached)) && unchanged(this)
      ensures old(cached).version != 0 && old(cached).expiresAt - now > 5_000_000 ==> r == Some(old(cached))
      ensures r.Some? ==> r.value == cached && Genuine(e, r.value, verifiedKey, verifiedAt)
      ensures r.Some? ==> r.value.expiresAt - now > 5_000_000 || (verifiedAt == now && fetched == r)
      ensures r.Some? && !Servable(old(cached), now) ==>
        fetched == r && verifiedAt == now && Verifies(e, r.value, verifiedKey, now)
      ensures !Servable(old(cached), now) && fetched.Some? && fetched.value.keyID in old(keys) ==>
        (r.Some? <==> Verifies(e, fetched.value, old(keys)[fetched.value.keyID], now))
      ensures r.None? ==> cached == old(cached)
    {
      ServableExact(cached, now);
      if cached.version != 0 && Wrap(now + MARGIN) < cached.expiresAt {
        VerifiesExact(e, cached, verifiedKey, verifiedAt);
        return Some(cached);
      }
      if fetched.None? {
        return None;
      }
      var key := SigningKey(e, fetched.value.keyID, published);
      if key.None? || !Verifies(e, fetched.value, key.value, now) {
        return None;
      }
      VerifiesExact(e, fetched.value, key.value, now);
      cached := fetched.value;
      verifiedAt, verifiedKey := now, key.value;
      r := fetched;
    }

    method Invalidate(ghost e: Env)
      requires Valid(e)
      modifies this
      ensures Valid(e) && cached == NO_ASSERTION && keys == old(keys)
    {
      cached := NO_ASSERTION;
    }

    /** `acceptMoved`: `moved` is `None` when the message is too long or is not
        an assertion. */
    method AcceptMoved(e: Env, moved: Option<Assertion>, prior: Assertion, now: Clock, published: Option<seq<KeyItem>>)
      returns (r: Option<Assertion>)
      requires Valid(e)
      modifies this
      ensures Valid(e)
      ensures r.Some? ==> moved == r && cached == r.value && verifiedAt == now && Verifies(e, r.value, verifiedKey, now)
      ensures r.Some? ==> Genuine(e, r.value, verifiedKey, now)
      ensures r.Some? ==>
        && r.value.tenantID == prior.tenantID && r.value.applicationID == prior.applicationID
        && r.value.environmentID == prior.environmentID
        && r.value.ownershipEpoch > prior.ownershipEpoch && r.value.endpoint != prior.endpoint
      ensures (moved.Some? && moved.value.keyID in old(keys)
               && Verifies(e, moved.value, old(keys)[moved.value.keyID], now)
               && SameScope(moved.value, prior) && moved.value.ownershipEpoch > prior.ownershipEpoch
               && moved.value.endpoint != prior.endpoint) ==> r == moved
      ensures r.None? ==> cached == old(cached)
    {
      if moved.None? {
        return None;
      }
      var key := SigningKey(e, moved.value.keyID, published);
      if key.None? || !Verifies(e, moved.value, key.value, now) {
        return None;
      }
      if !SameScope(moved.value, prior) {
        return None;
      }
      if moved.value.ownershipEpoch <= prior.ownershipEpoch || moved.value.endpoint == prior.endpoint {
        return None;
      }
      VerifiesExact(e, moved.value, key.value, now);
      cached := moved.value;
      verifiedAt, verifiedKey := now, key.value;
      r := moved;
    }
  }

  // ---- any interleaving of the critical sections ----

  datatype Act =
    | DoResolve(now: Clock, fetched: Option<Assertion>, published: Option<seq<KeyItem>>)
    | DoInvalidate
    | DoMoved(moved: Option<Assertion>, prior: Assertion, now: Clock, published: Option<seq<KeyItem>>)

  /** An assertion handed out from the cache, when, and the clock reading it
      had been verified against. */
  datatype Served = Served(assertion: Assertion, now: Clock, verifiedAt: Clock)

  ghost predicate InTime(s: Served) {
    s.assertion.issuedAt >= 0 ==> s.assertion.expiresAt - s.now > MARGIN && s.now - s.verifiedAt < 115_000_000
  }

  /** Any goroutines using the same resolver, in any order: the cache stays
      empty or verified, and everything served from it is within its bounds. */
  method Others(r: Resolver, e: Env, acts: seq<Act>) returns (ghost served: seq<Served>)
    requires r.Valid(e)
    modifies r
    ensures r.Valid(e)
    ensures forall s :: s in served ==> InTime(s)
  {
    served := [];
    var i := 0;
    while i < |acts|
      invariant r.Valid(e)
      invariant forall s :: s in served ==> InTime(s)
    {
      match acts[i] {
        case DoResolve(now, fetched, published) =>
          if Servable(r.cached, now) {
            if r.cached.issuedAt >= 0 {
              CacheWindow(e, r.cached, r.verifiedKey, r.verifiedAt, now);
            }
            served := served + [Served(r.cached, now, r.verifiedAt)];
          }
          var got := r.Resolve(e, now, fetched, published);
        case DoInvalidate =>
          r.Invalidate(e);
        case DoMoved(moved, prior, now, published) =>
          var got := r.AcceptMoved(e, moved, prior, now, published);
      }
      i := i + 1;
    }
  }

  // ---- the retry ----

  /** One run of the operation: an answer, or MOVED with the assertion its
      message carried, if any. */
  datatype Reply = Answered | Moved(assertion: Option<Assertion>)

  /** What the environment does at each point of one `WithOwnerRetry` call:
      the clock, fetches, dials, authentications and operation outcomes, and
      what other goroutines do to the resolver in between. */
  datatype Script = Script(
    now: Clock, fetched: Option<Assertion>, published: Option<seq<KeyItem>>,
    dials: bool, authenticates: bool, reply: Reply, others: seq<Act>,
    now': Clock, published': Option<seq<KeyItem>>, dials': bool, authenticates': bool)

  /** `WithOwnerRetry`: `ran` lists the owners the operation was run against.
      There are at most two; the second only after a MOVED whose assertion was
      verified, has the first one's scope, a strictly larger epoch and another
      endpoint. */
  method WithOwnerRetry(r: Resolver, e: Env, s: Script)
    returns (ran: seq<Assertion>, ghost first: Option<Assertion>, ghost accepted: Option<Assertion>)
    requires r.Valid(e)
    modifies r
    ensures r.Valid(e)
    ensures |ran| <= 2
    ensures |ran| >= 1 <==> first.Some? && s.dials && s.authenticates
    ensures |ran| >= 1 ==> ran[0] == first.value
    ensures Servable(old(r.cached), s.now) ==> first == Some(old(r.cached))
    ensures |ran| == 2 <==> |ran| >= 1 && s.reply.Moved? && accepted.Some? && s.dials' && s.authenticates'
    ensures |ran| == 2 ==>
      && s.reply.Moved? && s.reply.assertion == Some(ran[1])
      && ran[1].tenantID == ran[0].tenantID && ran[1].applicationID == ran[0].applicationID
      && ran[1].environmentID == ran[0].environmentID
      && ran[1].ownershipEpoch > ran[0].ownershipEpoch && ran[1].endpoint != ran[0].endpoint
      && exists key: Bytes :: Genuine(e, ran[1], key, s.now')
    ensures |ran| >= 1 ==> exists key: Bytes, at: Clock :: Genuine(e, ran[0], key, at)
  {
    ran, accepted := [], None;
    var owner := r.Resolve(e, s.now, s.fetched, s.published);
    first := owner;
    if owner.None? {
      return;
    }
    ghost var key, at := r.verifiedKey, r.verifiedAt;
    assert Genuine(e, owner.value, key, at);
    if !s.dials {
      r.Invalidate(e);
      return;
    }
    if !s.authenticates {
      return;
    }
    ran := [owner.value];
    assert Genuine(e, ran[0], key, at);
    ghost var served := Others(r, e, s.others);
    if s.reply.Answered? {
      return;
    }
    var moved := r.AcceptMoved(e, s.reply.assertion, owner.value, s.now', s.published');
    accepted := moved;
    if moved.None? || !s.dials' || !s.authenticates' {
      return;
    }
    assert Genuine(e, moved.value, r.verifiedKey, s.now');
    ran := ran + [moved.value];
  }
}
