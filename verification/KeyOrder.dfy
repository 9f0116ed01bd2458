/** Byte-wise string order, and the one strictly ascending listing of a finite
    set of keys. `sort.Strings` sorts whatever order map iteration produced;
    uniqueness of the sorted listing is what makes that order irrelevant. */
module KeyOrder {
  import opened Words

  predicate Leq(a: seq<int>, b: seq<int>) {
    if a == [] then true
    else if b == [] then false
    else if a[0] != b[0] then a[0] < b[0]
    else Leq(a[1..], b[1..])
  }

  /** The recursive comparison is the lexicographic order. */
  lemma {:induction false} LeqExact(a: seq<int>, b: seq<int>)
    ensures Leq(a, b) <==> a <= b || exists i :: 0 <= i < |a| && i < |b| && a[..i] == b[..i] && a[i] < b[i]
  {
    if a != [] && b != [] && a[0] == b[0] {
      LeqExact(a[1..], b[1..]);
      assert a == [a[0]] + a[1..] && b == [b[0]] + b[1..];
      if i :| 0 <= i < |a[1..]| && i < |b[1..]| && a[1..][..i] == b[1..][..i] && a[1..][i] < b[1..][i] {
        assert a[..i + 1] == [a[0]] + a[1..][..i] && b[..i + 1] == [b[0]] + b[1..][..i];
        assert a[i + 1] < b[i + 1];
      }
      if i :| 0 <= i < |a| && i < |b| && a[..i] == b[..i] && a[i] < b[i] {
        assert i > 0;
        assert a[1..][..i - 1] == a[..i][1..] && b[1..][..i - 1] == b[..i][1..];
        assert a[1..][i - 1] < b[1..][i - 1];
      }
    } else if a != [] && b != [] {
      assert a[..0] == b[..0];
    }
  }

  lemma {:induction false} LeqTotal(a: seq<int>, b: seq<int>)
    ensures Leq(a, b) || Leq(b, a)
    ensures Leq(a, b) && Leq(b, a) ==> a == b
  {
    if a != [] && b != [] && a[0] == b[0] {
      LeqTotal(a[1..], b[1..]);
      assert a == [a[0]] + a[1..] && b == [b[0]] + b[1..];
    }
  }

  lemma {:induction false} LeqTransitive(a: seq<int>, b: seq<int>, c: seq<int>)
    requires Leq(a, b) && Leq(b, c)
    ensures Leq(a, c)
  {
    if a != [] && b != [] && c != [] && a[0] == b[0] == c[0] {
      LeqTransitive(a[1..], b[1..], c[1..]);
    }
  }

  ghost predicate Ascending(keys: seq<Bytes>) {
    forall i, j :: 0 <= i < j < |keys| ==> Leq(keys[i], keys[j]) && keys[i] != keys[j]
  }

  ghost predicate Below(k: Bytes, s: set<Bytes>) {
    forall o :: o in s ==> Leq(k, o)
  }

  lemma LeastExists(s: set<Bytes>)
    requires s != {}
    ensures exists k :: k in s && Below(k, s)
    decreases |s|
  {
    var a :| a in s;
    var rest := s - {a};
    LeqTotal(a, a);
    if rest == {} {
      assert s == {a};
      assert Below(a, s);
    } else {
      LeastExists(rest);
      var k :| k in rest && Below(k, rest);
      LeqTotal(a, k);
      if Leq(a, k) {
        forall o | o in s ensures Leq(a, o) {
          if o != a { LeqTransitive(a, k, o); }
        }
        assert Below(a, s);
      } else {
        assert Below(k, s);
      }
    }
  }

  /** The keys of `s` in strictly ascending order. */
  ghost function Listing(s: set<Bytes>): (r: seq<Bytes>)
    ensures Ascending(r) && |r| == |s|
    ensures forall k :: k in r <==> k in s
    decreases |s|
  {
    if s == {} then []
    else
      LeastExists(s);
      var k :| k in s && Below(k, s);
      var rest := Listing(s - {k});
      AscendingCons(k, rest, s);
      [k] + rest
  }

  lemma AscendingCons(k: Bytes, rest: seq<Bytes>, s: set<Bytes>)
    requires k in s && Below(k, s) && Ascending(rest) && forall o :: o in rest <==> o in s - {k}
    ensures Ascending([k] + rest) && forall o :: o in [k] + rest <==> o in s
  {
    hide Leq;
    assert forall j :: 0 <= j < |rest| ==> rest[j] in s - {k};
  }

  /** A proper prefix, or smaller in the first byte in which they differ. */
  ghost predicate Smaller(a: Bytes, b: Bytes) {
    (a <= b && |a| < |b|) || exists i :: 0 <= i < |a| && i < |b| && a[..i] == b[..i] && a[i] < b[i]
  }

  /** In the listing, every key is smaller than the next one. */
  lemma ListingOrder(s: set<Bytes>)
    ensures forall i :: 0 < i < |Listing(s)| ==> Smaller(Listing(s)[i - 1], Listing(s)[i])
  {
    hide Leq, Listing;
    forall i | 0 < i < |Listing(s)| ensures Smaller(Listing(s)[i - 1], Listing(s)[i]) {
      var a, b := Listing(s)[i - 1], Listing(s)[i];
      LeqExact(a, b);
      assert a <= b && |a| == |b| ==> a == b;
    }
  }

  /** Two ascending listings of the same keys are the same listing. */
  lemma {:induction false} ListingUnique(a: seq<Bytes>, b: seq<Bytes>)
    requires Ascending(a) && Ascending(b)
    requires forall k :: k in a <==> k in b
    ensures a == b
  {
    if a == [] {
      assert forall j :: 0 <= j < |b| ==> b[j] in b;
    } else {
      assert a[0] in b;
      var i :| 0 <= i < |b| && b[i] == a[0];
      assert b[0] in a;
      var j :| 0 <= j < |a| && a[j] == b[0];
      LeqTotal(a[0], b[0]);
      if i > 0 && j > 0 {
        assert false;
      }
      assert a[0] == b[0];
      forall k ensures k in a[1..] <==> k in b[1..] {
        if k in a[1..] { assert k != a[0]; assert k in b; }
        if k in b[1..] { assert k != b[0]; assert k in a; }
      }
      ListingUnique(a[1..], b[1..]);
      assert a == [a[0]] + a[1..] && b == [b[0]] + b[1..];
    }
  }

  /** The slot of a new key in an ascending listing. */
  method InsertKey(keys: seq<Bytes>, k: Bytes) returns (out: seq<Bytes>)
    requires Ascending(keys) && k !in keys
    ensures Ascending(out)
    ensures forall o :: o in out <==> o in keys || o == k
  {
    hide Leq, Ascending;
    var i := 0;
    while i < |keys| && Leq(keys[i], k)
      invariant 0 <= i <= |keys|
      invariant forall j :: 0 <= j < i ==> Leq(keys[j], k)
    {
      i := i + 1;
    }
    out := keys[..i] + [k] + keys[i..];
    AscendingPlace(keys, k, i);
  }

  lemma AscendingPlace(keys: seq<Bytes>, k: Bytes, i: nat)
    requires Ascending(keys) && k !in keys && i <= |keys|
    requires (forall j :: 0 <= j < i ==> Leq(keys[j], k)) && (i < |keys| ==> !Leq(keys[i], k))
    ensures Ascending(keys[..i] + [k] + keys[i..])
    ensures forall o :: o in keys[..i] + [k] + keys[i..] <==> o in keys || o == k
  {
    hide Leq;
    if i < |keys| {
      LeqTotal(keys[i], k);
      forall j | i < j < |keys| ensures Leq(k, keys[j]) {
        LeqTransitive(k, keys[i], keys[j]);
      }
    }
    assert keys == keys[..i] + keys[i..];
  }

  /** `range` over a Go map hands out the keys in any order; sorting afterwards
      always produces the same listing. */
  method SortKeys(s: set<Bytes>) returns (keys: seq<Bytes>)
    ensures keys == Listing(s)
    ensures forall i :: 0 < i < |keys| ==> Smaller(keys[i - 1], keys[i])
  {
    keys := [];
    var left := s;
    while left != {}
      invariant left <= s
      invariant Ascending(keys)
      invariant forall k :: k in keys <==> k in s - left
      decreases |left|
    {
      var k :| k in left;
      keys := InsertKey(keys, k);
      left := left - {k};
    }
    ListingUnique(keys, Listing(s));
    ListingOrder(s);
  }

  ghost function Without(l: seq<Bytes>, i: nat): (a: seq<Bytes>)
    requires i < |l|
  {
    l[..i] + l[i + 1..]
  }

  lemma WithoutAscending(l: seq<Bytes>, i: nat)
    requires i < |l| && Ascending(l)
    ensures Ascending(Without(l, i))
    ensures forall o :: o in Without(l, i) <==> o in l && o != l[i]
  {
    var a := Without(l, i);
    forall o ensures o in a <==> o in l && o != l[i] {
      if o in l && o != l[i] {
        var j :| 0 <= j < |l| && l[j] == o;
        assert a[if j < i then j else j - 1] == o;
      }
    }
  }

  lemma PutBack(l: seq<Bytes>, i: nat)
    requires i < |l|
    ensures l == Without(l, i)[..i] + [l[i]] + Without(l, i)[i..]
  {
  }

  /** Two ascending listings that differ by one key differ by one insertion. */
  lemma AscendingInsert(l: seq<Bytes>, m: seq<Bytes>, k: Bytes) returns (i: nat)
    requires Ascending(l) && Ascending(m) && k !in m
    requires forall o :: o in l <==> o in m || o == k
    ensures i <= |m|
    ensures l == m[..i] + [k] + m[i..]
  {
    assert k in l;
    i :| 0 <= i < |l| && l[i] == k;
    WithoutAscending(l, i);
    ListingUnique(Without(l, i), m);
    PutBack(l, i);
  }

  /** Adding one key to a set inserts it somewhere in the listing. */
  lemma ListingInsert(s: set<Bytes>, k: Bytes) returns (i: nat)
    requires k !in s
    ensures i <= |Listing(s)|
    ensures Listing(s + {k}) == Listing(s)[..i] + [k] + Listing(s)[i..]
  {
    i := AscendingInsert(Listing(s + {k}), Listing(s), k);
  }
}
