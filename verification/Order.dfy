/** Byte-wise order: how the store iterates over keys and how Go sorts strings. */
module Order {
  import opened Common

  /** bytes.Compare(a, b) <= 0 */
  predicate Le(a: Bytes, b: Bytes)
    decreases |a|
  {
    a == [] || (b != [] && (a[0] < b[0] || (a[0] == b[0] && Le(a[1..], b[1..]))))
  }

  predicate Less(a: Bytes, b: Bytes) {
    a != b && Le(a, b)
  }

  /** `k` is the first place where the strings differ, and there `a` has the smaller byte. */
  predicate SmallerAt(a: Bytes, b: Bytes, k: nat) {
    k < |a| && k < |b| && a[..k] == b[..k] && a[k] < b[k]
  }

  /** The order is that of dictionaries: a prefix first, otherwise by the first differing byte. */
  lemma {:induction false} LeExactly(a: Bytes, b: Bytes)
    ensures Le(a, b) <==> a <= b || exists k: nat :: SmallerAt(a, b, k)
    decreases |a|
  {
    if a != [] && b != [] && a[0] == b[0] {
      var c, d := a[1..], b[1..];
      LeExactly(c, d);
      assert a == [a[0]] + c && b == [b[0]] + d;
      assert a <= b <==> c <= d;
      forall k: nat | SmallerAt(c, d, k) ensures SmallerAt(a, b, k + 1) {
        assert a[..k + 1] == [a[0]] + c[..k] && b[..k + 1] == [b[0]] + d[..k];
      }
      forall k: nat | SmallerAt(a, b, k) ensures k > 0 && SmallerAt(c, d, k - 1) {
        assert c[..k - 1] == a[..k][1..] && d[..k - 1] == b[..k][1..];
      }
    } else if a != [] && b != [] {
      assert SmallerAt(a, b, 0) <==> a[0] < b[0];
      assert forall k: nat :: k > 0 && SmallerAt(a, b, k) ==> a[..k][0] == b[..k][0];
    }
  }

  lemma {:induction false} LeTotal(a: Bytes, b: Bytes)
    ensures Le(a, b) || Le(b, a)
    decreases |a|
  {
    if a != [] && b != [] {
      LeTotal(a[1..], b[1..]);
    }
  }

  lemma {:induction false} LeAntisymmetric(a: Bytes, b: Bytes)
    requires Le(a, b) && Le(b, a)
    ensures a == b
    decreases |a|
  {
    if a != [] && b != [] {
      LeAntisymmetric(a[1..], b[1..]);
      assert a == [a[0]] + a[1..] && b == [b[0]] + b[1..];
    }
  }

  lemma {:induction false} LeTransitive(a: Bytes, b: Bytes, c: Bytes)
    requires Le(a, b) && Le(b, c)
    ensures Le(a, c)
    decreases |a|
  {
    if a != [] && a[0] == b[0] == c[0] {
      LeTransitive(a[1..], b[1..], c[1..]);
    }
  }

  predicate IsLeast(k: Bytes, s: set<Bytes>) {
    k in s && forall j :: j in s ==> Le(k, j)
  }

  lemma {:induction false} LeastExists(s: set<Bytes>)
    requires s != {}
    ensures exists k :: IsLeast(k, s)
    decreases |s|
  {
    var x :| x in s;
    var rest := s - {x};
    LeTotal(x, x);
    if rest == {} {
      assert s == {x};
      assert IsLeast(x, s);
    } else {
      LeastExists(rest);
      var k :| IsLeast(k, rest);
      LeTotal(x, k);
      if Le(x, k) {
        forall j | j in s ensures Le(x, j) {
          if j != x { LeTransitive(x, k, j); }
        }
        assert IsLeast(x, s);
      } else {
        assert IsLeast(k, s);
      }
    }
  }

  lemma LeastIsUnique(k: Bytes, j: Bytes, s: set<Bytes>)
    requires IsLeast(k, s) && IsLeast(j, s)
    ensures k == j
  {
    LeAntisymmetric(k, j);
  }

  function Least(s: set<Bytes>): (k: Bytes)
    requires s != {}
    ensures IsLeast(k, s)
  {
    LeastExists(s);
    assert forall k, j :: IsLeast(k, s) && IsLeast(j, s) ==> k == j by {
      forall k, j | IsLeast(k, s) && IsLeast(j, s) ensures k == j { LeastIsUnique(k, j, s); }
    }
    var k :| IsLeast(k, s);
    k
  }

  /** Strictly ascending, hence without repetition. */
  predicate Ascending(ks: seq<Bytes>) {
    forall i, j :: 0 <= i < j < |ks| ==> Less(ks[i], ks[j])
  }

  /** The elements of `s` in ascending order. */
  function Sorted(s: set<Bytes>): (ks: seq<Bytes>)
    ensures forall k :: k in ks <==> k in s
    ensures Ascending(ks)
    ensures |ks| == |s|
    decreases |s|
  {
    if s == {} then []
    else
      var k := Least(s);
      var rest := Sorted(s - {k});
      assert forall j :: 0 <= j < |rest| ==> rest[j] in rest;
      [k] + rest
  }

  lemma FirstIsLeast(s: set<Bytes>, ks: seq<Bytes>)
    requires s != {} && Ascending(ks) && forall k :: k in ks <==> k in s
    ensures ks != [] && ks[0] == Least(s)
  {
    hide Le;
    var least := Least(s);
    assert least in ks;
    var i :| 0 <= i < |ks| && ks[i] == least;
    if i > 0 {
      assert Less(ks[0], ks[i]) && ks[0] in s;
      LeAntisymmetric(ks[0], least);
    }
  }

  lemma RestIsRest(s: set<Bytes>, ks: seq<Bytes>)
    requires ks != [] && Ascending(ks) && forall k :: k in ks <==> k in s
    ensures Ascending(ks[1..]) && forall k :: k in ks[1..] <==> k in s - {ks[0]}
  {
    hide Le;
    var rest := ks[1..];
    assert ks == [ks[0]] + rest;
    assert forall j :: 0 <= j < |rest| ==> rest[j] == ks[j + 1] && Less(ks[0], ks[j + 1]);
  }

  /** Only one ascending list has the elements of `s`. */
  lemma {:induction false} SortedIsUnique(s: set<Bytes>, ks: seq<Bytes>)
    requires Ascending(ks) && forall k :: k in ks <==> k in s
    ensures ks == Sorted(s)
    decreases |s|
  {
    hide Le, Ascending, Least;
    assert ks != [] ==> ks[0] in ks;
    if s != {} {
      FirstIsLeast(s, ks);
      RestIsRest(s, ks);
      SortedIsUnique(s - {ks[0]}, ks[1..]);
      assert ks == [ks[0]] + ks[1..];
    }
  }
}
