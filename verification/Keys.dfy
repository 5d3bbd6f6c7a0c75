/** Orders in which a map can be gone through: sorted, or whatever the runtime comes up with. */
module Keys {

  predicate Distinct<T(==)>(s: seq<T>) { forall i, j :: 0 <= i < j < |s| ==> s[i] != s[j] }

  lemma DistinctAppend<T>(s: seq<T>, x: T)
    ensures Distinct(s + [x]) <==> Distinct(s) && x !in s
  {
    var t := s + [x];
    assert forall i :: 0 <= i < |s| ==> t[i] == s[i];
    if Distinct(t) {
      assert forall i, j :: 0 <= i < j < |s| ==> s[i] == t[i] && s[j] == t[j];
      assert t[|s|] == x;
    }
  }

  /** Each key once. */
  ghost predicate IsOrder(keys: set<string>, order: seq<string>) {
    Distinct(order) && (forall k :: k in order <==> k in keys)
  }

  lemma OrderAppend(keys: set<string>, order: seq<string>, k: string)
    requires IsOrder(keys, order) && k !in keys
    ensures IsOrder(keys + {k}, order + [k])
  {
  }

  lemma {:induction false} SomeOrder(keys: set<string>) returns (order: seq<string>)
    ensures IsOrder(keys, order)
    decreases keys
  {
    if keys == {} {
      order := [];
    } else {
      var k :| k in keys;
      order := SomeOrder(keys - {k});
      OrderAppend(keys - {k}, order, k);
      assert keys - {k} + {k} == keys;
      order := order + [k];
    }
  }

  /** The order of Go strings. */
  predicate Before(s: string, t: string) {
    t != [] && (s == [] || s[0] < t[0] || (s[0] == t[0] && Before(s[1..], t[1..])))
  }

  /** The first difference decides, and a proper prefix comes first. */
  lemma {:induction false} FirstDifferenceDecides(s: string, t: string)
    ensures Before(s, t) <==>
            exists n :: 0 <= n <= |s| && n < |t| && s[..n] == t[..n] && (n == |s| || s[n] < t[n])
  {
    if s == [] || t == [] || s[0] != t[0] {
      if Before(s, t) {
        assert s[..0] == t[..0];
      }
      assert forall n :: 0 < n <= |s| && n < |t| && s[..n] == t[..n] ==> s[..n][0] == t[..n][0];
    } else {
      FirstDifferenceDecides(s[1..], t[1..]);
      Longer(s, t);
    }
  }

  lemma Longer(s: string, t: string)
    requires s != [] && t != [] && s[0] == t[0]
    ensures (exists n :: 0 <= n <= |s| && n < |t| && s[..n] == t[..n] && (n == |s| || s[n] < t[n])) <==>
            (exists n :: 0 <= n <= |s[1..]| && n < |t[1..]| && s[1..][..n] == t[1..][..n]
                         && (n == |s[1..]| || s[1..][n] < t[1..][n]))
  {
    if n :| 0 <= n <= |s| && n < |t| && s[..n] == t[..n] && (n == |s| || s[n] < t[n]) {
      assert n > 0 && s[1..][..n - 1] == s[..n][1..] && t[1..][..n - 1] == t[..n][1..];
    }
    if n :| 0 <= n <= |s[1..]| && n < |t[1..]| && s[1..][..n] == t[1..][..n]
            && (n == |s[1..]| || s[1..][n] < t[1..][n]) {
      assert s[..n + 1] == [s[0]] + s[1..][..n] && t[..n + 1] == [t[0]] + t[1..][..n];
    }
  }

  lemma {:induction false} BeforeIsTotal(s: string, t: string)
    ensures s == t || Before(s, t) || Before(t, s)
  {
    if s != [] && t != [] && s[0] == t[0] {
      BeforeIsTotal(s[1..], t[1..]);
      assert s == [s[0]] + s[1..] && t == [t[0]] + t[1..];
    }
  }

  lemma {:induction false} BeforeIsTransitive(s: string, t: string, u: string)
    requires Before(s, t) && Before(t, u)
    ensures Before(s, u)
  {
    if s != [] && t != [] && u != [] && s[0] == t[0] == u[0] {
      BeforeIsTransitive(s[1..], t[1..], u[1..]);
    }
  }

  lemma {:induction false} BeforeIsStrict(s: string)
    ensures !Before(s, s)
  {
    if s != [] {
      BeforeIsStrict(s[1..]);
    }
  }

  predicate Ascending(s: seq<string>) { forall i, j :: 0 <= i < j < |s| ==> Before(s[i], s[j]) }

  lemma AscendingIsDistinct(s: seq<string>)
    requires Ascending(s)
    ensures Distinct(s)
  {
    forall i, j | 0 <= i < j < |s|
      ensures s[i] != s[j]
    {
      BeforeIsStrict(s[i]);
    }
  }

  /** A key that no other key comes before. */
  method Least(keys: set<string>) returns (least: string)
    requires keys != {}
    ensures least in keys && forall k :: k in keys ==> k == least || Before(least, k)
  {
    var first :| first in keys;
    least := first;
    var left := keys - {first};
    while left != {}
      invariant left <= keys && least in keys
      invariant forall k :: k in keys ==> k in left || k == least || Before(least, k)
      decreases left
    {
      var k :| k in left;
      left := left - {k};
      BeforeIsTotal(k, least);
      if Before(k, least) {
        forall j | j in keys && Before(least, j)
          ensures Before(k, j)
        {
          BeforeIsTransitive(k, least, j);
        }
        least := k;
      }
    }
  }

  method SortedKeys(keys: set<string>) returns (order: seq<string>)
    ensures IsOrder(keys, order) && Ascending(order)
  {
    order := [];
    var left := keys;
    while left != {}
      invariant left <= keys && Ascending(order)
      invariant forall k :: k in order <==> k in keys && k !in left
      invariant forall k, i :: k in left && 0 <= i < |order| ==> Before(order[i], k)
      decreases left
    {
      var k := Least(left);
      left, order := left - {k}, order + [k];
    }
    AscendingIsDistinct(order);
  }

  lemma StillLeast(x: string, y: string, z: string)
    requires Before(y, z) && !Before(x, z)
    ensures !Before(x, y)
  {
    if Before(x, y) {
      BeforeIsTransitive(x, y, z);
    }
  }

  /** sort.Slice by a key; entries with equal keys come in any order. */
  method SortBy<T>(xs: seq<T>, key: T -> string) returns (sorted: seq<T>)
    ensures |sorted| == |xs| && multiset(sorted) == multiset(xs)
    ensures forall i, j :: 0 <= i < j < |sorted| ==> !Before(key(sorted[j]), key(sorted[i]))
  {
    sorted := [];
    var left := xs;
    while left != []
      invariant |sorted| + |left| == |xs| && multiset(sorted) + multiset(left) == multiset(xs)
      invariant forall i, j :: 0 <= i < j < |sorted| ==> !Before(key(sorted[j]), key(sorted[i]))
      invariant forall i, x :: 0 <= i < |sorted| && x in left ==> !Before(key(x), key(sorted[i]))
    {
      var k := LeastBy(left, key);
      var x := left[k];
      assert left == left[..k] + [x] + left[k + 1..];
      sorted, left := sorted + [x], left[..k] + left[k + 1..];
    }
  }

  method LeastBy<T>(xs: seq<T>, key: T -> string) returns (k: nat)
    requires xs != []
    ensures k < |xs| && forall x :: x in xs ==> !Before(key(x), key(xs[k]))
  {
    k := 0;
    BeforeIsStrict(key(xs[0]));
    for i := 1 to |xs|
      invariant k < |xs| && forall j :: 0 <= j < i ==> !Before(key(xs[j]), key(xs[k]))
    {
      BeforeIsStrict(key(xs[i]));
      if Before(key(xs[i]), key(xs[k])) {
        forall j | 0 <= j < i
          ensures !Before(key(xs[j]), key(xs[i]))
        {
          StillLeast(key(xs[j]), key(xs[i]), key(xs[k]));
        }
        k := i;
      }
    }
  }
}
