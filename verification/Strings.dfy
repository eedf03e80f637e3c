/**
 Byte-lexicographic string order, sorting, and splitting on dots: the parts of
 Go's `sort` and `strings` packages that CoreNet's results depend on.

 Dafny's own `<` on sequences means "proper prefix", so the order Go uses is
 defined here and proved to be a strict total order.
 */
module Strings {

  // ---------------------------------------------------------------- order

  /** Go's `a < b` on strings. */
  predicate Less(a: string, b: string) {
    |b| > 0 && (|a| == 0 || a[0] < b[0] || (a[0] == b[0] && Less(a[1..], b[1..])))
  }

  lemma {:induction false} LessIrreflexive(a: string)
    ensures !Less(a, a)
  {
    if a != "" { LessIrreflexive(a[1..]); }
  }

  lemma {:induction false} LessTransitive(a: string, b: string, c: string)
    requires Less(a, b) && Less(b, c)
    ensures Less(a, c)
  {
    if a != "" && a[0] == b[0] == c[0] { LessTransitive(a[1..], b[1..], c[1..]); }
  }

  /** Any two different strings are comparable, in exactly one direction. */
  lemma {:induction false} LessTotal(a: string, b: string)
    ensures a == b || Less(a, b) || Less(b, a)
    ensures !(Less(a, b) && Less(b, a))
  {
    if a != "" && b != "" && a[0] == b[0] {
      LessTotal(a[1..], b[1..]);
      assert a == [a[0]] + a[1..] && b == [b[0]] + b[1..];
    }
  }

  lemma LessAsymmetric(a: string, b: string)
    requires Less(a, b)
    ensures a != b && !Less(b, a)
  {
    LessTotal(a, b);
    LessIrreflexive(a);
  }

  /** At `k` the strings part: they agree before it, and there `a` has ended or has the smaller character. */
  predicate PartsAt(a: string, b: string, k: nat) {
    k <= |a| && k < |b| && a[..k] == b[..k] && (k == |a| || a[k] < b[k])
  }

  /** `a` comes before `b` in byte order, said without recursion. */
  ghost predicate Before(a: string, b: string) { exists k: nat :: PartsAt(a, b, k) }

  lemma PartsLater(a: string, b: string, k: nat)
    requires PartsAt(a, b, k)
    ensures k > 0 ==> |a| > 0 && |b| > 0 && a[0] == b[0]
  {
    if k > 0 { assert a[..k][0] == b[..k][0]; }
  }

  /** The order is the byte order: the first difference decides, and a proper prefix comes first. */
  lemma {:induction false} LessIsByteOrder(a: string, b: string)
    ensures Less(a, b) <==> Before(a, b)
  {
    if |a| > 0 && |b| > 0 && a[0] == b[0] {
      LessIsByteOrder(a[1..], b[1..]);
      if k: nat :| PartsAt(a[1..], b[1..], k) {
        assert a[..k + 1] == [a[0]] + a[1..][..k] && b[..k + 1] == [b[0]] + b[1..][..k];
        assert PartsAt(a, b, k + 1);
      }
      if k: nat :| PartsAt(a, b, k) {
        assert k > 0;
        assert a[1..][..k - 1] == a[..k][1..] && b[1..][..k - 1] == b[..k][1..];
        assert PartsAt(a[1..], b[1..], k - 1);
      }
    } else {
      if k: nat :| PartsAt(a, b, k) {
        PartsLater(a, b, k);
      }
      if Less(a, b) { assert PartsAt(a, b, 0); }
    }
  }

  // ------------------------------------------------- least element of a set

  ghost predicate IsLeast(m: string, s: set<string>) {
    m in s && forall x <- s :: x == m || Less(m, x)
  }

  lemma {:induction false} LeastExists(s: set<string>)
    requires s != {}
    ensures exists m :: IsLeast(m, s)
  {
    var x :| x in s;
    if s == {x} {
      assert IsLeast(x, s);
    } else {
      var rest := s - {x};
      LeastExists(rest);
      var m :| IsLeast(m, rest);
      LessTotal(x, m);
      if Less(x, m) {
        forall y <- s ensures y == x || Less(x, y) {
          if y != x && y != m { LessTransitive(x, m, y); }
        }
        assert IsLeast(x, s);
      } else {
        assert IsLeast(m, s);
      }
    }
  }

  ghost function Least(s: set<string>): (m: string)
    requires s != {}
    ensures IsLeast(m, s)
  {
    LeastExists(s);
    var m :| IsLeast(m, s);
    m
  }

  lemma LeastUnique(m: string, s: set<string>)
    requires IsLeast(m, s)
    ensures m == Least(s)
  {
    LessTotal(m, Least(s));
  }

  lemma LeastOfOneMore(s: set<string>, x: string)
    ensures Least(s + {x}) == if s != {} && Less(Least(s), x) then Least(s) else x
  {
    var m := if s != {} && Less(Least(s), x) then Least(s) else x;
    if s != {} {
      LessTotal(Least(s), x);
      forall y <- s | y != m ensures Less(m, y) {
        if m == x && Least(s) != x && y != Least(s) { LessTransitive(x, Least(s), y); }
      }
    }
    LeastUnique(m, s + {x});
  }

  // ------------------------------------------------------------- sorted sets

  /** Strictly ascending by `key`: sorted, with no key twice. */
  ghost predicate StrictBy<T>(s: seq<T>, key: T -> string) {
    forall i, j :: 0 <= i < j < |s| ==> Less(key(s[i]), key(s[j]))
  }

  /** A strict list ascends in byte order. */
  lemma StrictAscends<T>(s: seq<T>, key: T -> string)
    requires StrictBy(s, key)
    ensures forall i, j :: 0 <= i < j < |s| ==> Before(key(s[i]), key(s[j]))
  {
    hide Less, Before;
    forall i, j | 0 <= i < j < |s| ensures Before(key(s[i]), key(s[j])) {
      LessIsByteOrder(key(s[i]), key(s[j]));
    }
  }

  /** The identity key, for sorting plain strings. */
  function Self(s: string): string { s }

  ghost predicate Strict(s: seq<string>) {
    forall i, j :: 0 <= i < j < |s| ==> Less(s[i], s[j])
  }

  /** The elements of a set in ascending order: what collecting a Go map's keys and sorting them yields. */
  ghost function SortedSet(s: set<string>): (r: seq<string>)
    ensures |r| == |s|
    ensures Strict(r)
    ensures forall x :: x in r <==> x in s
  {
    if s == {} then [] else
      var m := Least(s);
      [m] + SortedSet(s - {m})
  }

  lemma SortedSetSplits(s: set<string>)
    requires s != {}
    ensures var ks, rest := SortedSet(s), SortedSet(s - {Least(s)});
            && |ks| == |rest| + 1 && ks[0] == Least(s)
            && forall i :: 0 <= i < |rest| ==> ks[i + 1] == rest[i]
  {
    hide Less, IsLeast;
    assert SortedSet(s) == [Least(s)] + SortedSet(s - {Least(s)});
  }

  lemma EmptyOrNot<T>(s: seq<T>)
    ensures s == [] || exists x :: x in s
  {
    if s != [] { assert s[0] in s; }
  }

  /** A set has only one strictly ascending enumeration, whichever sort produced it. */
  lemma {:induction false} StrictUnique<T>(a: seq<T>, b: seq<T>, key: T -> string)
    requires StrictBy(a, key) && StrictBy(b, key)
    requires forall x :: x in a <==> x in b
    ensures a == b
  {
    EmptyOrNot(b);
    if a != [] {
      assert a[0] in b;
      assert b != [];
      assert b[0] in a;
      var i :| 0 <= i < |a| && a[i] == b[0];
      var j :| 0 <= j < |b| && b[j] == a[0];
      if i > 0 && j > 0 { LessAsymmetric(key(a[0]), key(b[0])); }
      assert a[0] == b[0];
      forall x ensures x in a[1..] <==> x in b[1..] {
        TailWithoutHead(a, key, x);
        TailWithoutHead(b, key, x);
      }
      StrictUnique(a[1..], b[1..], key);
      assert a == [a[0]] + a[1..] && b == [b[0]] + b[1..];
    }
  }

  lemma TailWithoutHead<T>(s: seq<T>, key: T -> string, x: T)
    requires s != [] && StrictBy(s, key)
    ensures x in s[1..] <==> x in s && x != s[0]
  {
    LessIrreflexive(key(s[0]));
    if x in s && x != s[0] {
      var i :| 0 <= i < |s| && s[i] == x;
      assert s[1..][i - 1] == x;
    }
    if x in s[1..] {
      var i :| 0 <= i < |s[1..]| && s[1..][i] == x;
      assert s[i + 1] == x && Less(key(s[0]), key(s[i + 1]));
    }
  }

  lemma SortedSetUnique(s: set<string>, r: seq<string>)
    requires Strict(r)
    requires forall x :: x in r <==> x in s
    ensures r == SortedSet(s)
  {
    StrictUnique(r, SortedSet(s), Self);
  }

  // ------------------------------------------------------------- sort.Slice

  /** One step of the sort: put `x` before the first element with a larger key. */
  function Insert<T>(x: T, s: seq<T>, key: T -> string): (r: seq<T>)
  {
    if s == [] then [x]
    else if Less(key(x), key(s[0])) then [x] + s
    else [s[0]] + Insert(x, s[1..], key)
  }

  /** Sort by a string key, as `sort.Slice` and `sort.Strings` are used here. */
  function SortBy<T>(s: seq<T>, key: T -> string): (r: seq<T>)
  {
    if s == [] then [] else Insert(s[0], SortBy(s[1..], key), key)
  }

  ghost predicate AscendingBy<T>(s: seq<T>, key: T -> string) {
    forall i, j :: 0 <= i < j < |s| ==> !Less(key(s[j]), key(s[i]))
  }

  lemma {:induction false} InsertAdds<T>(x: T, s: seq<T>, key: T -> string)
    ensures multiset(Insert(x, s, key)) == multiset(s) + multiset{x}
    ensures |Insert(x, s, key)| == |s| + 1
  {
    if s != [] {
      assert s == [s[0]] + s[1..];
      InsertAdds(x, s[1..], key);
    }
  }

  /** What is inserted into a list, and where each element of the result comes from. */
  lemma InsertElement<T>(x: T, s: seq<T>, key: T -> string, y: T)
    ensures y in Insert(x, s, key) <==> y == x || y in s
  {
    InsertAdds(x, s, key);
    assert y in Insert(x, s, key) <==> y in multiset(Insert(x, s, key));
    assert y in s <==> y in multiset(s);
  }

  lemma {:induction false} InsertIntoSorted<T>(x: T, s: seq<T>, key: T -> string)
    requires AscendingBy(s, key)
    ensures AscendingBy(Insert(x, s, key), key)
  {
    if s != [] {
      assert s == [s[0]] + s[1..];
      if Less(key(x), key(s[0])) {
        forall j | 0 <= j < |s| ensures !Less(key(s[j]), key(x)) {
          if Less(key(s[j]), key(x)) {
            LessTransitive(key(s[j]), key(x), key(s[0]));
            LessIrreflexive(key(s[0]));
          }
        }
      } else {
        InsertIntoSorted(x, s[1..], key);
        var r := Insert(x, s[1..], key);
        forall j | 0 <= j < |r| ensures !Less(key(r[j]), key(s[0])) {
          InsertElement(x, s[1..], key, r[j]);
          if r[j] != x {
            var k :| 0 <= k < |s[1..]| && s[1..][k] == r[j];
            assert s[k + 1] == r[j];
          }
        }
      }
    }
  }

  /** Sorting returns an ascending permutation. */
  lemma {:induction false} SortSorts<T>(s: seq<T>, key: T -> string)
    ensures AscendingBy(SortBy(s, key), key)
    ensures multiset(SortBy(s, key)) == multiset(s)
    ensures |SortBy(s, key)| == |s|
  {
    if s != [] {
      SortSorts(s[1..], key);
      InsertIntoSorted(s[0], SortBy(s[1..], key), key);
      InsertAdds(s[0], SortBy(s[1..], key), key);
      assert s == [s[0]] + s[1..];
    }
  }

  lemma SortKeepsElements<T>(s: seq<T>, key: T -> string, x: T)
    ensures x in SortBy(s, key) <==> x in s
  {
    SortSorts(s, key);
    assert x in SortBy(s, key) <==> x in multiset(SortBy(s, key));
    assert x in s <==> x in multiset(s);
  }

  /** No key occurs twice. */
  ghost predicate DistinctKeys<T>(s: seq<T>, key: T -> string) {
    forall i, j :: 0 <= i < j < |s| ==> key(s[i]) != key(s[j])
  }

  lemma {:induction false} InsertKeepsStrict<T>(x: T, s: seq<T>, key: T -> string)
    requires StrictBy(s, key)
    requires forall i :: 0 <= i < |s| ==> key(s[i]) != key(x)
    ensures StrictBy(Insert(x, s, key), key)
  {
    if s != [] {
      assert s == [s[0]] + s[1..];
      LessTotal(key(x), key(s[0]));
      if Less(key(x), key(s[0])) {
        forall j | 0 <= j < |s| ensures Less(key(x), key(s[j])) {
          if j > 0 { LessTransitive(key(x), key(s[0]), key(s[j])); }
        }
      } else {
        InsertKeepsStrict(x, s[1..], key);
        var r := Insert(x, s[1..], key);
        forall j | 0 <= j < |r| ensures Less(key(s[0]), key(r[j])) {
          InsertElement(x, s[1..], key, r[j]);
          if r[j] != x {
            var k :| 0 <= k < |s[1..]| && s[1..][k] == r[j];
            assert s[k + 1] == r[j];
          }
        }
      }
    }
  }

  /** With distinct keys the sorted order is strict, hence the only one possible. */
  lemma {:induction false} SortDistinct<T>(s: seq<T>, key: T -> string)
    requires DistinctKeys(s, key)
    ensures StrictBy(SortBy(s, key), key)
  {
    if s != [] {
      assert s == [s[0]] + s[1..];
      SortDistinct(s[1..], key);
      var r := SortBy(s[1..], key);
      forall i | 0 <= i < |r| ensures key(r[i]) != key(s[0]) {
        SortKeepsElements(s[1..], key, r[i]);
        var k :| 0 <= k < |s[1..]| && s[1..][k] == r[i];
        assert s[k + 1] == r[i];
      }
      InsertKeepsStrict(s[0], r, key);
    }
  }

  /** The head of an ascending list of strings is its least element. */
  lemma AscendingHead(a: seq<string>, x: string)
    requires AscendingBy(a, Self)
    requires x in a
    ensures a[0] == x || Less(a[0], x)
  {
    var i :| 0 <= i < |a| && a[i] == x;
    LessTotal(a[0], x);
    assert i == 0 || !Less(Self(a[i]), Self(a[0]));
  }

  lemma AscendingTail(a: seq<string>)
    requires a != [] && AscendingBy(a, Self)
    ensures AscendingBy(a[1..], Self)
    ensures multiset(a[1..]) == multiset(a) - multiset{a[0]}
  {
    assert a == [a[0]] + a[1..];
  }

  /** Two ascending lists of strings with the same elements, counted, are equal. */
  lemma {:induction false} AscendingUnique(a: seq<string>, b: seq<string>)
    requires AscendingBy(a, Self) && AscendingBy(b, Self)
    requires |a| == |b| && multiset(a) == multiset(b)
    ensures a == b
  {
    hide Less;
    if a != [] {
      assert a[0] in multiset(a) && b[0] in multiset(b);
      AscendingHead(a, b[0]);
      AscendingHead(b, a[0]);
      LessTotal(a[0], b[0]);
      AscendingTail(a);
      AscendingTail(b);
      AscendingUnique(a[1..], b[1..]);
      assert a == [a[0]] + a[1..] && b == [b[0]] + b[1..];
    }
  }

  /** `sort.Strings` depends only on which strings it is given, not on their order. */
  lemma SortStringsCanonical(a: seq<string>, b: seq<string>)
    requires multiset(a) == multiset(b)
    ensures SortBy(a, Self) == SortBy(b, Self)
  {
    SortSorts(a, Self);
    SortSorts(b, Self);
    assert |multiset(a)| == |multiset(b)|;
    AscendingUnique(SortBy(a, Self), SortBy(b, Self));
  }

  // ------------------------------------------------- ranging over a Go map

  /** `m`'s values in ascending key order. */
  ghost function ByKey<T>(m: map<string, T>): (r: seq<T>)
    ensures |r| == |m.Keys|
  {
    var ks := SortedSet(m.Keys);
    seq(|ks|, i requires 0 <= i < |ks| => m[ks[i]])
  }

  lemma ByKeyElements<T>(m: map<string, T>, x: T)
    ensures x in ByKey(m) <==> exists k :: k in m && m[k] == x
  {
    var ks := SortedSet(m.Keys);
    if x in ByKey(m) {
      var i :| 0 <= i < |ks| && ByKey(m)[i] == x;
      assert ks[i] in m;
    }
    if k :| k in m && m[k] == x {
      assert k in ks;
      var i :| 0 <= i < |ks| && ks[i] == k;
      assert ByKey(m)[i] == x;
    }
  }

  /** Every key is its value's own key: how every map of services is filled. */
  ghost predicate Keyed<T>(m: map<string, T>, key: T -> string) {
    forall k <- m :: key(m[k]) == k
  }

  lemma ByKeyStrict<T>(m: map<string, T>, key: T -> string)
    requires Keyed(m, key)
    ensures StrictBy(ByKey(m), key)
  {
    var ks := SortedSet(m.Keys);
    forall i, j | 0 <= i < j < |ks| ensures Less(key(ByKey(m)[i]), key(ByKey(m)[j])) {
      assert ks[i] in m && ks[j] in m;
      assert Less(ks[i], ks[j]);
    }
  }

  /** `vals` lists `m`'s values once each, in the key order `ks`. */
  ghost predicate Enumerates<T>(m: map<string, T>, ks: seq<string>, vals: seq<T>) {
    && |ks| == |vals|
    && (forall i, j :: 0 <= i < j < |ks| ==> ks[i] != ks[j])
    && (forall k :: k in ks <==> k in m)
    && (forall i :: 0 <= i < |ks| ==> ks[i] in m && vals[i] == m[ks[i]])
  }

  lemma EnumeratesOneMore<T>(m: map<string, T>, ks: seq<string>, vals: seq<T>, k: string, v: T)
    requires Enumerates(m, ks, vals) && k !in m
    ensures Enumerates(m[k := v], ks + [k], vals + [v])
  {
    assert k !in ks;
  }

  /**
   `for _, v := range m { vals = append(vals, v) }`. Go visits a map in no
   particular order, so the next key is any key not yet visited.
   */
  method Values<T>(m: map<string, T>) returns (vals: seq<T>, ghost ks: seq<string>)
    ensures Enumerates(m, ks, vals)
  {
    vals, ks := [], [];
    var left := m.Keys;
    while left != {}
      invariant left <= m.Keys
      invariant |ks| == |vals|
      invariant forall k :: k in ks <==> k in m.Keys - left
      invariant forall i, j :: 0 <= i < j < |ks| ==> ks[i] != ks[j]
      invariant forall i :: 0 <= i < |ks| ==> ks[i] in m && vals[i] == m[ks[i]]
    {
      var k :| k in left;
      assert k !in ks;
      vals, ks := vals + [m[k]], ks + [k];
      left := left - {k};
    }
  }

  /** Collect a map's keys in whatever order Go visits them, then `sort.Strings` them. */
  method SortedKeys<T>(m: map<string, T>) returns (keys: seq<string>)
    ensures keys == SortedSet(m.Keys)
  {
    hide Less, SortBy, SortedSet;
    var found: seq<string> := [];
    var left := m.Keys;
    while left != {}
      invariant left <= m.Keys
      invariant forall k :: k in found <==> k in m.Keys - left
      invariant DistinctKeys(found, Self)
    {
      var k :| k in left;
      assert k !in found;
      found := found + [k];
      left := left - {k};
    }
    keys := SortBy(found, Self);
    SortedDistinct(found, m.Keys);
  }

  lemma SortedDistinct(found: seq<string>, s: set<string>)
    requires DistinctKeys(found, Self)
    requires forall k :: k in found <==> k in s
    ensures SortBy(found, Self) == SortedSet(s)
  {
    hide Less, SortBy;
    var sorted := SortBy(found, Self);
    SortDistinct(found, Self);
    forall k ensures k in sorted <==> k in s { SortKeepsElements(found, Self, k); }
    assert forall i, j :: 0 <= i < j < |sorted| ==> Less(Self(sorted[i]), Self(sorted[j]));
    SortedSetUnique(s, sorted);
  }

  /** Sorting a map's values by their keys forgets the order they were visited in. */
  lemma SortedValues<T>(m: map<string, T>, ks: seq<string>, vals: seq<T>, key: T -> string)
    requires Keyed(m, key)
    requires Enumerates(m, ks, vals)
    ensures SortBy(vals, key) == ByKey(m)
  {
    forall i, j | 0 <= i < j < |vals| ensures key(vals[i]) != key(vals[j]) {
      assert key(vals[i]) == ks[i] && key(vals[j]) == ks[j];
    }
    SortDistinct(vals, key);
    ByKeyStrict(m, key);
    forall x ensures x in SortBy(vals, key) <==> x in ByKey(m) {
      SortKeepsElements(vals, key, x);
      ByKeyElements(m, x);
      if x in vals {
        var i :| 0 <= i < |vals| && vals[i] == x;
        assert ks[i] in m && m[ks[i]] == x;
      }
      if k :| k in m && m[k] == x {
        assert k in ks;
        var i :| 0 <= i < |ks| && ks[i] == k;
        assert vals[i] == x;
      }
    }
    StrictUnique(SortBy(vals, key), ByKey(m), key);
  }

  // ------------------------------------------------------ splitting on dots

  /** `strings.Split(s, ".")`. */
  function SplitDots(s: string): (labels: seq<string>)
    ensures |labels| >= 1
  {
    if s == "" then [""]
    else
      var rest := SplitDots(s[1..]);
      if s[0] == '.' then [""] + rest else [[s[0]] + rest[0]] + rest[1..]
  }

  /** `strings.Join(labels, ".")`. */
  function JoinDots(labels: seq<string>): string
    requires |labels| >= 1
  {
    if |labels| == 1 then labels[0] else labels[0] + "." + JoinDots(labels[1..])
  }

  lemma {:induction false} JoinSplit(s: string)
    ensures JoinDots(SplitDots(s)) == s
    ensures forall l <- SplitDots(s) :: '.' !in l
  {
    if s != "" {
      JoinSplit(s[1..]);
      var rest := SplitDots(s[1..]);
      assert s == [s[0]] + s[1..];
      if s[0] == '.' {
        assert ([""] + rest)[1..] == rest;
        assert forall l <- [""] + rest :: l == "" || l in rest;
      } else {
        var labels := [[s[0]] + rest[0]] + rest[1..];
        assert labels[1..] == rest[1..];
        assert forall l <- labels :: l == [s[0]] + rest[0] || l in rest;
        assert rest[0] in rest;
      }
    }
  }

  lemma {:induction false} SplitLabel(l: string)
    requires '.' !in l
    ensures SplitDots(l) == [l]
  {
    if l != "" {
      assert l[0] in l;
      SplitLabel(l[1..]);
      assert l == [l[0]] + l[1..];
    }
  }

  lemma {:induction false} SplitFirst(l: string, s: string)
    requires '.' !in l
    ensures SplitDots(l + "." + s) == [l] + SplitDots(s)
  {
    var t := l + "." + s;
    if l == "" {
      assert t == ['.'] + s;
      assert t[1..] == s;
    } else {
      assert l[0] in l;
      assert t[1..] == l[1..] + "." + s;
      SplitFirst(l[1..], s);
      assert l == [l[0]] + l[1..];
      assert ([l[1..]] + SplitDots(s))[1..] == SplitDots(s);
    }
  }

  lemma {:induction false} SplitJoin(labels: seq<string>)
    requires |labels| >= 1
    requires forall l <- labels :: '.' !in l
    ensures SplitDots(JoinDots(labels)) == labels
  {
    if |labels| == 1 {
      assert labels[0] in labels;
      SplitLabel(labels[0]);
    } else {
      assert labels[0] in labels;
      SplitJoin(labels[1..]);
      SplitFirst(labels[0], JoinDots(labels[1..]));
      assert labels == [labels[0]] + labels[1..];
    }
  }
}
