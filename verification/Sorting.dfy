/** Lexicographic order and stable sorting, and when sorting is a canonical form. */
module Sorting {

  ghost predicate TotalOrder<T(!new)>(le: (T, T) -> bool) {
    && (forall a, b :: le(a, b) || le(b, a))
    && (forall a, b :: le(a, b) && le(b, a) ==> a == b)
    && (forall a, b, c :: le(a, b) && le(b, c) ==> le(a, c))
  }

  function LexLe<T(==)>(a: seq<T>, b: seq<T>, le: (T, T) -> bool): bool {
    if a == [] then true
    else if b == [] then false
    else if a[0] == b[0] then LexLe(a[1..], b[1..], le)
    else le(a[0], b[0])
  }

  lemma {:induction false} LexTotal<T(!new)>(a: seq<T>, b: seq<T>, le: (T, T) -> bool)
    requires TotalOrder(le)
    ensures LexLe(a, b, le) || LexLe(b, a, le)
  {
    if a != [] && b != [] && a[0] == b[0] { LexTotal(a[1..], b[1..], le); }
  }

  lemma {:induction false} LexAntisymmetric<T(!new)>(a: seq<T>, b: seq<T>, le: (T, T) -> bool)
    requires TotalOrder(le) && LexLe(a, b, le) && LexLe(b, a, le)
    ensures a == b
  {
    if a != [] && b != [] && a[0] == b[0] {
      LexAntisymmetric(a[1..], b[1..], le);
      assert a == [a[0]] + a[1..] && b == [b[0]] + b[1..];
    }
  }

  lemma {:induction false} LexTransitive<T(!new)>(a: seq<T>, b: seq<T>, c: seq<T>, le: (T, T) -> bool)
    requires TotalOrder(le) && LexLe(a, b, le) && LexLe(b, c, le)
    ensures LexLe(a, c, le)
  {
    if a != [] && b != [] && c != [] && a[0] == b[0] == c[0] { LexTransitive(a[1..], b[1..], c[1..], le); }
  }

  /** Two sequences agree up to `k`, where the first one ends or has the smaller element. */
  predicate BelowAt<T(==)>(a: seq<T>, b: seq<T>, le: (T, T) -> bool, k: nat) {
    && k <= |a| && k <= |b| && a[..k] == b[..k]
    && (k == |a| || (k < |b| && a[k] != b[k] && le(a[k], b[k])))
  }

  lemma BelowInTail<T>(a: seq<T>, b: seq<T>, le: (T, T) -> bool, k: nat)
    requires a != [] && b != [] && a[0] == b[0]
    ensures BelowAt(a, b, le, k + 1) <==> BelowAt(a[1..], b[1..], le, k)
  {
    if k + 1 <= |a| && k + 1 <= |b| {
      assert a[..k + 1] == [a[0]] + a[1..][..k] && b[..k + 1] == [b[0]] + b[1..][..k];
      assert a[..k + 1][1..] == a[1..][..k] && b[..k + 1][1..] == b[1..][..k];
    }
  }

  lemma PrefixesAgree<T>(a: seq<T>, b: seq<T>, k: nat)
    requires k <= |a| && k <= |b| && a[..k] == b[..k]
    ensures k > 0 ==> a[0] == b[0]
  {
    assert k > 0 ==> a[..k][0] == a[0] && b[..k][0] == b[0];
  }

  /** The order is lexicographic: a prefix comes first, and otherwise the first difference decides. */
  lemma {:induction false} LexLeExactlyWhen<T>(a: seq<T>, b: seq<T>, le: (T, T) -> bool)
    ensures LexLe(a, b, le) <==> exists k: nat :: BelowAt(a, b, le, k)
  {
    if a == [] {
      assert BelowAt(a, b, le, 0);
    } else if b != [] && a[0] == b[0] {
      LexLeExactlyWhen(a[1..], b[1..], le);
      if k: nat :| BelowAt(a[1..], b[1..], le, k) { BelowInTail(a, b, le, k); }
      if k: nat :| BelowAt(a, b, le, k) {
        assert k > 0;
        BelowInTail(a, b, le, k - 1);
      }
    } else if b != [] {
      assert le(a[0], b[0]) ==> BelowAt(a, b, le, 0);
      forall k: nat | BelowAt(a, b, le, k) ensures k == 0 { PrefixesAgree(a, b, k); }
    }
  }

  /** Python's order on strings and on tuples of strings. */
  predicate StringLe(a: string, b: string) { LexLe(a, b, (x: char, y: char) => x <= y) }

  predicate TupleLe(a: seq<string>, b: seq<string>) { LexLe(a, b, (x: string, y: string) => StringLe(x, y)) }

  lemma StringOrder()
    ensures TotalOrder((x: string, y: string) => StringLe(x, y))
  {
    var le := (x: char, y: char) => x <= y;
    forall a: string, b: string ensures StringLe(a, b) || StringLe(b, a) { LexTotal(a, b, le); }
    forall a: string, b: string | StringLe(a, b) && StringLe(b, a) ensures a == b { LexAntisymmetric(a, b, le); }
    forall a: string, b: string, c: string | StringLe(a, b) && StringLe(b, c) ensures StringLe(a, c) {
      LexTransitive(a, b, c, le);
    }
  }

  lemma TupleTotal(a: seq<string>, b: seq<string>)
    ensures TupleLe(a, b) || TupleLe(b, a)
  {
    StringOrder();
    LexTotal(a, b, (x: string, y: string) => StringLe(x, y));
  }

  lemma TupleAntisymmetric(a: seq<string>, b: seq<string>)
    requires TupleLe(a, b) && TupleLe(b, a)
    ensures a == b
  {
    StringOrder();
    LexAntisymmetric(a, b, (x: string, y: string) => StringLe(x, y));
  }

  lemma TupleTransitive(a: seq<string>, b: seq<string>, c: seq<string>)
    requires TupleLe(a, b) && TupleLe(b, c)
    ensures TupleLe(a, c)
  {
    StringOrder();
    LexTransitive(a, b, c, (x: string, y: string) => StringLe(x, y));
  }

  /** Strings compare by code point. */
  lemma StringLeExactlyWhen(a: string, b: string)
    ensures StringLe(a, b) <==>
            exists k: nat ::
              && k <= |a| && k <= |b| && a[..k] == b[..k]
              && (k == |a| || (k < |b| && a[k] < b[k]))
  {
    var le := (x: char, y: char) => x <= y;
    LexLeExactlyWhen(a, b, le);
    if k: nat :| BelowAt(a, b, le, k) {
      assert a[..k] == b[..k];
    }
    if k: nat :| k <= |a| && k <= |b| && a[..k] == b[..k] && (k == |a| || (k < |b| && a[k] < b[k])) {
      assert BelowAt(a, b, le, k);
    }
  }

  // ---------------------------------------------------------------- sorted(items, key=...)

  function Insert<T>(x: T, s: seq<T>, key: T -> seq<string>): seq<T> {
    if s == [] || TupleLe(key(x), key(s[0])) then [x] + s
    else [s[0]] + Insert(x, s[1..], key)
  }

  /** Stable: equal keys keep their order. */
  function SortBy<T>(s: seq<T>, key: T -> seq<string>): seq<T> {
    if s == [] then [] else Insert(s[0], SortBy(s[1..], key), key)
  }

  ghost predicate Ordered<T>(s: seq<T>, key: T -> seq<string>) {
    forall i, j | 0 <= i < j < |s| :: TupleLe(key(s[i]), key(s[j]))
  }

  lemma {:induction false} InsertContents<T>(x: T, s: seq<T>, key: T -> seq<string>)
    ensures multiset(Insert(x, s, key)) == multiset(s) + multiset{x} && |Insert(x, s, key)| == |s| + 1
  {
    hide TupleLe;
    if s != [] && !TupleLe(key(x), key(s[0])) {
      InsertContents(x, s[1..], key);
      assert s == [s[0]] + s[1..];
    }
  }

  lemma TailOrdered<T>(a: seq<T>, key: T -> seq<string>)
    requires a != [] && Ordered(a, key)
    ensures Ordered(a[1..], key)
  {
    hide TupleLe;
  }

  lemma AllAfter<T>(x: T, s: seq<T>, key: T -> seq<string>)
    requires Ordered(s, key) && (s != [] ==> TupleLe(key(x), key(s[0])))
    ensures Ordered([x] + s, key)
  {
    hide TupleLe;
    forall j | 0 < j < |s| ensures TupleLe(key(x), key(s[j])) { TupleTransitive(key(x), key(s[0]), key(s[j])); }
  }

  lemma InsertStarts<T>(x: T, s: seq<T>, key: T -> seq<string>)
    ensures Insert(x, s, key) != [] && (Insert(x, s, key)[0] == x || (s != [] && Insert(x, s, key)[0] == s[0]))
  {
    hide TupleLe;
  }

  lemma {:induction false} InsertOrders<T>(x: T, s: seq<T>, key: T -> seq<string>)
    requires Ordered(s, key)
    ensures Ordered(Insert(x, s, key), key)
  {
    if s == [] || TupleLe(key(x), key(s[0])) {
      hide TupleLe;
      AllAfter(x, s, key);
    } else {
      TupleTotal(key(s[0]), key(x));
      hide TupleLe;
      TailOrdered(s, key);
      InsertOrders(x, s[1..], key);
      InsertStarts(x, s[1..], key);
      AllAfter(s[0], Insert(x, s[1..], key), key);
    }
  }

  lemma {:induction false} SortSorts<T>(s: seq<T>, key: T -> seq<string>)
    ensures multiset(SortBy(s, key)) == multiset(s)
    ensures |SortBy(s, key)| == |s|
    ensures Ordered(SortBy(s, key), key)
  {
    if s != [] {
      SortSorts(s[1..], key);
      InsertContents(s[0], SortBy(s[1..], key), key);
      InsertOrders(s[0], SortBy(s[1..], key), key);
      assert s == [s[0]] + s[1..];
    }
  }

  /** The elements with one key, in order. */
  function WithKey<T(==,!new)>(s: seq<T>, key: T -> seq<string>, k: seq<string>): (r: seq<T>)
    ensures forall x :: x in r <==> x in s && key(x) == k
  {
    if s == [] then [] else (if key(s[0]) == k then [s[0]] else []) + WithKey(s[1..], key, k)
  }

  lemma {:induction false} InsertIsStable<T(!new)>(x: T, s: seq<T>, key: T -> seq<string>, k: seq<string>)
    ensures WithKey(Insert(x, s, key), key, k) == WithKey([x] + s, key, k)
  {
    if s != [] && !TupleLe(key(x), key(s[0])) {
      InsertIsStable(x, s[1..], key, k);
      TupleTotal(key(x), key(x));
      hide TupleLe;
      assert key(x) != key(s[0]);
      assert ([x] + s)[1..] == s && ([x] + s[1..])[1..] == s[1..];
      assert ([s[0]] + Insert(x, s[1..], key))[1..] == Insert(x, s[1..], key);
    }
  }

  /** Stable: elements with equal keys keep their order. */
  lemma {:induction false} SortIsStable<T(!new)>(s: seq<T>, key: T -> seq<string>, k: seq<string>)
    ensures WithKey(SortBy(s, key), key, k) == WithKey(s, key, k)
  {
    if s != [] {
      SortIsStable(s[1..], key, k);
      InsertIsStable(s[0], SortBy(s[1..], key), key, k);
      assert ([s[0]] + SortBy(s[1..], key))[1..] == SortBy(s[1..], key);
    }
  }

  lemma LeastFirst<T>(s: seq<T>, key: T -> seq<string>, x: T)
    requires Ordered(s, key) && x in s
    ensures TupleLe(key(s[0]), key(x))
  {
    hide TupleLe;
    if x == s[0] { TupleTotal(key(x), key(x)); }
  }

  /** No two different elements share a key. */
  ghost predicate KeyedApart<T(!new)>(m: multiset<T>, key: T -> seq<string>) {
    forall x, y | x in m && y in m && key(x) == key(y) :: x == y
  }

  lemma SameHead<T(!new)>(a: seq<T>, b: seq<T>, key: T -> seq<string>)
    requires Ordered(a, key) && Ordered(b, key) && multiset(a) == multiset(b) && KeyedApart(multiset(a), key)
    requires a != []
    ensures b != [] && a[0] == b[0]
  {
    hide TupleLe;
    assert a[0] in multiset(b);
    assert b[0] in multiset(a);
    LeastFirst(a, key, b[0]);
    LeastFirst(b, key, a[0]);
    TupleAntisymmetric(key(a[0]), key(b[0]));
  }

  lemma TailMultiset<T>(a: seq<T>)
    requires a != []
    ensures multiset(a[1..]) == multiset(a) - multiset{a[0]}
  {
    assert a == [a[0]] + a[1..];
  }

  lemma SameLength<T>(a: seq<T>, b: seq<T>)
    requires multiset(a) == multiset(b)
    ensures |a| == |b|
  {
    assert |multiset(a)| == |a| && |multiset(b)| == |b|;
  }

  lemma TailsAgree<T(!new)>(a: seq<T>, b: seq<T>, key: T -> seq<string>)
    requires a != [] && b != [] && a[0] == b[0] && multiset(a) == multiset(b) && KeyedApart(multiset(a), key)
    ensures multiset(a[1..]) == multiset(b[1..]) && KeyedApart(multiset(a[1..]), key)
  {
    TailMultiset(a);
    TailMultiset(b);
    assert multiset(a[1..]) <= multiset(a);
  }

  lemma {:induction false} OrderedIsUnique<T(!new)>(a: seq<T>, b: seq<T>, key: T -> seq<string>)
    requires Ordered(a, key) && Ordered(b, key) && multiset(a) == multiset(b) && KeyedApart(multiset(a), key)
    ensures a == b
  {
    hide Ordered, KeyedApart;
    if a == [] {
      SameLength(a, b);
    } else {
      SameHead(a, b, key);
      TailsAgree(a, b, key);
      TailOrdered(a, key);
      TailOrdered(b, key);
      OrderedIsUnique(a[1..], b[1..], key);
      assert a == [a[0]] + a[1..] && b == [b[0]] + b[1..];
    }
  }

  /** Sorting is a canonical form of the multiset when keys tell the elements apart. */
  lemma SortIsCanonical<T(!new)>(a: seq<T>, b: seq<T>, key: T -> seq<string>)
    requires KeyedApart(multiset(a) + multiset(b), key)
    ensures SortBy(a, key) == SortBy(b, key) <==> multiset(a) == multiset(b)
  {
    SortSorts(a, key);
    SortSorts(b, key);
    if multiset(a) == multiset(b) { OrderedIsUnique(SortBy(a, key), SortBy(b, key), key); }
  }
}
