/** sorted(..., key=...) with string keys in code-point order. What the callers need is
    SortedIsCanonical: when keys identify elements, the sorted list depends on the set of
    elements only, so no listing order shows through it. */
module Sorting {

  predicate StrLe(a: string, b: string) {
    a == "" || (b != "" && (a[0] < b[0] || (a[0] == b[0] && StrLe(a[1..], b[1..]))))
  }

  lemma {:induction false} StrLeTotal(a: string, b: string)
    ensures StrLe(a, b) || StrLe(b, a)
  {
    if a != "" && b != "" && a[0] == b[0] {
      StrLeTotal(a[1..], b[1..]);
    }
  }

  lemma {:induction false} StrLeTransitive(a: string, b: string, c: string)
    requires StrLe(a, b) && StrLe(b, c)
    ensures StrLe(a, c)
  {
    if a != "" && a[0] == b[0] && b[0] == c[0] {
      StrLeTransitive(a[1..], b[1..], c[1..]);
    }
  }

  lemma {:induction false} StrLeAntisymmetric(a: string, b: string)
    requires StrLe(a, b) && StrLe(b, a)
    ensures a == b
  {
    if a != "" {
      StrLeAntisymmetric(a[1..], b[1..]);
      assert a == [a[0]] + a[1..] && b == [b[0]] + b[1..];
    }
  }

  /** The first difference decides. */
  lemma {:induction false} StrLeAt(a: string, b: string, k: nat)
    requires k < |a| && k < |b| && a[..k] == b[..k] && a[k] < b[k]
    ensures StrLe(a, b) && a != b
  {
    if k > 0 {
      assert a[0] == a[..k][0] == b[..k][0] == b[0];
      assert a[1..][..k - 1] == a[..k][1..] == b[..k][1..] == b[1..][..k - 1];
      StrLeAt(a[1..], b[1..], k - 1);
    }
  }

  predicate Ordered<T>(key: T -> string, xs: seq<T>) {
    forall i, j :: 0 <= i < j < |xs| ==> StrLe(key(xs[i]), key(xs[j]))
  }

  ghost predicate NoDuplicates<T>(xs: seq<T>) {
    forall i, j :: 0 <= i < j < |xs| ==> xs[i] != xs[j]
  }

  ghost predicate SameElements<T>(xs: seq<T>, ys: seq<T>) {
    (forall x :: x in xs ==> x in ys) && (forall y :: y in ys ==> y in xs)
  }

  function Insert<T>(key: T -> string, x: T, xs: seq<T>): (r: seq<T>)
    ensures |r| == |xs| + 1
  {
    if xs == [] || StrLe(key(x), key(xs[0])) then [x] + xs else [xs[0]] + Insert(key, x, xs[1..])
  }

  function SortBy<T>(key: T -> string, xs: seq<T>): (r: seq<T>)
    ensures |r| == |xs|
  {
    if xs == [] then [] else Insert(key, xs[0], SortBy(key, xs[1..]))
  }

  lemma {:induction false} InsertElements<T>(key: T -> string, x: T, xs: seq<T>)
    ensures multiset(Insert(key, x, xs)) == multiset(xs) + multiset{x}
  {
    if xs != [] && !StrLe(key(x), key(xs[0])) {
      InsertElements(key, x, xs[1..]);
      assert xs == [xs[0]] + xs[1..];
    }
  }

  lemma {:induction false} InsertOrdered<T>(key: T -> string, x: T, xs: seq<T>)
    requires Ordered(key, xs)
    ensures Ordered(key, Insert(key, x, xs))
  {
    if xs == [] {
    } else if StrLe(key(x), key(xs[0])) {
      forall j | 0 <= j < |xs| ensures StrLe(key(x), key(xs[j])) {
        if j > 0 {
          StrLeTransitive(key(x), key(xs[0]), key(xs[j]));
        }
      }
    } else {
      StrLeTotal(key(x), key(xs[0]));
      var tail := Insert(key, x, xs[1..]);
      InsertOrdered(key, x, xs[1..]);
      InsertElements(key, x, xs[1..]);
      forall j | 0 <= j < |tail| ensures StrLe(key(xs[0]), key(tail[j])) {
        assert tail[j] in multiset(tail);
        assert tail[j] == x || tail[j] in xs[1..];
      }
    }
  }

  lemma {:induction false} SortByCorrect<T>(key: T -> string, xs: seq<T>)
    ensures multiset(SortBy(key, xs)) == multiset(xs)
    ensures Ordered(key, SortBy(key, xs))
  {
    if xs != [] {
      SortByCorrect(key, xs[1..]);
      InsertElements(key, xs[0], SortBy(key, xs[1..]));
      InsertOrdered(key, xs[0], SortBy(key, xs[1..]));
      assert xs == [xs[0]] + xs[1..];
    }
  }

  lemma {:induction false} SortByElements<T>(key: T -> string, xs: seq<T>)
    ensures SameElements(xs, SortBy(key, xs))
    ensures NoDuplicates(xs) ==> NoDuplicates(SortBy(key, xs))
  {
    SortByCorrect(key, xs);
    SameMultisetElements(xs, SortBy(key, xs));
  }

  lemma {:induction false} SameMultisetElements<T>(xs: seq<T>, ys: seq<T>)
    requires multiset(xs) == multiset(ys)
    ensures SameElements(xs, ys)
    ensures NoDuplicates(xs) ==> NoDuplicates(ys)
  {
    forall x | x in xs ensures x in ys { assert x in multiset(xs); }
    forall y | y in ys ensures y in xs { assert y in multiset(ys); }
    if NoDuplicates(xs) {
      forall i, j | 0 <= i < j < |ys| ensures ys[i] != ys[j] {
        if ys[i] == ys[j] {
          CountTwo(ys, i, j);
          CountOne(xs, ys[i]);
        }
      }
    }
  }

  lemma {:induction false} CountTwo<T>(xs: seq<T>, i: nat, j: nat)
    requires i < j < |xs| && xs[i] == xs[j]
    ensures multiset(xs)[xs[i]] >= 2
  {
    assert xs == xs[..j] + [xs[j]] + xs[j + 1..];
    assert xs[..j][i] == xs[i];
    assert xs[i] in multiset(xs[..j]);
  }

  lemma {:induction false} CountOne<T>(xs: seq<T>, x: T)
    requires NoDuplicates(xs)
    ensures multiset(xs)[x] <= 1
  {
    if xs != [] {
      CountOne(xs[1..], x);
      assert xs == [xs[0]] + xs[1..];
      if x == xs[0] {
        assert x !in xs[1..];
        assert multiset(xs[1..])[x] == 0;
      }
    }
  }

  /** Keys identify the elements of the list. */
  ghost predicate KeyedBy<T>(key: T -> string, xs: seq<T>) {
    forall x, y :: x in xs && y in xs && key(x) == key(y) ==> x == y
  }

  lemma {:induction false} OrderedUnique<T>(key: T -> string, xs: seq<T>, ys: seq<T>)
    requires Ordered(key, xs) && Ordered(key, ys)
    requires NoDuplicates(xs) && NoDuplicates(ys)
    requires SameElements(xs, ys) && KeyedBy(key, xs)
    ensures xs == ys
  {
    if xs == [] {
      assert forall i :: 0 <= i < |ys| ==> ys[i] in xs;
    } else {
      var x := xs[0];
      assert x in ys;
      var y := ys[0];
      assert y in ys && y in xs;
      var i :| 0 <= i < |ys| && ys[i] == x;
      var j :| 0 <= j < |xs| && xs[j] == y;
      StrLeTotal(key(x), key(y));
      if x != y {
        assert StrLe(key(y), key(x)) && StrLe(key(x), key(y));
        StrLeAntisymmetric(key(x), key(y));
      }
      forall z | z in xs[1..] ensures z in ys[1..] {
        assert z in ys && z != x;
      }
      forall z | z in ys[1..] ensures z in xs[1..] {
        assert z in xs && z != y;
      }
      OrderedUnique(key, xs[1..], ys[1..]);
      assert xs == [x] + xs[1..] && ys == [y] + ys[1..];
    }
  }

  lemma {:induction false} SortedIsCanonical<T>(key: T -> string, xs: seq<T>, ys: seq<T>)
    requires NoDuplicates(xs) && NoDuplicates(ys)
    requires SameElements(xs, ys) && KeyedBy(key, xs)
    ensures SortBy(key, xs) == SortBy(key, ys)
  {
    SortByCorrect(key, xs);
    SortByCorrect(key, ys);
    SortByElements(key, xs);
    SortByElements(key, ys);
    OrderedUnique(key, SortBy(key, xs), SortBy(key, ys));
  }
}
