/** Sorting by a key of strings, compared string by string in the order of code points. */
module Order {
  import opened Canonical
  import opened CanonicalIdentity

  predicate KeyLess(a: seq<string>, b: seq<string>) {
    b != [] && (a == [] || Less(a[0], b[0]) || (a[0] == b[0] && KeyLess(a[1..], b[1..])))
  }

  lemma {:induction false} KeyTransitive(a: seq<string>, b: seq<string>, c: seq<string>)
    requires KeyLess(a, b) && KeyLess(b, c)
    ensures KeyLess(a, c)
  {
    if a != [] {
      LessTotal(a[0], a[0]);
      if a[0] == b[0] == c[0] {
        KeyTransitive(a[1..], b[1..], c[1..]);
      } else if a[0] != b[0] && b[0] != c[0] {
        LessTransitive(a[0], b[0], c[0]);
      }
    }
  }

  lemma {:induction false} KeyTotal(a: seq<string>, b: seq<string>)
    ensures KeyLess(a, b) || a == b || KeyLess(b, a)
    ensures !(KeyLess(a, b) && KeyLess(b, a))
    ensures !KeyLess(a, a)
  {
    if a != [] {
      LessTotal(a[0], a[0]);
      KeyIrreflexive(a);
    }
    if a != [] && b != [] {
      LessTotal(a[0], b[0]);
      KeyTotal(a[1..], b[1..]);
      assert a == [a[0]] + a[1..] && b == [b[0]] + b[1..];
    }
  }

  lemma {:induction false} KeyIrreflexive(a: seq<string>)
    ensures !KeyLess(a, a)
  {
    if a != [] {
      LessTotal(a[0], a[0]);
      KeyIrreflexive(a[1..]);
    }
  }

  ghost predicate Ascending<T(!new)>(key: T -> seq<string>, s: seq<T>) {
    forall i, j :: 0 <= i < j < |s| ==> KeyLess(key(s[i]), key(s[j]))
  }

  function Insert<T(!new)>(key: T -> seq<string>, x: T, s: seq<T>): (r: seq<T>)
    ensures forall y :: y in r <==> y == x || y in s
    ensures |r| == |s| + 1
  {
    if s == [] || !KeyLess(key(s[0]), key(x)) then [x] + s
    else
      assert s == [s[0]] + s[1..];
      [s[0]] + Insert(key, x, s[1..])
  }

  function Sort<T(!new)>(key: T -> seq<string>, s: seq<T>): (r: seq<T>)
    ensures forall y :: y in r <==> y in s
    ensures |r| == |s|
  {
    if s == [] then []
    else
      assert s == [s[0]] + s[1..];
      Insert(key, s[0], Sort(key, s[1..]))
  }

  lemma {:induction false} InsertAscends<T(!new)>(key: T -> seq<string>, x: T, s: seq<T>)
    requires Ascending(key, s) && forall y :: y in s ==> key(y) != key(x)
    ensures Ascending(key, Insert(key, x, s))
  {
    hide KeyLess;
    if s != [] {
      assert s[0] in s;
      KeyTotal(key(s[0]), key(x));
      if !KeyLess(key(s[0]), key(x)) {
        forall j | 0 <= j < |s|
          ensures KeyLess(key(x), key(s[j]))
        {
          if j > 0 {
            KeyTransitive(key(x), key(s[0]), key(s[j]));
          }
        }
      } else {
        assert s == [s[0]] + s[1..];
        InsertAscends(key, x, s[1..]);
        var rest := Insert(key, x, s[1..]);
        forall j | 0 <= j < |rest|
          ensures KeyLess(key(s[0]), key(rest[j]))
        {
          assert rest[j] in rest;
          if rest[j] != x {
            var k :| 0 <= k < |s[1..]| && s[1..][k] == rest[j];
            assert s[k + 1] == rest[j];
          }
        }
      }
    }
  }

  /** With distinct keys the sorted sequence ascends. */
  lemma {:induction false} SortAscends<T(!new)>(key: T -> seq<string>, s: seq<T>)
    requires forall i, j :: 0 <= i < j < |s| ==> key(s[i]) != key(s[j])
    ensures Ascending(key, Sort(key, s))
  {
    if s != [] {
      SortAscends(key, s[1..]);
      forall y | y in Sort(key, s[1..])
        ensures key(y) != key(s[0])
      {
        var k :| 0 <= k < |s[1..]| && s[1..][k] == y;
        assert key(s[0]) != key(s[k + 1]);
      }
      InsertAscends(key, s[0], Sort(key, s[1..]));
    }
  }

  lemma AscendingKeysDiffer<T(!new)>(key: T -> seq<string>, s: seq<T>, i: nat, j: nat)
    requires Ascending(key, s) && i < j < |s|
    ensures key(s[i]) != key(s[j])
  {
    KeyTotal(key(s[i]), key(s[i]));
  }

  /** There is only one ascending listing of a set. */
  lemma {:induction false} AscendingUnique<T(!new)>(key: T -> seq<string>, x: seq<T>, y: seq<T>)
    requires Ascending(key, x) && Ascending(key, y) && forall e :: e in x <==> e in y
    ensures x == y
  {
    hide KeyLess;
    if x == [] {
      HeadIsIn(y);
    } else {
      assert x[0] in y;
      HeadIsIn(y);
      FirstIsLeast(key, x, y[0]);
      FirstIsLeast(key, y, x[0]);
      KeyTotal(key(x[0]), key(y[0]));
      RestOfAscending(key, x);
      RestOfAscending(key, y);
      AscendingUnique(key, x[1..], y[1..]);
      assert x == [x[0]] + x[1..] && y == [y[0]] + y[1..];
    }
  }

  lemma HeadIsIn<T(!new)>(x: seq<T>)
    ensures x != [] ==> x[0] in x
  {
  }

  lemma FirstIsLeast<T(!new)>(key: T -> seq<string>, x: seq<T>, e: T)
    requires Ascending(key, x) && e in x
    ensures e == x[0] || KeyLess(key(x[0]), key(e))
  {
  }

  lemma RestOfAscending<T(!new)>(key: T -> seq<string>, x: seq<T>)
    requires Ascending(key, x) && x != []
    ensures Ascending(key, x[1..]) && forall e :: e in x[1..] <==> e in x && e != x[0]
  {
    assert x == [x[0]] + x[1..];
    forall e | e in x[1..]
      ensures e != x[0]
    {
      var k :| 0 <= k < |x[1..]| && x[1..][k] == e;
      AscendingKeysDiffer(key, x, 0, k + 1);
    }
  }

  // ---------- Sums over sorted sequences ----------

  function Total<T>(weight: T -> nat, s: seq<T>): nat {
    if s == [] then 0 else weight(s[0]) + Total(weight, s[1..])
  }

  lemma {:induction false} InsertTotal<T(!new)>(key: T -> seq<string>, weight: T -> nat, x: T, s: seq<T>)
    ensures Total(weight, Insert(key, x, s)) == weight(x) + Total(weight, s)
  {
    hide KeyLess;
    if s == [] || !KeyLess(key(s[0]), key(x)) {
      assert ([x] + s)[1..] == s;
    } else {
      InsertTotal(key, weight, x, s[1..]);
      assert Insert(key, x, s)[1..] == Insert(key, x, s[1..]);
    }
  }

  /** Sorting changes no sum over the elements. */
  lemma {:induction false} SortTotal<T(!new)>(key: T -> seq<string>, weight: T -> nat, s: seq<T>)
    ensures Total(weight, Sort(key, s)) == Total(weight, s)
  {
    if s != [] {
      SortTotal(key, weight, s[1..]);
      InsertTotal(key, weight, s[0], Sort(key, s[1..]));
    }
  }
}
