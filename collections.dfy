/**
 * The collection operations of the Java library that the core relies on:
 * a `TreeSet<String>` built from a list (sorted by `String.compareTo`,
 * duplicates dropped), `List.remove(Object)` (first occurrence only) and
 * `List.removeAll(Collection)` (every occurrence).
 */
module Collections {
  import opened Strings

  predicate NoDuplicates<T(==)>(s: seq<T>) {
    forall i, j :: 0 <= i < j < |s| ==> s[i] != s[j]
  }

  /** Strictly ascending in `String.compareTo` order: the iteration order of a `TreeSet<String>`. */
  predicate StrictlySorted(s: seq<string>) {
    forall i, j :: 0 <= i < j < |s| ==> LexLeq(s[i], s[j]) && s[i] != s[j]
  }

  /** `TreeSet.add`: insert `x` into an ascending list unless it is already there. */
  function SetInsert(x: string, s: seq<string>): (r: seq<string>)
    requires StrictlySorted(s)
    ensures StrictlySorted(r)
    ensures forall y :: y in r <==> y == x || y in s
    decreases |s|
  {
    if s == [] then [x]
    else if x == s[0] then s
    else if LexLeq(x, s[0]) then
      assert forall j :: 0 <= j < |s| ==> LexLeq(x, s[j]) && x != s[j] by {
        forall j | 0 <= j < |s| ensures LexLeq(x, s[j]) && x != s[j] {
          if j > 0 {
            LexLeqTransitive(x, s[0], s[j]);
            if x == s[j] { LexLeqAntisymmetric(s[0], x); }
          }
        }
      }
      [x] + s
    else
      var t := SetInsert(x, s[1..]);
      assert LexLeq(s[0], x) by { LexLeqTotal(x, s[0]); }
      assert forall j :: 0 <= j < |t| ==> LexLeq(s[0], t[j]) && s[0] != t[j] by {
        forall j | 0 <= j < |t| ensures LexLeq(s[0], t[j]) && s[0] != t[j] {
          assert t[j] in t;
        }
      }
      [s[0]] + t
  }

  /** `new TreeSet<>(xs)`, read back in iteration order. */
  function TreeSetOf(xs: seq<string>): (r: seq<string>)
    ensures StrictlySorted(r)
    ensures forall y :: y in r <==> y in xs
    decreases |xs|
  {
    if xs == [] then [] else SetInsert(xs[|xs| - 1], TreeSetOf(xs[..|xs| - 1]))
  }

  /** `List.remove(Object)`: drop the first occurrence of `x`, if any. */
  function RemoveFirst<T(==)>(s: seq<T>, x: T): (r: seq<T>)
    ensures x in s ==> multiset(r) == multiset(s) - multiset{x}
    ensures x !in s ==> r == s
    decreases |s|
  {
    if s == [] then []
    else if s[0] == x then
      assert s == [s[0]] + s[1..];
      s[1..]
    else
      assert s == [s[0]] + s[1..];
      [s[0]] + RemoveFirst(s[1..], x)
  }

  /** `remove(x)` cuts the list at the first occurrence of `x` and keeps
      the elements before and after it in order. (Every list holding `x`
      is `a + [x] + b` for exactly one `a` without `x`.) */
  lemma {:induction false} RemoveFirstSplit<T>(a: seq<T>, x: T, b: seq<T>)
    requires x !in a
    ensures RemoveFirst(a + [x] + b, x) == a + b
    decreases |a|
  {
    if a == [] {
      assert a + [x] + b == [x] + b;
      assert ([x] + b)[1..] == b;
    } else {
      var s := a + [x] + b;
      var rest := a[1..] + [x] + b;
      assert s[0] == a[0] && a[0] != x by { assert a[0] in a; }
      assert s[1..] == rest;
      RemoveFirstSplit(a[1..], x, b);
      RemoveFirstPastHead(s, x);
      HeadTailAppend(a, b);
      calc {
        RemoveFirst(s, x);
        [a[0]] + RemoveFirst(rest, x);
        [a[0]] + (a[1..] + b);
        a + b;
      }
    }
  }

  /** A head other than `x` stays in front. */
  lemma RemoveFirstPastHead<T>(s: seq<T>, x: T)
    requires s != [] && s[0] != x
    ensures RemoveFirst(s, x) == [s[0]] + RemoveFirst(s[1..], x)
  {
  }

  lemma HeadTailAppend<T>(a: seq<T>, b: seq<T>)
    requires a != []
    ensures [a[0]] + (a[1..] + b) == a + b
  {
  }

  /** In a list without duplicates, `remove(x)` leaves no copy of `x` behind and adds no duplicate. */
  lemma {:induction false} RemoveFirstNoDuplicates<T>(s: seq<T>, x: T)
    requires NoDuplicates(s)
    ensures NoDuplicates(RemoveFirst(s, x)) && x !in RemoveFirst(s, x)
    decreases |s|
  {
    if s != [] {
      TailNoDuplicates(s);
      if s[0] != x {
        var t := RemoveFirst(s[1..], x);
        RemoveFirstNoDuplicates(s[1..], x);
        RemoveFirstPastHead(s, x);
        assert s[0] !in t by {
          assert s[0] !in multiset(s[1..]);
          assert multiset(t) <= multiset(s[1..]);
        }
        ConsNoDuplicates(s[0], t);
      }
    }
  }

  lemma TailNoDuplicates<T>(s: seq<T>)
    requires NoDuplicates(s) && s != []
    ensures NoDuplicates(s[1..]) && s[0] !in s[1..]
  {
    forall k | 0 <= k < |s| - 1 ensures s[1..][k] != s[0] {
      assert s[1..][k] == s[k + 1];
    }
  }

  lemma ConsNoDuplicates<T>(x: T, t: seq<T>)
    requires NoDuplicates(t) && x !in t
    ensures NoDuplicates([x] + t)
  {
    var r := [x] + t;
    forall i, j | 0 <= i < j < |r| ensures r[i] != r[j] {
      if i == 0 { assert r[j] == t[j - 1]; } else { assert r[i] == t[i - 1] && r[j] == t[j - 1]; }
    }
  }

  /** `List.removeAll(c)`: drop every element that occurs in `c`, keeping the order of the rest. */
  function RemoveAll(s: seq<string>, c: seq<string>): (r: seq<string>)
    ensures forall y :: y in r <==> y in s && y !in c
    ensures multiset(r) <= multiset(s)
    ensures NoDuplicates(s) ==> NoDuplicates(r)
    decreases |s|
  {
    if s == [] then []
    else
      assert s == [s[0]] + s[1..];
      (if s[0] in c then [] else [s[0]]) + RemoveAll(s[1..], c)
  }

  /** `removeAll` works element by element in list order: removing from a
      concatenation is concatenating the removals. */
  lemma {:induction false} RemoveAllAppend(a: seq<string>, b: seq<string>, c: seq<string>)
    ensures RemoveAll(a + b, c) == RemoveAll(a, c) + RemoveAll(b, c)
    decreases |a|
  {
    if a == [] {
      assert a + b == b;
    } else {
      var h := if a[0] in c then [] else [a[0]];
      RemoveAllAppend(a[1..], b, c);
      HeadTailAppend(a, b);
      RemoveAllCons(a[0], a[1..] + b, c);
      RemoveAllPastHead(a, c);
      Regroup(RemoveAll(a + b, c), RemoveAll(a, c), h, RemoveAll(a[1..], c), RemoveAll(b, c));
    }
  }

  /** `RemoveAllPastHead` for a list written as head and tail. */
  lemma RemoveAllCons(x: string, t: seq<string>, c: seq<string>)
    ensures RemoveAll([x] + t, c) == (if x in c then [] else [x]) + RemoveAll(t, c)
  {
    assert ([x] + t)[0] == x && ([x] + t)[1..] == t;
  }

  /** Substituting `ra == h + p` into `h + (p + q)`. */
  lemma Regroup<T>(r: seq<T>, ra: seq<T>, h: seq<T>, p: seq<T>, q: seq<T>)
    requires r == h + (p + q) && ra == h + p
    ensures r == ra + q
  {
  }

  /** The head is kept or dropped on its own; the tail is handled the same way. */
  lemma RemoveAllPastHead(s: seq<string>, c: seq<string>)
    requires s != []
    ensures RemoveAll(s, c) == (if s[0] in c then [] else [s[0]]) + RemoveAll(s[1..], c)
  {
  }
}
