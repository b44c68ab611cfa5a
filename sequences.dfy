/** Three list idioms of the recipe code: a comprehension with an `if`
    filter, `sorted(xs, key=...)` (Python's sort is stable), and the loop
    `for index, item in enumerate(items): out.append(build(index, item))`
    that stops at the first exception `build` raises. */
module Sequences {
  import opened Wrappers
  import opened Strings

  // ---------------------------------------------------------------------
  // [x for x in s if p(x)]
  // ---------------------------------------------------------------------

  function Filter<T>(s: seq<T>, p: T -> bool): (r: seq<T>)
    ensures |r| <= |s|
    ensures forall i :: 0 <= i < |r| ==> r[i] in s && p(r[i])
    ensures forall i :: 0 <= i < |s| && p(s[i]) ==> s[i] in r
    decreases |s|
  {
    if s == [] then []
    else (if p(s[0]) then [s[0]] else []) + Filter(s[1..], p)
  }

  /** Filtering keeps the relative order: it distributes over `+`. */
  lemma {:induction false} FilterAppend<T>(a: seq<T>, b: seq<T>, p: T -> bool)
    ensures Filter(a + b, p) == Filter(a, p) + Filter(b, p)
    decreases |a|
  {
    if a == [] {
      assert a + b == b;
    } else {
      assert (a + b)[1..] == a[1..] + b;
      FilterAppend(a[1..], b, p);
    }
  }

  // ---------------------------------------------------------------------
  // sorted(s, key=key): insertion sort, which is stable because an element
  // is inserted in front of every element whose key is not smaller.
  // ---------------------------------------------------------------------

  ghost predicate SortedBy<T>(s: seq<T>, key: T -> string)
  {
    forall i, j :: 0 <= i < j < |s| ==> Leq(key(s[i]), key(s[j]))
  }

  function Insert<T>(x: T, s: seq<T>, key: T -> string): (r: seq<T>)
    ensures multiset(r) == multiset(s) + multiset{x}
    decreases |s|
  {
    if s == [] then [x]
    else if Leq(key(x), key(s[0])) then [x] + s
    else
      assert s == [s[0]] + s[1..];
      [s[0]] + Insert(x, s[1..], key)
  }

  function SortBy<T>(s: seq<T>, key: T -> string): (r: seq<T>)
    ensures multiset(r) == multiset(s)
    ensures |r| == |s|
    decreases |s|
  {
    if s == [] then []
    else
      assert s == [s[0]] + s[1..];
      Insert(s[0], SortBy(s[1..], key), key)
  }

  lemma {:induction false} InsertSorted<T>(x: T, s: seq<T>, key: T -> string)
    requires SortedBy(s, key)
    ensures SortedBy(Insert(x, s, key), key)
    decreases |s|
  {
    if s != [] && !Leq(key(x), key(s[0])) {
      LeqTotal(key(x), key(s[0]));
      var tail := Insert(x, s[1..], key);
      InsertSorted(x, s[1..], key);
      var r := [s[0]] + tail;
      forall j | 0 < j < |r|
        ensures Leq(key(s[0]), key(r[j]))
      {
        assert r[j] in multiset(tail);
        if r[j] != x {
          assert r[j] in multiset(s[1..]);
          var m :| 0 <= m < |s[1..]| && s[1..][m] == r[j];
          assert s[m + 1] == r[j];
        }
      }
    } else if s != [] {
      var r := [x] + s;
      forall j | 0 < j < |r|
        ensures Leq(key(x), key(r[j]))
      {
        if j > 1 {
          LeqTransitive(key(x), key(s[0]), key(r[j]));
        }
      }
    }
  }

  /** The output of `sorted` is in ascending key order. */
  lemma {:induction false} SortBySorted<T>(s: seq<T>, key: T -> string)
    ensures SortedBy(SortBy(s, key), key)
    decreases |s|
  {
    if s != [] {
      SortBySorted(s[1..], key);
      InsertSorted(s[0], SortBy(s[1..], key), key);
    }
  }

  lemma FilterCons<T>(x: T, s: seq<T>, p: T -> bool)
    ensures Filter([x] + s, p) == (if p(x) then [x] else []) + Filter(s, p)
  {
    assert ([x] + s)[1..] == s;
  }

  /** The elements whose key is `k`. */
  function HasKey<T>(key: T -> string, k: string): T -> bool
  {
    y => key(y) == k
  }

  lemma {:induction false} InsertStable<T>(x: T, s: seq<T>, key: T -> string, k: string)
    ensures Filter(Insert(x, s, key), HasKey(key, k))
         == (if key(x) == k then [x] else []) + Filter(s, HasKey(key, k))
    decreases |s|
  {
    var p := HasKey(key, k);
    if s == [] {
      FilterCons(x, s, p);
    } else if Leq(key(x), key(s[0])) {
      FilterCons(x, s, p);
    } else {
      var tail := Insert(x, s[1..], key);
      var rest := Filter(s[1..], p);
      InsertStable(x, s[1..], key, k);
      FilterCons(s[0], tail, p);
      FilterCons(s[0], s[1..], p);
      assert s == [s[0]] + s[1..];
      if key(x) == k {
        LeqReflexive(key(x));
        assert !p(s[0]);
        assert Filter(tail, p) == [x] + rest;
      } else {
        assert Filter(tail, p) == rest;
      }
    }
  }

  /** `sorted` is stable: the elements sharing any one key come out in the
      order they went in. */
  lemma {:induction false} SortByStable<T>(s: seq<T>, key: T -> string, k: string)
    ensures Filter(SortBy(s, key), HasKey(key, k)) == Filter(s, HasKey(key, k))
    decreases |s|
  {
    if s != [] {
      SortByStable(s[1..], key, k);
      InsertStable(s[0], SortBy(s[1..], key), key, k);
    }
  }

  /** Concatenation regrouped: two pairs of sequences in a row. */
  lemma AppendFour<T>(a: seq<T>, b: seq<T>, c: seq<T>, d: seq<T>)
    ensures (a + b) + (c + d) == a + b + c + d
  {
  }

  lemma SortedTail<T>(s: seq<T>, key: T -> string)
    requires s != [] && SortedBy(s, key)
    ensures SortedBy(s[1..], key)
  {
    forall i, j | 0 <= i < j < |s| - 1
      ensures Leq(key(s[1..][i]), key(s[1..][j]))
    {
      assert s[1..][i] == s[i + 1] && s[1..][j] == s[j + 1];
    }
  }

  function Id(s: string): string
  {
    s
  }

  /** The first of a sorted list of strings is the least of them. */
  lemma SortedHead(s: seq<string>, x: string)
    requires SortedBy(s, Id) && x in s
    ensures Leq(s[0], x)
  {
    var i :| 0 <= i < |s| && s[i] == x;
    if i > 0 {
      assert Leq(Id(s[0]), Id(s[i]));
    } else {
      LeqReflexive(x);
    }
  }

  lemma MultisetTail<T>(s: seq<T>)
    requires s != []
    ensures multiset(s[1..]) == multiset(s) - multiset{s[0]}
  {
    assert s == [s[0]] + s[1..];
  }

  /** Sorting strings by themselves has one answer for each multiset of
      strings: whatever order they are given in, `sorted` returns the same
      list. */
  lemma {:induction false} SortedStringsUnique(a: seq<string>, b: seq<string>)
    requires SortedBy(a, Id) && SortedBy(b, Id)
    requires multiset(a) == multiset(b)
    ensures a == b
    decreases |a|
  {
    assert |b| == |multiset(b)| == |multiset(a)| == |a|;
    if a != [] {
      assert a[0] in multiset(b) && b[0] in multiset(a);
      SortedHead(b, a[0]);
      SortedHead(a, b[0]);
      LeqAntisymmetric(a[0], b[0]);
      MultisetTail(a);
      MultisetTail(b);
      SortedTail(a, Id);
      SortedTail(b, Id);
      SortedStringsUnique(a[1..], b[1..]);
      forall i | 0 < i < |a|
        ensures a[i] == b[i]
      {
        assert a[i] == a[1..][i - 1] && b[i] == b[1..][i - 1];
      }
    }
  }

  // ---------------------------------------------------------------------
  // for index, item in enumerate(items): out.append(build(index, item))
  // ---------------------------------------------------------------------

  /** The outputs for `items[from..]`, or the first error `build` gives. */
  function Collect<T, P, E>(items: seq<T>, from: nat, build: (nat, T) -> Result<P, E>): Result<seq<P>, E>
    decreases |items| - from
  {
    if from >= |items| then Ok([])
    else match build(from, items[from])
      case Err(e) => Err(e)
      case Ok(p) =>
        match Collect(items, from + 1, build)
        case Err(e) => Err(e)
        case Ok(ps) => Ok([p] + ps)
  }

  /** Outputs already produced, followed by the outcome of the rest. */
  function Prepend<P, E>(done: seq<P>, rest: Result<seq<P>, E>): Result<seq<P>, E>
  {
    match rest
    case Ok(ps) => Ok(done + ps)
    case Err(e) => Err(e)
  }

  lemma PrependNothing<P, E>(rest: Result<seq<P>, E>)
    ensures Prepend([], rest) == rest
  {
    match rest
    case Ok(ps) => assert [] + ps == ps;
    case Err(_) =>
  }

  /** After the last item the outputs produced are the result. */
  lemma CollectDone<T, P, E>(items: seq<T>, build: (nat, T) -> Result<P, E>, done: seq<P>)
    ensures Prepend(done, Collect(items, |items|, build)) == Ok(done)
  {
    assert done + [] == done;
  }

  /** One turn of the loop: a successful build moves its output to the
      outputs already produced. */
  lemma CollectStep<T, P, E>(items: seq<T>, from: nat, build: (nat, T) -> Result<P, E>, done: seq<P>)
    requires from < |items| && build(from, items[from]).Ok?
    ensures Prepend(done, Collect(items, from, build))
         == Prepend(done + [build(from, items[from]).value], Collect(items, from + 1, build))
  {
    var p := build(from, items[from]).value;
    match Collect(items, from + 1, build)
    case Ok(ps) =>
      assert done + ([p] + ps) == (done + [p]) + ps;
    case Err(e) =>
  }

  /** The loop completes exactly when no item fails, and then the output at
      position `i` is what `build` made of `items[i]` with index `i`. */
  lemma {:induction false} CollectOk<T, P, E>(items: seq<T>, from: nat, build: (nat, T) -> Result<P, E>)
    requires from <= |items|
    ensures Collect(items, from, build).Ok? <==> forall i :: from <= i < |items| ==> build(i, items[i]).Ok?
    ensures Collect(items, from, build).Ok? ==>
      |Collect(items, from, build).value| == |items| - from &&
      forall i :: from <= i < |items| ==> build(i, items[i]) == Ok(Collect(items, from, build).value[i - from])
    decreases |items| - from
  {
    if from < |items| {
      CollectOk(items, from + 1, build);
    }
  }

  /** The loop's outcome depends only on what `build` gives for the items
      at their positions. */
  lemma {:induction false} CollectAgree<T, P, E>(items: seq<T>, from: nat, b1: (nat, T) -> Result<P, E>, b2: (nat, T) -> Result<P, E>)
    requires forall i :: from <= i < |items| ==> b1(i, items[i]) == b2(i, items[i])
    ensures Collect(items, from, b1) == Collect(items, from, b2)
    decreases |items| - from
  {
    if from < |items| {
      CollectAgree(items, from + 1, b1, b2);
    }
  }

  /** A failed loop reports the error of the first item that fails. */
  lemma {:induction false} CollectErr<T, P, E>(items: seq<T>, from: nat, build: (nat, T) -> Result<P, E>)
    requires Collect(items, from, build).Err?
    ensures exists i :: from <= i < |items| && build(i, items[i]) == Err(Collect(items, from, build).error)
                        && forall j :: from <= j < i ==> build(j, items[j]).Ok?
    decreases |items| - from
  {
    if build(from, items[from]).Err? {
      assert build(from, items[from]) == Err(Collect(items, from, build).error);
    } else {
      CollectErr(items, from + 1, build);
    }
  }
}
