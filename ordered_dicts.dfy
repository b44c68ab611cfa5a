/** Python's insertion-ordered `dict` and `OrderedDict`: a sequence of
    key/value pairs whose keys are pairwise distinct. Assigning to a key that
    is present replaces its value where it stands; assigning to a new key
    appends it. */
module OrderedDicts {
  import opened Wrappers

  predicate Distinct(ks: seq<string>)
  {
    forall i, j :: 0 <= i < j < |ks| ==> ks[i] != ks[j]
  }

  predicate DistinctKeys<V>(d: seq<(string, V)>)
  {
    forall i, j :: 0 <= i < j < |d| ==> d[i].0 != d[j].0
  }

  type Dict<V> = d: seq<(string, V)> | DistinctKeys(d) witness []

  /** The keys in iteration order. */
  function Keys<V>(d: seq<(string, V)>): (ks: seq<string>)
    ensures |ks| == |d|
    ensures forall i :: 0 <= i < |d| ==> ks[i] == d[i].0
  {
    seq(|d|, i requires 0 <= i < |d| => d[i].0)
  }

  lemma KeysAppend<V>(a: seq<(string, V)>, b: seq<(string, V)>)
    ensures Keys(a + b) == Keys(a) + Keys(b)
  {
  }

  /** The position of the first pair with key `k`. */
  function Find<V>(d: seq<(string, V)>, k: string): (r: Option<nat>)
    ensures r.Some? ==> r.value < |d| && d[r.value].0 == k
    ensures r.None? ==> forall i :: 0 <= i < |d| ==> d[i].0 != k
    decreases |d|
  {
    if d == [] then None
    else if d[0].0 == k then Some(0)
    else match Find(d[1..], k)
      case None => None
      case Some(i) => Some(i + 1)
  }

  /** `d.get(k)`. */
  function Lookup<V>(d: seq<(string, V)>, k: string): Option<V>
  {
    match Find(d, k)
    case None => None
    case Some(i) => Some(d[i].1)
  }

  lemma LookupAt<V>(d: Dict<V>, i: nat)
    requires i < |d|
    ensures Lookup(d, d[i].0) == Some(d[i].1)
  {
  }

  lemma LookupAbsent<V>(d: seq<(string, V)>, k: string)
    requires k !in Keys(d)
    ensures Lookup(d, k) == None
  {
    forall i | 0 <= i < |d|
      ensures d[i].0 != k
    {
      assert Keys(d)[i] == d[i].0;
    }
  }

  /** A key has a value exactly when it is one of the keys. */
  lemma LookupPresent<V>(d: Dict<V>, k: string)
    ensures Lookup(d, k).Some? <==> k in Keys(d)
  {
    if k in Keys(d) {
      var i :| 0 <= i < |d| && Keys(d)[i] == k;
      LookupAt(d, i);
    } else {
      LookupAbsent(d, k);
    }
  }

  /** The value of an existing key is the value of one of the pairs. */
  lemma LookupValue<V>(d: Dict<V>, k: string)
    requires Lookup(d, k).Some?
    ensures exists j :: 0 <= j < |d| && d[j] == (k, Lookup(d, k).value)
  {
    var j := Find(d, k).value;
    assert d[j] == (k, Lookup(d, k).value);
  }

  /** `d[k] = v`. */
  function Assign<V>(d: Dict<V>, k: string, v: V): (r: Dict<V>)
    ensures Keys(r) == if k in Keys(d) then Keys(d) else Keys(d) + [k]
  {
    match Find(d, k)
    case None =>
      assert forall i :: 0 <= i < |d| ==> Keys(d)[i] != k;
      d + [(k, v)]
    case Some(i) =>
      var r := d[..i] + [(k, v)] + d[i + 1..];
      assert forall j :: 0 <= j < |d| ==> r[j].0 == d[j].0;
      r
  }

  /** After `d[k] = v`, `k` maps to `v` and every other key is untouched. */
  lemma AssignLookup<V>(d: Dict<V>, k: string, v: V)
    ensures Lookup(Assign(d, k, v), k) == Some(v)
    ensures forall k' :: k' != k ==> Lookup(Assign(d, k, v), k') == Lookup(d, k')
  {
    AssignLookupSame(d, k, v);
    forall k' | k' != k
      ensures Lookup(Assign(d, k, v), k') == Lookup(d, k')
    {
      AssignLookupOther(d, k, v, k');
    }
  }

  lemma AssignLookupSame<V>(d: Dict<V>, k: string, v: V)
    ensures Lookup(Assign(d, k, v), k) == Some(v)
  {
    var r := Assign(d, k, v);
    match Find(d, k)
    case None =>
      assert r[|d|] == (k, v);
      LookupAt(r, |d|);
    case Some(i) =>
      assert r[i] == (k, v);
      LookupAt(r, i);
  }

  lemma AssignLookupOther<V>(d: Dict<V>, k: string, v: V, k': string)
    requires k' != k
    ensures Lookup(Assign(d, k, v), k') == Lookup(d, k')
  {
    var r := Assign(d, k, v);
    if k' in Keys(d) {
      var j :| 0 <= j < |d| && Keys(d)[j] == k';
      AssignKeeps(d, k, v, j);
      LookupAt(r, j);
      LookupAt(d, j);
    } else {
      assert k' !in Keys(r);
      LookupAbsent(d, k');
      LookupAbsent(r, k');
    }
  }

  /** Assigning `k` leaves the pairs of the other keys where they are. */
  lemma AssignKeeps<V>(d: Dict<V>, k: string, v: V, j: nat)
    requires j < |d| && d[j].0 != k
    ensures j < |Assign(d, k, v)| && Assign(d, k, v)[j] == d[j]
  {
    match Find(d, k)
    case None =>
    case Some(i) => assert j != i;
  }

  /** Assigning a key that is not present appends it. */
  lemma AssignNew<V>(d: Dict<V>, k: string, v: V)
    requires forall i :: 0 <= i < |d| ==> d[i].0 != k
    ensures Assign(d, k, v) == d + [(k, v)]
  {
  }

  // ---------------------------------------------------------------------
  // A run of assignments `for (k, v) in kvs: d[k] = v`.
  // ---------------------------------------------------------------------

  function AssignAll<V>(d: Dict<V>, kvs: seq<(string, V)>): Dict<V>
    decreases |kvs|
  {
    if kvs == [] then d
    else Assign(AssignAll(d, kvs[..|kvs| - 1]), kvs[|kvs| - 1].0, kvs[|kvs| - 1].1)
  }

  lemma AssignAllSnoc<V>(d: Dict<V>, kvs: seq<(string, V)>, kv: (string, V))
    ensures AssignAll(d, kvs + [kv]) == Assign(AssignAll(d, kvs), kv.0, kv.1)
  {
    assert (kvs + [kv])[..|kvs|] == kvs;
  }

  /** The run of the first `j + 1` assignments is the run of the first `j`
      followed by one more. */
  lemma AssignAllPrefix<V>(d: Dict<V>, kvs: seq<(string, V)>, j: nat)
    requires j < |kvs|
    ensures AssignAll(d, kvs[..j + 1]) == Assign(AssignAll(d, kvs[..j]), kvs[j].0, kvs[j].1)
  {
    assert kvs[..j + 1][..j] == kvs[..j];
  }

  /** The keys of a sequence, each kept only at its first occurrence. */
  function Dedup(ks: seq<string>): (r: seq<string>)
    ensures forall k :: k in r <==> k in ks
    ensures Distinct(r)
    decreases |ks|
  {
    if ks == [] then []
    else
      var p := Dedup(ks[..|ks| - 1]);
      var k := ks[|ks| - 1];
      assert forall x :: x in ks <==> x in ks[..|ks| - 1] || x == k;
      if k in p then p else p + [k]
  }

  /** The value assigned last to `k` in a run of assignments. */
  function LastValue<V>(kvs: seq<(string, V)>, k: string): Option<V>
    decreases |kvs|
  {
    if kvs == [] then None
    else if kvs[|kvs| - 1].0 == k then Some(kvs[|kvs| - 1].1)
    else LastValue(kvs[..|kvs| - 1], k)
  }

  lemma {:induction false} DedupDistinct(ks: seq<string>)
    requires Distinct(ks)
    ensures Dedup(ks) == ks
    decreases |ks|
  {
    if ks != [] {
      DedupDistinct(ks[..|ks| - 1]);
      assert ks[|ks| - 1] !in ks[..|ks| - 1];
      assert ks == ks[..|ks| - 1] + [ks[|ks| - 1]];
    }
  }

  lemma DedupSnoc(ks: seq<string>, k: string)
    ensures Dedup(ks + [k]) == if k in Dedup(ks) then Dedup(ks) else Dedup(ks) + [k]
  {
    assert (ks + [k])[..|ks|] == ks;
  }

  /** A run of assignments leaves the keys of `d` in place and appends each
      new key where it is first assigned. */
  lemma {:induction false} AssignAllKeys<V>(d: Dict<V>, kvs: seq<(string, V)>)
    ensures Keys(AssignAll(d, kvs)) == Dedup(Keys(d) + Keys(kvs))
    decreases |kvs|
  {
    if kvs == [] {
      assert Keys(d) + Keys(kvs) == Keys(d);
      DedupDistinct(Keys(d));
    } else {
      var pre := kvs[..|kvs| - 1];
      var last := kvs[|kvs| - 1];
      AssignAllKeys(d, pre);
      assert kvs == pre + [last];
      KeysAppend(pre, [last]);
      assert Keys(d) + Keys(kvs) == (Keys(d) + Keys(pre)) + [last.0];
      DedupSnoc(Keys(d) + Keys(pre), last.0);
    }
  }

  /** A run of assignments leaves each key with the value assigned to it
      last, or with its old value when it was never assigned. */
  lemma {:induction false} AssignAllLookup<V>(d: Dict<V>, kvs: seq<(string, V)>, k: string)
    ensures Lookup(AssignAll(d, kvs), k) ==
      match LastValue(kvs, k)
      case Some(v) => Some(v)
      case None => Lookup(d, k)
    decreases |kvs|
  {
    if kvs != [] {
      var pre := kvs[..|kvs| - 1];
      var last := kvs[|kvs| - 1];
      AssignAllLookup(d, pre, k);
      AssignLookup(AssignAll(d, pre), last.0, last.1);
    }
  }

  /** In a dict, the last value given to a key is the value it holds. */
  lemma {:induction false} LastValueOfDict<V>(d: Dict<V>, k: string)
    ensures LastValue(d, k) == Lookup(d, k)
    decreases |d|
  {
    if d == [] {
    } else {
      var pre := d[..|d| - 1];
      var last := d[|d| - 1];
      if last.0 == k {
        LookupAt(d, |d| - 1);
      } else {
        assert DistinctKeys(pre);
        LastValueOfDict(pre, k);
        if k in Keys(pre) {
          var j :| 0 <= j < |pre| && Keys(pre)[j] == k;
          LookupAt(pre, j);
          LookupAt(d, j);
        } else {
          assert k !in Keys(d);
          LookupAbsent(pre, k);
          LookupAbsent(d, k);
        }
      }
    }
  }

  /** `d.update(kvs)` for a dict `kvs`: its keys take its values, the
      other keys keep theirs. */
  lemma RunLookup<V>(d: Dict<V>, kvs: Dict<V>, k: string)
    ensures Lookup(AssignAll(d, kvs), k) == if k in Keys(kvs) then Lookup(kvs, k) else Lookup(d, k)
  {
    AssignAllLookup(d, kvs, k);
    LastValueOfDict(kvs, k);
    LookupPresent(kvs, k);
  }

  /** Assigning the keys of a dict none of which is present appends them
      in their order. */
  lemma {:induction false} RunKeysFresh<V>(d: Dict<V>, kvs: Dict<V>)
    requires forall k :: k in Keys(kvs) ==> k !in Keys(d)
    ensures Keys(AssignAll(d, kvs)) == Keys(d) + Keys(kvs)
    decreases |kvs|
  {
    if kvs != [] {
      var pre := kvs[..|kvs| - 1];
      var last := kvs[|kvs| - 1];
      assert DistinctKeys(pre);
      assert Keys(kvs) == Keys(pre) + [last.0];
      RunKeysFresh(d, pre);
      assert last.0 !in Keys(pre);
    }
  }

  // ---------------------------------------------------------------------
  // Sequences of distinct strings, such as the keys of a dict.
  // ---------------------------------------------------------------------

  lemma {:induction false} DistinctCount(a: seq<string>, x: string)
    requires Distinct(a)
    ensures multiset(a)[x] == if x in a then 1 else 0
    decreases |a|
  {
    if a != [] {
      assert a == [a[0]] + a[1..];
      assert Distinct(a[1..]);
      assert a[0] !in a[1..];
      DistinctCount(a[1..], x);
    }
  }

  /** Two distinct sequences with the same members are permutations of each
      other. */
  lemma DistinctSameMembers(a: seq<string>, b: seq<string>)
    requires Distinct(a) && Distinct(b)
    requires forall x :: x in a <==> x in b
    ensures multiset(a) == multiset(b)
  {
    forall x
      ensures multiset(a)[x] == multiset(b)[x]
    {
      DistinctCount(a, x);
      DistinctCount(b, x);
    }
  }

  /** A permutation of a distinct sequence is distinct. */
  lemma DistinctPermutation(a: seq<string>, b: seq<string>)
    requires Distinct(a) && multiset(a) == multiset(b)
    ensures Distinct(b)
  {
    forall i, j | 0 <= i < j < |b|
      ensures b[i] != b[j]
    {
      var x := b[i];
      assert b == b[..j] + b[j..];
      assert multiset(b)[x] == multiset(b[..j])[x] + multiset(b[j..])[x];
      assert b[i] in b[..j];
      assert b[j] in b[j..];
      DistinctCount(a, x);
    }
  }
}
