/** The Python `str` operations that the recipe code relies on: ordering
    (`<` and `sorted`), `in` for substrings, `split` and its inverse `join`,
    ASCII `lower()` and `str()` of a natural number. */
module Strings {
  import opened Wrappers

  // ---------------------------------------------------------------------
  // Ordering: Python compares strings code point by code point, and a
  // proper prefix sorts first.
  // ---------------------------------------------------------------------

  predicate Leq(a: string, b: string)
    decreases |a|
  {
    if |a| == 0 then true
    else if |b| == 0 then false
    else if a[0] != b[0] then a[0] < b[0]
    else Leq(a[1..], b[1..])
  }

  lemma {:induction false} LeqReflexive(a: string)
    ensures Leq(a, a)
    decreases |a|
  {
    if |a| > 0 {
      LeqReflexive(a[1..]);
    }
  }

  lemma {:induction false} LeqTotal(a: string, b: string)
    ensures Leq(a, b) || Leq(b, a)
    decreases |a|
  {
    if |a| > 0 && |b| > 0 && a[0] == b[0] {
      LeqTotal(a[1..], b[1..]);
    }
  }

  lemma {:induction false} LeqAntisymmetric(a: string, b: string)
    requires Leq(a, b) && Leq(b, a)
    ensures a == b
    decreases |a|
  {
    if |a| > 0 {
      LeqAntisymmetric(a[1..], b[1..]);
      assert a == [a[0]] + a[1..] && b == [b[0]] + b[1..];
    }
  }

  lemma {:induction false} LeqTransitive(a: string, b: string, c: string)
    requires Leq(a, b) && Leq(b, c)
    ensures Leq(a, c)
    decreases |a|
  {
    if |a| > 0 && a[0] == b[0] && b[0] == c[0] {
      LeqTransitive(a[1..], b[1..], c[1..]);
    }
  }

  // ---------------------------------------------------------------------
  // Substrings: Python's `t in s` for two strings.
  // ---------------------------------------------------------------------

  predicate OccursAt(s: string, t: string, i: nat)
  {
    i + |t| <= |s| && s[i..i + |t|] == t
  }

  predicate Contains(s: string, t: string)
  {
    exists i: nat | i <= |s| :: OccursAt(s, t, i)
  }

  /** A string ends with itself, so it is contained in anything it ends. */
  lemma ContainsSuffix(s: string, t: string)
    ensures Contains(s + t, t)
  {
    assert OccursAt(s + t, t, |s|) by {
      assert (s + t)[|s|..|s| + |t|] == t;
    }
  }

  /** The least position at or after `from` where `t` occurs in `s`. */
  function FindFrom(s: string, t: string, from: nat): (r: Option<nat>)
    requires |t| > 0
    decreases |s| - from
    ensures r.Some? ==> from <= r.value && OccursAt(s, t, r.value)
    ensures r.Some? ==> forall j: nat :: from <= j < r.value ==> !OccursAt(s, t, j)
    ensures r.None? ==> forall j: nat :: from <= j ==> !OccursAt(s, t, j)
  {
    if from + |t| > |s| then None
    else if s[from..from + |t|] == t then Some(from)
    else FindFrom(s, t, from + 1)
  }

  // ---------------------------------------------------------------------
  // `s.split(sep)` with an explicit, non-empty separator: cut at the
  // leftmost occurrence, then go on to the right of it, so occurrences
  // never overlap and empty pieces are kept.
  // ---------------------------------------------------------------------

  function Split(s: string, sep: string): (parts: seq<string>)
    requires |sep| > 0
    decreases |s|
    ensures |parts| >= 1
  {
    match FindFrom(s, sep, 0)
    case None => [s]
    case Some(i) => [s[..i]] + Split(s[i + |sep|..], sep)
  }

  /** `sep.join(parts)`. */
  function Join(parts: seq<string>, sep: string): string
    decreases |parts|
  {
    if parts == [] then ""
    else if |parts| == 1 then parts[0]
    else parts[0] + sep + Join(parts[1..], sep)
  }

  lemma JoinCons(head: string, tail: seq<string>, sep: string)
    requires |tail| >= 1
    ensures Join([head] + tail, sep) == head + sep + Join(tail, sep)
  {
    assert ([head] + tail)[1..] == tail;
  }

  lemma {:induction false} JoinSnoc(parts: seq<string>, last: string, sep: string)
    requires |parts| >= 1
    ensures Join(parts + [last], sep) == Join(parts, sep) + sep + last
    decreases |parts|
  {
    if |parts| == 1 {
      assert parts + [last] == [parts[0], last];
    } else {
      assert (parts + [last])[1..] == parts[1..] + [last];
      JoinSnoc(parts[1..], last, sep);
    }
  }

  /** Splitting loses nothing: joining the pieces back gives the input. */
  lemma {:induction false} JoinSplit(s: string, sep: string)
    requires |sep| > 0
    ensures Join(Split(s, sep), sep) == s
    decreases |s|
  {
    var found := FindFrom(s, sep, 0);
    if found.None? {
      assert Split(s, sep) == [s];
    } else {
      var i := found.value;
      var rest := s[i + |sep|..];
      assert Split(s, sep) == [s[..i]] + Split(rest, sep);
      JoinSplit(rest, sep);
      JoinCons(s[..i], Split(rest, sep), sep);
      assert s[i..i + |sep|] == sep;
      assert s == s[..i] + s[i..i + |sep|] + rest;
    }
  }

  /** No piece of a split contains the separator. */
  lemma {:induction false} SplitPiecesAvoidSep(s: string, sep: string)
    requires |sep| > 0
    ensures forall p :: p in Split(s, sep) ==> !Contains(p, sep)
    decreases |s|
  {
    var found := FindFrom(s, sep, 0);
    if found.None? {
      assert Split(s, sep) == [s];
    } else {
      var i := found.value;
      var rest := s[i + |sep|..];
      SplitPiecesAvoidSep(rest, sep);
      var head := s[..i];
      forall j: nat | j + |sep| <= |head|
        ensures !OccursAt(head, sep, j)
      {
        assert head[j..j + |sep|] == s[j..j + |sep|];
        assert !OccursAt(s, sep, j);
      }
      assert Split(s, sep) == [head] + Split(rest, sep);
    }
  }

  /** When no piece holds the separator's first character, splitting
      undoes joining. */
  lemma {:induction false} SplitJoin(parts: seq<string>, sep: string)
    requires |sep| > 0 && |parts| >= 1
    requires forall p :: p in parts ==> sep[0] !in p
    ensures Split(Join(parts, sep), sep) == parts
    decreases |parts|
  {
    var s := Join(parts, sep);
    var p0 := parts[0];
    assert p0 in parts;
    if |parts| == 1 {
      assert s == p0;
      forall j: nat | j < |s|
        ensures !OccursAt(s, sep, j)
      {
        assert s[j] != sep[0];
        assert j + |sep| <= |s| ==> s[j..j + |sep|][0] == s[j];
      }
      assert FindFrom(s, sep, 0).None?;
    } else {
      var rest := Join(parts[1..], sep);
      JoinCons(p0, parts[1..], sep);
      assert parts == [p0] + parts[1..];
      assert s == p0 + sep + rest;
      assert OccursAt(s, sep, |p0|) by {
        assert s[|p0|..|p0| + |sep|] == sep;
      }
      forall j: nat | j < |p0|
        ensures !OccursAt(s, sep, j)
      {
        assert s[j] == p0[j] && p0[j] != sep[0];
        assert j + |sep| <= |s| ==> s[j..j + |sep|][0] == s[j];
      }
      assert FindFrom(s, sep, 0) == Some(|p0|);
      assert s[..|p0|] == p0;
      assert s[|p0| + |sep|..] == rest;
      SplitJoin(parts[1..], sep);
    }
  }

  /** A one-character separator occurs exactly where that character is. */
  lemma OccursAtChar(s: string, c: char, j: nat)
    ensures OccursAt(s, [c], j) <==> j < |s| && s[j] == c
  {
    if j < |s| {
      assert s[j..j + 1] == [s[j]];
    }
  }

  /** The first occurrence of a character is where it first appears. */
  lemma FindChar(s: string, c: char, k: nat)
    requires k < |s| && s[k] == c
    requires forall j :: 0 <= j < k ==> s[j] != c
    ensures FindFrom(s, [c], 0) == Some(k)
  {
    OccursAtChar(s, c, k);
    forall j: nat | j < k
      ensures !OccursAt(s, [c], j)
    {
      OccursAtChar(s, c, j);
    }
  }

  /** Splitting on one character cuts at every occurrence of it: the text
      on either side of one occurrence is split on its own, and the pieces
      follow each other. */
  lemma {:induction false} SplitConcat(a: string, c: char, b: string)
    ensures Split(a + [c] + b, [c]) == Split(a, [c]) + Split(b, [c])
    decreases |a|
  {
    var s := a + [c] + b;
    var found := FindFrom(a, [c], 0);
    if found.None? {
      forall j | 0 <= j < |a|
        ensures s[j] != c
      {
        OccursAtChar(a, c, j);
      }
      FindChar(s, c, |a|);
      assert s[..|a|] == a;
      assert s[|a| + 1..] == b;
      assert Split(a, [c]) == [a];
    } else {
      var i := found.value;
      OccursAtChar(a, c, i);
      forall j | 0 <= j < i
        ensures s[j] != c
      {
        OccursAtChar(a, c, j);
      }
      FindChar(s, c, i);
      var rest := a[i + 1..];
      assert s[..i] == a[..i];
      assert s[i + 1..] == rest + [c] + b;
      SplitConcat(rest, c, b);
      assert Split(s, [c]) == [a[..i]] + Split(rest + [c] + b, [c]);
      assert Split(a, [c]) == [a[..i]] + Split(rest, [c]);
      assert [a[..i]] + (Split(rest, [c]) + Split(b, [c])) == ([a[..i]] + Split(rest, [c])) + Split(b, [c]);
    }
  }

  /** A join is its one piece, or ends with the separator and its last
      piece. */
  lemma JoinLast(parts: seq<string>, sep: string, s: string)
    requires |parts| >= 1 && Join(parts, sep) == s
    ensures var last := parts[|parts| - 1];
      s == last || (|last| + |sep| <= |s| && s[|s| - |last| - |sep|..] == sep + last)
  {
    var last := parts[|parts| - 1];
    if |parts| > 1 {
      var pre := parts[..|parts| - 1];
      assert parts == pre + [last];
      JoinSnoc(pre, last, sep);
      var head := Join(pre, sep);
      assert s == head + (sep + last);
      assert s[|head|..] == sep + last;
    }
  }

  /** For a one-character string, containment is membership. */
  lemma ContainsChar(s: string, c: char)
    ensures Contains(s, [c]) <==> c in s
  {
    if c in s {
      var i :| 0 <= i < |s| && s[i] == c;
      assert s[i..i + 1] == [c];
      assert OccursAt(s, [c], i);
    }
    if Contains(s, [c]) {
      var i: nat :| i <= |s| && OccursAt(s, [c], i);
      assert s[i..i + 1][0] == s[i];
    }
  }

  // ---------------------------------------------------------------------
  // `lower()` restricted to ASCII letters.
  // ---------------------------------------------------------------------

  predicate IsUpper(c: char)
  {
    'A' <= c <= 'Z'
  }

  function LowerChar(c: char): (l: char)
    ensures !IsUpper(l)
    ensures !IsUpper(c) ==> l == c
  {
    if IsUpper(c) then (c as int + 32) as char else c
  }

  function Lower(s: string): (r: string)
    ensures |r| == |s|
    ensures forall i :: 0 <= i < |r| ==> !IsUpper(r[i])
    ensures forall i :: 0 <= i < |s| && !IsUpper(s[i]) ==> r[i] == s[i]
  {
    seq(|s|, i requires 0 <= i < |s| => LowerChar(s[i]))
  }

  /** Lowering touches only letters, so a character that is not a letter is
      present after lowering exactly where it was before. */
  lemma LowerKeeps(s: string, c: char)
    requires !IsUpper(c) && !('a' <= c <= 'z')
    ensures c in Lower(s) <==> c in s
  {
    var r := Lower(s);
    if c in r {
      var i :| 0 <= i < |r| && r[i] == c;
      assert s[i] == c;
    }
    if c in s {
      var i :| 0 <= i < |s| && s[i] == c;
      assert r[i] == c;
    }
  }

  // ---------------------------------------------------------------------
  // `str(n)` for a natural number: decimal digits, no leading zero.
  // ---------------------------------------------------------------------

  predicate IsDigit(c: char)
  {
    '0' <= c <= '9'
  }

  function DigitChar(d: nat): (c: char)
    requires d < 10
    ensures IsDigit(c) && c as int - '0' as int == d
  {
    ('0' as int + d) as char
  }

  function NatToString(n: nat): (s: string)
    ensures |s| >= 1
    ensures forall i :: 0 <= i < |s| ==> IsDigit(s[i])
    ensures n > 0 ==> s[0] != '0'
    decreases n
  {
    if n < 10 then [DigitChar(n)] else NatToString(n / 10) + [DigitChar(n % 10)]
  }

  /** The number a string of decimal digits denotes. */
  function DigitsValue(s: string): nat
    requires forall i :: 0 <= i < |s| ==> IsDigit(s[i])
    decreases |s|
  {
    if s == [] then 0
    else
      assert IsDigit(s[|s| - 1]);
      DigitsValue(s[..|s| - 1]) * 10 + (s[|s| - 1] as int - '0' as int)
  }

  lemma {:induction false} NatToStringRoundTrip(n: nat)
    ensures DigitsValue(NatToString(n)) == n
    decreases n
  {
    var s := NatToString(n);
    if n >= 10 {
      NatToStringRoundTrip(n / 10);
      assert s[..|s| - 1] == NatToString(n / 10);
    }
  }

  /** Distinct numbers print differently. */
  lemma NatToStringInjective(m: nat, n: nat)
    requires NatToString(m) == NatToString(n)
    ensures m == n
  {
    NatToStringRoundTrip(m);
    NatToStringRoundTrip(n);
  }
}
