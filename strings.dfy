/** String helpers shared by the model: the order JavaScript's default
    `Array.prototype.sort` uses on strings, `join`/`split` on one separator,
    `includes` on a substring, and character-wise replace and upper-casing. */
module Strings {

  /** JavaScript's default sort compares strings code unit by code unit;
      a proper prefix comes first. */
  predicate Less(a: string, b: string)
    decreases |a|
  {
    if |a| == 0 then |b| > 0
    else if |b| == 0 then false
    else if a[0] != b[0] then a[0] < b[0]
    else Less(a[1..], b[1..])
  }

  lemma {:induction false} LessIrreflexive(a: string)
    ensures !Less(a, a)
    decreases |a|
  {
    if |a| > 0 {
      LessIrreflexive(a[1..]);
    }
  }

  lemma {:induction false} LessTransitive(a: string, b: string, c: string)
    requires Less(a, b) && Less(b, c)
    ensures Less(a, c)
    decreases |a|
  {
    if |a| > 0 && |b| > 0 && |c| > 0 && a[0] == b[0] && b[0] == c[0] {
      LessTransitive(a[1..], b[1..], c[1..]);
    }
  }

  lemma {:induction false} LessTotal(a: string, b: string)
    ensures a == b || Less(a, b) || Less(b, a)
    decreases |a|
  {
    if |a| > 0 && |b| > 0 && a[0] == b[0] {
      LessTotal(a[1..], b[1..]);
      if a[1..] == b[1..] {
        assert a == [a[0]] + a[1..] && b == [b[0]] + b[1..];
      }
    }
  }

  lemma LessAsymmetric(a: string, b: string)
    requires Less(a, b)
    ensures !Less(b, a)
  {
    if Less(b, a) {
      LessTransitive(a, b, a);
      LessIrreflexive(a);
    }
  }

  /** The first differing character decides. */
  lemma {:induction false} LessAt(a: string, b: string, k: nat)
    requires k < |a| && k < |b| && a[..k] == b[..k] && a[k] < b[k]
    ensures Less(a, b)
    decreases k
  {
    if k > 0 {
      assert a[0] == a[..k][0] == b[..k][0] == b[0];
      assert a[1..][..k - 1] == a[1..k] == b[1..k] == b[1..][..k - 1];
      LessAt(a[1..], b[1..], k - 1);
    }
  }

  /** Sorted in `Less` order and therefore free of duplicates. */
  predicate StrictlySorted(s: seq<string>)
  {
    forall i, j :: 0 <= i < j < |s| ==> Less(s[i], s[j])
  }

  /** Places `x` in a strictly sorted list, unless it is there already. */
  function InsertSorted(s: seq<string>, x: string): (r: seq<string>)
    requires StrictlySorted(s)
    ensures StrictlySorted(r)
    ensures forall y :: y in r <==> y in s || y == x
    decreases |s|
  {
    if s == [] then [x]
    else if x == s[0] then s
    else if Less(x, s[0]) then
      assert forall j :: 0 <= j < |s| ==> Less(x, s[j]) by {
        forall j | 0 <= j < |s| ensures Less(x, s[j]) {
          if j > 0 { LessTransitive(x, s[0], s[j]); }
        }
      }
      [x] + s
    else
      LessTotal(x, s[0]);
      var rest := InsertSorted(s[1..], x);
      assert forall y :: y in rest ==> Less(s[0], y) by {
        forall y | y in rest ensures Less(s[0], y) {
          if y != x {
            var j :| 0 <= j < |s[1..]| && s[1..][j] == y;
            assert s[j + 1] == y;
          }
        }
      }
      assert s == [s[0]] + s[1..];
      [s[0]] + rest
  }

  /** The elements of a set as a strictly sorted list (what
      `Array.from(set).sort()` produces). */
  method SortSet(s: set<string>) returns (r: seq<string>)
    ensures StrictlySorted(r)
    ensures forall y :: y in r <==> y in s
  {
    r := [];
    var rest := s;
    while rest != {}
      invariant StrictlySorted(r)
      invariant rest <= s
      invariant forall y :: y in s <==> y in r || y in rest
      decreases rest
    {
      var x :| x in rest;
      r := InsertSorted(r, x);
      rest := rest - {x};
    }
  }

  /** A strictly sorted list is determined by its elements, so
      "strictly sorted with these elements" specifies a result completely. */
  lemma {:induction false} SortedUnique(a: seq<string>, b: seq<string>)
    requires StrictlySorted(a) && StrictlySorted(b)
    requires forall y :: y in a <==> y in b
    ensures a == b
    decreases |a|
  {
    if a != [] { assert a[0] in a; }
    if b != [] { assert b[0] in b; }
    if a != [] && b != [] {
      if a[0] != b[0] {
        var j :| 0 <= j < |b| && b[j] == a[0];
        var i :| 0 <= i < |a| && a[i] == b[0];
        assert i > 0 && j > 0;
        LessAsymmetric(a[0], a[i]);
      }
      forall y ensures y in a[1..] <==> y in b[1..] {
        if y in a[1..] {
          var i :| 0 <= i < |a[1..]| && a[1..][i] == y;
          assert Less(a[0], a[i + 1]);
          LessIrreflexive(y);
          assert y in b;
        }
        if y in b[1..] {
          var j :| 0 <= j < |b[1..]| && b[1..][j] == y;
          assert Less(b[0], b[j + 1]);
          LessIrreflexive(y);
          assert y in a;
        }
      }
      SortedUnique(a[1..], b[1..]);
      assert a == [a[0]] + a[1..] && b == [b[0]] + b[1..];
    }
  }

  /** `xs.join(sep)` for a one-character separator. */
  function Join(xs: seq<string>, sep: char): string
  {
    if |xs| == 0 then ""
    else if |xs| == 1 then xs[0]
    else xs[0] + [sep] + Join(xs[1..], sep)
  }

  /** Index of the first occurrence of `c` in `s`. */
  function IndexOf(s: string, c: char): (r: nat)
    requires c in s
    ensures r < |s| && s[r] == c && c !in s[..r]
  {
    if s[0] == c then 0
    else assert c in s[1..]; 1 + IndexOf(s[1..], c)
  }

  /** `s.split(sep)` for a one-character separator; `"".split(sep)` is `[""]`. */
  function Split(s: string, sep: char): seq<string>
    decreases |s|
  {
    if sep !in s then [s]
    else
      var i := IndexOf(s, sep);
      [s[..i]] + Split(s[i + 1..], sep)
  }

  /** The first separator of `x + [sep] + rest` is the one after `x`. */
  lemma SplitCons(x: string, sep: char, rest: string)
    requires sep !in x
    ensures Split(x + [sep] + rest, sep) == [x] + Split(rest, sep)
  {
    var s := x + [sep] + rest;
    var k := |x|;
    assert s[k] == sep;
    assert s[..k] == x;
    assert IndexOf(s, sep) == k;
    assert s[k + 1..] == rest;
  }

  /** Joining separator-free pieces and splitting again gives the pieces back. */
  lemma {:induction false} SplitJoin(xs: seq<string>, sep: char)
    requires |xs| > 0
    requires forall x :: x in xs ==> sep !in x
    ensures Split(Join(xs, sep), sep) == xs
    decreases |xs|
  {
    if |xs| > 1 {
      assert xs[0] in xs;
      SplitCons(xs[0], sep, Join(xs[1..], sep));
      SplitJoin(xs[1..], sep);
      assert xs == [xs[0]] + xs[1..];
    } else {
      assert xs[0] in xs;
    }
  }

  /** `s.includes(t)`: some position of `s` starts a copy of `t`. */
  predicate Includes(s: string, t: string)
    decreases |s|
  {
    (|t| <= |s| && s[..|t|] == t) || (|s| > 0 && Includes(s[1..], t))
  }

  /** `t` occurs in `s` starting at position `i`. */
  predicate OccursAt(s: string, t: string, i: int)
  {
    0 <= i && i + |t| <= |s| && s[i..i + |t|] == t
  }

  lemma {:induction false} IncludesIff(s: string, t: string)
    ensures Includes(s, t) <==> exists i :: OccursAt(s, t, i)
    decreases |s|
  {
    if |s| > 0 {
      IncludesIff(s[1..], t);
      if exists i :: OccursAt(s, t, i) {
        var i :| OccursAt(s, t, i);
        if i > 0 {
          assert s[1..][i - 1..i - 1 + |t|] == s[i..i + |t|];
          assert OccursAt(s[1..], t, i - 1);
        }
      }
      if Includes(s[1..], t) {
        var i :| OccursAt(s[1..], t, i);
        assert s[i + 1..i + 1 + |t|] == s[1..][i..i + |t|];
        assert OccursAt(s, t, i + 1);
      }
      assert |t| <= |s| && s[..|t|] == t ==> OccursAt(s, t, 0);
    } else {
      assert |t| <= |s| && s[..|t|] == t ==> OccursAt(s, t, 0);
    }
  }

  /** Every `from` character of `s` replaced by `to` (`s.replace(/\./g, '_')`). */
  function ReplaceChar(s: string, from: char, to: char): (r: string)
    ensures |r| == |s|
    ensures forall i :: 0 <= i < |s| ==> r[i] == if s[i] == from then to else s[i]
  {
    if s == [] then [] else [if s[0] == from then to else s[0]] + ReplaceChar(s[1..], from, to)
  }

  /** Upper-casing of the ASCII letters a-z; other characters are kept. */
  function UpperChar(c: char): char
  {
    if 'a' <= c <= 'z' then (c as int - 'a' as int + 'A' as int) as char else c
  }

  function ToUpper(s: string): (r: string)
    ensures |r| == |s|
    ensures forall i :: 0 <= i < |s| ==> r[i] == UpperChar(s[i])
  {
    if s == [] then [] else [UpperChar(s[0])] + ToUpper(s[1..])
  }

  predicate NoLowerCase(s: string)
  {
    forall i :: 0 <= i < |s| ==> !('a' <= s[i] <= 'z')
  }

  lemma ToUpperDistributes(a: string, b: string)
    ensures ToUpper(a + b) == ToUpper(a) + ToUpper(b)
  {
    assert forall i :: 0 <= i < |a + b| ==> ToUpper(a + b)[i] == (ToUpper(a) + ToUpper(b))[i];
  }

  lemma ToUpperKeeps(s: string)
    requires NoLowerCase(s)
    ensures ToUpper(s) == s
  {
  }
}
