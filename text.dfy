/**
 * The JavaScript string operations the client's helpers are built from:
 * `split` with a string separator, `toUpperCase` and the `filter((s) => s)`
 * idiom that drops empty strings.
 */
module Text {

  /**
   * `s.split(sep)` for a non-empty separator: `s` is cut at each occurrence of
   * `sep`, scanning left to right, so there is always one more piece than
   * there are cuts.
   */
  function Split(s: string, sep: string): (parts: seq<string>)
    requires |sep| > 0
    ensures |parts| >= 1
    decreases |s|
  {
    if |s| < |sep| then [s]
    else if s[..|sep|] == sep then [""] + Split(s[|sep|..], sep)
    else
      var rest := Split(s[1..], sep);
      [[s[0]] + rest[0]] + rest[1..]
  }

  /** `parts.join(sep)`: the inverse of Split. */
  function Join(parts: seq<string>, sep: string): string
  {
    if |parts| == 0 then ""
    else if |parts| == 1 then parts[0]
    else parts[0] + sep + Join(parts[1..], sep)
  }

  /** `sub` occurs in `s` starting at position `i`. */
  predicate OccursAt(s: string, sub: string, i: int) {
    0 <= i && i + |sub| <= |s| && s[i..i + |sub|] == sub
  }

  /** `s.includes(sub)`. */
  predicate Contains(s: string, sub: string) {
    exists i :: 0 <= i <= |s| && OccursAt(s, sub, i)
  }

  /** No proper suffix of `sep` is also a prefix of it (true of ". "). */
  predicate Unbordered(sep: string) {
    forall k :: 0 < k < |sep| ==> sep[k..] != sep[..|sep| - k]
  }

  /** `filter((s) => s)`: drops the empty strings, keeping the order of the rest. */
  function NonEmpty(parts: seq<string>): (r: seq<string>)
    ensures forall p :: p in r ==> p in parts && p != ""
    ensures forall p :: p in parts && p != "" ==> p in r
  {
    if parts == [] then []
    else if parts[0] == "" then NonEmpty(parts[1..])
    else [parts[0]] + NonEmpty(parts[1..])
  }

  function UpperChar(c: char): char {
    if 'a' <= c <= 'z' then (c as int - 32) as char else c
  }

  predicate IsLowerAscii(c: char) {
    'a' <= c <= 'z'
  }

  /** `toUpperCase()` on ASCII letters; every other character is left as it is. */
  function Upper(s: string): (r: string)
    ensures |r| == |s|
    ensures forall i :: 0 <= i < |s| ==> r[i] == UpperChar(s[i]) && !IsLowerAscii(r[i])
  {
    seq(|s|, i requires 0 <= i < |s| => UpperChar(s[i]))
  }

  predicate NoLowerAscii(s: string) {
    forall i :: 0 <= i < |s| ==> !IsLowerAscii(s[i])
  }

  /** `s.charAt(0).toUpperCase() + s.slice(1)`. */
  function Capitalize(s: string): (r: string)
    ensures |r| == |s|
    ensures s != "" ==> r[0] == UpperChar(s[0]) && r[1..] == s[1..]
    ensures s != "" && !IsLowerAscii(s[0]) ==> r == s
  {
    if s == "" then "" else [UpperChar(s[0])] + s[1..]
  }

  /** `s.slice(0, n)` for `n >= 0`. */
  function Slice(s: string, n: nat): (r: string)
    ensures |r| == (if |s| < n then |s| else n) && r == s[..|r|]
  {
    if |s| < n then s else s[..n]
  }

  lemma JoinCons(c: char, parts: seq<string>, sep: string)
    requires |parts| >= 1
    ensures Join([[c] + parts[0]] + parts[1..], sep) == [c] + Join(parts, sep)
  {
  }

  lemma JoinEmptyFirst(parts: seq<string>, sep: string)
    requires |parts| >= 1
    ensures Join([""] + parts, sep) == sep + Join(parts, sep)
  {
    assert ([""] + parts)[1..] == parts;
    assert "" + sep == sep;
  }

  /** Joining the pieces back with the separator gives the original text. */
  lemma {:induction false} SplitJoin(s: string, sep: string)
    requires |sep| > 0
    ensures Join(Split(s, sep), sep) == s
    decreases |s|
  {
    if |s| < |sep| {
    } else if s[..|sep|] == sep {
      SplitJoin(s[|sep|..], sep);
      JoinEmptyFirst(Split(s[|sep|..], sep), sep);
      assert s == sep + s[|sep|..];
    } else {
      SplitJoin(s[1..], sep);
      JoinCons(s[0], Split(s[1..], sep), sep);
      assert s == [s[0]] + s[1..];
    }
  }

  /** The first piece is a prefix of the text. */
  lemma {:induction false} SplitFirstIsPrefix(s: string, sep: string)
    requires |sep| > 0
    ensures |Split(s, sep)[0]| <= |s| && Split(s, sep)[0] == s[..|Split(s, sep)[0]|]
    decreases |s|
  {
    if |s| >= |sep| && s[..|sep|] != sep {
      SplitFirstIsPrefix(s[1..], sep);
    }
  }

  lemma OccursInTail(c: char, t: string, sep: string, i: int)
    requires 0 < i && OccursAt([c] + t, sep, i)
    ensures Contains(t, sep)
  {
    assert t[i - 1..i - 1 + |sep|] == ([c] + t)[i..i + |sep|];
    assert OccursAt(t, sep, i - 1);
  }

  /** No piece contains the separator. */
  lemma {:induction false} SplitPiecesAreFree(s: string, sep: string)
    requires |sep| > 0
    ensures forall p :: p in Split(s, sep) ==> !Contains(p, sep)
    decreases |s|
  {
    var parts := Split(s, sep);
    if |s| < |sep| {
      forall p | p in parts ensures !Contains(p, sep) {
        assert p == s;
      }
    } else if s[..|sep|] == sep {
      SplitPiecesAreFree(s[|sep|..], sep);
      forall p | p in parts ensures !Contains(p, sep) {
        if p != "" {
          assert p in Split(s[|sep|..], sep);
        }
      }
    } else {
      var rest := Split(s[1..], sep);
      SplitPiecesAreFree(s[1..], sep);
      SplitFirstIsPrefix(s[1..], sep);
      var first := [s[0]] + rest[0];
      assert first == s[..|first|];
      assert !Contains(first, sep) by {
        if Contains(first, sep) {
          var i :| 0 <= i <= |first| && OccursAt(first, sep, i);
          if i == 0 {
            assert false;
          } else {
            assert rest[0] in rest;
            OccursInTail(s[0], rest[0], sep, i);
            assert false;
          }
        }
      }
      forall p | p in parts ensures !Contains(p, sep) {
        if p != first {
          assert p in rest[1..];
          assert p in rest;
        }
      }
    }
  }

  /** There is a cut exactly when the separator occurs. */
  lemma {:induction false} SplitCutsIffContains(s: string, sep: string)
    requires |sep| > 0
    ensures |Split(s, sep)| >= 2 <==> Contains(s, sep)
    decreases |s|
  {
    if |s| < |sep| {
    } else if s[..|sep|] == sep {
      assert OccursAt(s, sep, 0);
    } else {
      SplitCutsIffContains(s[1..], sep);
      if Contains(s, sep) {
        var i :| 0 <= i <= |s| && OccursAt(s, sep, i);
        assert i != 0;
        assert s[1..][i - 1..i - 1 + |sep|] == sep;
        assert OccursAt(s[1..], sep, i - 1);
      }
      if Contains(s[1..], sep) {
        var i :| 0 <= i <= |s[1..]| && OccursAt(s[1..], sep, i);
        assert s[i + 1..i + 1 + |sep|] == sep;
        assert OccursAt(s, sep, i + 1);
      }
    }
  }

  /** For a one-character separator: the text is cut exactly when it holds that character. */
  lemma SplitOnChar(s: string, c: char)
    ensures |Split(s, [c])| >= 2 <==> c in s
  {
    SplitCutsIffContains(s, [c]);
    if c in s {
      var i :| 0 <= i < |s| && s[i] == c;
      assert s[i..i + 1] == [c];
      assert OccursAt(s, [c], i);
    }
    if Contains(s, [c]) {
      var i :| 0 <= i <= |s| && OccursAt(s, [c], i);
      assert s[i..i + 1][0] == s[i] == c;
    }
  }

  /** Without the separator character the text comes back whole. */
  lemma SplitWithoutChar(s: string, c: char)
    requires c !in s
    ensures Split(s, [c]) == [s]
  {
    SplitOnChar(s, c);
    SplitJoin(s, [c]);
  }

  /**
   * Splitting `a + sep + b` on an unbordered separator splits `a` and `b`
   * separately: pieces come out in the order their text appears.
   */
  lemma {:induction false} SplitAround(a: string, sep: string, b: string)
    requires |sep| > 0 && Unbordered(sep)
    ensures Split(a + sep + b, sep) == Split(a, sep) + Split(b, sep)
    decreases |a|
  {
    var s := a + sep + b;
    if a == [] {
      assert s == sep + b;
      assert s[..|sep|] == sep;
      assert s[|sep|..] == b;
    } else if s[..|sep|] == sep {
      if |a| >= |sep| {
        assert a[..|sep|] == sep;
        assert s[|sep|..] == a[|sep|..] + sep + b;
        SplitAround(a[|sep|..], sep, b);
      } else {
        OverlapIsBorder(a, sep, b);
        assert false;
      }
    } else {
      assert s[1..] == a[1..] + sep + b;
      SplitAround(a[1..], sep, b);
      var tail := Split(a[1..], sep);
      ConsFirst(s[0], tail, Split(b, sep));
      if |a| >= |sep| {
        assert a[..|sep|] == s[..|sep|];
      } else {
        assert tail == [a[1..]];
        assert [a[0]] + a[1..] == a;
      }
    }
  }

  /** A separator found at the start of `a + sep + b`, with `a` shorter than it, overlaps itself. */
  lemma OverlapIsBorder(a: string, sep: string, b: string)
    requires 0 < |a| < |sep| && (a + sep + b)[..|sep|] == sep
    ensures sep[|a|..] == sep[..|sep| - |a|]
  {
    var s := a + sep + b;
    var k := |a|;
    assert sep[k..] == s[k..|sep|];
    assert s[k..|sep|] == sep[..|sep| - k];
  }

  lemma ConsFirst(c: char, x: seq<string>, y: seq<string>)
    requires |x| >= 1
    ensures [[c] + (x + y)[0]] + (x + y)[1..] == ([[c] + x[0]] + x[1..]) + y
  {
    assert (x + y)[1..] == x[1..] + y;
  }

  /** Filtering pieces none of which is empty keeps them all. */
  lemma NonEmptyKeepsAll(parts: seq<string>)
    requires forall p :: p in parts ==> p != ""
    ensures NonEmpty(parts) == parts
  {
    if parts != [] {
      assert parts[0] in parts;
      assert forall p :: p in parts[1..] ==> p in parts;
      NonEmptyKeepsAll(parts[1..]);
    }
  }

  lemma {:induction false} NonEmptyAppend(x: seq<string>, y: seq<string>)
    ensures NonEmpty(x + y) == NonEmpty(x) + NonEmpty(y)
  {
    if x != [] {
      assert (x + y)[0] == x[0];
      assert (x + y)[1..] == x[1..] + y;
      NonEmptyAppend(x[1..], y);
      if x[0] != "" {
        assert NonEmpty(x + y) == [x[0]] + NonEmpty(x[1..] + y);
      }
    } else {
      assert x + y == y;
    }
  }
}
