/** String operations used by the handlers: the two whitespace classes
    (JavaScript's `\s`/`trim` and Python's `\s`/`strip`), trimming, runs of
    characters, substring occurrence, `replace(/lit/g, "")`, joining and
    ASCII lower-casing. */
module Text {

  /** Characters in JavaScript's `\s` class; `String.prototype.trim` removes the same set. */
  predicate IsJsSpace(c: char) {
    || c == '\t' || c == '\n' || c == '\U{B}' || c == '\U{C}' || c == '\r' || c == ' '
    || c == '\U{A0}' || c == '\U{1680}' || ('\U{2000}' <= c <= '\U{200A}')
    || c == '\U{2028}' || c == '\U{2029}' || c == '\U{202F}' || c == '\U{205F}'
    || c == '\U{3000}' || c == '\U{FEFF}'
  }

  /** Characters for which Python's `str.isspace()` holds; `\s` and `str.strip()` use the same set. */
  predicate IsPySpace(c: char) {
    || c == '\t' || c == '\n' || c == '\U{B}' || c == '\U{C}' || c == '\r'
    || ('\U{1C}' <= c <= '\U{1F}') || c == ' ' || c == '\U{85}' || c == '\U{A0}'
    || c == '\U{1680}' || ('\U{2000}' <= c <= '\U{200A}') || c == '\U{2028}'
    || c == '\U{2029}' || c == '\U{202F}' || c == '\U{205F}' || c == '\U{3000}'
  }

  predicate Blank(s: string, sp: char -> bool) {
    forall i :: 0 <= i < |s| ==> sp(s[i])
  }

  /** `s` has no leading and no trailing character of the class `sp`. */
  predicate Trimmed(s: string, sp: char -> bool) {
    s != [] ==> !sp(s[0]) && !sp(s[|s| - 1])
  }

  function TrimStart(s: string, sp: char -> bool): (r: string)
    ensures |r| <= |s| && r == s[|s| - |r|..]
    ensures r != [] ==> !sp(r[0])
    ensures forall i :: 0 <= i < |s| - |r| ==> sp(s[i])
  {
    if s != [] && sp(s[0]) then TrimStart(s[1..], sp) else s
  }

  function TrimEnd(s: string, sp: char -> bool): (r: string)
    ensures |r| <= |s| && r == s[..|r|]
    ensures r != [] ==> !sp(r[|r| - 1])
    ensures forall i :: |r| <= i < |s| ==> sp(s[i])
  {
    if s != [] && sp(s[|s| - 1]) then TrimEnd(s[..|s| - 1], sp) else s
  }

  /** JavaScript's `trim()` (with IsJsSpace) and Python's `strip()` (with IsPySpace). */
  function Trim(s: string, sp: char -> bool): (r: string)
    ensures Trimmed(r, sp)
    ensures |r| <= |s|
  {
    TrimEnd(TrimStart(s, sp), sp)
  }

  /** Trimming leaves an already trimmed string alone, so it is idempotent. */
  lemma TrimOfTrimmed(s: string, sp: char -> bool)
    requires Trimmed(s, sp)
    ensures Trim(s, sp) == s
  {
  }

  /** A string trims to "" exactly when it consists of whitespace only. */
  lemma TrimEmptyIffBlank(s: string, sp: char -> bool)
    ensures Trim(s, sp) == [] <==> Blank(s, sp)
  {
    var t := TrimStart(s, sp);
    if Trim(s, sp) == [] {
      assert t == [];
    } else {
      var r := Trim(s, sp);
      assert s[|s| - |t|] == r[0];
    }
  }

  /** The trimmed string is a contiguous slice of the input, and only whitespace is cut
      from either end. */
  lemma TrimIsSlice(s: string, sp: char -> bool) returns (a: nat)
    ensures a + |Trim(s, sp)| <= |s|
    ensures Trim(s, sp) == s[a..a + |Trim(s, sp)|]
    ensures forall i :: 0 <= i < a ==> sp(s[i])
    ensures forall i :: a + |Trim(s, sp)| <= i < |s| ==> sp(s[i])
  {
    var t := TrimStart(s, sp);
    a := |s| - |t|;
    forall i | a + |Trim(s, sp)| <= i < |s| ensures sp(s[i]) {
      assert s[i] == t[i - a];
    }
  }

  /** Number of consecutive characters satisfying `p` starting at index `i`. */
  function Span(s: string, i: nat, p: char -> bool): (n: nat)
    requires i <= |s|
    ensures i + n <= |s|
    ensures forall k :: i <= k < i + n ==> p(s[k])
    ensures i + n < |s| ==> !p(s[i + n])
    decreases |s| - i
  {
    if i < |s| && p(s[i]) then 1 + Span(s, i + 1, p) else 0
  }

  /** A run cannot extend past a character that fails `p`, so appending after one changes nothing. */
  lemma {:induction false} SpanStops(a: string, t: string, i: nat, p: char -> bool)
    requires i <= |a| && t != [] && !p(t[0])
    ensures Span(a + t, i, p) == Span(a, i, p)
    decreases |a| - i
  {
    if i < |a| && p(a[i]) {
      SpanStops(a, t, i + 1, p);
    }
  }

  /** `pat` occurs in `s` starting at index `i`. */
  predicate OccursAt(s: string, pat: string, i: int) {
    0 <= i && i + |pat| <= |s| && s[i..i + |pat|] == pat
  }

  /** JavaScript's `s.includes(pat)`. */
  predicate Contains(s: string, pat: string) {
    exists i :: 0 <= i <= |s| - |pat| && OccursAt(s, pat, i)
  }

  lemma ContainsMiddle(a: string, pat: string, b: string)
    ensures Contains(a + pat + b, pat)
  {
    assert (a + pat + b)[|a|..|a| + |pat|] == pat;
    assert OccursAt(a + pat + b, pat, |a|);
  }

  lemma ContainsPrefix(p: string, q: string)
    ensures Contains(p + q, p)
  {
    assert (p + q)[0..|p|] == p;
    assert OccursAt(p + q, p, 0);
  }

  /** Each inner piece of a seven-piece concatenation at an even position occurs in it. */
  lemma ContainsEvenPieces(a: string, b: string, c: string, d: string, e: string, f: string, g: string)
    ensures Contains(a + b + c + d + e + f + g, b)
    ensures Contains(a + b + c + d + e + f + g, d)
    ensures Contains(a + b + c + d + e + f + g, f)
  {
    var s := a + b + c + d + e + f + g;
    assert s == a + b + (c + d + e + f + g);
    ContainsMiddle(a, b, c + d + e + f + g);
    assert s == (a + b + c) + d + (e + f + g);
    ContainsMiddle(a + b + c, d, e + f + g);
    assert s == (a + b + c + d + e) + f + g;
    ContainsMiddle(a + b + c + d + e, f, g);
  }

  /** Both inner pieces of a four-piece concatenation occur in it. */
  lemma ContainsInnerPieces(a: string, b: string, c: string, d: string)
    ensures Contains(a + b + c + d, b)
    ensures Contains(a + b + c + d, c)
  {
    assert a + b + c + d == a + b + (c + d);
    ContainsMiddle(a, b, c + d);
    assert a + b + c + d == (a + b) + c + d;
    ContainsMiddle(a + b, c, d);
  }

  /** What occurs inside an occurrence occurs in the whole. */
  lemma ContainsTransitive(a: string, b: string, c: string)
    requires Contains(a, b) && Contains(b, c)
    ensures Contains(a, c)
  {
    var i :| 0 <= i <= |a| - |b| && OccursAt(a, b, i);
    var j :| 0 <= j <= |b| - |c| && OccursAt(b, c, j);
    forall k | 0 <= k < |c| ensures a[i + j + k] == c[k] {
      assert c[k] == b[j + k] == a[i + j + k];
    }
    assert a[i + j..i + j + |c|] == c;
    assert OccursAt(a, c, i + j);
  }

  /** An occurrence in a slice is an occurrence in the whole string, shifted by the slice's start. */
  lemma OccursInSlice(s: string, a: nat, b: nat, pat: string, i: int)
    requires a <= b <= |s|
    ensures OccursAt(s[a..b], pat, i) ==> OccursAt(s, pat, a + i)
  {
    if OccursAt(s[a..b], pat, i) {
      forall k | 0 <= k < |pat| ensures s[a + i..a + i + |pat|][k] == pat[k] {
        assert s[a..b][i..i + |pat|][k] == pat[k];
      }
    }
  }

  /** A slice of a string that avoids `pat` avoids it too. */
  lemma AbsentFromSlice(s: string, a: nat, b: nat, pat: string)
    requires a <= b <= |s|
    requires !Contains(s, pat)
    ensures !Contains(s[a..b], pat)
  {
    forall i | 0 <= i <= |s[a..b]| - |pat| ensures !OccursAt(s[a..b], pat, i) {
      OccursInSlice(s, a, b, pat, i);
    }
  }

  /** Trimming cannot create an occurrence of a pattern. */
  lemma TrimKeepsAbsent(s: string, sp: char -> bool, pat: string)
    requires !Contains(s, pat)
    ensures !Contains(Trim(s, sp), pat)
  {
    var a := TrimIsSlice(s, sp);
    AbsentFromSlice(s, a, a + |Trim(s, sp)|, pat);
  }

  /** A string containing `p + q` contains `p`. */
  lemma ContainsPrefixOfPattern(s: string, p: string, q: string)
    requires Contains(s, p + q)
    ensures Contains(s, p)
  {
    var i :| 0 <= i <= |s| - |p + q| && OccursAt(s, p + q, i);
    assert s[i..i + |p|] == (p + q)[..|p|];
    assert OccursAt(s, p, i);
  }

  /** `s.replace(/pat/g, "")`: occurrences removed left to right, without overlap. */
  function RemoveAll(s: string, pat: string): (r: string)
    requires pat != []
    ensures |r| <= |s|
    decreases |s|
  {
    if |s| < |pat| then s
    else if s[..|pat|] == pat then RemoveAll(s[|pat|..], pat)
    else [s[0]] + RemoveAll(s[1..], pat)
  }

  /** Removing a pattern that does not occur changes nothing. */
  lemma {:induction false} RemoveAllAbsent(s: string, pat: string)
    requires pat != []
    requires !Contains(s, pat)
    ensures RemoveAll(s, pat) == s
    decreases |s|
  {
    if |s| >= |pat| {
      if s[..|pat|] == pat {
        assert OccursAt(s, pat, 0);
      } else {
        forall i ensures !OccursAt(s[1..], pat, i) {
          if OccursAt(s[1..], pat, i) {
            assert s[1..][i..i + |pat|] == s[i + 1..i + 1 + |pat|];
            assert OccursAt(s, pat, i + 1);
          }
        }
        RemoveAllAbsent(s[1..], pat);
        assert s == [s[0]] + s[1..];
      }
    }
  }

  const Fence: string := "```"

  /** Removal keeps the first character unless it removes a fence there, so a result that
      starts with a backtick comes from a text that does. */
  lemma RemoveFenceFirst(u: string)
    requires RemoveAll(u, Fence) != []
    ensures u != [] && (RemoveAll(u, Fence)[0] == '`' ==> u[0] == '`')
  {
  }

  /** A text that does not start with a fence does not start with one after removal. */
  lemma RemoveFenceNoNewHead(s: string)
    requires |s| >= 3 && s[..3] != Fence
    ensures !OccursAt([s[0]] + RemoveAll(s[1..], Fence), Fence, 0)
  {
    var t := s[1..];
    var rt := RemoveAll(t, Fence);
    assert s[..3] == [s[0], t[0], t[1]];
    if rt != [] {
      RemoveFenceFirst(t);
      if t[0] == '`' && |t| >= 3 && t[..3] != Fence {
        assert rt == [t[0]] + RemoveAll(t[1..], Fence);
        if |rt| > 1 {
          RemoveFenceFirst(t[1..]);
        }
      }
    }
  }

  /** A character in front of a text avoiding `pat` adds no occurrence except possibly at 0. */
  lemma ConsAvoids(c: char, rest: string, pat: string)
    requires !Contains(rest, pat) && !OccursAt([c] + rest, pat, 0)
    ensures !Contains([c] + rest, pat)
  {
    var r := [c] + rest;
    forall i | 0 < i <= |r| - |pat| ensures !OccursAt(r, pat, i) {
      assert r[i..i + |pat|] == rest[i - 1..i - 1 + |pat|];
      assert !OccursAt(rest, pat, i - 1);
    }
  }

  /** A fence after a text without one is the only fence removed, and the text is what is left. */
  lemma {:induction false} RemoveTrailingFence(s: string)
    requires !Contains(s, Fence)
    ensures RemoveAll(s + Fence, Fence) == s
    decreases |s|
  {
    var u := s + Fence;
    if |s| < 3 && u[..3] == Fence {
      forall i | 0 <= i < |s| ensures u[3..][i] == s[i] {
        assert u[..3][i] == u[i] == s[i];
      }
    } else if s != [] {
      if |s| >= 3 {
        assert u[..3] == s[..3];
        assert !OccursAt(s, Fence, 0);
      }
      AbsentFromSlice(s, 1, |s|, Fence);
      assert s[1..|s|] == s[1..];
      RemoveTrailingFence(s[1..]);
      assert u[1..] == s[1..] + Fence;
      assert s == [s[0]] + s[1..];
    }
  }

  /** After `replace(/```/g, "")` no triple backtick is left: removal never joins two runs. */
  lemma {:induction false} RemoveFenceLeavesNoFence(s: string)
    ensures !Contains(RemoveAll(s, Fence), Fence)
    decreases |s|
  {
    if |s| >= 3 {
      if s[..3] == Fence {
        RemoveFenceLeavesNoFence(s[3..]);
      } else {
        RemoveFenceLeavesNoFence(s[1..]);
        RemoveFenceNoNewHead(s);
        ConsAvoids(s[0], RemoveAll(s[1..], Fence), Fence);
      }
    }
  }

  /** Python's `sep.join(xs)`. */
  function Join(xs: seq<string>, sep: string): (r: string)
    ensures |xs| == 1 ==> r == xs[0]
    ensures xs == [] ==> r == []
  {
    if xs == [] then []
    else if |xs| == 1 then xs[0]
    else xs[0] + sep + Join(xs[1..], sep)
  }

  /** Joining one more item appends the separator and the item. */
  lemma {:induction false} JoinSnoc(xs: seq<string>, x: string, sep: string)
    requires xs != []
    ensures Join(xs + [x], sep) == Join(xs, sep) + sep + x
    decreases |xs|
  {
    if |xs| == 1 {
      assert (xs + [x])[1..] == [x];
    } else {
      assert (xs + [x])[1..] == xs[1..] + [x];
      JoinSnoc(xs[1..], x, sep);
    }
  }

  /** A slice occurs in the text it was cut from. */
  lemma ContainsSlice(s: string, a: nat, b: nat)
    requires a <= b <= |s|
    ensures Contains(s, s[a..b])
  {
    assert OccursAt(s, s[a..b], a);
  }

  /** Trimming leaves a part of the text. */
  lemma ContainsTrim(s: string, sp: char -> bool)
    ensures Contains(s, Trim(s, sp))
  {
    var a := TrimIsSlice(s, sp);
    ContainsSlice(s, a, a + |Trim(s, sp)|);
  }

  predicate IsAsciiUpper(c: char) {
    'A' <= c <= 'Z'
  }

  /** A capital becomes its small letter, 32 code points further on; every other character is kept. */
  function LowerChar(c: char): (d: char)
    ensures !IsAsciiUpper(d)
    ensures IsAsciiUpper(c) ==> d as int == c as int + 32 && 'a' <= d <= 'z'
    ensures !IsAsciiUpper(c) ==> d == c
  {
    if IsAsciiUpper(c) then (c as int + 32) as char else c
  }

  /** `s.lower()` on the ASCII letters; every other character is kept. */
  function Lower(s: string): (r: string)
    ensures |r| == |s|
    ensures forall i :: 0 <= i < |s| ==> r[i] == LowerChar(s[i])
  {
    seq(|s|, i requires 0 <= i < |s| => LowerChar(s[i]))
  }

  /** A capitalised word matches its lower-case form, as the stop-word filter needs. */
  lemma LowerCapitalised()
    ensures Lower("The") == "the"
    ensures Lower("AND") == "and"
  {
  }
}
