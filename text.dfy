/** The operations of Python's `str` that the pipeline relies on (`in`,
    `find`, `split`, `join`, `startswith`, `strip`, ...), stated over
    `seq<char>`, together with the facts about them that the other modules
    use. */
module Text {

  /** `s.startswith(p)` */
  predicate StartsWith(s: string, p: string) {
    |p| <= |s| && s[..|p|] == p
  }

  /** `s.endswith(p)` */
  predicate EndsWith(s: string, p: string) {
    |p| <= |s| && s[|s| - |p|..] == p
  }

  /** `t` occurs in `s` at position `i`. */
  predicate OccursAt(s: string, t: string, i: int) {
    0 <= i && i + |t| <= |s| && s[i..i + |t|] == t
  }

  /** Python's `t in s` for two strings. */
  predicate Contains(s: string, t: string) {
    exists i | 0 <= i <= |s| - |t| :: OccursAt(s, t, i)
  }

  /** Python's `s.find(t)`: the first position at which `t` occurs, or -1. */
  function Find(s: string, t: string): (r: int)
    ensures -1 <= r <= |s|
    decreases |s|
  {
    if StartsWith(s, t) then 0
    else if |s| == 0 then -1
    else
      var k := Find(s[1..], t);
      if k == -1 then -1 else k + 1
  }

  /** `Find` gives an occurrence that no earlier position has, and -1 only
      when there is none. */
  lemma {:induction false} FindSpec(s: string, t: string)
    ensures var r := Find(s, t);
      (r == -1 || OccursAt(s, t, r))
      && (forall j :: 0 <= j && (r == -1 || j < r) ==> !OccursAt(s, t, j))
      && (r == -1 <==> !Contains(s, t))
    decreases |s|
  {
    if StartsWith(s, t) {
      assert OccursAt(s, t, 0);
    } else if |s| == 0 {
      assert forall j :: 0 <= j ==> !OccursAt(s, t, j);
    } else {
      FindSpec(s[1..], t);
      ShiftOccurrence(s, t);
    }
  }

  /** An occurrence in `s[1..]` is an occurrence in `s`, one place later. */
  lemma ShiftOccurrence(s: string, t: string)
    requires |s| > 0
    ensures forall j :: 1 <= j ==> (OccursAt(s[1..], t, j - 1) <==> OccursAt(s, t, j))
    ensures !OccursAt(s, t, 0) <==> !StartsWith(s, t)
  {
    forall j | 1 <= j ensures OccursAt(s[1..], t, j - 1) <==> OccursAt(s, t, j) {
      if j + |t| <= |s| {
        assert s[1..] == s[1..|s|];
        SliceOfSlice(s, 1, |s|, j - 1, j - 1 + |t|);
      }
    }
  }

  lemma SliceOfSlice(s: string, lo: int, hi: int, a: int, b: int)
    requires 0 <= lo <= hi <= |s| && 0 <= a <= b <= hi - lo
    ensures s[lo..hi][a..b] == s[lo + a..lo + b]
  {
    assert forall k :: 0 <= k < b - a ==> s[lo..hi][a..b][k] == s[lo + a..lo + b][k];
  }

  /** An occurrence inside a prefix or a suffix of `s` is one in `s`. */
  lemma OccursInSlice(s: string, t: string, lo: int, hi: int, j: int)
    requires 0 <= lo <= hi <= |s|
    requires OccursAt(s[lo..hi], t, j)
    ensures OccursAt(s, t, lo + j)
  {
    SliceOfSlice(s, lo, hi, j, j + |t|);
  }

  lemma ContainsSlice(s: string, t: string, lo: int, hi: int)
    requires 0 <= lo <= hi <= |s|
    requires Contains(s[lo..hi], t)
    ensures Contains(s, t)
  {
    var j :| 0 <= j <= hi - lo - |t| && OccursAt(s[lo..hi], t, j);
    OccursInSlice(s, t, lo, hi, j);
  }

  /** `t` occurs in `a + b` whenever it occurs in `a` or in `b`. */
  lemma ContainsConcat(a: string, b: string, t: string)
    requires Contains(a, t) || Contains(b, t)
    ensures Contains(a + b, t)
  {
    var s := a + b;
    if Contains(a, t) {
      assert s[..|a|] == a;
      ContainsSlice(s, t, 0, |a|);
    } else {
      assert s[|a|..|s|] == b;
      ContainsSlice(s, t, |a|, |s|);
    }
  }

  /** A string without the character `c` cannot occur across a `c`: an
      occurrence in `a + [c] + b` lies wholly in `a` or wholly in `b`. */
  lemma ContainsAcross(a: string, c: char, b: string, t: string)
    requires c !in t
    requires Contains(a + [c] + b, t)
    ensures Contains(a, t) || Contains(b, t)
  {
    var s := a + [c] + b;
    var i :| 0 <= i <= |s| - |t| && OccursAt(s, t, i);
    if i + |t| <= |a| {
      assert a[i..i + |t|] == s[i..i + |t|];
      assert OccursAt(a, t, i);
    } else if i >= |a| + 1 {
      assert b[i - |a| - 1..i - |a| - 1 + |t|] == s[i..i + |t|];
      assert OccursAt(b, t, i - |a| - 1);
    } else {
      CoveredChar(s, t, i, |a|);
      assert false;
    }
  }

  /** A character of `s` covered by an occurrence of `t` is a character of `t`. */
  lemma CoveredChar(s: string, t: string, i: int, p: int)
    requires OccursAt(s, t, i) && i <= p < i + |t|
    ensures s[p] in t
  {
    assert t[p - i] == s[p];
  }

  /** Nor can it occur in `a + [x] + b + [y] + c` when it is in none of
      the three pieces and has neither `x` nor `y`. */
  lemma NotAcrossTwo(a: string, x: char, b: string, y: char, c: string, t: string)
    requires x !in t && y !in t
    requires !Contains(a, t) && !Contains(b, t) && !Contains(c, t)
    ensures !Contains(a + [x] + b + [y] + c, t)
  {
    if Contains(a + [x] + b, t) {
      ContainsAcross(a, x, b, t);
    }
    if Contains(a + [x] + b + [y] + c, t) {
      ContainsAcross(a + [x] + b, y, c, t);
    }
  }

  /** A one-character string occurs in `s` exactly when the character does. */
  lemma ContainsChar(s: string, c: char)
    ensures Contains(s, [c]) <==> c in s
  {
    if c in s {
      var i :| 0 <= i < |s| && s[i] == c;
      assert OccursAt(s, [c], i);
    }
    if Contains(s, [c]) {
      var i :| 0 <= i <= |s| - 1 && OccursAt(s, [c], i);
      assert s[i..i + 1][0] == s[i];
    }
  }

  /** Python's `sep.join(parts)`. */
  function Join(parts: seq<string>, sep: string): string
    decreases |parts|
  {
    if |parts| == 0 then ""
    else if |parts| == 1 then parts[0]
    else parts[0] + sep + Join(parts[1..], sep)
  }

  lemma JoinCons(x: string, rest: seq<string>, sep: string)
    requires |rest| > 0
    ensures Join([x] + rest, sep) == x + sep + Join(rest, sep)
  {
    assert ([x] + rest)[1..] == rest;
  }

  /** Python's `s.split(sep)` for a non-empty separator: the pieces between
      the occurrences of `sep` found by scanning from the left. */
  function Split(s: string, sep: string): (parts: seq<string>)
    requires |sep| > 0
    ensures |parts| >= 1
    ensures Join(parts, sep) == s
    ensures forall i :: 0 <= i < |parts| ==> !Contains(parts[i], sep)
    decreases |s|
  {
    var k := Find(s, sep);
    FindSpec(s, sep);
    if k == -1 then [s]
    else
      var rest := Split(s[k + |sep|..], sep);
      assert s == s[..k] + sep + s[k + |sep|..];
      NoEarlierOccurrence(s, sep, k);
      assert ([s[..k]] + rest)[1..] == rest;
      [s[..k]] + rest
  }

  /** The text before the first occurrence of `t` does not contain `t`. */
  lemma NoEarlierOccurrence(s: string, t: string, k: int)
    requires 0 <= k <= |s| && |t| > 0
    requires forall j :: 0 <= j < k ==> !OccursAt(s, t, j)
    ensures !Contains(s[..k], t)
  {
    if Contains(s[..k], t) {
      var j :| 0 <= j <= k - |t| && OccursAt(s[..k], t, j);
      OccursInSlice(s, t, 0, k, j);
    }
  }

  /** An occurrence with none before it is the one `Find` reports. */
  lemma FindFirst(s: string, t: string, k: int)
    requires OccursAt(s, t, k)
    requires forall j :: 0 <= j < k ==> !OccursAt(s, t, j)
    ensures Find(s, t) == k
  {
    FindSpec(s, t);
  }

  lemma ContainsMiddle(a: string, t: string, b: string)
    ensures Contains(a + t + b, t)
  {
    assert (a + t + b)[|a|..|a| + |t|] == t;
    assert OccursAt(a + t + b, t, |a|);
  }

  /** A string lacking one of the characters of `t` does not contain `t`. */
  lemma MissingChar(s: string, t: string, c: char)
    requires c in t && c !in s
    ensures !Contains(s, t)
  {
  }

  /** When `a` followed by all of `sep` but its last character holds no
      `sep`, the first `sep` in `a + sep + b` is the one after `a`. */
  lemma FirstAfterFreePrefix(a: string, sep: string, b: string)
    requires |sep| > 0
    requires !Contains(a + sep[..|sep| - 1], sep)
    ensures Find(a + sep + b, sep) == |a|
  {
    var s := a + sep + b;
    var p := a + sep[..|sep| - 1];
    assert s[|a|..|a| + |sep|] == sep;
    forall j | 0 <= j < |a| ensures !OccursAt(s, sep, j) {
      if OccursAt(s, sep, j) {
        assert p == s[..|p|];
        assert p[j..j + |sep|] == s[j..j + |sep|];
        assert OccursAt(p, sep, j);
      }
    }
    FindFirst(s, sep, |a|);
  }

  /** Splitting at a first occurrence found at `|a|` yields `a` and the
      pieces of what follows the separator. */
  lemma SplitAt(a: string, sep: string, b: string)
    requires |sep| > 0
    requires Find(a + sep + b, sep) == |a|
    ensures Split(a + sep + b, sep) == [a] + Split(b, sep)
  {
    var s := a + sep + b;
    assert s[..|a|] == a;
    assert s[|a| + |sep|..] == b;
  }

  /** A string without the separator splits into itself alone. */
  lemma SplitNone(s: string, sep: string)
    requires |sep| > 0 && !Contains(s, sep)
    ensures Split(s, sep) == [s]
  {
    FindSpec(s, sep);
  }

  /** Joining pieces free of the one-character separator `[c]` and splitting
      the result again gives back the pieces. */
  lemma {:induction false} SplitJoinChar(parts: seq<string>, c: char)
    requires |parts| >= 1
    requires forall i :: 0 <= i < |parts| ==> c !in parts[i]
    ensures Split(Join(parts, [c]), [c]) == parts
    decreases |parts|
  {
    if |parts| == 1 {
      ContainsChar(parts[0], c);
      SplitNone(parts[0], [c]);
    } else {
      var a := parts[0];
      var b := Join(parts[1..], [c]);
      var s := a + [c] + b;
      assert OccursAt(s, [c], |a|) by { assert s[|a|..|a| + 1] == [c]; }
      forall j | 0 <= j < |a| ensures !OccursAt(s, [c], j) {
        assert s[j] == a[j];
        if OccursAt(s, [c], j) {
          CoveredChar(s, [c], j, j);
        }
      }
      FindFirst(s, [c], |a|);
      SplitAt(a, [c], b);
      SplitJoinChar(parts[1..], c);
      assert [a] + parts[1..] == parts;
    }
  }

  /** The last piece of a join is a suffix of it. */
  lemma {:induction false} JoinEndsWithLast(parts: seq<string>, sep: string)
    requires |parts| >= 1
    ensures EndsWith(Join(parts, sep), parts[|parts| - 1])
    decreases |parts|
  {
    if |parts| > 1 {
      JoinEndsWithLast(parts[1..], sep);
      var j := Join(parts[1..], sep);
      var s := parts[0] + sep + j;
      var l := parts[|parts| - 1];
      assert s[|s| - |j|..] == j;
      assert s[|s| - |l|..] == j[|j| - |l|..];
    }
  }

  /** The last piece of a join of two or more pieces follows a separator. */
  lemma {:induction false} JoinEndsWithSepLast(parts: seq<string>, sep: string)
    requires |parts| >= 2
    ensures EndsWith(Join(parts, sep), sep + parts[|parts| - 1])
    decreases |parts|
  {
    var j := Join(parts[1..], sep);
    var s := parts[0] + sep + j;
    var t := sep + parts[|parts| - 1];
    if |parts| == 2 {
      assert j == parts[1];
      assert s[|s| - |t|..] == t;
    } else {
      JoinEndsWithSepLast(parts[1..], sep);
      assert s[|s| - |j|..] == j;
      assert s[|s| - |t|..] == j[|j| - |t|..];
    }
  }

  /** Python's `s.split(sep)[-1]`: a suffix without `sep`, and when `s`
      holds `sep` at all, one that follows an occurrence of `sep`. */
  function LastPiece(s: string, sep: string): (r: string)
    requires |sep| > 0
    ensures !Contains(r, sep)
    ensures EndsWith(s, r)
    ensures Contains(s, sep) ==> EndsWith(s, sep + r)
  {
    var parts := Split(s, sep);
    JoinEndsWithLast(parts, sep);
    if |parts| >= 2 then
      JoinEndsWithSepLast(parts, sep);
      parts[|parts| - 1]
    else
      parts[|parts| - 1]
  }

  /** Which pieces `Split` gives: the scan from the left takes the text
      before the first occurrence of `sep` and goes on after that
      occurrence; without an occurrence the string is the only piece.
      With `LastPiece` taking the last piece, this fixes which suffix
      `LastPiece` is even when occurrences of `sep` overlap. */
  lemma SplitFirst(s: string, sep: string)
    requires |sep| > 0
    ensures Find(s, sep) == -1 ==> Split(s, sep) == [s]
    ensures Find(s, sep) != -1 ==>
      OccursAt(s, sep, Find(s, sep))
      && Split(s, sep) == [s[..Find(s, sep)]] + Split(s[Find(s, sep) + |sep|..], sep)
  {
    FindSpec(s, sep);
  }

  /** For a one-character separator the suffix after the last separator is
      unique: two separator-free suffixes that both follow a `c` are equal. */
  lemma {:induction false} SuffixAfterLastChar(s: string, c: char, a: string, b: string)
    requires EndsWith(s, [c] + a) && c !in a
    requires EndsWith(s, [c] + b) && c !in b
    ensures a == b
  {
    assert s[|s| - |a| - 1] == c && s[|s| - |b| - 1] == c;
    assert forall k :: |s| - |a| <= k < |s| ==> s[k] == a[k - (|s| - |a|)];
    assert forall k :: |s| - |b| <= k < |s| ==> s[k] == b[k - (|s| - |b|)];
    assert a == s[|s| - |a|..] == b;
  }

  /** The last piece of a split is a suffix of the string split. */
  lemma LastPieceIsSuffix(s: string, sep: string)
    requires |sep| > 0
    ensures EndsWith(s, LastPiece(s, sep))
  {
    JoinEndsWithLast(Split(s, sep), sep);
  }

  /** Python's `s.rstrip(chars)`. */
  function TrimEnd(s: string, chars: set<char>): (r: string)
    ensures |r| <= |s| && r == s[..|r|]
    ensures |r| > 0 ==> r[|r| - 1] !in chars
    ensures forall i :: |r| <= i < |s| ==> s[i] in chars
    decreases |s|
  {
    if |s| > 0 && s[|s| - 1] in chars then TrimEnd(s[..|s| - 1], chars) else s
  }

  /** `rstrip` leaves a string alone whose last character it does not strip. */
  lemma TrimEndKeepsSuffix(base: string, s: string, chars: set<char>)
    requires |s| > 0 && s[|s| - 1] !in chars
    ensures TrimEnd(base + s, chars) == base + s
  {
    assert (base + s)[|base + s| - 1] == s[|s| - 1];
  }

  /** Python's `s.lstrip(chars)`. */
  function TrimStart(s: string, chars: set<char>): (r: string)
    ensures |r| <= |s| && r == s[|s| - |r|..]
    ensures |r| > 0 ==> r[0] !in chars
    ensures forall i :: 0 <= i < |s| - |r| ==> s[i] in chars
    decreases |s|
  {
    if |s| > 0 && s[0] in chars then TrimStart(s[1..], chars) else s
  }

  /** Python's `s.strip(chars)`. */
  function Strip(s: string, chars: set<char>): string {
    TrimEnd(TrimStart(s, chars), chars)
  }

  /** The characters for which Python's `str.isspace()` holds: what
      `str.strip()` with no argument removes. */
  const Whitespace: set<char> := {
    '\t', '\n', '\U{000B}', '\U{000C}', '\r', '\U{001C}', '\U{001D}', '\U{001E}',
    '\U{001F}', ' ', '\U{0085}', '\U{00A0}', '\U{1680}', '\U{2000}', '\U{2001}',
    '\U{2002}', '\U{2003}', '\U{2004}', '\U{2005}', '\U{2006}', '\U{2007}',
    '\U{2008}', '\U{2009}', '\U{200A}', '\U{2028}', '\U{2029}', '\U{202F}',
    '\U{205F}', '\U{3000}'
  }

  /** Python's `s.strip()`. */
  function StripSpace(s: string): string {
    Strip(s, Whitespace)
  }

  /** `not s.strip()`: the string is empty or white space only. */
  predicate IsBlank(s: string) {
    StripSpace(s) == ""
  }

  /** Every character of `s` is white space. */
  predicate AllSpace(s: string) {
    forall i :: 0 <= i < |s| ==> s[i] in Whitespace
  }

  lemma AllSpaceConcat(a: string, b: string)
    ensures AllSpace(a + b) <==> AllSpace(a) && AllSpace(b)
  {
    if AllSpace(a + b) {
      assert forall i :: 0 <= i < |a| ==> a[i] == (a + b)[i];
      assert forall i :: 0 <= i < |b| ==> b[i] == (a + b)[|a| + i];
    }
  }

  lemma BlankIffAllSpace(s: string)
    ensures IsBlank(s) <==> AllSpace(s)
  {
    var l := TrimStart(s, Whitespace);
    if IsBlank(s) {
      assert |l| == 0;
    }
  }

  /** Python's `s.isdigit()`, for the ASCII digits. */
  predicate IsDigits(s: string) {
    |s| > 0 && forall i :: 0 <= i < |s| ==> '0' <= s[i] <= '9'
  }

  /** A text file written one entry per line, each followed by `\n`. */
  function Lines(paths: seq<string>): string
    decreases |paths|
  {
    if |paths| == 0 then "" else Lines(paths[..|paths| - 1]) + paths[|paths| - 1] + "\n"
  }

  lemma {:induction false} LinesJoin(paths: seq<string>)
    ensures Lines(paths) == Join(paths + [""], "\n")
    decreases |paths|
  {
    if |paths| > 0 {
      var init := paths[..|paths| - 1];
      LinesJoin(init);
      JoinSnoc(init, paths[|paths| - 1]);
      assert paths == init + [paths[|paths| - 1]];
    }
  }

  lemma {:induction false} JoinSnoc(init: seq<string>, x: string)
    ensures Join(init + [x] + [""], "\n") == Join(init + [""], "\n") + x + "\n"
    decreases |init|
  {
    if |init| == 0 {
      assert [x] + [""] == [x, ""];
      assert Join([x, ""], "\n") == x + "\n" + Join([""], "\n");
    } else {
      JoinSnoc(init[1..], x);
      assert (init + [x] + [""])[1..] == init[1..] + [x] + [""];
      assert (init + [""])[1..] == init[1..] + [""];
    }
  }

  /** Read back with `split('\n')`, the file gives the entries in order,
      followed by the empty text after the last newline. */
  lemma LinesRoundTrip(paths: seq<string>)
    requires forall i :: 0 <= i < |paths| ==> '\n' !in paths[i]
    ensures Split(Lines(paths), "\n") == paths + [""]
  {
    var parts := paths + [""];
    forall i | 0 <= i < |parts| ensures '\n' !in parts[i] {
      if i < |paths| {
        assert parts[i] == paths[i];
      }
    }
    SplitJoinChar(parts, '\n');
    LinesJoin(paths);
    assert "\n" == ['\n'];
  }

  /** The loop `for p in paths: f.write(f"{p}\n")`. */
  method WriteLines(paths: seq<string>) returns (content: string)
    ensures content == Lines(paths)
  {
    content := "";
    var i := 0;
    while i < |paths|
      invariant 0 <= i <= |paths|
      invariant content == Lines(paths[..i])
    {
      assert paths[..i + 1][..i] == paths[..i];
      content := content + paths[i] + "\n";
      i := i + 1;
    }
    assert paths[..|paths|] == paths;
  }
}
