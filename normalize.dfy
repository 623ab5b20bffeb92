/**
 * The display-name canonicaliser `normalizeName`: the name is lowercased,
 * its leading and trailing whitespace is removed, and every run of interior
 * whitespace becomes one space.
 *
 * `NormalizeName` follows those three steps literally. `Words` and `Join`
 * give an independent reference (the words of the lowercased input, separated
 * by single spaces), and `NormalizeNameIsJoinedWords` proves that the two
 * agree. The properties the unit tests name are proved for every input, and
 * the five concrete cases of the tests are proved as instances.
 */
module Normalize {

  /** The whitespace characters of the ASCII range. */
  predicate IsSpace(c: char) {
    c == ' ' || c == '\t' || c == '\n' || c == '\r' || c == '\U{B}' || c == '\U{C}'
  }

  predicate IsUpper(c: char) {
    'A' <= c <= 'Z'
  }

  /** Lowercase mapping: each of `A`..`Z` goes to the same letter of `a`..`z`, every other character is kept. */
  function ToLower(c: char): (d: char)
    ensures !IsUpper(d)
    ensures IsUpper(c) ==> 'a' <= d <= 'z' && d as int - 'a' as int == c as int - 'A' as int
    ensures !IsUpper(c) ==> d == c
    ensures IsSpace(d) <==> IsSpace(c)
  {
    if IsUpper(c) then (c as int - 'A' as int + 'a' as int) as char else c
  }

  ghost predicate NoUpper(s: string) {
    forall i :: 0 <= i < |s| ==> !IsUpper(s[i])
  }

  ghost predicate AllSpace(s: string) {
    forall i :: 0 <= i < |s| ==> IsSpace(s[i])
  }

  ghost predicate NoSpace(s: string) {
    forall i :: 0 <= i < |s| ==> !IsSpace(s[i])
  }

  /** Neither the first nor the last character is whitespace. */
  ghost predicate NoEdgeSpace(s: string) {
    s == [] || (!IsSpace(s[0]) && !IsSpace(s[|s| - 1]))
  }

  /** No two neighbouring characters are both whitespace. */
  ghost predicate NoDoubleSpace(s: string) {
    forall i :: 0 <= i < |s| - 1 ==> !(IsSpace(s[i]) && IsSpace(s[i + 1]))
  }

  /** A word: a non-empty run of non-whitespace characters. */
  ghost predicate IsWord(w: string) {
    w != [] && NoSpace(w)
  }

  ghost predicate AllWords(ws: seq<string>) {
    forall i :: 0 <= i < |ws| ==> IsWord(ws[i])
  }

  // ---------------------------------------------------------------------------
  // The three steps of normalizeName

  /** `toLowerCase` on the whole string. */
  function LowerAll(s: string): (r: string)
    ensures |r| == |s|
    ensures forall i :: 0 <= i < |s| ==> r[i] == ToLower(s[i])
  {
    if s == [] then [] else [ToLower(s[0])] + LowerAll(s[1..])
  }

  /** Removes the leading whitespace: the longest suffix that does not start with whitespace. */
  function TrimStart(s: string): (r: string)
    ensures |r| <= |s| && r == s[|s| - |r|..]
    ensures forall i :: 0 <= i < |s| - |r| ==> IsSpace(s[i])
    ensures r == [] || !IsSpace(r[0])
  {
    if s != [] && IsSpace(s[0]) then TrimStart(s[1..]) else s
  }

  /** Removes the trailing whitespace: the longest prefix that does not end with whitespace. */
  function TrimEnd(s: string): (r: string)
    ensures |r| <= |s| && r == s[..|r|]
    ensures forall i :: |r| <= i < |s| ==> IsSpace(s[i])
    ensures r == [] || !IsSpace(r[|r| - 1])
  {
    if s != [] && IsSpace(s[|s| - 1]) then TrimEnd(s[..|s| - 1]) else s
  }

  /** `trim`: both ends. */
  function Trim(s: string): string {
    TrimEnd(TrimStart(s))
  }

  /** Replaces every maximal run of whitespace by a single space. */
  function CollapseRuns(s: string): string
    decreases |s|
  {
    if s == [] then []
    else if IsSpace(s[0]) then [' '] + CollapseRuns(TrimStart(s))
    else [s[0]] + CollapseRuns(s[1..])
  }

  /** `normalizeName`. */
  function NormalizeName(s: string): string {
    CollapseRuns(Trim(LowerAll(s)))
  }

  // ---------------------------------------------------------------------------
  // Reference definition: the words, joined by single spaces

  /** The longest prefix of `s` without whitespace. */
  function FirstWord(s: string): (w: string)
    ensures |w| <= |s| && w == s[..|w|]
    ensures NoSpace(w)
    ensures |w| < |s| ==> IsSpace(s[|w|])
  {
    if s == [] || IsSpace(s[0]) then [] else [s[0]] + FirstWord(s[1..])
  }

  /** The words of `s` in order: what a split on runs of whitespace keeps. */
  function Words(s: string): (ws: seq<string>)
    ensures AllWords(ws)
    decreases |s|
  {
    if s == [] then []
    else if IsSpace(s[0]) then Words(s[1..])
    else
      var w := FirstWord(s);
      [w] + Words(s[|w|..])
  }

  /** The words separated by one space each. */
  function Join(ws: seq<string>): string {
    if ws == [] then []
    else if |ws| == 1 then ws[0]
    else ws[0] + [' '] + Join(ws[1..])
  }

  // ---------------------------------------------------------------------------
  // Trimming

  lemma {:induction false} TrimEndSpaceSuffix(a: string, b: string)
    requires AllSpace(b)
    ensures TrimEnd(a + b) == TrimEnd(a)
    decreases |b|
  {
    if b != [] {
      assert (a + b)[..|a + b| - 1] == a + b[..|b| - 1];
      TrimEndSpaceSuffix(a, b[..|b| - 1]);
    } else {
      assert a + b == a;
    }
  }

  lemma {:induction false} TrimEndKeepsPrefix(a: string, b: string, j: nat)
    requires j < |b| && !IsSpace(b[j])
    ensures TrimEnd(a + b) == a + TrimEnd(b)
    decreases |b|
  {
    if IsSpace(b[|b| - 1]) {
      assert (a + b)[..|a + b| - 1] == a + b[..|b| - 1];
      TrimEndKeepsPrefix(a, b[..|b| - 1], j);
    }
  }

  lemma TrimStartSpaceHead(c: char, x: string)
    requires IsSpace(c)
    ensures TrimStart([c] + x) == TrimStart(x)
  {
    assert ([c] + x)[1..] == x;
  }

  lemma {:induction false} TrimStartAllSpace(s: string)
    requires AllSpace(s)
    ensures TrimStart(s) == []
  {
    if s != [] {
      TrimStartAllSpace(s[1..]);
    }
  }

  lemma {:induction false} TrimCommutes(s: string)
    ensures TrimStart(TrimEnd(s)) == TrimEnd(TrimStart(s))
    decreases |s|
  {
    if s != [] && IsSpace(s[0]) {
      var x := s[1..];
      assert s == [s[0]] + x;
      if AllSpace(x) {
        TrimEndSpaceSuffix([], s);
        assert [] + s == s;
        TrimEndSpaceSuffix([], x);
        assert [] + x == x;
        TrimCommutes(x);
      } else {
        var j :| 0 <= j < |x| && !IsSpace(x[j]);
        TrimEndKeepsPrefix([s[0]], x, j);
        TrimStartSpaceHead(s[0], TrimEnd(x));
        TrimCommutes(x);
      }
    }
  }

  // ---------------------------------------------------------------------------
  // Collapsing runs, and the reference proof

  lemma ConcatAssoc(a: string, b: string, c: string)
    ensures a + (b + c) == a + b + c
  {
  }

  lemma {:induction false} CollapseWord(w: string, y: string)
    requires NoSpace(w)
    ensures CollapseRuns(w + y) == w + CollapseRuns(y)
    decreases |w|
  {
    if w == [] {
      assert w + y == y;
    } else {
      assert (w + y)[1..] == w[1..] + y;
      CollapseWord(w[1..], y);
    }
  }

  lemma CollapseSpaceHead(y: string)
    requires y != [] && IsSpace(y[0])
    ensures CollapseRuns(y) == [' '] + CollapseRuns(TrimStart(y))
  {
  }

  /** The last word: only whitespace follows it. */
  lemma CollapseTrimLastWord(x: string, w: string, rest: string)
    requires TrimStart(x) == w + rest && IsWord(w) && AllSpace(rest)
    ensures CollapseRuns(Trim(x)) == w
  {
    TrimEndSpaceSuffix(w, rest);
    assert TrimEnd(w) == w;
    CollapseWord(w, []);
    assert w + [] == w;
  }

  /** A word followed by further words: one space separates it from them. */
  lemma CollapseTrimNextWord(x: string, w: string, rest: string)
    requires TrimStart(x) == w + rest && IsWord(w)
    requires rest != [] && IsSpace(rest[0]) && TrimStart(rest) != []
    ensures CollapseRuns(Trim(x)) == w + [' '] + CollapseRuns(Trim(rest))
  {
    var u := TrimStart(rest);
    var j := |rest| - |u|;
    assert !IsSpace(rest[j]);
    TrimEndKeepsPrefix(w, rest, j);
    var y := TrimEnd(rest);
    assert |y| > j;
    assert y[0] == rest[0];
    CollapseWord(w, y);
    CollapseSpaceHead(y);
    TrimCommutes(rest);
    ConcatAssoc(w, [' '], CollapseRuns(Trim(rest)));
  }

  /** Leading whitespace does not change the words. */
  lemma {:induction false} WordsDropSpace(s: string, k: nat)
    requires k <= |s|
    requires forall i :: 0 <= i < k ==> IsSpace(s[i])
    ensures Words(s[k..]) == Words(s)
    decreases k
  {
    if k == 0 {
      assert s[k..] == s;
    } else {
      assert s[1..][k - 1..] == s[k..];
      WordsDropSpace(s[1..], k - 1);
    }
  }

  lemma WordsAfterSpace(p: string, x: string)
    requires AllSpace(p)
    ensures Words(p + x) == Words(x)
  {
    assert (p + x)[|p|..] == x;
    WordsDropSpace(p + x, |p|);
  }

  lemma WordsOfTrimStart(s: string)
    ensures Words(TrimStart(s)) == Words(s)
  {
    WordsDropSpace(s, |s| - |TrimStart(s)|);
  }

  /** A string that starts with a word splits into that word and the rest. */
  lemma SplitFirstWord(t: string)
    requires t != [] && !IsSpace(t[0])
    ensures IsWord(FirstWord(t)) && t == FirstWord(t) + t[|FirstWord(t)|..]
    ensures t[|FirstWord(t)|..] == [] || IsSpace(t[|FirstWord(t)|])
    ensures Words(t) == [FirstWord(t)] + Words(t[|FirstWord(t)|..])
  {
    var w := FirstWord(t);
    assert w == [t[0]] + FirstWord(t[1..]);
    assert t == w + t[|w|..];
  }

  lemma CollapseTrimLastCase(x: string, w: string, rest: string)
    requires TrimStart(x) == w + rest && IsWord(w) && TrimStart(rest) == []
    requires Words(x) == [w] + Words(rest)
    ensures CollapseRuns(Trim(x)) == Join(Words(x))
  {
    WordsOfTrimStart(rest);
    assert Words(rest) == [];
    assert Words(x) == [w];
    CollapseTrimLastWord(x, w, rest);
  }

  lemma CollapseTrimNextCase(x: string, w: string, rest: string)
    requires TrimStart(x) == w + rest && IsWord(w)
    requires rest != [] && IsSpace(rest[0]) && TrimStart(rest) != []
    requires Words(x) == [w] + Words(rest)
    requires CollapseRuns(Trim(rest)) == Join(Words(rest))
    ensures CollapseRuns(Trim(x)) == Join(Words(x))
  {
    CollapseTrimNextWord(x, w, rest);
    WordsOfTrimStart(rest);
    SplitFirstWord(TrimStart(rest));
    assert Words(rest) != [];
    assert Words(x)[1..] == Words(rest);
  }

  /** Trimming then collapsing yields the words joined by single spaces. */
  lemma {:induction false} CollapseTrimIsJoin(x: string)
    ensures CollapseRuns(Trim(x)) == Join(Words(x))
    decreases |x|
  {
    var t := TrimStart(x);
    WordsOfTrimStart(x);
    if t != [] {
      SplitFirstWord(t);
      var w := FirstWord(t);
      var rest := t[|w|..];
      if TrimStart(rest) == [] {
        CollapseTrimLastCase(x, w, rest);
      } else {
        CollapseTrimIsJoin(rest);
        CollapseTrimNextCase(x, w, rest);
      }
    }
  }

  // ---------------------------------------------------------------------------
  // Splitting joined words

  lemma {:induction false} JoinEdges(ws: seq<string>)
    requires AllWords(ws)
    ensures ws != [] ==> IsWord(ws[0]) && IsWord(ws[|ws| - 1]) && Join(ws) != []
    ensures ws != [] ==> Join(ws)[0] == ws[0][0]
    ensures ws != [] ==> Join(ws)[|Join(ws)| - 1] == ws[|ws| - 1][|ws[|ws| - 1]| - 1]
  {
    if |ws| > 1 {
      JoinEdges(ws[1..]);
    }
  }

  lemma {:induction false} FirstWordOfWord(w: string, rest: string)
    requires IsWord(w)
    requires rest == [] || IsSpace(rest[0])
    ensures FirstWord(w + rest) == w
    decreases |w|
  {
    if |w| == 1 {
      assert (w + rest)[1..] == rest;
    } else {
      assert (w + rest)[1..] == w[1..] + rest;
      FirstWordOfWord(w[1..], rest);
    }
  }

  /** A word followed by nothing or by whitespace is split off as one word. */
  lemma WordsSplitsWord(w: string, rest: string)
    requires IsWord(w)
    requires rest == [] || IsSpace(rest[0])
    ensures Words(w + rest) == [w] + Words(rest)
  {
    FirstWordOfWord(w, rest);
    assert (w + rest)[|w|..] == rest;
  }

  /** Splitting joined words gives the words back. */
  lemma {:induction false} WordsOfJoin(ws: seq<string>)
    requires AllWords(ws)
    ensures Words(Join(ws)) == ws
  {
    if |ws| == 1 {
      WordsSplitsWord(ws[0], []);
      assert ws[0] + [] == ws[0];
    } else if |ws| > 1 {
      var w := ws[0];
      var tail := Join(ws[1..]);
      JoinEdges(ws[1..]);
      ConcatAssoc(w, [' '], tail);
      WordsSplitsWord(w, [' '] + tail);
      assert ([' '] + tail)[1..] == tail;
      WordsOfJoin(ws[1..]);
    }
  }

  /** Joined words have no whitespace at either end and no two whitespace characters in a row. */
  lemma {:induction false} JoinShape(ws: seq<string>)
    requires AllWords(ws)
    ensures NoEdgeSpace(Join(ws)) && NoDoubleSpace(Join(ws))
  {
    JoinEdges(ws);
    if |ws| > 1 {
      var w, tail := ws[0], Join(ws[1..]);
      JoinShape(ws[1..]);
      JoinEdges(ws[1..]);
      var r := Join(ws);
      assert r == w + [' '] + tail;
      forall i | 0 <= i < |r| - 1
        ensures !(IsSpace(r[i]) && IsSpace(r[i + 1]))
      {
        if i < |w| {
          assert r[i] == w[i];
        } else if i == |w| {
          assert r[i + 1] == tail[0];
        } else {
          assert r[i] == tail[i - |w| - 1] && r[i + 1] == tail[i - |w|];
        }
      }
    }
  }

  lemma {:induction false} JoinNoUpper(ws: seq<string>)
    requires forall i :: 0 <= i < |ws| ==> NoUpper(ws[i])
    ensures NoUpper(Join(ws))
  {
    if |ws| > 1 {
      JoinNoUpper(ws[1..]);
      var r := Join(ws);
      assert r == ws[0] + [' '] + Join(ws[1..]);
      forall i | 0 <= i < |r| ensures !IsUpper(r[i]) {
        if i < |ws[0]| {
          assert r[i] == ws[0][i];
        } else if i > |ws[0]| {
          assert r[i] == Join(ws[1..])[i - |ws[0]| - 1];
        }
      }
    }
  }

  lemma {:induction false} WordsNoUpper(s: string)
    requires NoUpper(s)
    ensures forall i :: 0 <= i < |Words(s)| ==> NoUpper(Words(s)[i])
    decreases |s|
  {
    if s != [] {
      if IsSpace(s[0]) {
        WordsNoUpper(s[1..]);
      } else {
        var w := FirstWord(s);
        WordsNoUpper(s[|w|..]);
        assert Words(s) == [w] + Words(s[|w|..]);
      }
    }
  }

  lemma LowerAllOfLower(s: string)
    requires NoUpper(s)
    ensures LowerAll(s) == s
  {
  }

  lemma LowerAllNoUpper(s: string)
    ensures NoUpper(LowerAll(s))
  {
  }

  // ---------------------------------------------------------------------------
  // Properties of NormalizeName for every input

  /** The canonical form is the lowercased input's words joined by single spaces. */
  lemma NormalizeNameIsJoinedWords(s: string)
    ensures NormalizeName(s) == Join(Words(LowerAll(s)))
  {
    CollapseTrimIsJoin(LowerAll(s));
  }

  /** No leading and no trailing whitespace. */
  lemma NormalizeNameTrimmed(s: string)
    ensures NoEdgeSpace(NormalizeName(s))
  {
    NormalizeNameIsJoinedWords(s);
    JoinShape(Words(LowerAll(s)));
  }

  /** Never two whitespace characters in a row. */
  lemma NormalizeNameSingleSpaced(s: string)
    ensures NoDoubleSpace(NormalizeName(s))
  {
    NormalizeNameIsJoinedWords(s);
    JoinShape(Words(LowerAll(s)));
  }

  /** No uppercase letter survives. */
  lemma NormalizeNameLowercase(s: string)
    ensures NoUpper(NormalizeName(s))
  {
    NormalizeNameIsJoinedWords(s);
    LowerAllNoUpper(s);
    WordsNoUpper(LowerAll(s));
    JoinNoUpper(Words(LowerAll(s)));
  }

  /** Normalising keeps exactly the lowercased words of the input, in order. */
  lemma NormalizeNameKeepsWords(s: string)
    ensures Words(NormalizeName(s)) == Words(LowerAll(s))
  {
    NormalizeNameIsJoinedWords(s);
    WordsOfJoin(Words(LowerAll(s)));
  }

  /** Normalising a canonical form changes nothing. */
  lemma NormalizeNameIdempotent(s: string)
    ensures NormalizeName(NormalizeName(s)) == NormalizeName(s)
  {
    var n := NormalizeName(s);
    NormalizeNameLowercase(s);
    LowerAllOfLower(n);
    NormalizeNameIsJoinedWords(n);
    NormalizeNameKeepsWords(s);
    NormalizeNameIsJoinedWords(s);
  }

  /** The result is empty exactly when the input is empty or only whitespace. */
  lemma NormalizeNameEmptyIff(s: string)
    ensures NormalizeName(s) == [] <==> AllSpace(s)
  {
    var l := LowerAll(s);
    var t := TrimStart(l);
    if AllSpace(s) {
      assert AllSpace(l);
      TrimStartAllSpace(l);
    } else {
      var i :| 0 <= i < |s| && !IsSpace(s[i]);
      assert !IsSpace(l[i]);
      assert t != [] && !IsSpace(t[0]);
    }
  }

  // ---------------------------------------------------------------------------
  // Words with arbitrary spacing

  lemma LowerAllConcat(a: string, b: string)
    ensures LowerAll(a + b) == LowerAll(a) + LowerAll(b)
  {
    assert forall i :: 0 <= i < |a + b| ==> LowerAll(a + b)[i] == (LowerAll(a) + LowerAll(b))[i];
  }

  lemma LowerAllSpace(p: string)
    requires AllSpace(p)
    ensures LowerAll(p) == p
  {
  }

  lemma LowerAllWord(w: string)
    requires IsWord(w)
    ensures IsWord(LowerAll(w))
  {
  }

  /** Lowercasing whitespace, a word and the rest lowercases the word and the rest. */
  lemma LowerAllSpacedWord(p: string, w: string, x: string)
    requires AllSpace(p) && IsWord(w)
    ensures LowerAll(p + (w + x)) == p + (LowerAll(w) + LowerAll(x)) && IsWord(LowerAll(w))
  {
    LowerAllConcat(p, w + x);
    LowerAllConcat(w, x);
    LowerAllSpace(p);
    LowerAllWord(w);
  }

  lemma WordsAllSpace(p: string)
    requires AllSpace(p)
    ensures Words(p) == []
  {
    WordsAfterSpace(p, []);
    assert p + [] == p;
  }

  /** Whitespace, then a word: the word is the first of the words. */
  lemma WordsSpacedWord(p: string, w: string, x: string)
    requires AllSpace(p) && IsWord(w) && (x == [] || IsSpace(x[0]))
    ensures Words(p + (w + x)) == [w] + Words(x)
  {
    WordsAfterSpace(p, w + x);
    WordsSplitsWord(w, x);
  }

  lemma JoinTwo(a: string, b: string)
    ensures Join([a, b]) == a + [' '] + b
  {
    assert [a, b][1..] == [b];
  }

  lemma JoinThree(a: string, b: string, c: string)
    ensures Join([a, b, c]) == a + [' '] + b + [' '] + c
  {
    assert [a, b, c][1..] == [b, c];
    JoinTwo(b, c);
  }

  lemma LowerTwoWords(s: string, p0: string, a: string, p1: string, b: string, p2: string)
    requires s == p0 + (a + (p1 + (b + p2)))
    requires AllSpace(p0) && AllSpace(p1) && AllSpace(p2) && IsWord(a) && IsWord(b)
    ensures LowerAll(s) == p0 + (LowerAll(a) + (p1 + (LowerAll(b) + p2)))
    ensures IsWord(LowerAll(a)) && IsWord(LowerAll(b))
  {
    LowerAllSpacedWord(p0, a, p1 + (b + p2));
    LowerAllSpacedWord(p1, b, p2);
    LowerAllSpace(p2);
  }

  lemma WordsTwoWords(l: string, p0: string, a: string, p1: string, b: string, p2: string)
    requires l == p0 + (a + (p1 + (b + p2)))
    requires AllSpace(p0) && p1 != [] && AllSpace(p1) && AllSpace(p2) && IsWord(a) && IsWord(b)
    ensures Words(l) == [a, b]
  {
    WordsSpacedWord(p0, a, p1 + (b + p2));
    WordsSpacedWord(p1, b, p2);
    WordsAllSpace(p2);
    assert [a] + ([b] + []) == [a, b];
  }

  /** Two words with any whitespace around them and a non-empty run between them. */
  lemma NormalizeTwoWords(s: string, p0: string, a: string, p1: string, b: string, p2: string)
    requires s == p0 + (a + (p1 + (b + p2)))
    requires AllSpace(p0) && AllSpace(p2) && p1 != [] && AllSpace(p1)
    requires IsWord(a) && IsWord(b)
    ensures NormalizeName(s) == LowerAll(a) + [' '] + LowerAll(b)
  {
    LowerTwoWords(s, p0, a, p1, b, p2);
    WordsTwoWords(LowerAll(s), p0, LowerAll(a), p1, LowerAll(b), p2);
    NormalizeNameIsJoinedWords(s);
    JoinTwo(LowerAll(a), LowerAll(b));
  }

  lemma LowerThreeWords(s: string, p0: string, a: string, p1: string, b: string, p2: string, c: string, p3: string)
    requires s == p0 + (a + (p1 + (b + (p2 + (c + p3)))))
    requires AllSpace(p0) && AllSpace(p1) && AllSpace(p2) && AllSpace(p3)
    requires IsWord(a) && IsWord(b) && IsWord(c)
    ensures LowerAll(s) == p0 + (LowerAll(a) + (p1 + (LowerAll(b) + (p2 + (LowerAll(c) + p3)))))
    ensures IsWord(LowerAll(a)) && IsWord(LowerAll(b)) && IsWord(LowerAll(c))
  {
    LowerAllSpacedWord(p0, a, p1 + (b + (p2 + (c + p3))));
    LowerTwoWords(p1 + (b + (p2 + (c + p3))), p1, b, p2, c, p3);
  }

  lemma WordsThreeWords(l: string, p0: string, a: string, p1: string, b: string, p2: string, c: string, p3: string)
    requires l == p0 + (a + (p1 + (b + (p2 + (c + p3)))))
    requires AllSpace(p0) && p1 != [] && AllSpace(p1) && p2 != [] && AllSpace(p2) && AllSpace(p3)
    requires IsWord(a) && IsWord(b) && IsWord(c)
    ensures Words(l) == [a, b, c]
  {
    WordsSpacedWord(p0, a, p1 + (b + (p2 + (c + p3))));
    WordsTwoWords(p1 + (b + (p2 + (c + p3))), p1, b, p2, c, p3);
    assert [a] + [b, c] == [a, b, c];
  }

  /** Three words with any whitespace around them and non-empty runs between them. */
  lemma NormalizeThreeWords(s: string, p0: string, a: string, p1: string, b: string, p2: string, c: string, p3: string)
    requires s == p0 + (a + (p1 + (b + (p2 + (c + p3)))))
    requires AllSpace(p0) && AllSpace(p3) && p1 != [] && AllSpace(p1) && p2 != [] && AllSpace(p2)
    requires IsWord(a) && IsWord(b) && IsWord(c)
    ensures NormalizeName(s) == LowerAll(a) + [' '] + LowerAll(b) + [' '] + LowerAll(c)
  {
    LowerThreeWords(s, p0, a, p1, b, p2, c, p3);
    WordsThreeWords(LowerAll(s), p0, LowerAll(a), p1, LowerAll(b), p2, LowerAll(c), p3);
    NormalizeNameIsJoinedWords(s);
    JoinThree(LowerAll(a), LowerAll(b), LowerAll(c));
  }

  // ---------------------------------------------------------------------------
  // The five cases of backend/tests/unit/normalize.test.ts

  // The lemmas from `SpaceRuns` to `LayoutAllRules` only state facts about
  // literal strings, one small group each, so that the verifier evaluates
  // each literal once. Where a lemma takes a parameter `w` that must equal a
  // literal, the parameter carries no meaning: it keeps that literal from
  // being unfolded in the caller.

  lemma SpaceRuns()
    ensures AllSpace(" ") && AllSpace("  ") && AllSpace("   ")
  {
  }

  lemma TestNameWords()
    ensures IsWord("TEST") && IsWord("NAME") && IsWord("Test") && IsWord("Name")
    ensures LowerAll("TEST") == "test" && LowerAll("NAME") == "name"
    ensures LowerAll("Test") == "test" && LowerAll("Name") == "name"
  {
  }

  lemma MultipleSpacesWords()
    ensures IsWord("Multiple") && LowerAll("Multiple") == "multiple"
    ensures IsWord("Spaces") && LowerAll("Spaces") == "spaces"
  {
    MultipleWord("Multiple");
    SpacesWord("Spaces");
  }

  lemma MultipleWord(w: string)
    requires w == "Multiple"
    ensures IsWord(w) && LowerAll(w) == "multiple"
  {
  }

  lemma SpacesWord(w: string)
    requires w == "Spaces"
    ensures IsWord(w) && LowerAll(w) == "spaces"
  {
  }

  lemma ComplicatedWords()
    ensures IsWord("My") && LowerAll("My") == "my"
    ensures IsWord("COMPLICATED") && LowerAll("COMPLICATED") == "complicated"
  {
    MyWord("My");
    ComplicatedWord("COMPLICATED");
  }

  lemma MyWord(w: string)
    requires w == "My"
    ensures IsWord(w) && LowerAll(w) == "my"
  {
  }

  lemma ComplicatedWord(w: string)
    requires w == "COMPLICATED"
    ensures IsWord(w) && LowerAll(w) == "complicated"
  {
  }

  lemma Spellings()
    ensures "test" + [' '] + "name" == "test name"
    ensures "test" + [' '] + "multiple" + [' '] + "spaces" == "test multiple spaces"
    ensures "my" + [' '] + "complicated" + [' '] + "name" == "my complicated name"
  {
  }

  lemma LayoutsTwoWords()
    ensures "TEST NAME" == [] + ("TEST" + (" " + ("NAME" + [])))
    ensures "  Test Name  " == "  " + ("Test" + (" " + ("Name" + "  ")))
  {
  }

  lemma LayoutInteriorRuns()
    ensures "Test   Multiple   Spaces" == [] + ("Test" + ("   " + ("Multiple" + ("   " + ("Spaces" + [])))))
  {
  }

  lemma LayoutAllRules()
    ensures "   My   COMPLICATED   Name   " == "   " + ("My" + ("   " + ("COMPLICATED" + ("   " + ("Name" + "   ")))))
  {
  }

  lemma LowercasesLetters(s: string)
    requires s == "TEST NAME"
    ensures NormalizeName(s) == "test name"
  {
    TestNameWords();
    SpaceRuns();
    Spellings();
    LayoutsTwoWords();
    assert s == [] + ("TEST" + (" " + ("NAME" + [])));
    NormalizeTwoWords(s, [], "TEST", " ", "NAME", []);
  }

  lemma TrimsBothEnds(s: string)
    requires s == "  Test Name  "
    ensures NormalizeName(s) == "test name"
  {
    TestNameWords();
    SpaceRuns();
    Spellings();
    LayoutsTwoWords();
    assert s == "  " + ("Test" + (" " + ("Name" + "  ")));
    NormalizeTwoWords(s, "  ", "Test", " ", "Name", "  ");
  }

  lemma CollapsesInteriorRuns(s: string)
    requires s == "Test   Multiple   Spaces"
    ensures NormalizeName(s) == "test multiple spaces"
  {
    TestNameWords();
    MultipleSpacesWords();
    SpaceRuns();
    Spellings();
    LayoutInteriorRuns();
    assert s == [] + ("Test" + ("   " + ("Multiple" + ("   " + ("Spaces" + [])))));
    NormalizeThreeWords(s, [], "Test", "   ", "Multiple", "   ", "Spaces", []);
  }

  lemma AppliesAllRules(s: string)
    requires s == "   My   COMPLICATED   Name   "
    ensures NormalizeName(s) == "my complicated name"
  {
    TestNameWords();
    ComplicatedWords();
    SpaceRuns();
    Spellings();
    LayoutAllRules();
    assert s == "   " + ("My" + ("   " + ("COMPLICATED" + ("   " + ("Name" + "   ")))));
    NormalizeThreeWords(s, "   ", "My", "   ", "COMPLICATED", "   ", "Name", "   ");
  }

  lemma EmptyStaysEmpty()
    ensures NormalizeName("") == ""
  {
  }
}
