/** The Python string operations the feature extractors use: `str.count`,
    `in`, `str.split` on one character, `str.lower` and counting the characters
    of a class. Character classes are the ASCII ones. */
module Text {

  predicate IsDigit(c: char) { '0' <= c <= '9' }

  predicate IsAlpha(c: char) { 'a' <= c <= 'z' || 'A' <= c <= 'Z' }

  /** A character of the regex class `\w`. */
  predicate IsWordChar(c: char) { IsDigit(c) || IsAlpha(c) || c == '_' }

  function LowerChar(c: char): char {
    if 'A' <= c <= 'Z' then (c as int - 'A' as int + 'a' as int) as char else c
  }

  /** `s.lower()`. */
  function Lower(s: string): (r: string)
    ensures |r| == |s| && forall i | 0 <= i < |s| :: r[i] == LowerChar(s[i])
  {
    seq(|s|, i requires 0 <= i < |s| => LowerChar(s[i]))
  }

  /** The number of characters of `s` that satisfy `p`
      (`sum(p(c) for c in s)`, `len(re.findall(class, s))`). */
  function CountIf(s: string, p: char -> bool): (n: nat)
    ensures n <= |s|
    ensures n == 0 <==> forall i | 0 <= i < |s| :: !p(s[i])
    ensures n == |s| <==> forall i | 0 <= i < |s| :: p(s[i])
    decreases |s|
  {
    if s == [] then 0
    else
      var rest := CountIf(s[1..], p);
      assert forall i | 1 <= i < |s| :: s[i] == s[1..][i - 1];
      (if p(s[0]) then 1 else 0) + rest
  }

  /** `sub` occurs in `s` starting at index `i`. */
  predicate OccursAt(s: string, sub: string, i: int) {
    0 <= i <= |s| - |sub| && s[i..i + |sub|] == sub
  }

  /** `sub in s`, scanning the windows of `s` from the left. */
  predicate Contains(s: string, sub: string)
    decreases |s|
  {
    |sub| <= |s| && (s[..|sub|] == sub || (s != [] && Contains(s[1..], sub)))
  }

  /** Reference definition: some window of `s` is `sub`. */
  ghost predicate HasWindow(s: string, sub: string) {
    exists i :: OccursAt(s, sub, i)
  }

  /** A window of `s[1..]` is the window of `s` one place to the right. */
  lemma WindowShift(s: string, sub: string, i: int)
    requires s != [] && 0 <= i
    ensures OccursAt(s[1..], sub, i) <==> OccursAt(s, sub, i + 1)
  {
    if 0 <= i <= |s| - 1 - |sub| {
      assert s[1..][i..i + |sub|] == s[i + 1..i + 1 + |sub|];
    }
  }

  lemma {:induction false} ContainsIff(s: string, sub: string)
    ensures Contains(s, sub) <==> HasWindow(s, sub)
    decreases |s|
  {
    assert OccursAt(s, sub, 0) <==> |sub| <= |s| && s[..|sub|] == sub;
    if s != [] {
      ContainsIff(s[1..], sub);
      if HasWindow(s[1..], sub) {
        var i :| OccursAt(s[1..], sub, i);
        WindowShift(s, sub, i);
        assert HasWindow(s, sub);
      }
      if HasWindow(s, sub) && !OccursAt(s, sub, 0) {
        var i :| OccursAt(s, sub, i);
        WindowShift(s, sub, i - 1);
        assert HasWindow(s[1..], sub);
        assert |sub| <= |s| && Contains(s[1..], sub);
      }
    }
  }

  /** Starting at index `i`, the characters of `s`, lower-cased, spell `sub`. */
  ghost predicate OccursAtIgnoringCase(s: string, sub: string, i: int) {
    0 <= i <= |s| - |sub| && forall j | 0 <= j < |sub| :: LowerChar(s[i + j]) == sub[j]
  }

  /** `sub.lower() in s.lower()` spelled out window by window. */
  ghost predicate ContainsIgnoringCase(s: string, sub: string) {
    exists i :: OccursAtIgnoringCase(s, sub, i)
  }

  /** For a lower-case keyword, `sub in s.lower()` is case-insensitive containment. */
  lemma LowerContains(s: string, sub: string)
    requires Lower(sub) == sub
    ensures Contains(Lower(s), sub) <==> ContainsIgnoringCase(s, sub)
  {
    var low := Lower(s);
    ContainsIff(low, sub);
    if HasWindow(low, sub) {
      var i :| OccursAt(low, sub, i);
      forall j | 0 <= j < |sub|
        ensures LowerChar(s[i + j]) == sub[j]
      {
        assert low[i..i + |sub|][j] == low[i + j];
      }
      assert OccursAtIgnoringCase(s, sub, i);
    }
    if ContainsIgnoringCase(s, sub) {
      var i :| OccursAtIgnoringCase(s, sub, i);
      assert low[i..i + |sub|] == sub;
      assert OccursAt(low, sub, i);
    }
  }

  /** `s.count(sub)`: non-overlapping occurrences scanned from the left; the
      empty string occurs `len(s) + 1` times. */
  function Occurrences(s: string, sub: string): (n: nat)
    ensures sub != [] ==> n <= |s|
    decreases |s|
  {
    if sub == [] then |s| + 1
    else if |s| < |sub| then 0
    else if s[..|sub|] == sub then 1 + Occurrences(s[|sub|..], sub)
    else Occurrences(s[1..], sub)
  }

  /** A non-empty `sub` is counted at least once exactly when it occurs. */
  lemma {:induction false} OccurrencesContains(s: string, sub: string)
    requires sub != []
    ensures Occurrences(s, sub) > 0 <==> Contains(s, sub)
    decreases |s|
  {
    if |sub| <= |s| && s[..|sub|] != sub {
      OccurrencesContains(s[1..], sub);
    }
  }

  lemma {:induction false} OccurrencesOfChar(s: string, c: char)
    ensures Occurrences(s, [c]) == 0 <==> c !in s
    decreases |s|
  {
    if s != [] {
      OccurrencesOfChar(s[1..], c);
      assert s[..1] == [c] <==> s[0] == c;
      assert c in s <==> s[0] == c || c in s[1..];
    }
  }

  /** `s.split(sep)`: the pieces between the separators, at least one. */
  function Split(s: string, sep: char): (r: seq<string>)
    ensures |r| >= 1
    decreases |s|
  {
    if s == [] then [[]]
    else
      var rest := Split(s[1..], sep);
      if s[0] == sep then [[]] + rest
      else [[s[0]] + rest[0]] + rest[1..]
  }

  /** No piece holds the separator, and none is longer than `s`. */
  lemma {:induction false} SplitPieces(s: string, sep: char)
    ensures forall i | 0 <= i < |Split(s, sep)| :: sep !in Split(s, sep)[i] && |Split(s, sep)[i]| <= |s|
    decreases |s|
  {
    if s != [] {
      SplitPieces(s[1..], sep);
      var r, rest := Split(s, sep), Split(s[1..], sep);
      if s[0] == sep {
        assert r == [[]] + rest;
        forall i | 0 <= i < |r|
          ensures sep !in r[i] && |r[i]| <= |s|
        {
          if i > 0 {
            assert r[i] == rest[i - 1] && sep !in rest[i - 1];
          }
        }
      } else {
        assert r == [[s[0]] + rest[0]] + rest[1..];
        forall i | 0 <= i < |r|
          ensures sep !in r[i] && |r[i]| <= |s|
        {
          if i == 0 {
            assert r[0] == [s[0]] + rest[0] && sep !in rest[0];
          } else {
            assert r[i] == rest[i] && sep !in rest[i];
          }
        }
      }
    }
  }

  /** There is one piece more than there are separators. */
  lemma {:induction false} SplitCount(s: string, sep: char)
    ensures |Split(s, sep)| == Occurrences(s, [sep]) + 1
    decreases |s|
  {
    if s != [] {
      SplitCount(s[1..], sep);
      assert s[..1] == [sep] <==> s[0] == sep;
    }
  }

  /** `sep.join(parts)`. */
  function Join(parts: seq<string>, sep: char): string
    requires |parts| > 0
    decreases |parts|
  {
    if |parts| == 1 then parts[0] else parts[0] + [sep] + Join(parts[1..], sep)
  }

  /** Splitting loses nothing: joining the pieces gives the string back. */
  lemma {:induction false} JoinSplit(s: string, sep: char)
    ensures Join(Split(s, sep), sep) == s
    decreases |s|
  {
    if s != [] {
      var rest := Split(s[1..], sep);
      JoinSplit(s[1..], sep);
      if s[0] == sep {
        assert Split(s, sep)[1..] == rest;
      } else if |rest| == 1 {
        assert s == [s[0]] + s[1..];
      } else {
        assert Split(s, sep)[1..] == rest[1..];
        assert s == [s[0]] + s[1..];
      }
    }
  }

  lemma {:induction false} SplitNoSep(x: string, sep: char)
    requires sep !in x
    ensures Split(x, sep) == [x]
    decreases |x|
  {
    if x != [] {
      SplitNoSep(x[1..], sep);
      assert [x[0]] + x[1..] == x;
    }
  }

  lemma {:induction false} SplitAtSep(x: string, y: string, sep: char)
    requires sep !in x
    ensures Split(x + [sep] + y, sep) == [x] + Split(y, sep)
    decreases |x|
  {
    if x == [] {
      assert ([sep] + y)[1..] == y;
    } else {
      var s := x + [sep] + y;
      assert s[1..] == x[1..] + [sep] + y;
      SplitAtSep(x[1..], y, sep);
      assert [x[0]] + x[1..] == x;
    }
  }

  /** Splitting undoes joining pieces that hold no separator. */
  lemma {:induction false} SplitJoin(parts: seq<string>, sep: char)
    requires |parts| > 0
    requires forall i | 0 <= i < |parts| :: sep !in parts[i]
    ensures Split(Join(parts, sep), sep) == parts
    decreases |parts|
  {
    if |parts| == 1 {
      SplitNoSep(parts[0], sep);
    } else {
      SplitJoin(parts[1..], sep);
      SplitAtSep(parts[0], Join(parts[1..], sep), sep);
    }
  }

  /** How the pieces `r` of `s` relate to the pieces `rest` of `s[1..]`. */
  predicate SplitStepRel(s: string, r: seq<string>, rest: seq<string>, sep: char) {
    && s != [] && |r| >= 1 && |rest| >= 1
    && (s[0] == sep ==> |r| == |rest| + 1 && r[|r| - 1] == rest[|rest| - 1])
    && (s[0] != sep ==> |r| == |rest| && r[0] == [s[0]] + rest[0] &&
                        (|rest| > 1 ==> r[|r| - 1] == rest[|rest| - 1]))
  }

  lemma SplitStep(s: string, sep: char)
    requires s != []
    ensures SplitStepRel(s, Split(s, sep), Split(s[1..], sep), sep)
  {
    var rest := Split(s[1..], sep);
    if s[0] == sep {
      assert Split(s, sep) == [[]] + rest;
    } else {
      assert Split(s, sep) == [[s[0]] + rest[0]] + rest[1..];
    }
  }

  /** What the last piece `r[|r| - 1]` of a split of `s` is. */
  predicate IsLastPiece(s: string, r: seq<string>, sep: char)
    requires |r| >= 1
  {
    var t := r[|r| - 1];
    |t| <= |s| && s[|s| - |t|..] == t &&
    (|r| == 1 ==> t == s) &&
    (|r| > 1 ==> |t| < |s| && s[|s| - |t| - 1] == sep)
  }

  /** The last-piece facts carry over from the pieces of `s[1..]` to those of
      `s` whenever the two are related as `SplitStep` says. */
  lemma LastPieceStep(s: string, r: seq<string>, rest: seq<string>, sep: char)
    requires SplitStepRel(s, r, rest, sep) && IsLastPiece(s[1..], rest, sep)
    ensures IsLastPiece(s, r, sep)
  {
    var t := rest[|rest| - 1];
    if s[0] == sep || |rest| > 1 {
      assert s[|s| - |t|..] == s[1..][|s| - 1 - |t|..];
      if |rest| > 1 {
        assert s[|s| - |t| - 1] == s[1..][|s| - |t| - 2];
      }
    } else {
      assert r[|r| - 1] == [s[0]] + s[1..] == s;
    }
  }

  /** The last piece is the text after the last separator: a suffix of `s`,
      all of `s` when there is one piece, and preceded by a separator otherwise. */
  lemma {:induction false} SplitLast(s: string, sep: char)
    ensures IsLastPiece(s, Split(s, sep), sep)
    decreases |s|
  {
    if s != [] {
      SplitLast(s[1..], sep);
      SplitStep(s, sep);
      LastPieceStep(s, Split(s, sep), Split(s[1..], sep), sep);
    }
  }

  /** A character `str.strip()` removes: the characters Python's
      `str.isspace` accepts. */
  predicate IsSpace(c: char) {
    || c == ' ' || '\t' <= c <= '\r' || '\U{1c}' <= c <= '\U{1f}'
    || c == '\U{85}' || c == '\U{a0}' || c == '\U{1680}'
    || '\U{2000}' <= c <= '\U{200a}' || c == '\U{2028}' || c == '\U{2029}'
    || c == '\U{202f}' || c == '\U{205f}' || c == '\U{3000}'
  }

  /** `s.lstrip()`. */
  function StripLeft(s: string): (r: string)
    ensures |r| <= |s| && r == s[|s| - |r|..]
    ensures forall i | 0 <= i < |s| - |r| :: IsSpace(s[i])
    ensures r != [] ==> !IsSpace(r[0])
    decreases |s|
  {
    if s != [] && IsSpace(s[0]) then StripLeft(s[1..]) else s
  }

  /** `s.rstrip()`. */
  function StripRight(s: string): (r: string)
    ensures |r| <= |s| && r == s[..|r|]
    ensures forall i | |r| <= i < |s| :: IsSpace(s[i])
    ensures r != [] ==> !IsSpace(r[|r| - 1])
    decreases |s|
  {
    if s != [] && IsSpace(s[|s| - 1]) then StripRight(s[..|s| - 1]) else s
  }

  /** `s.strip()`: a slice of `s` with only whitespace cut off either side,
      and neither end of the result is whitespace. */
  function Strip(s: string): (r: string)
    ensures |r| <= |s|
    ensures exists a | 0 <= a <= |s| - |r| :: IsStripSlice(s, a, r)
    ensures r != [] ==> !IsSpace(r[0]) && !IsSpace(r[|r| - 1])
  {
    var t := StripLeft(s);
    var r := StripRight(t);
    StripOfStrips(s, t, r);
    r
  }

  /** `rstrip` after `lstrip` cuts only whitespace from `s`, and leaves no
      whitespace at either end. */
  lemma StripOfStrips(s: string, t: string, r: string)
    requires |t| <= |s| && t == s[|s| - |t|..] && forall i | 0 <= i < |s| - |t| :: IsSpace(s[i])
    requires t != [] ==> !IsSpace(t[0])
    requires |r| <= |t| && r == t[..|r|] && forall i | |r| <= i < |t| :: IsSpace(t[i])
    requires r != [] ==> !IsSpace(r[|r| - 1])
    ensures |r| <= |s| && IsStripSlice(s, |s| - |t|, r)
    ensures r != [] ==> !IsSpace(r[0]) && !IsSpace(r[|r| - 1])
  {
    var a := |s| - |t|;
    assert r != [] ==> r[0] == t[0];
    forall i | a + |r| <= i < |s|
      ensures IsSpace(s[i])
    {
      assert s[i] == t[i - a];
    }
  }

  /** `r` is `s[a..a + |r|]`, and everything of `s` outside it is whitespace. */
  predicate IsStripSlice(s: string, a: nat, r: string)
    requires a + |r| <= |s|
  {
    && r == s[a..a + |r|]
    && (forall i | 0 <= i < a :: IsSpace(s[i]))
    && (forall i | a + |r| <= i < |s| :: IsSpace(s[i]))
  }

  lemma {:induction false} StripLeftBlank(s: string)
    ensures StripLeft(s) == [] <==> forall i | 0 <= i < |s| :: IsSpace(s[i])
    decreases |s|
  {
    if s != [] && IsSpace(s[0]) {
      StripLeftBlank(s[1..]);
      assert forall i | 1 <= i < |s| :: s[i] == s[1..][i - 1];
    }
  }

  lemma {:induction false} StripRightKeepsHead(s: string)
    requires s != [] && !IsSpace(s[0])
    ensures StripRight(s) != []
    decreases |s|
  {
    if IsSpace(s[|s| - 1]) {
      StripRightKeepsHead(s[..|s| - 1]);
    }
  }

  /** `s.strip()` is empty exactly when every character of `s` is whitespace. */
  lemma StripBlank(s: string)
    ensures Strip(s) == [] <==> forall i | 0 <= i < |s| :: IsSpace(s[i])
  {
    StripLeftBlank(s);
    if StripLeft(s) != [] {
      StripRightKeepsHead(StripLeft(s));
    }
  }

  /** The largest length among `lines` (`max(..., default=0)`). */
  function MaxLength(lines: seq<string>): (m: nat)
    ensures forall i | 0 <= i < |lines| :: |lines[i]| <= m
    ensures lines == [] ==> m == 0
    ensures lines != [] ==> exists i | 0 <= i < |lines| :: |lines[i]| == m
    decreases |lines|
  {
    if lines == [] then 0
    else
      var rest := MaxLength(lines[1..]);
      assert forall i | 1 <= i < |lines| :: lines[i] == lines[1..][i - 1];
      if |lines[0]| >= rest then |lines[0]| else rest
  }
}
