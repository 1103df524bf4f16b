/**
 * The string primitives the TypeScript code relies on, stated the way the
 * JavaScript runtime defines them: `trim`, `toLowerCase`, `startsWith`,
 * `endsWith`, `includes`, `split`, `join`, the regular-expression word
 * boundary `\b`, and global, case-insensitive `replace` of a literal pattern.
 */
module Text {

  /** The characters that `String.prototype.trim` removes and that `\s` matches:
      ECMAScript WhiteSpace (including every space separator) and LineTerminator. */
  predicate IsSpace(c: char) {
    c == '\t' || c == '\n' || c == '\U{000B}' || c == '\U{000C}' || c == '\r' || c == ' '
    || c == '\U{00A0}' || c == '\U{1680}' || ('\U{2000}' <= c <= '\U{200A}')
    || c == '\U{2028}' || c == '\U{2029}' || c == '\U{202F}' || c == '\U{205F}'
    || c == '\U{3000}' || c == '\U{FEFF}'
  }

  /** The characters a regular-expression `.` does not match (no `s` flag). */
  predicate IsLineTerminator(c: char) {
    c == '\n' || c == '\r' || c == '\U{2028}' || c == '\U{2029}'
  }

  /** `\w`: the word characters that decide where `\b` holds. */
  predicate IsWordChar(c: char) {
    ('a' <= c <= 'z') || ('A' <= c <= 'Z') || ('0' <= c <= '9') || c == '_'
  }

  function AsciiLower(c: char): (d: char)
    ensures !('A' <= d <= 'Z')
    ensures IsWordChar(d) == IsWordChar(c)
    ensures 'A' <= c <= 'Z' ==> d as int == c as int + 32
    ensures !('A' <= c <= 'Z') ==> d == c
  {
    if 'A' <= c <= 'Z' then (c as int + 32) as char else c
  }

  /** `toLowerCase`, restricted to ASCII letters (see README, "Left out"). */
  function Lower(s: string): (r: string)
    ensures |r| == |s|
    ensures forall i :: 0 <= i < |s| ==> r[i] == AsciiLower(s[i])
  {
    seq(|s|, i requires 0 <= i < |s| => AsciiLower(s[i]))
  }

  lemma LowerAppend(a: string, b: string)
    ensures Lower(a + b) == Lower(a) + Lower(b)
  {
  }

  lemma LowerSlice(s: string, i: nat, j: nat)
    requires i <= j <= |s|
    ensures Lower(s[i..j]) == Lower(s)[i..j]
  {
  }

  /** A text without ASCII capitals is its own lower-case form. */
  lemma LowerOfLowercase(s: string)
    requires forall i :: 0 <= i < |s| ==> !('A' <= s[i] <= 'Z')
    ensures Lower(s) == s
  {
  }

  /** Lower-casing twice is lower-casing once. */
  lemma LowerIdempotent(s: string)
    ensures Lower(Lower(s)) == Lower(s)
  {
  }

  // ---------------------------------------------------------------- trim

  function TrimLeft(s: string): string
    decreases |s|
  {
    if s != [] && IsSpace(s[0]) then TrimLeft(s[1..]) else s
  }

  function TrimRight(s: string): string
    decreases |s|
  {
    if s != [] && IsSpace(s[|s| - 1]) then TrimRight(s[..|s| - 1]) else s
  }

  /** Neither end of `s` is whitespace. */
  predicate IsTrimmed(s: string) {
    s == [] || (!IsSpace(s[0]) && !IsSpace(s[|s| - 1]))
  }

  /** `String.prototype.trim`. */
  function Trim(s: string): string {
    TrimRight(TrimLeft(s))
  }

  /** `TrimLeft` removes a prefix of whitespace and keeps the rest from its first other character. */
  lemma {:induction false} TrimLeftSpec(s: string)
    ensures var r := TrimLeft(s);
      |r| <= |s| && r == s[|s| - |r|..] && (r == [] || !IsSpace(r[0]))
      && forall k :: 0 <= k < |s| - |r| ==> IsSpace(s[k])
    decreases |s|
  {
    if s != [] && IsSpace(s[0]) {
      TrimLeftSpec(s[1..]);
    }
  }

  /** `TrimRight` removes a suffix of whitespace and keeps the rest up to its last other character. */
  lemma {:induction false} TrimRightSpec(s: string)
    ensures var r := TrimRight(s);
      |r| <= |s| && r == s[..|r|] && (r == [] || !IsSpace(r[|r| - 1]))
      && forall k :: |r| <= k < |s| ==> IsSpace(s[k])
    decreases |s|
  {
    if s != [] && IsSpace(s[|s| - 1]) {
      TrimRightSpec(s[..|s| - 1]);
    }
  }

  /** Trimming leaves no whitespace at either end, and keeps the infix of the text
      that starts at `TrimStart(s)`, with only whitespace removed around it. */
  lemma TrimSpec(s: string)
    ensures IsTrimmed(Trim(s))
    ensures ContainsAt(s, Trim(s), TrimStart(s))
    ensures forall k :: 0 <= k < TrimStart(s) ==> IsSpace(s[k])
    ensures forall k :: TrimStart(s) + |Trim(s)| <= k < |s| ==> IsSpace(s[k])
  {
    var l := TrimLeft(s);
    TrimLeftSpec(s);
    TrimRightSpec(l);
    if Trim(s) != [] {
      assert Trim(s)[0] == l[0];
    }
  }

  /** Where the trimmed text starts in the original. */
  function TrimStart(s: string): nat {
    TrimLeftSpec(s);
    |s| - |TrimLeft(s)|
  }

  lemma {:induction false} TrimLeftOfTrimmed(s: string)
    requires s == [] || !IsSpace(s[0])
    ensures TrimLeft(s) == s
  {
  }

  lemma {:induction false} TrimRightOfTrimmed(s: string)
    requires s == [] || !IsSpace(s[|s| - 1])
    ensures TrimRight(s) == s
  {
  }

  /** Trimming a string that has no whitespace at either end changes nothing. */
  lemma {:induction false} TrimOfTrimmed(s: string)
    requires IsTrimmed(s)
    ensures Trim(s) == s
  {
    TrimLeftOfTrimmed(s);
    TrimRightOfTrimmed(s);
  }

  /** A text whose first and `n`-th characters are not whitespace keeps its
      first `n` characters when trimmed, and loses only trailing whitespace. */
  lemma TrimKeepsPrefix(s: string, n: nat)
    requires 0 < n <= |s| && !IsSpace(s[0]) && !IsSpace(s[n - 1])
    ensures var r := Trim(s);
      n <= |r| <= |s| && r == s[..|r|] && IsTrimmed(r)
      && forall k :: |r| <= k < |s| ==> IsSpace(s[k])
  {
    TrimLeftOfTrimmed(s);
    TrimRightSpec(s);
  }

  /** Trimming is idempotent. */
  lemma TrimIdempotent(s: string)
    ensures Trim(Trim(s)) == Trim(s)
  {
    TrimSpec(s);
    TrimOfTrimmed(Trim(s));
  }

  // ------------------------------------------------- prefixes and infixes

  predicate StartsWith(s: string, p: string) {
    |p| <= |s| && s[..|p|] == p
  }

  predicate EndsWith(s: string, p: string) {
    |p| <= |s| && s[|s| - |p|..] == p
  }

  /** The last character of a concatenation with a non-empty end is that end's last. */
  lemma LastOfAppend(a: string, b: string)
    requires b != []
    ensures (a + b)[|a + b| - 1] == b[|b| - 1]
  {
  }

  /** A prefix stays a prefix when text is appended. */
  lemma StartsWithAppend(s: string, t: string, p: string)
    requires StartsWith(s, p)
    ensures StartsWith(s + t, p)
  {
    assert (s + t)[..|p|] == s[..|p|];
  }

  /** `p` occurs in `s` at position `i`. */
  predicate ContainsAt(s: string, p: string, i: int) {
    0 <= i && i + |p| <= |s| && s[i..i + |p|] == p
  }

  /** `String.prototype.includes`. */
  predicate Contains(s: string, p: string) {
    exists i | 0 <= i <= |s| - |p| :: ContainsAt(s, p, i)
  }

  /** An occurrence in `b` is an occurrence in `a + b`, shifted by `|a|`. */
  lemma ContainsAtShift(a: string, b: string, p: string, k: int)
    requires ContainsAt(b, p, k)
    ensures ContainsAt(a + b, p, |a| + k)
  {
    assert (a + b)[|a| + k..|a| + k + |p|] == b[k..k + |p|];
  }

  /** An occurrence in `a` is an occurrence in `a + b` at the same place. */
  lemma ContainsAtExtend(a: string, b: string, p: string, k: int)
    requires ContainsAt(a, p, k)
    ensures ContainsAt(a + b, p, k)
  {
    assert (a + b)[k..k + |p|] == a[k..k + |p|];
  }

  /** Occurrence is transitive: an infix of an infix is an infix. */
  /** In a concatenation of five pieces, the first one sits at the start. */
  lemma ContainsFirstOfFive(s: string, a: string, b: string, c: string, d: string, e: string)
    requires s == a + b + c + d + e
    ensures ContainsAt(s, a, 0)
  {
    assert s[..|a|] == a;
  }

  /** In a concatenation of five pieces, what the second contains is shifted by the first. */
  lemma ContainsInSecondOfFive(s: string, a: string, b: string, c: string, d: string, e: string, p: string, k: int)
    requires s == a + b + c + d + e
    requires ContainsAt(b, p, k)
    ensures ContainsAt(s, p, |a| + k)
  {
    ContainsAtShift(a, b, p, k);
    ContainsAtExtend(a + b, c, p, |a| + k);
    ContainsAtExtend(a + b + c, d, p, |a| + k);
    ContainsAtExtend(a + b + c + d, e, p, |a| + k);
  }

  /** In a concatenation of five pieces, what the third contains is shifted by the first two. */
  lemma ContainsInThirdOfFive(s: string, a: string, b: string, c: string, d: string, e: string, p: string, k: int)
    requires s == a + b + c + d + e
    requires ContainsAt(c, p, k)
    ensures ContainsAt(s, p, |a| + |b| + k)
  {
    ContainsAtShift(a + b, c, p, k);
    ContainsAtExtend(a + b + c, d, p, |a| + |b| + k);
    ContainsAtExtend(a + b + c + d, e, p, |a| + |b| + k);
  }

  /** What starts a piece occurs where the piece occurs. */
  lemma ContainsAtStart(s: string, t: string, p: string, i: int)
    requires ContainsAt(s, t, i) && ContainsAt(t, p, 0)
    ensures ContainsAt(s, p, i)
  {
    ContainsAtTrans(s, t, p, i, 0);
  }

  lemma ContainsAtTrans(s: string, t: string, p: string, i: int, k: int)
    requires ContainsAt(s, t, i) && ContainsAt(t, p, k)
    ensures ContainsAt(s, p, i + k)
  {
    assert forall m | 0 <= m < |p| :: s[i + k + m] == t[k + m] == p[m];
    assert s[i + k..i + k + |p|] == p;
  }

  /** The lower-case pattern `p` occurs in `s` at `i`, ignoring ASCII case (regex flag `i`). */
  predicate ContainsAtCI(s: string, p: string, i: int) {
    0 <= i && i + |p| <= |s| && Lower(s[i..i + |p|]) == p
  }

  /** A pattern cannot occur in a text that lacks one of its characters. */
  lemma AbsentCharNotContained(s: string, p: string, k: nat)
    requires k < |p| && p[k] !in s
    ensures !Contains(s, p)
  {
    forall i | 0 <= i <= |s| - |p| ensures !ContainsAt(s, p, i) {
      assert s[i + k] in s;
    }
  }

  // ------------------------------------------------------------ split/join

  function IndexOf(s: string, c: char): (k: nat)
    requires c in s
    ensures k < |s| && s[k] == c && c !in s[..k]
  {
    if s[0] == c then 0 else
      var k := 1 + IndexOf(s[1..], c);
      assert s[..k] == [s[0]] + s[1..][..k - 1];
      k
  }

  /** `s.split(c)` for a one-character separator: the maximal runs between separators. */
  function Split(s: string, c: char): (parts: seq<string>)
    ensures |parts| >= 1
    ensures forall i :: 0 <= i < |parts| ==> c !in parts[i]
    decreases |s|
  {
    if c !in s then [s]
    else
      var k := IndexOf(s, c);
      [s[..k]] + Split(s[k + 1..], c)
  }

  /** `parts.join(sep)`. */
  function Join(parts: seq<string>, sep: string): string
    decreases |parts|
  {
    if |parts| == 0 then ""
    else if |parts| == 1 then parts[0]
    else parts[0] + sep + Join(parts[1..], sep)
  }

  lemma JoinCons(a: string, rest: seq<string>, sep: string)
    requires |rest| > 0
    ensures Join([a] + rest, sep) == a + sep + Join(rest, sep)
  {
    assert ([a] + rest)[1..] == rest;
  }

  /** Joining the pieces of a split with the separator gives back the original text. */
  lemma {:induction false} JoinSplit(s: string, c: char)
    ensures Join(Split(s, c), [c]) == s
    decreases |s|
  {
    if c in s {
      var k := IndexOf(s, c);
      var rest := Split(s[k + 1..], c);
      JoinSplit(s[k + 1..], c);
      JoinCons(s[..k], rest, [c]);
      assert s == s[..k] + [c] + s[k + 1..];
    }
  }

  /** The first piece of a split is the text up to the first separator, or all of it. */
  lemma SplitFirst(s: string, c: char)
    ensures var l := Split(s, c)[0];
      |l| <= |s| && l == s[..|l|] && (|l| == |s| || s[|l|] == c)
  {
  }

  /** A text without the separator splits into itself alone. */
  lemma SplitWithoutSeparator(s: string, c: char)
    requires c !in s
    ensures Split(s, c) == [s]
  {
  }

  /** The position of `parts[i]` in `Join(parts, sep)`. */
  function JoinOffset(parts: seq<string>, sep: string, i: nat): nat
    requires i < |parts|
    decreases i
  {
    if i == 0 then 0 else |parts[0]| + |sep| + JoinOffset(parts[1..], sep, i - 1)
  }

  /** Every part occurs in the joined text, at its offset. */
  lemma JoinContainsEvery(parts: seq<string>, sep: string)
    ensures forall i | 0 <= i < |parts| :: ContainsAt(Join(parts, sep), parts[i], JoinOffset(parts, sep, i))
  {
    forall i | 0 <= i < |parts|
      ensures ContainsAt(Join(parts, sep), parts[i], JoinOffset(parts, sep, i))
    {
      JoinContainsPart(parts, sep, i);
    }
  }

  /** Part `i` occurs in the join, at its offset. */
  lemma {:induction false} JoinContainsPart(parts: seq<string>, sep: string, i: nat)
    requires i < |parts|
    ensures ContainsAt(Join(parts, sep), parts[i], JoinOffset(parts, sep, i))
    decreases i
  {
    if |parts| == 1 {
      assert Join(parts, sep)[..|parts[0]|] == parts[0];
    } else if i == 0 {
      ContainsAtExtend(parts[0], sep + Join(parts[1..], sep), parts[0], 0);
      assert parts[0] + sep + Join(parts[1..], sep) == parts[0] + (sep + Join(parts[1..], sep));
      assert parts[0][0..|parts[0]|] == parts[0];
    } else {
      JoinContainsPart(parts[1..], sep, i - 1);
      ContainsAtShift(parts[0] + sep, Join(parts[1..], sep), parts[i], JoinOffset(parts[1..], sep, i - 1));
    }
  }

  /** Every part occurs in a lead followed by the join, shifted by the lead. */
  lemma LabelledJoinContainsEvery(lead: string, parts: seq<string>, sep: string)
    ensures forall i | 0 <= i < |parts| ::
      ContainsAt(lead + Join(parts, sep), parts[i], |lead| + JoinOffset(parts, sep, i))
  {
    forall i | 0 <= i < |parts|
      ensures ContainsAt(lead + Join(parts, sep), parts[i], |lead| + JoinOffset(parts, sep, i))
    {
      JoinContainsPart(parts, sep, i);
      ContainsAtShift(lead, Join(parts, sep), parts[i], JoinOffset(parts, sep, i));
    }
  }

  /** Splitting at the first separator: the part before it, then the split of the rest. */
  lemma SplitCons(a: string, rest: string, c: char)
    requires c !in a
    ensures Split(a + [c] + rest, c) == [a] + Split(rest, c)
  {
    var s := a + [c] + rest;
    assert s[|a|] == c;
    assert forall j :: 0 <= j < |a| ==> s[j] == a[j];
    var k := IndexOf(s, c);
    assert forall j :: 0 <= j < k ==> s[..k][j] == s[j];
    assert k == |a|;
    assert s[..k] == a;
    assert s[k + 1..] == rest;
  }

  /** Lines joined with the separator and followed by more text split back into
      those lines and the split of that text. */
  lemma {:induction false} SplitAfterJoin(parts: seq<string>, rest: string, c: char)
    requires |parts| > 0
    requires forall i :: 0 <= i < |parts| ==> c !in parts[i]
    ensures Split(Join(parts, [c]) + [c] + rest, c) == parts + Split(rest, c)
    decreases |parts|
  {
    if |parts| == 1 {
      SplitCons(parts[0], rest, c);
      assert [parts[0]] == parts;
    } else {
      var j := Join(parts[1..], [c]);
      var tail := j + [c] + rest;
      var whole := Join(parts, [c]) + [c] + rest;
      assert Join(parts, [c]) == parts[0] + [c] + j;
      assert whole == parts[0] + [c] + tail;
      SplitCons(parts[0], tail, c);
      SplitAfterJoin(parts[1..], rest, c);
      ConsTail(parts, Split(rest, c));
    }
  }

  /** Parts without the separator, joined with it, split back into those parts. */
  lemma SplitJoin(parts: seq<string>, c: char)
    requires |parts| > 0
    requires forall i :: 0 <= i < |parts| ==> c !in parts[i]
    ensures Split(Join(parts, [c]), c) == parts
  {
    var n := |parts|;
    if n == 1 {
      SplitWithoutSeparator(parts[0], c);
    } else {
      var init := parts[..n - 1];
      assert init + [parts[n - 1]] == parts;
      JoinSnoc(init, parts[n - 1], [c]);
      SplitAfterJoin(init, parts[n - 1], c);
      SplitWithoutSeparator(parts[n - 1], c);
    }
  }

  /** A character in neither the parts nor the separator is not in their join. */
  lemma {:induction false} JoinWithout(parts: seq<string>, sep: string, c: char)
    requires c !in sep
    requires forall i :: 0 <= i < |parts| ==> c !in parts[i]
    ensures c !in Join(parts, sep)
    decreases |parts|
  {
    if |parts| > 1 {
      JoinWithout(parts[1..], sep, c);
    }
  }

  /** Putting the head back in front of the tail. */
  lemma ConsTail<T>(p: seq<T>, x: seq<T>)
    requires |p| > 0
    ensures [p[0]] + (p[1..] + x) == p + x
  {
    assert p == [p[0]] + p[1..];
  }

  /** Joining `a + [x]` appends the separator and `x` to the join of `a`. */
  lemma {:induction false} JoinSnoc(a: seq<string>, x: string, sep: string)
    requires |a| > 0
    ensures Join(a + [x], sep) == Join(a, sep) + sep + x
    decreases |a|
  {
    if |a| == 1 {
      assert a + [x] == [a[0], x];
    } else {
      assert (a + [x])[1..] == a[1..] + [x];
      JoinSnoc(a[1..], x, sep);
    }
  }

  // ------------------------------------------------------- word boundaries

  predicate IsWordAt(s: string, k: int) {
    0 <= k < |s| && IsWordChar(s[k])
  }

  /** `\b` holds at position `i`: exactly one of the characters on either side is a word character. */
  predicate Boundary(s: string, i: int) {
    IsWordAt(s, i - 1) != IsWordAt(s, i)
  }

  /** `\bw\b` matches at `i`. */
  predicate WordAt(s: string, w: string, i: int) {
    ContainsAt(s, w, i) && Boundary(s, i) && Boundary(s, i + |w|)
  }

  /** `/\bw\b/.test(s)`. */
  predicate HasWord(s: string, w: string) {
    exists i | 0 <= i <= |s| - |w| :: WordAt(s, w, i)
  }

  /** `/\b(w1|w2|...)\b/.test(s)`: with backtracking the alternation matches when one alternative does. */
  predicate HasAnyWord(s: string, ws: seq<string>) {
    exists w | w in ws :: HasWord(s, w)
  }

  /** A word is never found in a text that lacks one of its characters. */
  lemma AbsentCharNoWord(s: string, w: string, k: nat)
    requires k < |w| && w[k] !in s
    ensures !HasWord(s, w)
  {
    forall i | 0 <= i <= |s| - |w| ensures !ContainsAt(s, w, i) {
      assert s[i + k] in s;
    }
  }

  /** None of the words is found when each lacks, at the position `hints` gives
      for it, a character of the text. */
  lemma NoneOfWords(s: string, ws: seq<string>, hints: seq<nat>)
    requires |hints| == |ws|
    requires forall j | 0 <= j < |ws| :: hints[j] < |ws[j]| && ws[j][hints[j]] !in s
    ensures !HasAnyWord(s, ws)
  {
    forall j | 0 <= j < |ws|
      ensures !HasWord(s, ws[j])
    {
      AbsentCharNoWord(s, ws[j], hints[j]);
    }
  }

  /** A keyword directly followed by a word character is not a whole word there
      (so `update` does not match inside `updated_at`). */
  lemma GluedWordIsNotWord(s: string, w: string, i: nat)
    requires |w| > 0 && IsWordChar(w[|w| - 1])
    requires ContainsAt(s, w, i) && i + |w| < |s| && IsWordChar(s[i + |w|])
    ensures !WordAt(s, w, i)
  {
    assert s[i + |w| - 1] == w[|w| - 1];
  }

  // -------------------------------------------- global, case-insensitive removal

  /** `s.replace(/<pat>\n?/gi, '')`: every occurrence of `pat` (ignoring ASCII case),
      scanned left to right without overlap, is removed together with one line feed
      directly after it. */
  function RemoveAllCI(s: string, pat: string): (r: string)
    requires |pat| > 0
    ensures |r| <= |s|
    decreases |s|
  {
    if s == [] then []
    else if ContainsAtCI(s, pat, 0) then
      var rest := s[|pat|..];
      if rest != [] && rest[0] == '\n' then RemoveAllCI(rest[1..], pat) else RemoveAllCI(rest, pat)
    else [s[0]] + RemoveAllCI(s[1..], pat)
  }

  /** Removal changes nothing in a text where the pattern occurs nowhere. */
  lemma {:induction false} RemoveAllCINoMatch(s: string, pat: string)
    requires |pat| > 0 && forall i | 0 <= i < |s| :: !ContainsAtCI(s, pat, i)
    ensures RemoveAllCI(s, pat) == s
    decreases |s|
  {
    if s != [] {
      forall i | 0 <= i < |s| - 1
        ensures !ContainsAtCI(s[1..], pat, i)
      {
        assert !ContainsAtCI(s, pat, i + 1);
        if i + |pat| <= |s| - 1 {
          assert s[1..][i..i + |pat|] == s[i + 1..i + 1 + |pat|];
        }
      }
      RemoveAllCINoMatch(s[1..], pat);
      assert s == [s[0]] + s[1..];
    }
  }

  /** Removal changes nothing in a text that lacks the pattern's first character. */
  lemma {:induction false} RemoveAllCIAbsent(s: string, pat: string)
    requires |pat| > 0 && pat[0] !in Lower(s)
    ensures RemoveAllCI(s, pat) == s
    decreases |s|
  {
    if s != [] {
      assert Lower(s)[0] == AsciiLower(s[0]);
      assert !ContainsAtCI(s, pat, 0) by {
        if |pat| <= |s| { assert Lower(s[..|pat|])[0] == Lower(s)[0]; }
      }
      assert Lower(s[1..]) == Lower(s)[1..];
      RemoveAllCIAbsent(s[1..], pat);
      assert s == [s[0]] + s[1..];
    }
  }

  /** Removal leaves a prefix alone when no occurrence of the pattern starts in it. */
  lemma {:induction false} RemoveAllCIKeepsPrefix(a: string, b: string, pat: string)
    requires |pat| > 0
    requires forall i | 0 <= i < |a| :: !ContainsAtCI(a + b, pat, i)
    ensures RemoveAllCI(a + b, pat) == a + RemoveAllCI(b, pat)
    decreases |a|
  {
    if a == [] {
      assert a + b == b;
    } else {
      var s := a + b;
      assert !ContainsAtCI(s, pat, 0);
      assert s[1..] == a[1..] + b;
      assert RemoveAllCI(s, pat) == [a[0]] + RemoveAllCI(a[1..] + b, pat);
      NoMatchInTail(a, b, pat);
      RemoveAllCIKeepsPrefix(a[1..], b, pat);
      assert a + RemoveAllCI(b, pat) == [a[0]] + (a[1..] + RemoveAllCI(b, pat));
    }
  }

  /** No match in the first part of a text means no match in it past its first character. */
  lemma NoMatchInTail(a: string, b: string, pat: string)
    requires |a| > 0
    requires forall i | 0 <= i < |a| :: !ContainsAtCI(a + b, pat, i)
    ensures forall i | 0 <= i < |a| - 1 :: !ContainsAtCI(a[1..] + b, pat, i)
  {
    var s := a + b;
    assert s[1..] == a[1..] + b;
    forall i | 0 <= i < |a| - 1
      ensures !ContainsAtCI(a[1..] + b, pat, i)
    {
      assert !ContainsAtCI(s, pat, i + 1);
      if i + |pat| <= |s| - 1 {
        assert (a[1..] + b)[i..i + |pat|] == s[i + 1..i + 1 + |pat|];
      }
    }
  }


  /** A pattern opening with three backticks matches, ASCII case ignored, only
      where three backticks stand: a backtick has no other case. */
  lemma BacktickRunCI(x: string, pat: string, i: int)
    requires |pat| >= 3 && pat[..3] == "```"
    ensures ContainsAtCI(x, pat, i) ==> ContainsAt(x, "```", i)
  {
    if ContainsAtCI(x, pat, i) {
      var l := Lower(x[i..i + |pat|]);
      assert l[0] == AsciiLower(x[i]) && l[1] == AsciiLower(x[i + 1]) && l[2] == AsciiLower(x[i + 2]);
      assert l[..3] == "```";
      assert x[i..i + 3] == "```";
    }
  }

  /** Before a line feed that follows a text without three backticks in a row, no
      pattern opening with three backticks starts. */
  lemma NoFenceBeforeLineFeed(q: string, tail: string, pat: string)
    requires forall i | 0 <= i < |q| :: !ContainsAt(q, "```", i)
    requires |pat| >= 3 && pat[..3] == "```"
    requires |tail| > 0 && tail[0] == '\n'
    ensures forall i | 0 <= i <= |q| :: !ContainsAtCI(q + tail, pat, i)
  {
    var s := q + tail;
    forall i | 0 <= i <= |q|
      ensures !ContainsAtCI(s, pat, i)
    {
      BacktickRunCI(s, pat, i);
      if i + 3 <= |q| {
        assert s[i..i + 3] == q[i..i + 3];
        assert !ContainsAt(q, "```", i);
      } else if i + 3 <= |s| {
        assert s[i..i + 3][|q| - i] == s[|q|] == '\n';
      }
    }
  }

  /** A trimmed text followed by a line feed trims back to the text. */
  lemma TrimLineFeed(q: string)
    requires IsTrimmed(q)
    ensures Trim(q + "\n") == q
  {
    if q == [] {
      assert q + "\n" == "\n";
      assert "\n"[1..] == [];
    } else {
      TrimLeftOfTrimmed(q + "\n");
      assert (q + "\n")[..|q|] == q;
      TrimRightOfTrimmed(q);
    }
  }

  /** A fenced block, "```tag" and a line feed before a trimmed text without three
      backticks in a row, then a line feed and "```", loses both fences when every
      "```tag" and then every "```" is removed and the rest is trimmed. */
  lemma RemoveFencePair(q: string, tag: string)
    requires IsTrimmed(q) && forall i | 0 <= i < |q| :: !ContainsAt(q, "```", i)
    requires |tag| > 0 && forall k | 0 <= k < |tag| :: !('A' <= tag[k] <= 'Z')
    ensures Trim(RemoveAllCI(RemoveAllCI("```" + tag + "\n" + q + "\n```", "```" + tag), "```")) == q
  {
    FencedShape(q, tag);
    RemoveOpeningFence(q, tag);
    RemoveClosingFence(q);
  }

  /** A fenced block opens and closes with a backtick, so trimming leaves it alone. */
  lemma TrimFenced(q: string, tag: string)
    ensures var s := "```" + tag + "\n" + q + "\n```"; Trim(s) == s
  {
    var s := "```" + tag + "\n" + q + "\n```";
    assert s[0] == '`' && s[|s| - 1] == '`';
    TrimOfTrimmed(s);
  }

  /** The fenced block, grouped as the opening fence, a line feed and the rest. */
  lemma FencedShape(q: string, tag: string)
    ensures "```" + tag + "\n" + q + "\n```" == ("```" + tag) + ("\n" + (q + "\n" + "```"))
  {
  }

  /** Removing every "```tag" strips the opening fence and its line feed, and nothing else. */
  lemma RemoveOpeningFence(q: string, tag: string)
    requires forall i | 0 <= i < |q| :: !ContainsAt(q, "```", i)
    requires |tag| > 0 && forall k | 0 <= k < |tag| :: !('A' <= tag[k] <= 'Z')
    ensures RemoveAllCI(("```" + tag) + ("\n" + (q + "\n" + "```")), "```" + tag) == q + "\n" + "```"
  {
    var open := "```" + tag;
    var body := q + "\n" + "```";
    var s := open + ("\n" + body);
    LowerOfLowercase(open);
    assert s[..|open|] == open;
    assert ContainsAtCI(s, open, 0);
    assert s[|open|..] == "\n" + body;
    assert ("\n" + body)[1..] == body;
    assert open[..3] == "```";
    NoFenceBeforeLineFeed(q, "\n" + "```", open);
    assert q + ("\n" + "```") == body;
    RemoveAllCINoMatch(body, open);
  }

  /** Removing every "```" then strips the closing fence, and trimming the line feed. */
  lemma RemoveClosingFence(q: string)
    requires IsTrimmed(q) && forall i | 0 <= i < |q| :: !ContainsAt(q, "```", i)
    ensures Trim(RemoveAllCI(q + "\n" + "```", "```")) == q
  {
    ClosingFenceAfterLineFeed(q);
    RemoveAllCIKeepsPrefix(q + "\n", "```", "```");
    FenceAloneRemoved();
    assert RemoveAllCI(q + "\n" + "```", "```") == q + "\n" + [];
    assert q + "\n" + [] == q + "\n";
    TrimLineFeed(q);
  }

  /** A lone "```" is removed entirely. */
  lemma FenceAloneRemoved()
    ensures RemoveAllCI("```", "```") == []
  {
    LowerOfLowercase("```");
    assert ContainsAtCI("```", "```", 0);
    assert RemoveAllCI("```", "```") == RemoveAllCI([], "```");
  }

  /** No "```" starts before the closing fence of `q`, a line feed and "```". */
  lemma ClosingFenceAfterLineFeed(q: string)
    requires forall i | 0 <= i < |q| :: !ContainsAt(q, "```", i)
    ensures forall i | 0 <= i < |q| + 1 :: !ContainsAtCI(q + "\n" + "```", "```", i)
  {
    NoFenceBeforeLineFeed(q, "\n" + "```", "```");
    assert q + ("\n" + "```") == q + "\n" + "```";
  }

  /** The index of the first non-whitespace character at or after `i`. */
  function SkipSpaces(s: string, i: nat): (j: nat)
    requires i <= |s|
    ensures i <= j <= |s|
    ensures forall k :: i <= k < j ==> IsSpace(s[k])
    ensures j == |s| || !IsSpace(s[j])
    decreases |s| - i
  {
    if i < |s| && IsSpace(s[i]) then SkipSpaces(s, i + 1) else i
  }
}
