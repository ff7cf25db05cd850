/** The JavaScript string primitives the application uses, over `seq<char>`:
    ASCII case mapping, the ECMAScript white-space classes, `trim`, `includes`,
    `indexOf`, single `replace` with a string pattern, global case-insensitive
    replacement of a literal, `split` on one character and `join`.

    Lengths and indices count characters; JavaScript counts UTF-16 code units,
    which is the same for text in the Basic Multilingual Plane. */
module Strings {
  import opened Wrappers

  // ---------------------------------------------------------------------------
  // Characters
  // ---------------------------------------------------------------------------

  predicate IsAsciiUpper(c: char) { 'A' <= c <= 'Z' }

  predicate IsAsciiLower(c: char) { 'a' <= c <= 'z' }

  /** `toLowerCase` of one character on the ASCII range; other characters are kept. */
  function LowerChar(c: char): char {
    if IsAsciiUpper(c) then (c as int + 32) as char else c
  }

  /** `toUpperCase` of one character on the ASCII range; other characters are kept. */
  function UpperChar(c: char): char {
    if IsAsciiLower(c) then (c as int - 32) as char else c
  }

  lemma UpperCharIdempotent(c: char)
    ensures UpperChar(UpperChar(c)) == UpperChar(c)
  {
  }

  /** ECMAScript LineTerminator: the characters `.` in a regular expression does not match. */
  predicate IsLineTerminator(c: char) {
    c == '\n' || c == '\r' || c == '\U{2028}' || c == '\U{2029}'
  }

  /** ECMAScript WhiteSpace or LineTerminator: what `\s` matches and what `trim` removes. */
  predicate IsJsSpace(c: char) {
    || c == '\t' || c == '\U{000B}' || c == '\U{000C}' || c == ' '
    || c == '\U{00A0}' || c == '\U{FEFF}' || c == '\U{1680}'
    || ('\U{2000}' <= c <= '\U{200A}')
    || c == '\U{202F}' || c == '\U{205F}' || c == '\U{3000}'
    || IsLineTerminator(c)
  }

  // ---------------------------------------------------------------------------
  // trim
  // ---------------------------------------------------------------------------

  /** `s.trimStart()`: drops leading white space and line terminators. */
  function TrimStart(s: string): (r: string)
    ensures |r| <= |s| && r == s[|s| - |r|..]
    ensures |r| > 0 ==> !IsJsSpace(r[0])
    ensures forall k :: 0 <= k < |s| - |r| ==> IsJsSpace(s[k])
    decreases |s|
  {
    if |s| > 0 && IsJsSpace(s[0]) then TrimStart(s[1..]) else s
  }

  /** `s.trimEnd()`: drops trailing white space and line terminators. */
  function TrimEnd(s: string): (r: string)
    ensures |r| <= |s| && r == s[..|r|]
    ensures |r| > 0 ==> !IsJsSpace(r[|r| - 1])
    ensures forall k :: |r| <= k < |s| ==> IsJsSpace(s[k])
    decreases |s|
  {
    if |s| > 0 && IsJsSpace(s[|s| - 1]) then TrimEnd(s[..|s| - 1]) else s
  }

  /** `s.trim()`. */
  function Trim(s: string): string {
    TrimEnd(TrimStart(s))
  }

  /** `trim` keeps exactly the slice between the first and the last non-space character;
      it gives the empty string exactly when every character is a space. */
  lemma TrimSlice(s: string)
    ensures exists i: nat, j: nat :: i <= j <= |s| && Trim(s) == s[i..j] && SpacesOutside(s, i, j)
    ensures Trim(s) == "" <==> forall k :: 0 <= k < |s| ==> IsJsSpace(s[k])
  {
    var t := TrimStart(s);
    var i := |s| - |t|;
    var r := TrimEnd(t);
    var j := i + |r|;
    assert Trim(s) == s[i..j];
    forall k | j <= k < |s| ensures IsJsSpace(s[k]) {
      assert s[k] == t[k - i];
    }
    assert SpacesOutside(s, i, j);
    TrimEmpty(s);
  }

  predicate SpacesOutside(s: string, i: nat, j: nat)
    requires i <= j <= |s|
  {
    (forall k :: 0 <= k < i ==> IsJsSpace(s[k])) && (forall k :: j <= k < |s| ==> IsJsSpace(s[k]))
  }

  /** `trim` gives the empty string exactly when every character is a space. */
  lemma TrimEmpty(s: string)
    ensures Trim(s) == "" <==> forall k :: 0 <= k < |s| ==> IsJsSpace(s[k])
  {
    var t := TrimStart(s);
    assert TrimEnd(t) == "" ==> |t| == 0;
  }

  /** Text that already starts and ends with a non-space character is its own trim. */
  lemma TrimNoop(s: string)
    requires |s| > 0 && !IsJsSpace(s[0]) && !IsJsSpace(s[|s| - 1])
    ensures Trim(s) == s
  {
  }

  lemma TrimIdempotent(s: string)
    ensures Trim(Trim(s)) == Trim(s)
  {
    var r := Trim(s);
    if r != "" {
      assert TrimStart(s) != "";
      TrimNoop(r);
    }
  }

  // ---------------------------------------------------------------------------
  // Case mapping of whole strings
  // ---------------------------------------------------------------------------

  /** `s.toLowerCase()` for ASCII letters. */
  function ToLower(s: string): (r: string)
    ensures |r| == |s|
    ensures forall i :: 0 <= i < |s| ==> r[i] == LowerChar(s[i])
  {
    if s == [] then [] else [LowerChar(s[0])] + ToLower(s[1..])
  }

  /** A lower-case letter absent from a text in both cases is absent from its
      lower-cased form. */
  lemma ToLowerMissing(s: string, c: char)
    requires IsAsciiLower(c) && c !in s && UpperChar(c) !in s
    ensures c !in ToLower(s)
  {
    forall k | 0 <= k < |s|
      ensures ToLower(s)[k] != c
    {
      assert s[k] != c && s[k] != UpperChar(c);
    }
  }

  lemma ToLowerAppend(a: string, b: string)
    ensures ToLower(a + b) == ToLower(a) + ToLower(b)
  {
    assert ToLower(a + b) == ToLower(a) + ToLower(b);
  }

  /** `s.charAt(0).toUpperCase() + s.slice(1)`. */
  function Capitalize(s: string): (r: string)
    ensures |r| == |s|
    ensures |s| > 0 ==> r[0] == UpperChar(s[0]) && r[1..] == s[1..]
  {
    if s == [] then [] else [UpperChar(s[0])] + s[1..]
  }

  // ---------------------------------------------------------------------------
  // Prefixes, containment and search
  // ---------------------------------------------------------------------------

  /** `s.substring(0, n)`: the first min(n, |s|) characters. */
  function Prefix(s: string, n: nat): (r: string)
    ensures |r| == if n <= |s| then n else |s|
    ensures r <= s
  {
    if n <= |s| then s[..n] else s
  }

  /** `s.startsWith(p)`. */
  predicate StartsWith(s: string, p: string) {
    |p| <= |s| && s[..|p|] == p
  }

  /** `s.endsWith(suffix)`. */
  predicate EndsWith(s: string, suffix: string) {
    |suffix| <= |s| && s[|s| - |suffix|..] == suffix
  }

  predicate OccursAt(s: string, i: nat, pat: string) {
    i + |pat| <= |s| && s[i..i + |pat|] == pat
  }

  /** `s.includes(sub)`; the empty string is contained in every string. */
  predicate Contains(s: string, sub: string)
    decreases |s|
  {
    |sub| <= |s| && (s[..|sub|] == sub || Contains(s[1..], sub))
  }

  lemma {:induction false} ContainsIff(s: string, sub: string)
    ensures Contains(s, sub) <==> exists i: nat :: OccursAt(s, i, sub)
    decreases |s|
  {
    if |sub| <= |s| {
      if s[..|sub|] == sub {
        assert OccursAt(s, 0, sub);
      } else {
        ContainsIff(s[1..], sub);
        if Contains(s[1..], sub) {
          var i: nat :| OccursAt(s[1..], i, sub);
          assert s[i + 1..i + 1 + |sub|] == s[1..][i..i + |sub|];
          assert OccursAt(s, i + 1, sub);
        }
        if i: nat :| OccursAt(s, i, sub) {
          assert i != 0;
          assert s[1..][i - 1..i - 1 + |sub|] == s[i..i + |sub|];
          assert OccursAt(s[1..], i - 1, sub);
        }
      }
    } else {
      if i: nat :| OccursAt(s, i, sub) {
        assert false;
      }
    }
  }

  lemma ContainsWitness(s: string, i: nat, sub: string)
    requires OccursAt(s, i, sub)
    ensures Contains(s, sub)
  {
    ContainsIff(s, sub);
  }

  /** An occurrence survives appending text on either side. */
  lemma OccursAppend(a: string, b: string, i: nat, pat: string)
    ensures OccursAt(a, i, pat) ==> OccursAt(a + b, i, pat)
    ensures OccursAt(b, i, pat) ==> OccursAt(a + b, |a| + i, pat)
  {
    if OccursAt(a, i, pat) {
      assert (a + b)[i..i + |pat|] == a[i..i + |pat|];
    }
    if OccursAt(b, i, pat) {
      assert (a + b)[|a| + i..|a| + i + |pat|] == b[i..i + |pat|];
    }
  }

  /** A pattern with a character the text lacks does not occur in the text. */
  lemma MissingCharNotContained(s: string, pat: string, j: nat)
    requires j < |pat| && pat[j] !in s
    ensures !Contains(s, pat)
  {
    forall i: nat | i + |pat| <= |s|
      ensures !OccursAt(s, i, pat)
    {
      assert s[i..i + |pat|][j] == s[i + j];
    }
    ContainsIff(s, pat);
  }

  /** A prefix survives appending; a suffix survives prepending. */
  lemma AffixAppend(a: string, b: string, p: string)
    ensures StartsWith(a, p) ==> StartsWith(a + b, p)
    ensures EndsWith(b, p) ==> EndsWith(a + b, p)
  {
    if StartsWith(a, p) {
      assert (a + b)[..|p|] == a[..|p|];
    }
    if EndsWith(b, p) {
      assert (a + b)[|a + b| - |p|..] == b[|b| - |p|..];
    }
  }

  /** A string containing `w` contains everything `w` contains. */
  lemma ContainsTransitive(s: string, w: string, v: string)
    requires Contains(s, w) && Contains(w, v)
    ensures Contains(s, v)
  {
    ContainsIff(s, w);
    ContainsIff(w, v);
    var i: nat :| OccursAt(s, i, w);
    var j: nat :| OccursAt(w, j, v);
    assert s[i + j..i + j + |v|] == v by {
      forall k | 0 <= k < |v|
        ensures s[i + j + k] == v[k]
      {
        assert s[i + j + k] == s[i..i + |w|][j + k];
        assert w[j + k] == w[j..j + |v|][k];
      }
    }
    ContainsWitness(s, i + j, v);
  }

  lemma ContainsSelf(s: string)
    ensures Contains(s, s)
  {
    assert s[0..0 + |s|] == s;
    ContainsWitness(s, 0, s);
  }

  lemma ContainsEmpty(s: string)
    ensures Contains(s, "")
  {
    assert OccursAt(s, 0, "");
    ContainsWitness(s, 0, "");
  }

  /** The leftmost occurrence of `pat` in `s` at or after `from`. */
  function IndexFrom(s: string, pat: string, from: nat): (r: Option<nat>)
    ensures r.Some? ==> from <= r.value && OccursAt(s, r.value, pat)
    ensures r.Some? ==> forall j: nat :: from <= j < r.value ==> !OccursAt(s, j, pat)
    ensures r.None? ==> forall j: nat :: from <= j ==> !OccursAt(s, j, pat)
    decreases |s| - from
  {
    if from + |pat| > |s| then None
    else if s[from..from + |pat|] == pat then Some(from)
    else IndexFrom(s, pat, from + 1)
  }

  /** `s.indexOf(pat)`, with None for -1. */
  function IndexOf(s: string, pat: string): (r: Option<nat>)
    ensures r.Some? ==> OccursAt(s, r.value, pat)
    ensures r.Some? ==> forall j: nat :: j < r.value ==> !OccursAt(s, j, pat)
    ensures r.None? <==> !Contains(s, pat)
  {
    ContainsIff(s, pat);
    IndexFrom(s, pat, 0)
  }

  /** `s.replace(pat, rep)` with a string pattern: only the first occurrence is replaced.
      The replacement is inserted literally (no `$` patterns). */
  function ReplaceFirst(s: string, pat: string, rep: string): (r: string)
    ensures !Contains(s, pat) ==> r == s
    ensures Contains(s, pat) ==> exists i: nat ::
      && OccursAt(s, i, pat)
      && (forall j: nat :: j < i ==> !OccursAt(s, j, pat))
      && r == s[..i] + rep + s[i + |pat|..]
  {
    match IndexOf(s, pat)
    case None => s
    case Some(i) => s[..i] + rep + s[i + |pat|..]
  }

  /** Where a concatenation occurs, so do its pieces, one after the other. */
  lemma OccursPieces(s: string, i: nat, x: string, sep: string, y: string)
    requires OccursAt(s, i, x + sep + y)
    ensures OccursAt(s, i, x)
    ensures OccursAt(s, i + |x| + |sep|, y)
  {
    var m := x + sep + y;
    assert s[i..i + |x|] == m[..|x|];
    assert s[i + |x| + |sep|..i + |m|] == m[|x| + |sep|..];
  }

  /** Replacing a one-character pattern replaces its first occurrence: the one after
      a prefix that does not hold it. */
  lemma ReplaceFirstChar(x: string, y: string, c: char, rep: string)
    requires c !in x
    ensures ReplaceFirst(x + [c] + y, [c], rep) == x + rep + y
  {
    var s := x + [c] + y;
    forall j: nat | j < |x|
      ensures !OccursAt(s, j, [c])
    {
      assert s[j..j + 1] == [x[j]];
    }
    assert s[|x|..|x| + 1] == [c];
    assert OccursAt(s, |x|, [c]);
    ContainsWitness(s, |x|, [c]);
    assert s[..|x|] == x;
    assert s[|x| + 1..] == y;
  }

  // ---------------------------------------------------------------------------
  // Case-insensitive literals (regular expressions with the `i` flag)
  // ---------------------------------------------------------------------------

  /** The lower-case literal `pat` occurs at `i`, ignoring ASCII case. For the literals
      used here, ECMAScript's case canonicalisation outside Unicode mode relates only
      ASCII letters, so this is exactly what `/pat/i` matches. */
  predicate MatchesAt(s: string, i: nat, pat: string) {
    i + |pat| <= |s| && ToLower(s[i..i + |pat|]) == pat
  }

  /** No match starts at a character whose lower-case form is not the pattern's first. */
  lemma NoMatchAtHead(s: string, i: nat, pat: string)
    requires |pat| > 0 && i < |s| && LowerChar(s[i]) != pat[0]
    ensures !MatchesAt(s, i, pat)
  {
    if i + |pat| <= |s| {
      assert ToLower(s[i..i + |pat|])[0] == LowerChar(s[i]);
    }
  }

  /** No match starts inside a prefix none of whose characters lowers to the
      pattern's first. */
  lemma NoMatchInPrefix(a: string, b: string, pat: string)
    requires |pat| > 0
    requires forall k :: 0 <= k < |a| ==> LowerChar(a[k]) != pat[0]
    ensures forall i :: 0 <= i < |a| ==> !MatchesAt(a + b, i, pat)
  {
    forall i | 0 <= i < |a|
      ensures !MatchesAt(a + b, i, pat)
    {
      assert (a + b)[i] == a[i];
      NoMatchAtHead(a + b, i, pat);
    }
  }

  /** `s.replace(/pat/gi, rep)` for a literal pattern: scan left to right; at each
      position either replace a match and continue after it, or keep one character. */
  function ReplaceAllCI(s: string, pat: string, rep: string): (r: string)
    requires |pat| > 0
    decreases |s|
  {
    if |s| < |pat| then s
    else if MatchesAt(s, 0, pat) then rep + ReplaceAllCI(s[|pat|..], pat, rep)
    else [s[0]] + ReplaceAllCI(s[1..], pat, rep)
  }

  /** Text in which the pattern cannot start is left as it is. */
  lemma {:induction false} ReplaceAllCIUnchanged(s: string, pat: string, rep: string)
    requires |pat| > 0
    requires forall i: nat :: !MatchesAt(s, i, pat)
    ensures ReplaceAllCI(s, pat, rep) == s
    decreases |s|
  {
    if |s| >= |pat| {
      assert !MatchesAt(s, 0, pat);
      forall i: nat ensures !MatchesAt(s[1..], i, pat) {
        if i + |pat| <= |s[1..]| {
          assert s[1..][i..i + |pat|] == s[i + 1..i + 1 + |pat|];
          assert !MatchesAt(s, i + 1, pat);
        }
      }
      ReplaceAllCIUnchanged(s[1..], pat, rep);
    }
  }

  /** A prefix free of the pattern's first character passes through unchanged, and the
      scan resumes at the start of the rest. */
  lemma {:induction false} ReplaceAllCIPrefix(a: string, b: string, pat: string, rep: string)
    requires |pat| > 0
    requires forall k :: 0 <= k < |a| ==> LowerChar(a[k]) != pat[0]
    ensures ReplaceAllCI(a + b, pat, rep) == a + ReplaceAllCI(b, pat, rep)
    decreases |a|
  {
    if a != [] {
      var s := a + b;
      if |s| < |pat| {
        assert ReplaceAllCI(b, pat, rep) == b;
      } else {
        assert s[0] == a[0];
        assert ToLower(s[..|pat|])[0] == LowerChar(a[0]);
        assert !MatchesAt(s, 0, pat);
        assert s[1..] == a[1..] + b;
        assert ReplaceAllCI(s, pat, rep) == [s[0]] + ReplaceAllCI(s[1..], pat, rep);
        ReplaceAllCIPrefix(a[1..], b, pat, rep);
        assert [a[0]] + a[1..] == a;
      }
    } else {
      assert a + b == b;
    }
  }

  /** A match at the front is replaced and the scan resumes after it. */
  lemma ReplaceAllCIMatch(m: string, b: string, pat: string, rep: string)
    requires |pat| > 0 && |m| == |pat| && ToLower(m) == pat
    ensures ReplaceAllCI(m + b, pat, rep) == rep + ReplaceAllCI(b, pat, rep)
  {
    var s := m + b;
    assert s[..|pat|] == m;
    assert s[|pat|..] == b;
  }

  /** A prefix in which no occurrence of the pattern starts passes through unchanged,
      and the scan resumes at the start of the rest. */
  lemma {:induction false} ReplaceAllCISkip(a: string, b: string, pat: string, rep: string)
    requires |pat| > 0
    requires forall i :: 0 <= i < |a| ==> !MatchesAt(a + b, i, pat)
    ensures ReplaceAllCI(a + b, pat, rep) == a + ReplaceAllCI(b, pat, rep)
    decreases |a|
  {
    var s := a + b;
    if a == [] {
      assert s == b;
    } else if |s| < |pat| {
      assert ReplaceAllCI(b, pat, rep) == b;
    } else {
      assert !MatchesAt(s, 0, pat);
      assert s[1..] == a[1..] + b;
      forall i | 0 <= i < |a[1..]|
        ensures !MatchesAt(a[1..] + b, i, pat)
      {
        assert !MatchesAt(s, i + 1, pat);
        if i + |pat| <= |s[1..]| {
          assert s[1..][i..i + |pat|] == s[i + 1..i + 1 + |pat|];
        }
      }
      ReplaceAllCISkip(a[1..], b, pat, rep);
      assert [a[0]] + a[1..] == a;
    }
  }

  /** The first occurrence after an occurrence-free prefix is replaced, and the scan
      goes on after it. */
  lemma ReplaceAllCIFirst(a: string, m: string, b: string, pat: string, rep: string)
    requires |pat| > 0 && |m| == |pat| && ToLower(m) == pat
    requires forall i :: 0 <= i < |a| ==> !MatchesAt(a + m + b, i, pat)
    ensures ReplaceAllCI(a + m + b, pat, rep) == a + rep + ReplaceAllCI(b, pat, rep)
  {
    assert a + m + b == a + (m + b);
    ReplaceAllCISkip(a, m + b, pat, rep);
    ReplaceAllCIMatch(m, b, pat, rep);
  }

  // ---------------------------------------------------------------------------
  // split / join
  // ---------------------------------------------------------------------------

  /** `s.split(sep)` for a one-character separator: the pieces between separators,
      including empty ones; the empty string gives one empty piece. */
  function Split(s: string, sep: char): (parts: seq<string>)
    ensures |parts| > 0
    decreases |s|
  {
    if s == [] then [""]
    else
      var rest := Split(s[1..], sep);
      if s[0] == sep then [""] + rest
      else [[s[0]] + rest[0]] + rest[1..]
  }

  /** `parts.join(sep)`. */
  function Join(parts: seq<string>, sep: string): string
    decreases |parts|
  {
    if |parts| == 0 then ""
    else if |parts| == 1 then parts[0]
    else parts[0] + sep + Join(parts[1..], sep)
  }

  /** No piece of a split contains the separator. */
  lemma {:induction false} SplitPiecesFree(s: string, sep: char)
    ensures forall k :: 0 <= k < |Split(s, sep)| ==> sep !in Split(s, sep)[k]
    decreases |s|
  {
    if s != [] {
      SplitPiecesFree(s[1..], sep);
    }
  }

  /** Joining the pieces back with the separator restores the string. */
  lemma {:induction false} JoinSplit(s: string, sep: char)
    ensures Join(Split(s, sep), [sep]) == s
    decreases |s|
  {
    if s != [] {
      var rest := Split(s[1..], sep);
      JoinSplit(s[1..], sep);
      if s[0] == sep {
        assert Split(s, sep) == [""] + rest;
        assert Join([""] + rest, [sep]) == "" + [sep] + Join(rest, [sep]);
        assert [s[0]] + s[1..] == s;
      } else {
        var parts := [[s[0]] + rest[0]] + rest[1..];
        assert Split(s, sep) == parts;
        if |rest| == 1 {
          assert Join(rest, [sep]) == rest[0];
          assert Join(parts, [sep]) == [s[0]] + rest[0];
        } else {
          assert Join(rest, [sep]) == rest[0] + [sep] + Join(rest[1..], [sep]);
          assert parts[1..] == rest[1..];
          assert Join(parts, [sep]) == [s[0]] + rest[0] + [sep] + Join(rest[1..], [sep]);
        }
        assert [s[0]] + s[1..] == s;
      }
    }
  }

  /** Splitting a separator-free word followed by more text puts the word in front of
      the first piece of the rest. */
  lemma {:induction false} SplitPrefixFree(w: string, s: string, sep: char)
    requires sep !in w
    ensures Split(w + s, sep) == [w + Split(s, sep)[0]] + Split(s, sep)[1..]
    decreases |w|
  {
    if w == [] {
      assert w + s == s;
      assert w + Split(s, sep)[0] == Split(s, sep)[0];
      assert [Split(s, sep)[0]] + Split(s, sep)[1..] == Split(s, sep);
    } else {
      assert (w + s)[1..] == w[1..] + s;
      SplitPrefixFree(w[1..], s, sep);
      assert [w[0]] + (w[1..] + Split(s, sep)[0]) == w + Split(s, sep)[0];
    }
  }

  /** Splitting separator-free pieces joined by the separator gives the pieces back. */
  lemma {:induction false} SplitJoin(parts: seq<string>, sep: char)
    requires |parts| > 0
    requires forall k :: 0 <= k < |parts| ==> sep !in parts[k]
    ensures Split(Join(parts, [sep]), sep) == parts
    decreases |parts|
  {
    if |parts| == 1 {
      SplitPrefixFree(parts[0], "", sep);
      assert parts[0] + "" == parts[0];
    } else {
      var rest := Join(parts[1..], [sep]);
      SplitJoin(parts[1..], sep);
      assert Join(parts, [sep]) == parts[0] + ([sep] + rest);
      SplitPrefixFree(parts[0], [sep] + rest, sep);
      assert ([sep] + rest)[1..] == rest;
      assert Split([sep] + rest, sep) == [""] + parts[1..];
      assert parts[0] + "" == parts[0];
      assert [parts[0]] + parts[1..] == parts;
    }
  }

  // ---------------------------------------------------------------------------
  // Numbers
  // ---------------------------------------------------------------------------

  function DigitChar(d: nat): char
    requires d < 10
  {
    ('0' as int + d) as char
  }

  /** `n.toString()` for a non-negative integer: its decimal digits, no leading zeros. */
  function NatToString(n: nat): (r: string)
    ensures |r| > 0
    ensures forall k :: 0 <= k < |r| ==> '0' <= r[k] <= '9'
    ensures n > 0 ==> r[0] != '0'
    decreases n
  {
    if n < 10 then [DigitChar(n)]
    else NatToString(n / 10) + [DigitChar(n % 10)]
  }

  function DigitValue(c: char): nat
    requires '0' <= c <= '9'
  {
    c as int - '0' as int
  }

  /** Reads back the decimal digits of a string of digits. */
  function ParseDigits(s: string): nat
    requires forall k :: 0 <= k < |s| ==> '0' <= s[k] <= '9'
    decreases |s|
  {
    if s == [] then 0
    else 10 * ParseDigits(s[..|s| - 1]) + DigitValue(s[|s| - 1])
  }

  /** The decimal rendering of a number reads back as that number. */
  lemma {:induction false} NatToStringRoundTrip(n: nat)
    ensures ParseDigits(NatToString(n)) == n
    decreases n
  {
    if n >= 10 {
      NatToStringRoundTrip(n / 10);
      var r := NatToString(n);
      assert r[..|r| - 1] == NatToString(n / 10);
    }
  }
}
