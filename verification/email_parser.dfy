/** The answer side of the generate-email function: reading the subject line out of a
    model's text with `/Subject:\s*(.+?)(?:\n|$)/i`, cleaning the placeholders the prompt
    asked for, falling back to the template body, and choosing between the models'
    answers and the template email. */
module EmailParser {
  import opened Wrappers
  import opened Strings
  import opened EmailComposer

  // ---------------------------------------------------------------------------
  // The subject pattern
  // ---------------------------------------------------------------------------

  /** The number of consecutive `\s` characters from position `i`. */
  function SpaceRun(s: string, i: nat): (n: nat)
    requires i <= |s|
    ensures i + n <= |s|
    ensures forall k :: i <= k < i + n ==> IsJsSpace(s[k])
    ensures i + n == |s| || !IsJsSpace(s[i + n])
    decreases |s| - i
  {
    if i < |s| && IsJsSpace(s[i]) then 1 + SpaceRun(s, i + 1) else 0
  }

  /** The run that ends at the first non-space is the one found. */
  lemma {:induction false} SpaceRunIs(s: string, i: nat, e: nat)
    requires i <= e <= |s|
    requires forall k :: i <= k < e ==> IsJsSpace(s[k])
    requires e == |s| || !IsJsSpace(s[e])
    ensures SpaceRun(s, i) == e - i
    decreases e - i
  {
    if i < e {
      SpaceRunIs(s, i + 1, e);
    }
  }

  /** A run of white space between two texts, the second not starting with one. */
  lemma SpaceRunPieces(a: string, sp: string, b: string)
    requires forall k :: 0 <= k < |sp| ==> IsJsSpace(sp[k])
    requires b == [] || !IsJsSpace(b[0])
    ensures SpaceRun(a + sp + b, |a|) == |sp|
  {
    var s := a + sp + b;
    forall k | |a| <= k < |a| + |sp|
      ensures IsJsSpace(s[k])
    {
      assert s[k] == sp[k - |a|];
    }
    if b != [] {
      assert s[|a| + |sp|] == b[0];
    }
    SpaceRunIs(s, |a|, |a| + |sp|);
  }

  /** The first position at or after `i` holding a line terminator, or the end. */
  function LineEnd(s: string, i: nat): (e: nat)
    requires i <= |s|
    ensures i <= e <= |s|
    ensures forall k :: i <= k < e ==> !IsLineTerminator(s[k])
    ensures e == |s| || IsLineTerminator(s[e])
    decreases |s| - i
  {
    if i == |s| || IsLineTerminator(s[i]) then i else LineEnd(s, i + 1)
  }

  /** `(.+?)(?:\n|$)` tried at `q`: the lazy capture grows one non-terminator at a time
      until a line feed or the end of the text follows it; any other line terminator
      stops it. The result is the end of the capture. */
  function LazyLine(s: string, q: nat): Option<nat>
    requires q <= |s|
  {
    if q < |s| && !IsLineTerminator(s[q]) then
      var e := LineEnd(s, q + 1);
      if e == |s| || s[e] == '\n' then Some(e) else None
    else None
  }

  /** `\s*` backtracking: with the capture starting after `k` of the spaces at `p`,
      then after `k - 1`, and so on down to none. */
  function BacktrackSpaces(s: string, p: nat, k: nat): (r: Option<(nat, nat)>)
    requires p + k <= |s|
    ensures r.Some? ==> p <= r.value.0 <= p + k && LazyLine(s, r.value.0) == Some(r.value.1)
    ensures r.Some? ==> forall q :: r.value.0 < q <= p + k ==> LazyLine(s, q).None?
    ensures r.None? ==> forall q :: p <= q <= p + k ==> LazyLine(s, q).None?
    decreases k
  {
    match LazyLine(s, p + k)
    case Some(e) => Some((p + k, e))
    case None => if k == 0 then None else BacktrackSpaces(s, p, k - 1)
  }

  /** A match of the subject pattern: where it starts, the capture, and where it ends
      (after the line feed, when one closes the line). */
  datatype SubjectMatch = SubjectMatch(start: nat, capStart: nat, capEnd: nat, end: nat)

  /** The pattern tried at position `p`, with the regular-expression engine's choices:
      as many spaces as still leave a capture, and the shortest capture. */
  function MatchAt(s: string, p: nat): (r: Option<SubjectMatch>)
    requires p <= |s|
    ensures r.Some? ==> r.value.start == p
  {
    if MatchesAt(s, p, "subject:") then
      match BacktrackSpaces(s, p + 8, SpaceRun(s, p + 8))
      case None => None
      case Some(c) => Some(SubjectMatch(p, c.0, c.1, if c.1 < |s| then c.1 + 1 else c.1))
    else None
  }

  /** The shape every match of the pattern has: the label in any letter case, white
      space, a non-empty capture without line terminators, then a line feed (consumed)
      or the end of the text. */
  predicate IsSubjectShape(s: string, m: SubjectMatch) {
    && m.start + 8 <= m.capStart
    && LineCapture(s, m.capStart, m.capEnd)
    && MatchesAt(s, m.start, "subject:")
    && (forall k :: m.start + 8 <= k < m.capStart ==> IsJsSpace(s[k]))
    && m.end == (if m.capEnd < |s| then m.capEnd + 1 else m.capEnd)
  }

  /** `s[q..e]` is a capture of `(.+?)` followed by `(?:\n|$)`. */
  predicate LineCapture(s: string, q: nat, e: nat) {
    && q < e <= |s|
    && (forall k :: q <= k < e ==> !IsLineTerminator(s[k]))
    && (e == |s| || s[e] == '\n')
  }

  /** The line end is the first terminator, or the end of the text, after `i`. */
  lemma {:induction false} LineEndIs(s: string, i: nat, e: nat)
    requires i <= e <= |s|
    requires forall k :: i <= k < e ==> !IsLineTerminator(s[k])
    requires e == |s| || IsLineTerminator(s[e])
    ensures LineEnd(s, i) == e
    decreases e - i
  {
    if i < e {
      LineEndIs(s, i + 1, e);
    }
  }

  /** The lazy capture succeeds exactly when some capture exists, and the one it takes
      is a capture. */
  lemma LazyLineShape(s: string, q: nat)
    requires q <= |s|
    ensures LazyLine(s, q).Some? <==> exists e: nat :: LineCapture(s, q, e)
    ensures LazyLine(s, q).Some? ==> LineCapture(s, q, LazyLine(s, q).value)
  {
    if e: nat :| LineCapture(s, q, e) {
      LineEndIs(s, q + 1, e);
    }
    if LazyLine(s, q).Some? {
      assert LineCapture(s, q, LazyLine(s, q).value);
    }
  }

  /** A match at `p` has the pattern's shape, takes the longest run of spaces that still
      leaves a capture, and stops the capture at the first line end; and when there is
      no match at `p`, no text of the pattern's shape starts there. */
  lemma MatchAtSpec(s: string, p: nat)
    requires p <= |s|
    ensures MatchAt(s, p).Some? ==>
      var m := MatchAt(s, p).value;
      && m.start == p && IsSubjectShape(s, m)
      && (forall q :: m.capStart < q <= p + 8 + SpaceRun(s, p + 8) ==> LazyLine(s, q).None?)
    ensures MatchAt(s, p).None? ==> forall m: SubjectMatch :: m.start == p ==> !IsSubjectShape(s, m)
  {
    if MatchesAt(s, p, "subject:") {
      var n := SpaceRun(s, p + 8);
      var c := BacktrackSpaces(s, p + 8, n);
      if c.Some? {
        LazyLineShape(s, c.value.0);
      } else {
        forall m: SubjectMatch | m.start == p
          ensures !IsSubjectShape(s, m)
        {
          if IsSubjectShape(s, m) {
            LazyLineShape(s, m.capStart);
          }
        }
      }
    }
  }

  /** The first position in `from..last` where `f` holds. */
  function FirstWhere(f: nat -> bool, from: nat, last: nat): (r: Option<nat>)
    ensures r.Some? ==> from <= r.value <= last && f(r.value)
    ensures r.Some? ==> (forall p :: from <= p < r.value ==> !f(p))
    ensures r.None? ==> (forall p :: from <= p <= last ==> !f(p))
    decreases last + 1 - from
  {
    if from > last then None
    else if f(from) then Some(from)
    else FirstWhere(f, from + 1, last)
  }

  /** Whether the pattern matches at a position of `s`. */
  function HasMatch(s: string): nat -> bool {
    (p: nat) => p <= |s| && MatchAt(s, p).Some?
  }

  /** The regular-expression search: the match at the leftmost position that has one. */
  function FindSubject(s: string): Option<SubjectMatch> {
    match FirstWhere(HasMatch(s), 0, |s|)
    case None => None
    case Some(p) => MatchAt(s, p)
  }

  /** The search finds a match exactly when some position starts a text of the
      pattern's shape, and it finds the leftmost such position. */
  lemma FindSubjectSpec(s: string)
    ensures FindSubject(s).Some? ==> IsSubjectShape(s, FindSubject(s).value)
    ensures FindSubject(s).Some? ==>
      forall m: SubjectMatch :: m.start < FindSubject(s).value.start ==> !IsSubjectShape(s, m)
    ensures FindSubject(s).None? ==> forall m: SubjectMatch :: !IsSubjectShape(s, m)
  {
    FindSubjectShape(s);
    forall m: SubjectMatch | IsSubjectShape(s, m)
      ensures FindSubject(s).Some? && FindSubject(s).value.start <= m.start
    {
      FindSubjectBefore(s, m);
    }
  }

  /** What the search returns has the pattern's shape. */
  lemma FindSubjectShape(s: string)
    ensures FindSubject(s).Some? ==> IsSubjectShape(s, FindSubject(s).value)
  {
    var w := FirstWhere(HasMatch(s), 0, |s|);
    if w.Some? {
      assert FindSubject(s) == MatchAt(s, w.value);
      MatchAtSpec(s, w.value);
    }
  }

  /** Any text of the pattern's shape is found, or one further left is. */
  lemma FindSubjectBefore(s: string, m: SubjectMatch)
    requires IsSubjectShape(s, m)
    ensures FindSubject(s).Some? && FindSubject(s).value.start <= m.start
  {
    var p := m.start;
    assert p <= |s|;
    MatchAtSpec(s, p);
    assert MatchAt(s, p).Some?;
    assert HasMatch(s)(p);
    var w := FirstWhere(HasMatch(s), 0, |s|);
    assert w.Some? && w.value <= p;
    assert FindSubject(s) == MatchAt(s, w.value);
  }

  /** The label "Subject:" matches the pattern's label. */
  lemma SubjectLabelMatches(s: string)
    requires |s| >= 8 && s[..8] == "Subject:"
    ensures MatchesAt(s, 0, "subject:")
  {
    var l := ToLower(s[0..8]);
    assert s[0..8] == s[..8];
    assert l[0] == 's' && l[1] == 'u' && l[2] == 'b' && l[3] == 'j';
    assert l[4] == 'e' && l[5] == 'c' && l[6] == 't' && l[7] == ':';
    assert l == "subject:";
  }

  /** A reply laid out as the prompt asks, "Subject: <line>" then a line feed, is
      matched at its start, with the whole line as the capture. */
  lemma SubjectLineFirst(subject: string, rest: string)
    requires |subject| > 0 && !IsJsSpace(subject[0])
    requires forall k :: 0 <= k < |subject| ==> !IsLineTerminator(subject[k])
    ensures var text := "Subject: " + subject + "\n" + rest;
      FindSubject(text) == Some(SubjectMatch(0, 9, 9 + |subject|, 10 + |subject|))
  {
    var text := "Subject: " + subject + "\n" + rest;
    var e := 9 + |subject|;
    assert text[..8] == "Subject:";
    SubjectLabelMatches(text);
    assert text[8] == ' ' && text[9] == subject[0];
    assert SpaceRun(text, 9) == 0;
    assert SpaceRun(text, 8) == 1;
    forall k | 10 <= k < e
      ensures !IsLineTerminator(text[k])
    {
      assert text[k] == subject[k - 9];
    }
    assert text[e] == '\n';
    assert LineEnd(text, 10) == e;
    assert LazyLine(text, 9) == Some(e);
  }

  /** The round trip with the prompt's layout: the subject is the trimmed line after
      the label, and the body is everything after that line, trimmed. */
  lemma PromptLayoutRoundTrip(subject: string, rest: string, defaultSubject: string)
    requires |subject| > 0 && !IsJsSpace(subject[0])
    requires forall k :: 0 <= k < |subject| ==> !IsLineTerminator(subject[k])
    ensures ExtractSubject("Subject: " + subject + "\n" + rest, defaultSubject) == (Trim(subject), Trim(rest))
  {
    var text := "Subject: " + subject + "\n" + rest;
    SubjectLineFirst(subject, rest);
    assert text[9..9 + |subject|] == subject;
    assert text[..0] + text[10 + |subject|..] == rest;
  }

  /** From a position where only white space is left, the run reaches the end. */
  lemma {:induction false} SpaceRunToEnd(s: string, i: nat)
    requires i <= |s|
    requires forall k :: i <= k < |s| ==> IsJsSpace(s[k])
    ensures SpaceRun(s, i) == |s| - i
    decreases |s| - i
  {
    if i < |s| {
      SpaceRunToEnd(s, i + 1);
    }
  }

  /** The capture may be white space only: a text ending in the label and two or more
      blanks matches with one blank as the capture, so the subject is empty. */
  lemma BlankSubjectLine(blanks: string, defaultSubject: string)
    requires |blanks| >= 2
    requires forall k :: 0 <= k < |blanks| ==> IsJsSpace(blanks[k]) && !IsLineTerminator(blanks[k])
    ensures ExtractSubject("Subject:" + blanks, defaultSubject).0 == ""
  {
    var text := "Subject:" + blanks;
    var n := |text|;
    assert text[..8] == "Subject:";
    SubjectLabelMatches(text);
    forall k | 8 <= k < n
      ensures IsJsSpace(text[k]) && !IsLineTerminator(text[k])
    {
      assert text[k] == blanks[k - 8];
    }
    SpaceRunToEnd(text, 8);
    assert LazyLine(text, n).None?;
    assert LineEnd(text, n) == n;
    assert LazyLine(text, n - 1) == Some(n);
    assert MatchAt(text, 0) == Some(SubjectMatch(0, n - 1, n, n));
    assert text[n - 1..n] == [text[n - 1]];
    assert TrimStart([text[n - 1]]) == [];
  }

  // ---------------------------------------------------------------------------
  // parseAndRefineEmail
  // ---------------------------------------------------------------------------

  /** The subject used when the answer has no subject line: the type with its first
      underscore turned into a space. */
  function DefaultSubject(b: Brief): string {
    "Professional " + ReplaceFirst(b.emailType, "_", " ") + " from " + b.businessType
  }

  /** A type without an underscore is named as it is; in a type with one, the first
      underscore becomes a space: "cold_email" gives "Professional cold email from ...". */
  lemma DefaultSubjectTypes(b: Brief, x: string, y: string)
    requires '_' !in x
    ensures '_' !in b.emailType ==> DefaultSubject(b) == "Professional " + b.emailType + " from " + b.businessType
    ensures b.emailType == x + "_" + y ==>
      DefaultSubject(b) == "Professional " + x + " " + y + " from " + b.businessType
  {
    if '_' !in b.emailType {
      MissingCharNotContained(b.emailType, "_", 0);
    }
    if b.emailType == x + "_" + y {
      ReplaceFirstChar(x, y, '_', " ");
      assert x + "_" + y == x + ['_'] + y;
    }
  }

  /** The subject and the remaining text: the trimmed capture, and the text with the
      first match cut out, trimmed; without a match, the default subject and the text
      as it came. */
  function ExtractSubject(text: string, defaultSubject: string): (r: (string, string))
    ensures FindSubject(text).None? ==> r == (defaultSubject, text)
    ensures FindSubject(text).Some? ==>
      var m := FindSubject(text).value;
      && IsSubjectShape(text, m)
      && r == (Trim(text[m.capStart..m.capEnd]), Trim(text[..m.start] + text[m.end..]))
  {
    match FindSubject(text)
    case None => (defaultSubject, text)
    case Some(m) =>
      assert MatchAt(text, m.start) == Some(m);
      MatchAtSpec(text, m.start);
      (Trim(text[m.capStart..m.capEnd]), Trim(text[..m.start] + text[m.end..]))
  }

  /** `^Dear\s+\[Recipient\]` in any letter case, replaced by "Dear <recipient>". The
      placeholder's bracket is not white space, so only the longest run of spaces can
      be followed by it and the pattern needs no backtracking. */
  function ReplaceDear(s: string, recipientType: string): (r: string)
    ensures !MatchesAt(s, 0, "dear") ==> r == s
    ensures r == s || StartsWith(r, "Dear " + recipientType)
  {
    if MatchesAt(s, 0, "dear") then
      var n := SpaceRun(s, 4);
      if n > 0 && MatchesAt(s, 4 + n, "[recipient]") then
        "Dear " + recipientType + s[4 + n + 11..]
      else s
    else s
  }

  /** The position of the first `]` at or after `i`, when no line terminator comes
      before it: how far `.*?\]` reaches. */
  function BracketClose(s: string, i: nat): (r: Option<nat>)
    requires i <= |s|
    ensures r.Some? ==> i <= r.value < |s| && s[r.value] == ']'
    ensures r.Some? ==> forall k :: i <= k < r.value ==> s[k] != ']' && !IsLineTerminator(s[k])
    decreases |s| - i
  {
    if i == |s| then None
    else if s[i] == ']' then Some(i)
    else if IsLineTerminator(s[i]) then None
    else BracketClose(s, i + 1)
  }

  /** `/\[Your.*?\]/gi` replaced by nothing: every "[your" in any letter case, up to the
      first closing bracket on the same line, is cut, scanning left to right. A
      character other than `[` cannot open a tag and is kept at once. */
  function RemoveYourTags(s: string): (r: string)
    ensures |r| <= |s|
    decreases |s|
  {
    if s == [] then []
    else if s[0] != '[' then [s[0]] + RemoveYourTags(s[1..])
    else if MatchesAt(s, 0, "[your") && BracketClose(s, 5).Some? then
      RemoveYourTags(s[BracketClose(s, 5).value + 1..])
    else [s[0]] + RemoveYourTags(s[1..])
  }

  /** Text without an opening bracket has no tag to cut. */
  lemma {:induction false} RemoveYourTagsNoBracket(s: string)
    requires '[' !in s
    ensures RemoveYourTags(s) == s
    decreases |s|
  {
    if s != [] {
      assert s[0] != '[';
      if 5 <= |s| {
        assert ToLower(s[0..5])[0] == LowerChar(s[0]);
      }
      RemoveYourTagsNoBracket(s[1..]);
      assert [s[0]] + s[1..] == s;
    }
  }

  /** Every character left after cutting the tags was in the text. */
  lemma {:induction false} RemoveYourTagsKeeps(s: string)
    ensures forall c :: c in RemoveYourTags(s) ==> c in s
    decreases |s|
  {
    if s != [] {
      if MatchesAt(s, 0, "[your") && BracketClose(s, 5).Some? {
        RemoveYourTagsKeeps(s[BracketClose(s, 5).value + 1..]);
      } else {
        RemoveYourTagsKeeps(s[1..]);
      }
    }
  }

  /** "Dear", a run of white space and "[Recipient]", in any letter case, at the start
      of the text become "Dear <recipient>"; the rest of the text is kept. */
  lemma ReplaceDearGreeting(m: string, sp: string, p: string, rest: string, recipientType: string)
    requires |m| == 4 && ToLower(m) == "dear"
    requires |sp| > 0 && forall k :: 0 <= k < |sp| ==> IsJsSpace(sp[k])
    requires |p| == 11 && ToLower(p) == "[recipient]"
    ensures ReplaceDear(m + sp + p + rest, recipientType) == "Dear " + recipientType + rest
  {
    var s := m + sp + p + rest;
    var e := 4 + |sp|;
    assert MatchesAt(s, 0, "dear") by {
      assert s[0..4] == m;
    }
    GreetingSpaces(m, sp, p, rest);
    assert MatchesAt(s, e, "[recipient]") by {
      assert s[e..e + 11] == p;
    }
    assert s[e + 11..] == rest;
    ReplaceDearAt(s, e, rest, recipientType);
  }

  /** The white space after "Dear" runs up to the bracket of "[Recipient]". */
  lemma GreetingSpaces(m: string, sp: string, p: string, rest: string)
    requires |m| == 4 && |p| == 11 && ToLower(p) == "[recipient]"
    requires forall k :: 0 <= k < |sp| ==> IsJsSpace(sp[k])
    ensures SpaceRun(m + sp + p + rest, 4) == |sp|
  {
    assert !IsJsSpace((p + rest)[0]) by {
      assert ToLower(p)[0] == LowerChar(p[0]);
    }
    assert m + sp + p + rest == m + sp + (p + rest);
    SpaceRunPieces(m, sp, p + rest);
  }

  /** The greeting's three parts located in `s`: the text after them is kept. */
  lemma ReplaceDearAt(s: string, e: nat, rest: string, recipientType: string)
    requires 4 < e && MatchesAt(s, 0, "dear") && SpaceRun(s, 4) == e - 4
    requires MatchesAt(s, e, "[recipient]") && s[e + 11..] == rest
    ensures ReplaceDear(s, recipientType) == "Dear " + recipientType + rest
  {
  }

  /** The position of a closing bracket with no `]` or line terminator before it. */
  lemma {:induction false} BracketCloseIs(s: string, i: nat, e: nat)
    requires i <= e < |s| && s[e] == ']'
    requires forall k :: i <= k < e ==> s[k] != ']' && !IsLineTerminator(s[k])
    ensures BracketClose(s, i) == Some(e)
    decreases e - i
  {
    if i < e {
      BracketCloseIs(s, i + 1, e);
    }
  }

  /** A prefix without an opening bracket is kept, and the scan resumes after it. */
  lemma {:induction false} RemoveYourTagsPrefix(a: string, b: string)
    requires '[' !in a
    ensures RemoveYourTags(a + b) == a + RemoveYourTags(b)
    decreases |a|
  {
    if a == [] {
      assert a + b == b;
    } else {
      var s := a + b;
      assert a[0] in a;
      assert s[0] == a[0];
      assert s[1..] == a[1..] + b;
      RemoveYourTagsPrefix(a[1..], b);
      assert [a[0]] + a[1..] == a;
    }
  }

  /** A "[Your" tag in any letter case, up to the first `]` on its line, is cut after
      any bracket-free text before it. */
  lemma RemoveYourTagsCut(a: string, o: string, x: string, rest: string)
    requires '[' !in a
    requires |o| == 5 && ToLower(o) == "[your"
    requires forall k :: 0 <= k < |x| ==> x[k] != ']' && !IsLineTerminator(x[k])
    ensures RemoveYourTags(a + o + x + "]" + rest) == a + RemoveYourTags(rest)
  {
    var s := o + x + "]" + rest;
    assert s[0..5] == o;
    assert ToLower(o)[1] == LowerChar(o[1]) && ToLower(o)[2] == LowerChar(o[2]);
    assert ToLower(o)[3] == LowerChar(o[3]) && ToLower(o)[4] == LowerChar(o[4]);
    assert ToLower(o)[0] == LowerChar(o[0]);
    BracketCloseIs(s, 5, 5 + |x|);
    assert s[5 + |x| + 1..] == rest;
    assert a + o + x + "]" + rest == a + s;
    RemoveYourTagsPrefix(a, s);
  }

  /** The placeholder clean-up, in the order the function applies it. */
  function CleanUp(body: string, recipientType: string, businessType: string): string {
    var dear := ReplaceDear(body, recipientType);
    var sender := ReplaceAllCI(dear, "[sender name/business]", businessType);
    var recipient := ReplaceAllCI(sender, "[recipient]", recipientType);
    Trim(RemoveYourTags(recipient))
  }

  /** A body without an opening bracket has no placeholder: the clean-up only trims
      it, whatever the names put in. */
  lemma CleanUpNoBracket(body: string, recipientType: string, businessType: string)
    requires '[' !in body
    ensures CleanUp(body, recipientType, businessType) == Trim(body)
  {
    forall k | 0 <= k < |body|
      ensures LowerChar(body[k]) != '['
    {
    }
    if MatchesAt(body, 0, "dear") {
      var n := SpaceRun(body, 4);
      if 4 + n + 11 <= |body| {
        assert ToLower(body[4 + n..4 + n + 11])[0] == LowerChar(body[4 + n]);
      }
    }
    assert ReplaceDear(body, recipientType) == body;
    assert body + "" == body;
    ReplaceAllCIPrefix(body, "", "[sender name/business]", businessType);
    ReplaceAllCIPrefix(body, "", "[recipient]", recipientType);
    RemoveYourTagsNoBracket(body);
  }

  /** A reply that opens with the greeting placeholder and ends with the sender
      placeholder, with no other bracket in between, is addressed to the recipient
      type and signed with the business. */
  lemma CleanUpSigned(m: string, sp: string, p: string, mid: string, sig: string,
                      recipientType: string, businessType: string)
    requires |m| == 4 && ToLower(m) == "dear"
    requires |sp| > 0 && forall k :: 0 <= k < |sp| ==> IsJsSpace(sp[k])
    requires |p| == 11 && ToLower(p) == "[recipient]"
    requires |sig| == 22 && ToLower(sig) == "[sender name/business]"
    requires '[' !in mid && '[' !in recipientType && '[' !in businessType
    ensures CleanUp(m + sp + p + mid + sig, recipientType, businessType)
         == Trim("Dear " + recipientType + mid + businessType)
  {
    assert m + sp + p + mid + sig == m + sp + p + (mid + sig);
    ReplaceDearGreeting(m, sp, p, mid + sig, recipientType);
    var pre := "Dear " + recipientType + mid;
    assert "Dear " + recipientType + (mid + sig) == pre + sig + "";
    forall k | 0 <= k < |pre|
      ensures LowerChar(pre[k]) != '['
    {
      assert pre[k] in pre;
    }
    NoMatchInPrefix(pre, sig + "", "[sender name/business]");
    assert pre + (sig + "") == pre + sig + "";
    ReplaceAllCIFirst(pre, sig, "", "[sender name/business]", businessType);
    var sender := pre + businessType;
    assert pre + businessType + ReplaceAllCI("", "[sender name/business]", businessType) == sender + "";
    forall k | 0 <= k < |sender|
      ensures LowerChar(sender[k]) != '['
    {
      assert sender[k] in sender;
    }
    ReplaceAllCIPrefix(sender, "", "[recipient]", recipientType);
    assert sender + "" == sender;
    RemoveYourTagsNoBracket(sender);
  }

  /** The placeholders as the prompt spells them, "[Recipient]" and "[Sender
      name/business]", are matched by the lower-case patterns, so they meet the
      requirements of `CleanUpSigned` with `m` = "Dear" and `sp` = " ". */
  lemma RecipientPlaceholderCase(p: string)
    requires p == "[Recipient]"
    ensures ToLower(p) == "[recipient]"
  {
    var r := ToLower(p);
    forall i | 0 <= i < |p|
      ensures r[i] == "[recipient]"[i]
    {
      assert r[i] == LowerChar(p[i]);
    }
  }

  /** "[Sender name/business]", taken in two halves. */
  lemma SenderPlaceholderCase(a: string, b: string)
    requires a == "[Sender nam" && b == "e/business]"
    ensures ToLower(a + b) == "[sender nam" + "e/business]"
  {
    ToLowerAppend(a, b);
    var r, q := ToLower(a), ToLower(b);
    forall i | 0 <= i < |a|
      ensures r[i] == "[sender nam"[i]
    {
      assert r[i] == LowerChar(a[i]);
    }
    forall i | 0 <= i < |b|
      ensures q[i] == b[i]
    {
      assert q[i] == LowerChar(b[i]);
    }
  }

  /** The answer is rejected, and the template body used, when the cleaned body is
      shorter than 100 characters or contains the first 50 characters of the context. */
  predicate NeedsFallback(body: string, context: string) {
    |body| < 100 || Contains(body, Prefix(context, 50))
  }

  /** A model's text made into the email: the extracted subject is kept either way,
      and the body is the cleaned text unless it needs the fallback body. */
  function ParseAndRefineEmail(w: Wording, text: string, b: Brief): (e: Email)
    ensures var fallback := EnhanceEmailBody(w, b.emailType, b.recipientType, b.businessType, b.context, b.tone);
      e.body == fallback || (|e.body| >= 100 && !Contains(e.body, Prefix(b.context, 50)))
    ensures e.subject == ExtractSubject(text, DefaultSubject(b)).0
    ensures var cleaned := CleanUp(ExtractSubject(text, DefaultSubject(b)).1, b.recipientType, b.businessType);
      !NeedsFallback(cleaned, b.context) ==> e.body == cleaned
  {
    var parts := ExtractSubject(text, DefaultSubject(b));
    var body := CleanUp(parts.1, b.recipientType, b.businessType);
    if NeedsFallback(body, b.context) then
      Email(parts.0, EnhanceEmailBody(w, b.emailType, b.recipientType, b.businessType, b.context, b.tone))
    else Email(parts.0, body)
  }

  /** End to end for an answer in the layout the prompt asks for: the subject is the
      trimmed subject line, and the trimmed rest, once cleaned, is the body unless it
      is under 100 characters or repeats the start of the context. */
  lemma PromptLayoutEmail(w: Wording, subject: string, rest: string, b: Brief)
    requires |subject| > 0 && !IsJsSpace(subject[0])
    requires forall k :: 0 <= k < |subject| ==> !IsLineTerminator(subject[k])
    ensures var e := ParseAndRefineEmail(w, "Subject: " + subject + "\n" + rest, b);
      var cleaned := CleanUp(Trim(rest), b.recipientType, b.businessType);
      && e.subject == Trim(subject)
      && (|cleaned| >= 100 && !Contains(cleaned, Prefix(b.context, 50)) ==> e.body == cleaned)
      && (|cleaned| < 100 || Contains(cleaned, Prefix(b.context, 50)) ==>
            e.body == EnhanceEmailBody(w, b.emailType, b.recipientType, b.businessType, b.context, b.tone))
  {
    PromptLayoutRoundTrip(subject, rest, DefaultSubject(b));
  }

  /** The subject depends only on the reply, the type and the business: not on the
      wording, the recipient, the context or the tone. A reply body that is kept does
      not depend on the wording either. */
  lemma ParseAndRefineIndependent(w1: Wording, w2: Wording, text: string, b1: Brief, b2: Brief)
    ensures b1.emailType == b2.emailType && b1.businessType == b2.businessType ==>
      ParseAndRefineEmail(w1, text, b1).subject == ParseAndRefineEmail(w2, text, b2).subject
    ensures var fallback :=
        EnhanceEmailBody(w1, b1.emailType, b1.recipientType, b1.businessType, b1.context, b1.tone);
      ParseAndRefineEmail(w1, text, b1).body != fallback ==>
        ParseAndRefineEmail(w2, text, b1).body == ParseAndRefineEmail(w1, text, b1).body
  {
  }

  /** An empty context always sends the answer to the fallback body: its first 50
      characters are the empty string, which every text contains. */
  lemma EmptyContextFallsBack(w: Wording, text: string, b: Brief)
    requires b.context == ""
    ensures ParseAndRefineEmail(w, text, b).body
      == EnhanceEmailBody(w, b.emailType, b.recipientType, b.businessType, b.context, b.tone)
  {
    var parts := ExtractSubject(text, DefaultSubject(b));
    ContainsEmpty(CleanUp(parts.1, b.recipientType, b.businessType));
    assert Prefix(b.context, 50) == "";
  }

  // ---------------------------------------------------------------------------
  // The request handler
  // ---------------------------------------------------------------------------

  /** The text of a model's answer is used when it has any non-blank character. */
  predicate Usable(reply: Option<string>) {
    reply.Some? && Trim(reply.value) != ""
  }

  /** The email the function answers with, given what each model in turn returned
      (None when the call failed, the status was not OK, or no text came back): the
      first usable text is parsed, and without one the template email is sent. */
  function Respond(w: Wording, b: Brief, replies: seq<Option<string>>): (e: Email)
    decreases |replies|
  {
    if |replies| == 0 then GenerateIntelligentEmail(w, b)
    else if Usable(replies[0]) then ParseAndRefineEmail(w, replies[0].value, b)
    else Respond(w, b, replies[1..])
  }

  /** The position of the first element of `xs` that `ok` accepts. */
  function FirstOf<T>(xs: seq<T>, ok: T -> bool): (r: Option<nat>)
    ensures r.Some? ==> r.value < |xs| && ok(xs[r.value])
    ensures r.Some? ==> forall j :: 0 <= j < r.value ==> !ok(xs[j])
    ensures r.None? ==> forall j :: 0 <= j < |xs| ==> !ok(xs[j])
    decreases |xs|
  {
    if |xs| == 0 then None
    else if ok(xs[0]) then Some(0)
    else
      var rest := FirstOf(xs[1..], ok);
      assert forall j :: 1 <= j < |xs| ==> xs[j] == xs[1..][j - 1];
      if rest.None? then None else Some(rest.value + 1)
  }

  /** Past an element `ok` rejects, the search goes on in the rest. */
  lemma FirstOfTail<T>(xs: seq<T>, ok: T -> bool)
    requires |xs| > 0 && !ok(xs[0])
    ensures FirstOf(xs, ok) == if FirstOf(xs[1..], ok).None? then None else Some(FirstOf(xs[1..], ok).value + 1)
  {
  }

  /** The position of the first usable reply. */
  function FirstUsable(replies: seq<Option<string>>): (r: Option<nat>)
    ensures r.Some? ==> r.value < |replies| && Usable(replies[r.value])
    ensures r.Some? ==> forall j :: 0 <= j < r.value ==> !Usable(replies[j])
    ensures r.None? ==> forall j :: 0 <= j < |replies| ==> !Usable(replies[j])
  {
    FirstOf(replies, Usable)
  }

  /** The answer comes from the first usable reply, and from the template email when
      no reply is usable. */
  lemma {:induction false} RespondSpec(w: Wording, b: Brief, replies: seq<Option<string>>)
    ensures FirstUsable(replies).None? ==> Respond(w, b, replies) == GenerateIntelligentEmail(w, b)
    ensures FirstUsable(replies).Some? ==>
      Respond(w, b, replies) == ParseAndRefineEmail(w, replies[FirstUsable(replies).value].value, b)
    decreases |replies|
  {
    if |replies| > 0 && !Usable(replies[0]) {
      var tail := replies[1..];
      RespondSpec(w, b, tail);
      assert Respond(w, b, replies) == Respond(w, b, tail);
      FirstOfTail(replies, Usable);
      if FirstUsable(tail).Some? {
        assert tail[FirstUsable(tail).value] == replies[FirstUsable(replies).value];
      }
    }
  }

  /** A whole request: the JSON body, when it parses, and the models' replies. A body
      that does not parse ends in status 500 with a fixed message. */
  function HandleRequest(w: Wording, request: Option<Brief>, replies: seq<Option<string>>): (r: Result<Email>)
    ensures request.None? <==> r == Err("Unable to generate email. Please try again.")
    ensures request.Some? ==> r == Ok(Respond(w, request.value, replies))
  {
    match request
    case None => Err("Unable to generate email. Please try again.")
    case Some(b) => Ok(Respond(w, b, replies))
  }
}
