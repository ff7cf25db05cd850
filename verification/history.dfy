/** The history page: the saved emails of a pro user, each shown with a label for its
    email type, a coloured badge for its tone, and a delete button. */
module History {
  import opened Wrappers
  import opened Strings

  datatype SavedEmail = SavedEmail(
    id: string, emailType: string, recipientType: string, businessType: string,
    context: string, tone: string, subject: string, body: string, createdAt: string)

  // ---------------------------------------------------------------------------
  // Email-type label
  // ---------------------------------------------------------------------------

  /** `getEmailTypeLabel`: the type split at underscores, each word capitalised, the
      words joined by spaces. */
  function EmailTypeLabel(emailType: string): string {
    var words := Split(emailType, '_');
    Join(seq(|words|, i requires 0 <= i < |words| => Capitalize(words[i])), " ")
  }

  /** The same label computed character by character: an underscore becomes a space,
      and a character is upper-cased when it starts a word. `cap` says whether the
      first character starts one. */
  function LabelFrom(s: string, cap: bool): (r: string)
    ensures |r| == |s|
    decreases |s|
  {
    if s == [] then []
    else if s[0] == '_' then [' '] + LabelFrom(s[1..], true)
    else [if cap then UpperChar(s[0]) else s[0]] + LabelFrom(s[1..], false)
  }

  /** The character at `i` of the label depends only on the characters at `i` and
      `i - 1` of the type. */
  lemma {:induction false} LabelFromAt(s: string, cap: bool, i: nat)
    requires i < |s|
    ensures LabelFrom(s, cap)[i] ==
      if s[i] == '_' then ' '
      else if (if i == 0 then cap else s[i - 1] == '_') then UpperChar(s[i])
      else s[i]
    decreases i
  {
    if i > 0 {
      LabelFromAt(s[1..], s[0] == '_', i - 1);
      assert s[1..][i - 1] == s[i];
      if i > 1 {
        assert s[1..][i - 2] == s[i - 1];
      }
    }
  }

  /** The words of a split with every word but possibly the first capitalised. */
  function Words(parts: seq<string>, cap: bool): (r: seq<string>)
    ensures |r| == |parts|
  {
    seq(|parts|, i requires 0 <= i < |parts| => if i == 0 && !cap then parts[0] else Capitalize(parts[i]))
  }

  /** Prefixing the first part of a join prefixes the join. */
  lemma JoinPrepend(x: char, parts: seq<string>, sep: string)
    requires |parts| > 0
    ensures Join([[x] + parts[0]] + parts[1..], sep) == [x] + Join(parts, sep)
  {
    var ps := [[x] + parts[0]] + parts[1..];
    assert ps[1..] == parts[1..];
    if |parts| > 1 {
      assert Join(ps, sep) == ([x] + parts[0]) + sep + Join(parts[1..], sep);
      assert Join(parts, sep) == parts[0] + sep + Join(parts[1..], sep);
      assert ([x] + parts[0]) + sep + Join(parts[1..], sep) == [x] + (parts[0] + sep + Join(parts[1..], sep));
    }
  }

  /** A leading underscore opens an empty first word. */
  lemma SplitLabelUnderscore(s: string, cap: bool)
    requires s != [] && s[0] == '_'
    requires Join(Words(Split(s[1..], '_'), true), " ") == LabelFrom(s[1..], true)
    ensures Join(Words(Split(s, '_'), cap), " ") == LabelFrom(s, cap)
  {
    var rest := Split(s[1..], '_');
    assert Split(s, '_') == [""] + rest;
    var w := Words([""] + rest, cap);
    WordsTail([""] + rest, cap);
    assert ([""] + rest)[1..] == rest;
    assert Join(w, " ") == w[0] + " " + Join(w[1..], " ");
  }

  /** After the first word, every word of `Words` is capitalised. */
  lemma WordsTail(parts: seq<string>, cap: bool)
    requires |parts| > 0
    ensures Words(parts, cap)[0] == if cap then Capitalize(parts[0]) else parts[0]
    ensures Words(parts, cap)[1..] == Words(parts[1..], true)
  {
  }

  /** Any other leading character stays in the first word. */
  lemma SplitLabelWord(s: string, cap: bool)
    requires s != [] && s[0] != '_'
    requires Join(Words(Split(s[1..], '_'), false), " ") == LabelFrom(s[1..], false)
    ensures Join(Words(Split(s, '_'), cap), " ") == LabelFrom(s, cap)
  {
    var p := Words(Split(s[1..], '_'), false);
    var x := if cap then UpperChar(s[0]) else s[0];
    assert Words(Split(s, '_'), cap) == [[x] + p[0]] + p[1..];
    JoinPrepend(x, p, " ");
  }

  lemma {:induction false} SplitLabel(s: string, cap: bool)
    ensures Join(Words(Split(s, '_'), cap), " ") == LabelFrom(s, cap)
    decreases |s|
  {
    if s != [] {
      if s[0] == '_' {
        SplitLabel(s[1..], true);
        SplitLabelUnderscore(s, cap);
      } else {
        SplitLabel(s[1..], false);
        SplitLabelWord(s, cap);
      }
    }
  }

  /** The split-and-join label agrees with the character-by-character one. */
  lemma EmailTypeLabelCharwise(emailType: string)
    ensures EmailTypeLabel(emailType) == LabelFrom(emailType, true)
  {
    var words := Split(emailType, '_');
    assert seq(|words|, i requires 0 <= i < |words| => Capitalize(words[i])) == Words(words, true);
    SplitLabel(emailType, true);
  }

  /** A label has no underscore and as many characters as the type. */
  lemma EmailTypeLabelShape(emailType: string)
    ensures |EmailTypeLabel(emailType)| == |emailType|
    ensures '_' !in EmailTypeLabel(emailType)
  {
    EmailTypeLabelCharwise(emailType);
    var r := LabelFrom(emailType, true);
    forall i | 0 <= i < |r|
      ensures r[i] != '_'
    {
      LabelFromAt(emailType, true, i);
    }
  }

  /** Labelling a label changes nothing. */
  lemma EmailTypeLabelIdempotent(emailType: string)
    ensures EmailTypeLabel(EmailTypeLabel(emailType)) == EmailTypeLabel(emailType)
  {
    var l := EmailTypeLabel(emailType);
    EmailTypeLabelShape(emailType);
    EmailTypeLabelCharwise(emailType);
    EmailTypeLabelCharwise(l);
    forall i | 0 <= i < |l|
      ensures LabelFrom(l, true)[i] == l[i]
    {
      LabelFromAt(l, true, i);
      LabelFromAt(emailType, true, i);
      if i == 0 {
        if emailType[0] != '_' {
          UpperCharIdempotent(emailType[0]);
        }
      }
    }
  }

  /** A two-word type is labelled as its two capitalised words. */
  lemma TwoWordLabel(a: string, b: string)
    requires '_' !in a && '_' !in b
    ensures EmailTypeLabel(a + "_" + b) == Capitalize(a) + " " + Capitalize(b)
  {
    assert Join([a, b], ['_']) == a + "_" + b by {
      assert Join([a, b], ['_']) == a + ['_'] + Join([b], ['_']);
    }
    SplitJoin([a, b], '_');
    var words := Split(a + "_" + b, '_');
    assert words == [a, b];
    var caps := seq(|words|, i requires 0 <= i < |words| => Capitalize(words[i]));
    assert caps == [Capitalize(a), Capitalize(b)];
    assert caps[1..] == [Capitalize(b)];
    assert Join(caps, " ") == Capitalize(a) + " " + Join([Capitalize(b)], " ");
  }

  // ---------------------------------------------------------------------------
  // Tone badge
  // ---------------------------------------------------------------------------

  const Gray := "bg-gray-100 text-gray-800"

  /** `getToneColor`. */
  function ToneColor(tone: string): (r: string)
    ensures r == Gray <==> tone != "formal" && tone != "friendly" && tone != "persuasive"
  {
    match tone
    case "formal" => "bg-blue-100 text-blue-800"
    case "friendly" => "bg-green-100 text-green-800"
    case "persuasive" => "bg-purple-100 text-purple-800"
    case _ => Gray
  }

  /** The three known tones get three different colours. */
  lemma ToneColorsDistinct()
    ensures ToneColor("formal") != ToneColor("friendly")
    ensures ToneColor("formal") != ToneColor("persuasive")
    ensures ToneColor("friendly") != ToneColor("persuasive")
  {
  }

  /** The badge text: the tone with its first character upper-cased. */
  function ToneBadge(tone: string): (r: string)
    ensures |r| == |tone|
    ensures |tone| > 0 ==> r[0] == UpperChar(tone[0]) && r[1..] == tone[1..]
  {
    Capitalize(tone)
  }

  // ---------------------------------------------------------------------------
  // Deleting
  // ---------------------------------------------------------------------------

  function WithoutId(emails: seq<SavedEmail>, id: string): (r: seq<SavedEmail>)
    ensures |r| <= |emails|
    ensures forall k :: 0 <= k < |r| ==> r[k].id != id && r[k] in emails
    ensures forall e :: e in emails && e.id != id ==> e in r
    decreases |emails|
  {
    if |emails| == 0 then []
    else if emails[0].id == id then WithoutId(emails[1..], id)
    else [emails[0]] + WithoutId(emails[1..], id)
  }

  /** `deleteEmail`: the list after the delete request, which may have failed with
      an error message. */
  function DeleteEmail(emails: seq<SavedEmail>, id: string, failure: Option<string>): (r: seq<SavedEmail>)
    ensures failure.Some? ==> r == emails
    ensures failure.None? ==> r == WithoutId(emails, id)
  {
    if failure.Some? then emails else WithoutId(emails, id)
  }

  /** Deleting keeps the order of the others: it distributes over concatenation. */
  lemma {:induction false} WithoutIdAppend(a: seq<SavedEmail>, b: seq<SavedEmail>, id: string)
    ensures WithoutId(a + b, id) == WithoutId(a, id) + WithoutId(b, id)
    decreases |a|
  {
    if |a| == 0 {
      assert a + b == b;
    } else {
      assert (a + b)[1..] == a[1..] + b;
      WithoutIdAppend(a[1..], b, id);
    }
  }

  /** With unique ids, deleting one entry takes out exactly that entry. */
  lemma DeleteUnique(a: seq<SavedEmail>, e: SavedEmail, b: seq<SavedEmail>)
    requires forall k :: 0 <= k < |a| ==> a[k].id != e.id
    requires forall k :: 0 <= k < |b| ==> b[k].id != e.id
    ensures DeleteEmail(a + ([e] + b), e.id, None) == a + b
  {
    WithoutIdAppend(a, [e] + b, e.id);
    WithoutIdAbsent(a, e.id);
    assert ([e] + b)[1..] == b;
    WithoutIdAbsent(b, e.id);
  }

  lemma {:induction false} WithoutIdAbsent(emails: seq<SavedEmail>, id: string)
    requires forall k :: 0 <= k < |emails| ==> emails[k].id != id
    ensures WithoutId(emails, id) == emails
    decreases |emails|
  {
    if |emails| > 0 {
      WithoutIdAbsent(emails[1..], id);
      assert [emails[0]] + emails[1..] == emails;
    }
  }

  // ---------------------------------------------------------------------------
  // Loading
  // ---------------------------------------------------------------------------

  datatype Page =
    | SignIn                         // no user: back to the landing page
    | ProfileUnavailable             // the profile query failed
    | BackToDashboard                // not a pro user
    | Listed(emails: seq<SavedEmail>, loadFailed: bool)

  /** What the page shows after its start-up checks, given the signed-in user, the
      profile's pro flag or the query's error, and the saved emails or the query's
      error (an empty answer counts as no emails). */
  function LoadHistory(user: Option<string>, isPro: Result<bool>, saved: Result<seq<SavedEmail>>): (r: Page)
    ensures user.None? <==> r == SignIn
    ensures r.Listed? <==> user.Some? && isPro == Ok(true)
    ensures r.Listed? ==> (r.loadFailed <==> saved.Err?)
    ensures r.Listed? && saved.Ok? ==> r.emails == saved.value
    ensures r.Listed? && saved.Err? ==> r.emails == []
  {
    if user.None? then SignIn
    else if isPro.Err? then ProfileUnavailable
    else if !isPro.value then BackToDashboard
    else if saved.Err? then Listed([], true)
    else Listed(saved.value, false)
  }

  /** A user who is not pro is sent back whatever the saved emails are: the list is
      never looked at. */
  lemma NonProNeverLoads(user: string, s1: Result<seq<SavedEmail>>, s2: Result<seq<SavedEmail>>)
    ensures LoadHistory(Some(user), Ok(false), s1) == BackToDashboard
    ensures LoadHistory(Some(user), Ok(false), s1) == LoadHistory(Some(user), Ok(false), s2)
  {
  }
}
