/** The email-template library: a fixed catalog of templates shown as cards under
    category tabs, each card with a preview of the body and badges for the variables
    to customise, and a copy button that puts subject and body on the clipboard. */
module Templates {
  import opened Wrappers
  import opened Strings

  datatype Template = Template(
    id: string, title: string, category: string, subject: string, body: string,
    variables: seq<string>, isPopular: bool)

  /** The catalog's index: what the library declares about each of its templates
      besides the subject and body text. */
  datatype Listing = Listing(id: string, title: string, category: string, variableCount: nat, isPopular: bool)

  /** The tabs, "All" first. */
  const Categories: seq<string> := ["All", "Cold Email", "Follow-up", "Partnership", "Apology", "Offer"]

  const Catalog: seq<Listing> := [
    Listing("cold-outreach-1", "Professional Cold Outreach", "Cold Email", 8, true),
    Listing("cold-outreach-2", "Value-First Cold Email", "Cold Email", 10, false),
    Listing("cold-outreach-3", "Connection-Based Cold Email", "Cold Email", 9, true),
    Listing("cold-outreach-4", "Problem-Solution Cold Email", "Cold Email", 10, false),
    Listing("cold-outreach-5", "Compliment-Based Cold Email", "Cold Email", 9, false),
    Listing("cold-outreach-6", "Research-Based Cold Email", "Cold Email", 8, false),
    Listing("follow-up-1", "Professional Follow-up", "Follow-up", 11, true),
    Listing("follow-up-2", "Value-Add Follow-up", "Follow-up", 8, false),
    Listing("follow-up-3", "Timeline Follow-up", "Follow-up", 5, false),
    Listing("follow-up-4", "Soft Follow-up", "Follow-up", 6, false),
    Listing("follow-up-5", "Results-Based Follow-up", "Follow-up", 12, false),
    Listing("partnership-1", "Partnership Proposal", "Partnership", 11, false),
    Listing("partnership-2", "Strategic Alliance Proposal", "Partnership", 11, false),
    Listing("partnership-3", "Cross-Promotion Partnership", "Partnership", 12, false),
    Listing("partnership-4", "Technology Integration Partnership", "Partnership", 11, false),
    Listing("partnership-5", "Referral Partnership", "Partnership", 10, false),
    Listing("apology-1", "Professional Apology", "Apology", 14, false),
    Listing("apology-2", "Service Delay Apology", "Apology", 11, false),
    Listing("apology-3", "Communication Error Apology", "Apology", 11, false),
    Listing("apology-4", "Quality Issue Apology", "Apology", 11, false),
    Listing("apology-5", "Missed Meeting Apology", "Apology", 11, false),
    Listing("offer-1", "Limited Time Offer", "Offer", 15, true),
    Listing("offer-2", "Free Trial Offer", "Offer", 15, false),
    Listing("offer-3", "Seasonal Promotion", "Offer", 17, false),
    Listing("offer-4", "Upgrade Offer", "Offer", 17, false),
    Listing("offer-5", "Bundle Offer", "Offer", 20, false)
  ]

  /** A template list agrees with the catalog's index, entry by entry. */
  predicate Catalogued(ts: seq<Template>) {
    |ts| == |Catalog|
    && forall i :: 0 <= i < |ts| ==>
      && ts[i].id == Catalog[i].id && ts[i].title == Catalog[i].title
      && ts[i].category == Catalog[i].category && |ts[i].variables| == Catalog[i].variableCount
      && ts[i].isPopular == Catalog[i].isPopular
  }

  lemma CatalogKeys()
    ensures |Catalog| == 26
    ensures forall i, j :: 0 <= i < j < |Catalog| ==> Catalog[i].id != Catalog[j].id
  {
  }

  /** The ids, used as list keys, are pairwise distinct. */
  lemma CatalogIdsDistinct(ts: seq<Template>)
    requires Catalogued(ts)
    ensures |ts| == 26
    ensures forall i, j :: 0 <= i < j < |ts| ==> ts[i].id != ts[j].id
  {
    CatalogKeys();
  }

  /** Every template is filed under one of the tabs other than "All". */
  lemma CatalogCategories(ts: seq<Template>)
    requires Catalogued(ts)
    ensures forall i :: 0 <= i < |ts| ==> ts[i].category in Categories[1..]
  {
    assert forall i :: 0 <= i < |Catalog| ==> Catalog[i].category in Categories[1..];
  }

  // ---------------------------------------------------------------------------
  // Category tabs
  // ---------------------------------------------------------------------------

  /** The templates filed under `category`, in list order. */
  function InCategory(ts: seq<Template>, category: string): (r: seq<Template>)
    ensures |r| <= |ts|
    decreases |ts|
  {
    if |ts| == 0 then []
    else if ts[0].category == category then [ts[0]] + InCategory(ts[1..], category)
    else InCategory(ts[1..], category)
  }

  /** `filteredTemplates`: the cards under the selected tab. */
  function FilterTemplates(ts: seq<Template>, selected: string): (r: seq<Template>)
    ensures selected == "All" ==> r == ts
    ensures selected != "All" ==> r == InCategory(ts, selected)
  {
    if selected == "All" then ts else InCategory(ts, selected)
  }

  /** A template is listed under a category iff it is filed under it. */
  lemma {:induction false} InCategoryIff(ts: seq<Template>, category: string, t: Template)
    ensures t in InCategory(ts, category) <==> t in ts && t.category == category
    decreases |ts|
  {
    if |ts| > 0 {
      InCategoryIff(ts[1..], category, t);
      assert ts == [ts[0]] + ts[1..];
    }
  }

  /** Filtering keeps the list order: it distributes over concatenation. */
  lemma {:induction false} InCategoryAppend(a: seq<Template>, b: seq<Template>, category: string)
    ensures InCategory(a + b, category) == InCategory(a, category) + InCategory(b, category)
    decreases |a|
  {
    if |a| == 0 {
      assert a + b == b;
    } else {
      assert (a + b)[1..] == a[1..] + b;
      InCategoryAppend(a[1..], b, category);
    }
  }

  /** A list already inside one category passes its filter unchanged. */
  lemma {:induction false} InCategoryAll(ts: seq<Template>, category: string)
    requires forall i :: 0 <= i < |ts| ==> ts[i].category == category
    ensures InCategory(ts, category) == ts
    decreases |ts|
  {
    if |ts| > 0 {
      InCategoryAll(ts[1..], category);
      assert [ts[0]] + ts[1..] == ts;
    }
  }

  /** Filtering twice by the same tab is filtering once. */
  lemma FilterIdempotent(ts: seq<Template>, selected: string)
    ensures FilterTemplates(FilterTemplates(ts, selected), selected) == FilterTemplates(ts, selected)
  {
    if selected != "All" {
      var r := InCategory(ts, selected);
      forall i | 0 <= i < |r|
        ensures r[i].category == selected
      {
        InCategoryIff(ts, selected, r[i]);
      }
      InCategoryAll(r, selected);
    }
  }

  // ---------------------------------------------------------------------------
  // Card contents
  // ---------------------------------------------------------------------------

  /** The preview line: the first 200 characters of the body and an ellipsis. */
  function Preview(body: string): (r: string)
    ensures |r| == (if |body| < 200 then |body| else 200) + 3
    ensures r[..|r| - 3] <= body && EndsWith(r, "...")
  {
    assert (Prefix(body, 200) + "...")[|Prefix(body, 200)|..] == "...";
    Prefix(body, 200) + "..."
  }

  /** The variable badges: at most six names, and the number of the others when
      there are more than six. */
  datatype Badges = Badges(shown: seq<string>, more: Option<nat>)

  function VariableBadges(variables: seq<string>): (r: Badges)
    ensures |r.shown| == if |variables| < 6 then |variables| else 6
    ensures r.shown <= variables
    ensures r.more.Some? <==> |variables| > 6
    ensures |r.shown| + r.more.GetOr(0) == |variables|
  {
    var shown := if |variables| <= 6 then variables else variables[..6];
    Badges(shown, if |variables| > 6 then Some(|variables| - 6) else None)
  }

  /** The text of the overflow badge. */
  function MoreLabel(n: nat): (r: string)
    ensures |r| >= 7 && r[0] == '+' && r[|r| - 5..] == " more"
    ensures forall k :: 1 <= k < |r| - 5 ==> '0' <= r[k] <= '9'
    ensures ParseDigits(r[1..|r| - 5]) == n
  {
    NatToStringRoundTrip(n);
    var r := "+" + NatToString(n) + " more";
    assert r[1..|r| - 5] == NatToString(n);
    assert r[|r| - 5..] == " more";
    r
  }

  /** Every catalogued card shows an overflow badge except the two follow-ups with
      at most six variables, the ninth and tenth entries (ids being distinct, no
      other card carries their ids). */
  lemma CatalogOverflow(ts: seq<Template>)
    requires Catalogued(ts)
    ensures ts[8].id == "follow-up-3" && ts[9].id == "follow-up-4"
    ensures forall i :: 0 <= i < |ts| ==> (VariableBadges(ts[i].variables).more.Some? <==> i != 8 && i != 9)
  {
    assert forall i :: 0 <= i < |Catalog| ==>
      (Catalog[i].variableCount > 6 <==> i != 8 && i != 9);
  }

  // ---------------------------------------------------------------------------
  // Copying
  // ---------------------------------------------------------------------------

  /** The clipboard text of a template. */
  function CopyText(t: Template): (r: string)
    ensures StartsWith(r, "Subject: ") && EndsWith(r, t.body)
    ensures OccursAt(r, 9 + |t.subject|, "\n\n")
  {
    var r := "Subject: " + (t.subject + "\n\n" + t.body);
    assert r[..9] == "Subject: ";
    assert r[|r| - |t.body|..] == t.body;
    assert r[9 + |t.subject|..9 + |t.subject| + 2] == "\n\n";
    r
  }

  /** Reads clipboard text back: the subject after the label up to the first blank
      line, and the body after it. */
  function ReadCopy(text: string): Option<(string, string)> {
    if !StartsWith(text, "Subject: ") then None
    else
      var rest := text[9..];
      match IndexOf(rest, "\n\n")
      case None => None
      case Some(i) => Some((rest[..i], rest[i + 2..]))
  }

  /** A two-character pattern absent from `s`, whose first character does not end
      `s`, does not start inside `s` in `s + m`. */
  lemma NoOccurrenceInside(s: string, m: string, pat: string, j: nat)
    requires |pat| == 2 && !Contains(s, pat) && !EndsWith(s, pat[..1]) && j < |s|
    ensures !OccursAt(s + m, j, pat)
  {
    if OccursAt(s + m, j, pat) {
      if j + 1 < |s| {
        assert s[j..j + 2] == (s + m)[j..j + 2];
        ContainsWitness(s, j, pat);
      }
    }
  }

  /** Such a pattern, put right after `s`, is found first there. */
  lemma FirstAfter(s: string, m: string, pat: string)
    requires |pat| == 2 && !Contains(s, pat) && !EndsWith(s, pat[..1]) && StartsWith(m, pat)
    ensures IndexOf(s + m, pat) == Some(|s|)
  {
    forall j: nat | j < |s|
      ensures !OccursAt(s + m, j, pat)
    {
      NoOccurrenceInside(s, m, pat, j);
    }
    assert (s + m)[|s|..|s| + 2] == m[..2];
    ContainsWitness(s + m, |s|, pat);
  }

  /** The first blank line of `s + "\n\n" + b` is the one after `s` when `s` has
      none and does not end in a line break. */
  lemma FirstBlankLine(s: string, b: string)
    requires !Contains(s, "\n\n") && !EndsWith(s, "\n")
    ensures IndexOf(s + "\n\n" + b, "\n\n") == Some(|s|)
  {
    var pat := "\n\n";
    assert s + pat + b == s + (pat + b);
    assert pat[..1] == "\n";
    assert (pat + b)[..2] == pat;
    FirstAfter(s, pat + b, pat);
  }

  /** A subject with no blank line in it, and not ending in a line break, is read
      back from the clipboard text together with the body. */
  lemma CopyRoundTrip(t: Template)
    requires !Contains(t.subject, "\n\n") && !EndsWith(t.subject, "\n")
    ensures ReadCopy(CopyText(t)) == Some((t.subject, t.body))
  {
    var s := t.subject;
    var rest := s + "\n\n" + t.body;
    var text := CopyText(t);
    assert text == "Subject: " + rest;
    assert text[9..] == rest;
    FirstBlankLine(s, t.body);
    assert rest[..|s|] == s;
    assert rest[|s| + 2..] == t.body;
  }
}
