/** The dashboard's generation form: the five-field form, the free tier's daily quota,
    the personalization details and template a pro user can add to the request, the
    generation counter, and the save button. */
module Dashboard {
  import opened Wrappers
  import opened Strings
  import opened EmailComposer
  import P = Personalization
  import T = Templates

  /** The signed-in user's profile row, as far as the dashboard reads it. */
  datatype Profile = Profile(isPro: bool, dailyCount: int)

  /** `profile?.is_pro`: a missing profile is not pro. */
  predicate IsPro(p: Option<Profile>) {
    p.Some? && p.value.isPro
  }

  /** The form is the five strings of a brief. */
  predicate Complete(form: Brief) {
    form.emailType != "" && form.recipientType != "" && form.businessType != ""
    && form.context != "" && form.tone != ""
  }

  /** The free tier's limit: three generations a day. A missing profile is not held
      back, since its count compares as undefined. */
  predicate QuotaReached(p: Option<Profile>) {
    p.Some? && !p.value.isPro && p.value.dailyCount >= 3
  }

  // ---------------------------------------------------------------------------
  // Personalization details
  // ---------------------------------------------------------------------------

  /** The elements of `s` that `keep` accepts, in order. */
  function Filter<T>(s: seq<T>, keep: T -> bool): (r: seq<T>)
    ensures |r| <= |s|
    ensures forall k :: 0 <= k < |r| ==> r[k] in s && keep(r[k])
    ensures forall x :: x in s && keep(x) ==> x in r
    decreases |s|
  {
    if |s| == 0 then []
    else if keep(s[0]) then [s[0]] + Filter(s[1..], keep)
    else Filter(s[1..], keep)
  }

  lemma {:induction false} FilterAppend<T>(a: seq<T>, b: seq<T>, keep: T -> bool)
    ensures Filter(a + b, keep) == Filter(a, keep) + Filter(b, keep)
    decreases |a|
  {
    if a == [] {
      assert a + b == b;
    } else {
      assert (a + b)[0] == a[0];
      assert (a + b)[1..] == a[1..] + b;
      FilterAppend(a[1..], b, keep);
      var head := if keep(a[0]) then [a[0]] else [];
      assert head + (Filter(a[1..], keep) + Filter(b, keep)) == head + Filter(a[1..], keep) + Filter(b, keep);
    }
  }

  /** A field counts as filled in when its value is not blank. */
  predicate HasValue(f: P.Field) {
    Trim(f.value) != ""
  }

  /** The fields with a value that is not blank, in list order. */
  function Filled(fields: seq<P.Field>): (r: seq<P.Field>)
    ensures |r| <= |fields|
    ensures forall k :: 0 <= k < |r| ==> r[k] in fields && Trim(r[k].value) != ""
    ensures forall f :: f in fields && Trim(f.value) != "" ==> f in r
  {
    var r := Filter(fields, HasValue);
    assert forall k :: 0 <= k < |r| ==> HasValue(r[k]);
    r
  }

  /** Filtering keeps the list order and every repetition: it works piece by piece,
      and a single field is kept exactly when its value is not blank. */
  lemma FilledAppend(a: seq<P.Field>, b: seq<P.Field>)
    ensures Filled(a + b) == Filled(a) + Filled(b)
    ensures |a| == 1 ==> Filled(a) == (if Trim(a[0].value) != "" then a else [])
  {
    FilterAppend(a, b, HasValue);
    if |a| == 1 {
      assert a[1..] == [];
      assert Filter(a, HasValue) == (if HasValue(a[0]) then [a[0]] else []) + Filter(a[1..], HasValue);
      assert [a[0]] == a;
    }
  }

  /** One line of the details: the label, a colon, and the value as typed. */
  function DetailLine(f: P.Field): (r: string)
    ensures StartsWith(r, f.name) && EndsWith(r, f.value)
    ensures OccursAt(r, |f.name|, ": ")
  {
    var r := f.name + (": " + f.value);
    assert r[..|f.name|] == f.name;
    assert r[|r| - |f.value|..] == f.value;
    assert r[|f.name|..|f.name| + 2] == ": ";
    r
  }

  function DetailLines(fields: seq<P.Field>): seq<string>
  {
    var filled := Filled(fields);
    seq(|filled|, k requires 0 <= k < |filled| => DetailLine(filled[k]))
  }

  /** The personalization details: the lines of the filled fields joined by line
      breaks. */
  function PersonalizationData(fields: seq<P.Field>): string {
    Join(DetailLines(fields), "\n")
  }

  /** A join of lines whose first line is not empty is not empty. */
  lemma JoinNonEmpty(lines: seq<string>, sep: string)
    requires |lines| > 0 && lines[0] != ""
    ensures Join(lines, sep) != ""
  {
    if |lines| > 1 {
      assert Join(lines, sep) == lines[0] + sep + Join(lines[1..], sep);
      assert |Join(lines, sep)| >= |lines[0]|;
    }
  }

  /** The details are empty exactly when no field is filled. */
  lemma PersonalizationDataEmpty(fields: seq<P.Field>)
    ensures PersonalizationData(fields) == "" <==> Filled(fields) == []
  {
    var lines := DetailLines(fields);
    if |lines| > 0 {
      assert |lines[0]| >= 2;
      JoinNonEmpty(lines, "\n");
    }
  }

  /** A detail line has a line break only where its label or value has one. */
  lemma DetailLineFree(f: P.Field)
    requires '\n' !in f.name && '\n' !in f.value
    ensures '\n' !in DetailLine(f)
  {
    assert DetailLine(f) == f.name + (": " + f.value);
  }

  /** With no line break in any label or value, the details of a list with a filled
      field split back into one line per filled field. */
  lemma PersonalizationReadBack(fields: seq<P.Field>)
    requires forall k :: 0 <= k < |fields| ==> '\n' !in fields[k].name && '\n' !in fields[k].value
    ensures Filled(fields) != [] ==> Split(PersonalizationData(fields), '\n') == DetailLines(fields)
  {
    var filled := Filled(fields);
    var lines := DetailLines(fields);
    if |lines| > 0 {
      forall k | 0 <= k < |lines|
        ensures '\n' !in lines[k]
      {
        assert filled[k] in fields;
        DetailLineFree(filled[k]);
      }
      SplitJoin(lines, '\n');
    }
  }

  /** The context sent: for a pro user with filled fields, the form's context followed
      by the personalization details; otherwise the form's context. */
  function EnhancedContext(p: Option<Profile>, fields: seq<P.Field>, context: string): (r: string)
    ensures StartsWith(r, context)
    ensures !IsPro(p) || Filled(fields) == [] ==> r == context
    ensures IsPro(p) && Filled(fields) != [] ==>
      r == context + "\n\nPersonalization Details:\n" + PersonalizationData(fields)
  {
    PersonalizationDataEmpty(fields);
    if IsPro(p) && |fields| > 0 && PersonalizationData(fields) != "" then
      var r := context + "\n\nPersonalization Details:\n" + PersonalizationData(fields);
      AffixAppend(context, "\n\nPersonalization Details:\n", context);
      AffixAppend(context + "\n\nPersonalization Details:\n", PersonalizationData(fields), context);
      assert context[..|context|] == context;
      r
    else
      assert context[..|context|] == context;
      context
  }

  // ---------------------------------------------------------------------------
  // Templates
  // ---------------------------------------------------------------------------

  /** `category.toLowerCase().replace(' ', '_')`: only the first space is replaced. */
  function CategoryToType(category: string): string {
    ReplaceFirst(ToLower(category), " ", "_")
  }

  /** Lower-casing maps a character other than an upper-case letter to itself, so
      it adds no space or underscore and removes none. */
  lemma ToLowerKeeps(s: string, c: char)
    requires !IsAsciiUpper(c) && !IsAsciiLower(c)
    ensures c in ToLower(s) <==> c in s
  {
    if c in s {
      var k :| 0 <= k < |s| && s[k] == c;
      assert ToLower(s)[k] == c;
    }
  }

  /** A one-word category is just lower-cased: "Follow-up" keeps its hyphen and so
      never becomes an underscore type. */
  lemma OneWordCategory(category: string)
    requires ' ' !in category
    ensures CategoryToType(category) == ToLower(category)
    ensures '_' !in category ==> '_' !in CategoryToType(category)
  {
    ToLowerKeeps(category, ' ');
    ToLowerKeeps(category, '_');
    MissingCharNotContained(ToLower(category), " ", 0);
  }

  /** Lower-casing two words around a space lower-cases each word. */
  lemma ToLowerTwoWords(a: string, b: string)
    ensures ToLower(a + " " + b) == ToLower(a) + " " + ToLower(b)
  {
    ToLowerAppend(a + " ", b);
    ToLowerAppend(a, " ");
    assert ToLower(" ") == [LowerChar(' ')];
  }

  /** In a category whose first word is `a`, that first space becomes an underscore:
      "Cold Email" becomes "cold_email". */
  lemma TwoWordCategory(a: string, b: string)
    requires ' ' !in a
    ensures CategoryToType(a + " " + b) == ToLower(a) + "_" + ToLower(b)
  {
    ToLowerTwoWords(a, b);
    ToLowerKeeps(a, ' ');
    ReplaceFirstChar(ToLower(a), ToLower(b), ' ', "_");
  }

  /** The context wrapped around the template for the model. */
  function TemplateContext(t: T.Template, enhanced: string): (r: string)
    ensures EndsWith(r, enhanced)
    ensures StartsWith(r, "Template: " + t.title)
  {
    var head := "Template: " + t.title;
    var r := head + ("\nSubject Template: " + t.subject + "\nBody Template: " + t.body
                     + "\n\nCustomization Context: " + enhanced);
    AffixAppend(head, r[|head|..], head);
    assert head[..|head|] == head;
    assert head + r[|head|..] == r;
    assert r[|r| - |enhanced|..] == enhanced;
    r
  }

  /** The body of the generation request. */
  datatype GenerateRequest = GenerateRequest(brief: Brief, isTemplate: bool, templateVariables: seq<string>)

  /** The request built from the form, the profile, the personalization fields and
      the selected template: the template is applied only for a pro user. */
  function BuildRequest(form: Brief, p: Option<Profile>, fields: seq<P.Field>, template: Option<T.Template>): (r: GenerateRequest)
    ensures r.brief.recipientType == form.recipientType && r.brief.businessType == form.businessType
    ensures r.brief.tone == form.tone
    ensures r.isTemplate <==> template.Some?
    ensures r.templateVariables == if template.Some? then template.value.variables else []
    ensures template.Some? && IsPro(p) ==>
      r.brief.emailType == CategoryToType(template.value.category)
      && r.brief.context == TemplateContext(template.value, EnhancedContext(p, fields, form.context))
    ensures !(template.Some? && IsPro(p)) ==>
      r.brief.emailType == form.emailType && r.brief.context == EnhancedContext(p, fields, form.context)
  {
    var enhanced := EnhancedContext(p, fields, form.context);
    var applied := template.Some? && IsPro(p);
    var emailType := if applied then CategoryToType(template.value.category) else form.emailType;
    var context := if applied then TemplateContext(template.value, enhanced) else enhanced;
    GenerateRequest(
      Brief(emailType, form.recipientType, form.businessType, context, form.tone),
      template.Some?,
      if template.Some? then template.value.variables else [])
  }

  /** A free user's request carries the form exactly as typed, whatever fields or
      template they set up. */
  lemma FreeRequestIsForm(form: Brief, p: Option<Profile>, fields: seq<P.Field>, template: Option<T.Template>)
    requires !IsPro(p)
    ensures BuildRequest(form, p, fields, template).brief == form
  {
  }

  /** Choosing a template sets the form's email type from its category; clearing it
      empties the type. */
  function SelectTemplate(form: Brief, t: T.Template): (Brief, Option<T.Template>)
  {
    (form.(emailType := CategoryToType(t.category)), Some(t))
  }

  function ClearTemplate(form: Brief): (Brief, Option<T.Template>)
  {
    (form.(emailType := ""), None)
  }

  /** The type a template sets is the one sent, for a free user, whose form is sent
      as it stands, and for a pro user, whose request takes it from the template. */
  lemma SelectedTypeSent(form: Brief, t: T.Template, p: Option<Profile>, fields: seq<P.Field>)
    ensures var selected := SelectTemplate(form, t);
      var r := BuildRequest(selected.0, p, fields, selected.1);
      && r.brief.emailType == CategoryToType(t.category)
      && r.isTemplate && r.templateVariables == t.variables
  {
  }

  /** Clearing undoes choosing: the form is the one cleared without a choice. */
  lemma SelectThenClear(form: Brief, t: T.Template)
    ensures ClearTemplate(SelectTemplate(form, t).0) == ClearTemplate(form)
  {
  }

  /** Clearing after choosing leaves an incomplete form. */
  lemma ClearedFormIncomplete(form: Brief, t: T.Template)
    ensures !Complete(ClearTemplate(SelectTemplate(form, t).0).0)
  {
  }

  // ---------------------------------------------------------------------------
  // Generating
  // ---------------------------------------------------------------------------

  /** The dashboard's state: the profile, the email on screen, and whether the
      upgrade dialog is open. */
  datatype Session = Session(profile: Option<Profile>, generated: Option<Email>, upgradeOpen: bool)

  /** The outcome of the generate button: the new state, the request sent if any, and
      the count written back to the profile row if any. */
  datatype Step = Step(session: Session, sent: Option<GenerateRequest>, storedCount: Option<int>)

  /** The profile after a successful generation: a free user's count goes up by one. */
  function Counted(p: Option<Profile>): (r: Option<Profile>)
    ensures IsPro(p) ==> r == p
    ensures p.None? ==> r.None?
    ensures p.Some? && !p.value.isPro ==> r == Some(p.value.(dailyCount := p.value.dailyCount + 1))
  {
    if p.Some? && !p.value.isPro then Some(p.value.(dailyCount := p.value.dailyCount + 1)) else p
  }

  /** The generate button. `respond` is the generation endpoint's answer to a request,
      an email or the error it failed with. */
  function GenerateEmail(s: Session, form: Brief, fields: seq<P.Field>, template: Option<T.Template>,
                         respond: GenerateRequest -> Result<Email>): (r: Step)
    ensures !Complete(form) ==> r == Step(s, None, None)
    ensures Complete(form) && QuotaReached(s.profile) ==> r == Step(s.(upgradeOpen := true), None, None)
    ensures r.sent.Some? <==> Complete(form) && !QuotaReached(s.profile)
    ensures r.sent.Some? ==> r.sent.value == BuildRequest(form, s.profile, fields, template)
    ensures r.sent.Some? && respond(r.sent.value).Err? ==> r.session == s && r.storedCount.None?
    ensures r.sent.Some? && respond(r.sent.value).Ok? ==>
      && r.session.generated == Some(respond(r.sent.value).value)
      && r.session.profile == Counted(s.profile)
      && r.session.upgradeOpen == s.upgradeOpen
    ensures r.storedCount.Some? <==> r.sent.Some? && respond(r.sent.value).Ok? && !IsPro(s.profile)
    ensures r.storedCount.Some? ==>
      r.storedCount.value == (if s.profile.Some? then s.profile.value.dailyCount else 0) + 1
  {
    if !Complete(form) then Step(s, None, None)
    else if QuotaReached(s.profile) then Step(s.(upgradeOpen := true), None, None)
    else
      var request := BuildRequest(form, s.profile, fields, template);
      match respond(request)
      case Err(_) => Step(s, Some(request), None)
      case Ok(email) =>
        var stored := if IsPro(s.profile) then None
                      else Some((if s.profile.Some? then s.profile.value.dailyCount else 0) + 1);
        Step(Session(Counted(s.profile), Some(email), s.upgradeOpen), Some(request), stored)
  }

  /** A pro user is never held back by the count, and their count never moves. */
  lemma ProUnlimited(s: Session, form: Brief, fields: seq<P.Field>, template: Option<T.Template>,
                     respond: GenerateRequest -> Result<Email>)
    requires IsPro(s.profile) && Complete(form)
    ensures GenerateEmail(s, form, fields, template, respond).sent.Some?
    ensures GenerateEmail(s, form, fields, template, respond).session.profile == s.profile
  {
  }

  /** A free user starting the day at zero gets three emails; the fourth press opens
      the upgrade dialog and sends nothing. */
  lemma ThreeFreeGenerations(form: Brief, fields: seq<P.Field>, template: Option<T.Template>,
                             respond: GenerateRequest -> Result<Email>)
    requires Complete(form)
    requires forall q :: respond(q).Ok?
    ensures
      var s0 := Session(Some(Profile(false, 0)), None, false);
      var s1 := GenerateEmail(s0, form, fields, template, respond).session;
      var s2 := GenerateEmail(s1, form, fields, template, respond).session;
      var s3 := GenerateEmail(s2, form, fields, template, respond).session;
      var last := GenerateEmail(s3, form, fields, template, respond);
      s3.profile == Some(Profile(false, 3)) && last.sent.None? && last.session.upgradeOpen
  {
    var s0 := Session(Some(Profile(false, 0)), None, false);
    var s1 := GenerateEmail(s0, form, fields, template, respond).session;
    assert s1.profile == Some(Profile(false, 1));
    var s2 := GenerateEmail(s1, form, fields, template, respond).session;
    assert s2.profile == Some(Profile(false, 2));
    var s3 := GenerateEmail(s2, form, fields, template, respond).session;
    assert s3.profile == Some(Profile(false, 3));
  }

  // ---------------------------------------------------------------------------
  // Saving and upgrading
  // ---------------------------------------------------------------------------

  /** The row inserted into the saved emails: the form as it stands, with its raw
      context, and the email on screen. */
  datatype EmailRow = EmailRow(
    userId: Option<string>, emailType: string, recipientType: string, businessType: string,
    context: string, tone: string, subject: string, body: string)

  /** The save button: nothing is written unless an email is on screen and the user
      is pro. */
  function SaveEmail(s: Session, form: Brief, userId: Option<string>): (r: Option<EmailRow>)
    ensures r.Some? <==> s.generated.Some? && IsPro(s.profile)
    ensures r.Some? ==> r.value == EmailRow(userId, form.emailType, form.recipientType,
      form.businessType, form.context, form.tone, s.generated.value.subject, s.generated.value.body)
  {
    if s.generated.None? || !IsPro(s.profile) then None
    else Some(EmailRow(userId, form.emailType, form.recipientType, form.businessType,
                       form.context, form.tone, s.generated.value.subject, s.generated.value.body))
  }

  /** A saved row keeps the form's context, not the personalised or templated one
      that was sent. */
  lemma SavedContextIsRaw(s: Session, form: Brief, fields: seq<P.Field>, template: Option<T.Template>,
                          respond: GenerateRequest -> Result<Email>, userId: Option<string>)
    requires Complete(form) && IsPro(s.profile)
    ensures respond(BuildRequest(form, s.profile, fields, template)).Ok? ==>
      && SaveEmail(GenerateEmail(s, form, fields, template, respond).session, form, userId).Some?
      && SaveEmail(GenerateEmail(s, form, fields, template, respond).session, form, userId).value.context == form.context
  {
  }

  datatype UpgradeAction = OpenUpgradeDialog | GoToPayment

  /** The upgrade dialog's own button: it always closes the dialog, and sends anyone
      who is not pro on to the payment page. */
  datatype DialogAction = DialogAction(closeDialog: bool, toPayment: bool)

  function DialogUpgrade(p: Option<Profile>): (r: DialogAction)
    ensures r.closeDialog
    ensures r.toPayment <==> !IsPro(p)
  {
    DialogAction(true, !IsPro(p))
  }

  /** The dialog a generation opens is only the quota's, and the dialog's upgrade
      button closes it and leads to the payment page. */
  lemma QuotaDialogLeadsToPayment(s: Session, form: Brief, fields: seq<P.Field>, template: Option<T.Template>,
                                  respond: GenerateRequest -> Result<Email>)
    ensures var r := GenerateEmail(s, form, fields, template, respond);
      r.session.upgradeOpen && !s.upgradeOpen ==>
        && QuotaReached(s.profile)
        && DialogUpgrade(r.session.profile).closeDialog
        && DialogUpgrade(r.session.profile).toPayment
  {
  }

  /** The header's upgrade button and the dialog's agree on who is sent to payment. */
  lemma UpgradeButtonsAgree(p: Option<Profile>)
    ensures DialogUpgrade(p).toPayment <==> UpgradeClick(p) == GoToPayment
  {
  }

  /** The upgrade button: a pro user gets the dialog, anyone else the payment page. */
  function UpgradeClick(p: Option<Profile>): (r: UpgradeAction)
    ensures r == OpenUpgradeDialog <==> IsPro(p)
  {
    if IsPro(p) then OpenUpgradeDialog else GoToPayment
  }
}
