/** The deterministic half of the generate-email function: keyword analysis of the
    free-text context, the prioritised subject table, the four-block fallback body,
    and the instruction prompt sent to the hosted model. Everything here is string
    selection and concatenation; the context only ever chooses between branches. */
module EmailComposer {
  import opened Wrappers
  import opened Strings

  /** The request body of the generation endpoint. */
  datatype Brief = Brief(
    emailType: string,
    recipientType: string,
    businessType: string,
    context: string,
    tone: string)

  datatype Email = Email(subject: string, body: string)

  /** Every tone test in the function is this exact, case-sensitive comparison. */
  predicate IsFormal(tone: string) { tone == "formal" }

  /** Some word of `words` occurs in the lower-cased context. */
  predicate Mentions(context: string, words: seq<string>)
    decreases |words|
  {
    |words| > 0 && (Contains(ToLower(context), words[0]) || Mentions(context, words[1..]))
  }

  lemma MentionsIff(context: string, words: seq<string>)
    ensures Mentions(context, words) <==> exists k :: 0 <= k < |words| && Contains(ToLower(context), words[k])
    decreases |words|
  {
    if |words| > 0 {
      MentionsIff(context, words[1..]);
      if exists k :: 0 <= k < |words| && Contains(ToLower(context), words[k]) {
        var k :| 0 <= k < |words| && Contains(ToLower(context), words[k]);
        if k > 0 {
          assert words[1..][k - 1] == words[k];
        }
      }
    }
  }

  // ---------------------------------------------------------------------------
  // analyzeContext
  // ---------------------------------------------------------------------------

  datatype Analysis = Analysis(
    isProductLaunch: bool,
    isRequestingFeedback: bool,
    isAnnouncement: bool,
    hasCallToAction: bool,
    isAboutSaas: bool,
    mentionsEfficiency: bool)

  function AnalyzeContext(context: string): Analysis {
    Analysis(
      isProductLaunch := Mentions(context, ["new"]) && Mentions(context, ["app", "product", "tool"]),
      isRequestingFeedback := Mentions(context, ["feedback", "review"]),
      isAnnouncement := Mentions(context, ["announce", "launch"]),
      hasCallToAction := Mentions(context, ["try", "look", "check"]),
      isAboutSaas := Mentions(context, ["saas", "application", "software"]),
      mentionsEfficiency := Mentions(context, ["skip", "save", "easier"]))
  }

  /** Flag `a` implies flag `b`, field by field. */
  predicate FlagsImply(a: Analysis, b: Analysis) {
    && (a.isProductLaunch ==> b.isProductLaunch)
    && (a.isRequestingFeedback ==> b.isRequestingFeedback)
    && (a.isAnnouncement ==> b.isAnnouncement)
    && (a.hasCallToAction ==> b.hasCallToAction)
    && (a.isAboutSaas ==> b.isAboutSaas)
    && (a.mentionsEfficiency ==> b.mentionsEfficiency)
  }

  /** Lower-casing preserves containment. */
  lemma ToLowerContains(big: string, small: string)
    requires Contains(big, small)
    ensures Contains(ToLower(big), ToLower(small))
  {
    ContainsIff(big, small);
    var i: nat :| OccursAt(big, i, small);
    assert ToLower(big)[i..i + |small|] == ToLower(small) by {
      forall k | 0 <= k < |small|
        ensures ToLower(big)[i..i + |small|][k] == ToLower(small)[k]
      {
        assert small[k] == big[i..i + |small|][k];
      }
    }
    ContainsWitness(ToLower(big), i, ToLower(small));
  }

  lemma {:induction false} MentionsMonotone(big: string, small: string, words: seq<string>)
    requires Contains(big, small) && Mentions(small, words)
    ensures Mentions(big, words)
    decreases |words|
  {
    ToLowerContains(big, small);
    if Contains(ToLower(small), words[0]) {
      ContainsTransitive(ToLower(big), ToLower(small), words[0]);
    } else {
      MentionsMonotone(big, small, words[1..]);
    }
  }

  /** Keyword flagging only looks for words: a context that contains another context
      raises at least the flags the smaller one raises. */
  lemma AnalyzeContextMonotone(big: string, small: string)
    requires Contains(big, small)
    ensures FlagsImply(AnalyzeContext(small), AnalyzeContext(big))
  {
    var ws := [["new"], ["app", "product", "tool"], ["feedback", "review"], ["announce", "launch"],
               ["try", "look", "check"], ["saas", "application", "software"], ["skip", "save", "easier"]];
    forall k | 0 <= k < |ws| && Mentions(small, ws[k])
      ensures Mentions(big, ws[k])
    {
      MentionsMonotone(big, small, ws[k]);
    }
    assert ws[0] == ["new"];
    assert ws[1] == ["app", "product", "tool"];
    assert ws[2] == ["feedback", "review"];
    assert ws[3] == ["announce", "launch"];
    assert ws[4] == ["try", "look", "check"];
    assert ws[5] == ["saas", "application", "software"];
    assert ws[6] == ["skip", "save", "easier"];
  }

  /** Appending text to a context never clears a flag. */
  lemma AnalyzeContextAppend(context: string, extra: string)
    ensures FlagsImply(AnalyzeContext(context), AnalyzeContext(context + extra))
  {
    assert OccursAt(context + extra, 0, context) by {
      assert (context + extra)[0..|context|] == context;
    }
    ContainsWitness(context + extra, 0, context);
    AnalyzeContextMonotone(context + extra, context);
  }

  // ---------------------------------------------------------------------------
  // generateSubject
  // ---------------------------------------------------------------------------

  // The literal subjects, including the characters the source file stores for its
  // emoji (UTF-8 bytes read as Windows-1252 text).
  const LaunchFeedbackFormal := "Introducing Our New Solution - Your Feedback Valued"
  const LaunchFeedbackCasual := "\U{00F0}\U{0178}\U{0161}\U{20AC} We've Built Something New - Would Love Your Thoughts!"
  const SaasFormal := "New SaaS Solution to Streamline Your Workflow"
  const SaasCasual := "Save Hours Weekly with Our New Tool \U{00E2}\U{0161}\U{00A1}"
  const EfficiencyFormal := "Streamline Your Business Communications"
  const EfficiencyCasual := "Cut Your Email Writing Time in Half \U{00F0}\U{0178}\U{201C}\U{00A7}"
  const ColdCasual := "Let's Explore Working Together! \U{00F0}\U{0178}\U{00A4}"
  const FollowUpSubject := "Following Up on Our Conversation"
  const OfferCasual := "Special Offer Just for You! \U{00F0}\U{0178}\U{017D}\U{2030}"
  const ApologySubject := "Our Sincere Apologies"

  /** The per-type subject table; None for a type the table has no key for. */
  function TypeSubject(emailType: string, businessType: string, tone: string): Option<string> {
    if emailType == "cold_email" then
      Some(if IsFormal(tone) then "Partnership Opportunity with " + businessType else ColdCasual)
    else if emailType == "follow_up" then Some(FollowUpSubject)
    else if emailType == "offer" then
      Some(if IsFormal(tone) then "Exclusive Offer from " + businessType else OfferCasual)
    else if emailType == "apology" then Some(ApologySubject)
    else if emailType == "partnership" then Some("Partnership Proposal from " + businessType)
    else None
  }

  /** True when one of the three context rules decides the subject. */
  predicate ContextDecidesSubject(a: Analysis) {
    || (a.isProductLaunch && a.isRequestingFeedback)
    || (a.isAnnouncement && a.isAboutSaas)
    || a.mentionsEfficiency
  }

  function GenerateSubject(emailType: string, businessType: string, a: Analysis, tone: string): (r: string)
    ensures |r| > 0
  {
    if a.isProductLaunch && a.isRequestingFeedback then
      (if IsFormal(tone) then LaunchFeedbackFormal else LaunchFeedbackCasual)
    else if a.isAnnouncement && a.isAboutSaas then
      (if IsFormal(tone) then SaasFormal else SaasCasual)
    else if a.mentionsEfficiency then
      (if IsFormal(tone) then EfficiencyFormal else EfficiencyCasual)
    else
      TypeSubject(emailType, businessType, tone).GetOr("Message from " + businessType)
  }

  /** When a context rule fires, neither the email type nor the business name matters,
      and the first rule in the order launch+feedback, announcement+SaaS, efficiency wins. */
  lemma SubjectPriority(t1: string, t2: string, b1: string, b2: string, a: Analysis, tone: string)
    requires ContextDecidesSubject(a)
    ensures GenerateSubject(t1, b1, a, tone) == GenerateSubject(t2, b2, a, tone)
    ensures a.isProductLaunch && a.isRequestingFeedback ==>
      GenerateSubject(t1, b1, a, tone) in {LaunchFeedbackFormal, LaunchFeedbackCasual}
    ensures !(a.isProductLaunch && a.isRequestingFeedback) && a.isAnnouncement && a.isAboutSaas ==>
      GenerateSubject(t1, b1, a, tone) in {SaasFormal, SaasCasual}
    ensures !(a.isProductLaunch && a.isRequestingFeedback) && !(a.isAnnouncement && a.isAboutSaas) ==>
      GenerateSubject(t1, b1, a, tone) in {EfficiencyFormal, EfficiencyCasual}
  {
  }

  /** With no context rule firing, the type table decides, and a type outside the
      table gets "Message from <business>". */
  lemma SubjectFromTable(emailType: string, businessType: string, a: Analysis, tone: string)
    requires !ContextDecidesSubject(a)
    ensures TypeSubject(emailType, businessType, tone).None? ==>
      GenerateSubject(emailType, businessType, a, tone) == "Message from " + businessType
    ensures TypeSubject(emailType, businessType, tone).Some? ==>
      GenerateSubject(emailType, businessType, a, tone) == TypeSubject(emailType, businessType, tone).value
    ensures emailType in {"follow_up", "apology"} ==>
      GenerateSubject(emailType, businessType, a, "formal") == GenerateSubject(emailType, businessType, a, tone)
  {
  }

  // ---------------------------------------------------------------------------
  // enhanceEmailBody
  // ---------------------------------------------------------------------------

  /** The fixed sentences of the fallback body in one tone. The formal voice names the
      recipient before its opening line; the casual one greets without a name. */
  datatype Voice = Voice(
    namesRecipient: bool,
    opening: string,
    pitch: string,
    generic: string,
    feedbackCta: string,
    discussCta: string,
    signOff: string)

  /** The wording of the fallback body: one voice for the exact tone "formal", one for
      every other tone. The body functions take it as a parameter; `SourceWording` is
      the wording the function ships with. */
  datatype Wording = Wording(formal: Voice, casual: Voice)

  const SourceWording := Wording(FormalVoice, CasualVoice)

  const FormalVoice := Voice(true, FormalOpening, FormalPitch, FormalGeneric, FormalFeedbackCta,
                             FormalDiscussCta, FormalSignOff)

  const CasualVoice := Voice(false, CasualOpening, CasualPitch, CasualGeneric, CasualFeedbackCta,
                             CasualDiscussCta, CasualSignOff)

  const FormalOpening := "I hope this email finds you well."
  const FormalPitch := "I'm excited to introduce SmartMail AI, an innovative solution designed to revolutionize how businesses handle email communications.\n\nOur platform eliminates the time-consuming process of manually crafting emails by providing AI-powered email generation. Simply select your email type, and our intelligent system creates professional, tailored messages instantly.\n\nThis solution is particularly valuable for growing businesses and professionals who want to maintain high-quality communications while focusing on their core activities."
  const FormalGeneric := "I wanted to reach out regarding an opportunity that I believe could be of significant value to you.\n\nWe've developed a solution that addresses common challenges in business communications, specifically focusing on efficiency and professional quality. Our approach has already helped numerous clients streamline their processes and achieve better results.\n\nI believe this could be particularly relevant for your current needs."
  const FormalFeedbackCta := "I would greatly appreciate the opportunity to hear your thoughts and gather your valuable feedback on this solution."
  const FormalDiscussCta := "I would welcome the opportunity to discuss this further and explore how we might work together."
  const FormalSignOff := "Thank you for your time and consideration.\n\nBest regards,\n"

  const CasualOpening := "Hi there!\n\nHope you're doing great!"
  const CasualPitch := "I've got something exciting to share with you! We've just launched SmartMail AI - a game-changing tool that's going to save you tons of time on email writing.\n\nInstead of staring at a blank screen or copying templates, you just pick what kind of email you need, and our AI creates it for you. It's perfect for busy professionals and growing businesses who want to communicate effectively without the hassle."
  const CasualGeneric := "I wanted to share something that I think you'll find really interesting!\n\nWe've been working on a solution that makes business communications so much easier and more effective. The feedback has been amazing, and I genuinely think it could be a game-changer for you too.\n\nLet me know what you think!"
  const CasualFeedbackCta := "I'd absolutely love to get your honest feedback and hear what you think!"
  const CasualDiscussCta := "Would love to chat more about this and see if it's a good fit for you!"
  const CasualSignOff := "Thanks for taking the time to read this!\n\nCheers,\n"

  function VoiceOf(w: Wording, tone: string): Voice {
    if IsFormal(tone) then w.formal else w.casual
  }

  /** The SmartMail pitch branch: the context mentions the email tool and "ai". */
  predicate PitchBranch(context: string) {
    Mentions(context, ["smartmail", "email"]) && Mentions(context, ["ai"])
  }

  /** The feedback call-to-action branch. */
  predicate FeedbackBranch(context: string) {
    Mentions(context, ["feedback", "rate"])
  }

  function Greeting(v: Voice, recipientType: string): string {
    if v.namesRecipient then "Dear " + recipientType + ",\n\n" + v.opening else v.opening
  }

  function MainContent(v: Voice, pitch: bool): string {
    if pitch then v.pitch else v.generic
  }

  function CallToAction(v: Voice, feedback: bool): string {
    if feedback then v.feedbackCta else v.discussCta
  }

  function Closing(v: Voice, businessType: string): string {
    v.signOff + businessType + " Team"
  }

  /** Three texts joined by blank lines; the first and the last survive at the ends. */
  function Blocks(first: string, middle: string, last: string): (r: string)
    ensures StartsWith(r, first) && EndsWith(r, last)
    ensures OccursAt(r, |first| + 2, middle)
  {
    var r := first + "\n\n" + middle + "\n\n" + last;
    assert r[..|first|] == first;
    assert r[|r| - |last|..] == last;
    assert r[|first| + 2..|first| + 2 + |middle|] == middle;
    r
  }

  /** The fallback body: greeting, main content, call to action and closing, separated
      by blank lines, all in the voice of the tone. The word filter over the context in
      the generic branch computes a list the body never uses, so it is not modelled;
      `emailType` is not read. */
  function EnhanceEmailBody(w: Wording, emailType: string, recipientType: string, businessType: string,
                            context: string, tone: string): (r: string)
    ensures StartsWith(r, Greeting(VoiceOf(w, tone), recipientType))
    ensures EndsWith(r, Closing(VoiceOf(w, tone), businessType))
  {
    var v := VoiceOf(w, tone);
    Blocks(Greeting(v, recipientType),
           MainContent(v, PitchBranch(context)) + "\n\n" + CallToAction(v, FeedbackBranch(context)),
           Closing(v, businessType))
  }

  /** The main content and the call to action sit at fixed offsets after the greeting:
      the context only decides which of the voice's two texts fills each slot. */
  lemma EnhanceEmailBodyBlocks(w: Wording, emailType: string, recipientType: string, businessType: string,
                               context: string, tone: string)
    ensures var v := VoiceOf(w, tone);
      var r := EnhanceEmailBody(w, emailType, recipientType, businessType, context, tone);
      var main := MainContent(v, PitchBranch(context));
      && OccursAt(r, |Greeting(v, recipientType)| + 2, main)
      && OccursAt(r, |Greeting(v, recipientType)| + |main| + 4, CallToAction(v, FeedbackBranch(context)))
  {
    var v := VoiceOf(w, tone);
    var g := Greeting(v, recipientType);
    var main := MainContent(v, PitchBranch(context));
    var cta := CallToAction(v, FeedbackBranch(context));
    var middle := main + "\n\n" + cta;
    var r := EnhanceEmailBody(w, emailType, recipientType, businessType, context, tone);
    assert OccursAt(r, |g| + 2, middle);
    OccursPieces(r, |g| + 2, main, "\n\n", cta);
  }

  /** A formal body opens "Dear <recipient>," when its voice names the recipient, and
      every body ends with the sign-off followed by "<business> Team". */
  lemma EnhanceEmailBodyEnds(w: Wording, emailType: string, recipientType: string, businessType: string,
                             context: string, tone: string)
    requires IsFormal(tone) && w.formal.namesRecipient
    ensures var r := EnhanceEmailBody(w, emailType, recipientType, businessType, context, tone);
      && StartsWith(r, "Dear " + recipientType + ",\n\n")
      && EndsWith(r, businessType + " Team")
  {
    var v := VoiceOf(w, tone);
    var r := EnhanceEmailBody(w, emailType, recipientType, businessType, context, tone);
    var g := Greeting(v, recipientType);
    var d := "Dear " + recipientType + ",\n\n";
    assert g[..|d|] == d;
    assert r[..|d|] == r[..|g|][..|d|];
    var c := Closing(v, businessType);
    var t := businessType + " Team";
    assert c[|c| - |t|..] == t;
    assert r[|r| - |t|..] == r[|r| - |c|..][|c| - |t|..];
  }

  /** With the shipped wording, a formal body opens with the named recipient and "I
      hope this email finds you well." and ends "Best regards," over the business's
      team. */
  lemma ShippedFormalEnds(emailType: string, recipientType: string, businessType: string,
                          context: string, tone: string)
    ensures var r := EnhanceEmailBody(SourceWording, emailType, recipientType, businessType, context, tone);
      IsFormal(tone) ==>
        && StartsWith(r, "Dear " + recipientType + ",\n\n" + "I hope this email finds you well.")
        && EndsWith(r, "Thank you for your time and consideration.\n\nBest regards,\n" + businessType + " Team")
  {
    var v := VoiceOf(SourceWording, tone);
    assert IsFormal(tone) ==> v == FormalVoice;
  }

  /** With the shipped wording, any other tone opens "Hi there!" and ends "Cheers,"
      over the business's team. */
  lemma ShippedCasualEnds(emailType: string, recipientType: string, businessType: string,
                          context: string, tone: string)
    ensures var r := EnhanceEmailBody(SourceWording, emailType, recipientType, businessType, context, tone);
      !IsFormal(tone) ==>
        && StartsWith(r, "Hi there!\n\nHope you're doing great!")
        && EndsWith(r, "Thanks for taking the time to read this!\n\nCheers,\n" + businessType + " Team")
  {
    var v := VoiceOf(SourceWording, tone);
    assert !IsFormal(tone) ==> v == CasualVoice;
  }

  /** The body does not depend on the email type, and depends on the context only
      through the pitch and feedback branch decisions. */
  lemma EnhanceContextOnlySelects(w: Wording, t1: string, t2: string, recipientType: string,
                                  businessType: string, c1: string, c2: string, tone: string)
    requires PitchBranch(c1) == PitchBranch(c2) && FeedbackBranch(c1) == FeedbackBranch(c2)
    ensures EnhanceEmailBody(w, t1, recipientType, businessType, c1, tone)
         == EnhanceEmailBody(w, t2, recipientType, businessType, c2, tone)
  {
  }

  /** "smartmail" and "email" both contain "ai", so the "ai" test adds nothing: the
      pitch branch is taken exactly when the context mentions "smartmail" or "email". */
  lemma PitchBranchIff(context: string)
    ensures PitchBranch(context) <==>
      Contains(ToLower(context), "smartmail") || Contains(ToLower(context), "email")
  {
    var l := ToLower(context);
    assert "smartmail"[6..8] == "ai";
    assert "email"[2..4] == "ai";
    ContainsWitness("smartmail", 6, "ai");
    ContainsWitness("email", 2, "ai");
    if Contains(l, "smartmail") {
      ContainsTransitive(l, "smartmail", "ai");
    }
    if Contains(l, "email") {
      ContainsTransitive(l, "email", "ai");
    }
  }

  // ---------------------------------------------------------------------------
  // generateIntelligentEmail
  // ---------------------------------------------------------------------------

  /** The template answer used when no model produces text: the subject of the
      analysed context and the fallback body. */
  function GenerateIntelligentEmail(w: Wording, b: Brief): (e: Email)
    ensures |e.subject| > 0
    ensures e.subject == GenerateSubject(b.emailType, b.businessType, AnalyzeContext(b.context), b.tone)
    ensures e.body == EnhanceEmailBody(w, b.emailType, b.recipientType, b.businessType, b.context, b.tone)
    ensures StartsWith(e.body, Greeting(VoiceOf(w, b.tone), b.recipientType))
    ensures EndsWith(e.body, Closing(VoiceOf(w, b.tone), b.businessType))
  {
    Email(GenerateSubject(b.emailType, b.businessType, AnalyzeContext(b.context), b.tone),
          EnhanceEmailBody(w, b.emailType, b.recipientType, b.businessType, b.context, b.tone))
  }

  /** A context without any of the letters w, o, u, k, v and r, in either case, raises
      none of the subject rules: each rule's keywords all use one of those letters. */
  lemma QuietContext(c: string)
    requires forall ch :: ch in "wWoOuUkKvVrR" ==> ch !in c
    ensures !ContextDecidesSubject(AnalyzeContext(c))
  {
    var l := ToLower(c);
    ToLowerMissing(c, 'w');
    ToLowerMissing(c, 'o');
    ToLowerMissing(c, 'u');
    ToLowerMissing(c, 'k');
    ToLowerMissing(c, 'v');
    ToLowerMissing(c, 'r');
    MissingCharNotContained(l, "new", 2);
    MissingCharNotContained(l, "announce", 4);
    MissingCharNotContained(l, "launch", 2);
    MissingCharNotContained(l, "skip", 1);
    MissingCharNotContained(l, "save", 2);
    MissingCharNotContained(l, "easier", 5);
  }

  /** A formal apology whose context has none of those letters ("missed a deadline",
      say) gets the apology entry of the subject table, whatever the business. */
  lemma ApologyScenario(w: Wording, b: Brief)
    requires b.emailType == "apology" && b.tone == "formal"
    requires forall ch :: ch in "wWoOuUkKvVrR" ==> ch !in b.context
    ensures GenerateIntelligentEmail(w, b).subject == "Our Sincere Apologies"
  {
    QuietContext(b.context);
    SubjectFromTable(b.emailType, b.businessType, AnalyzeContext(b.context), b.tone);
  }

  /** A formal brief whose context mentions "save" in any case and has no letter n
      gets the efficiency subject, whatever its type: "new", "announce" and "launch"
      all need an n, so neither earlier rule can fire. */
  lemma EfficiencyScenario(w: Wording, b: Brief)
    requires b.tone == "formal"
    requires Contains(ToLower(b.context), "save")
    requires 'n' !in b.context && 'N' !in b.context
    ensures GenerateIntelligentEmail(w, b).subject == EfficiencyFormal
  {
    EfficiencyOnly(b.context);
  }

  /** The analysis behind the scenario: efficiency is flagged, launch and announcement are not. */
  lemma EfficiencyOnly(context: string)
    requires Contains(ToLower(context), "save")
    requires 'n' !in context && 'N' !in context
    ensures var a := AnalyzeContext(context);
      a.mentionsEfficiency && !a.isProductLaunch && !a.isAnnouncement
  {
    SaveMentioned(context);
    NoLetterN(context);
  }

  lemma SaveMentioned(context: string)
    requires Contains(ToLower(context), "save")
    ensures Mentions(context, ["skip", "save", "easier"])
  {
    var words := ["skip", "save", "easier"];
    assert words[1] == "save";
    MentionsIff(context, words);
  }

  lemma NoLetterN(context: string)
    requires 'n' !in context && 'N' !in context
    ensures !Mentions(context, ["new"]) && !Mentions(context, ["announce", "launch"])
  {
    var l := ToLower(context);
    ToLowerMissing(context, 'n');
    MissingCharNotContained(l, "new", 0);
    MissingCharNotContained(l, "announce", 1);
    MissingCharNotContained(l, "launch", 3);
    MentionsIff(context, ["new"]);
    MentionsIff(context, ["announce", "launch"]);
  }

  /** No text of a wording holds the character `c`. */
  predicate WordingFree(w: Wording, c: char) {
    VoiceFree(w.formal, c) && VoiceFree(w.casual, c)
  }

  predicate VoiceFree(v: Voice, c: char) {
    && c !in v.opening && c !in v.pitch && c !in v.generic
    && c !in v.feedbackCta && c !in v.discussCta && c !in v.signOff
  }

  /** The fallback body has no "{" of a placeholder left in it: every piece is either
      a text of the wording, one of the two names, or a fixed separator without "{". */
  lemma FallbackBodyResolved(w: Wording, emailType: string, recipientType: string, businessType: string,
                             context: string, tone: string)
    requires WordingFree(w, '{')
    requires '{' !in recipientType && '{' !in businessType
    ensures '{' !in EnhanceEmailBody(w, emailType, recipientType, businessType, context, tone)
  {
  }

  // ---------------------------------------------------------------------------
  // createRefinedPrompt
  // ---------------------------------------------------------------------------

  /** The fixed text of the prompt: the opening paragraph, the two instruction tables
      with the generic instruction for an unknown type, the writing rules, and the
      requested answer layout. The prompt functions take it as a parameter;
      `SourcePrompt` is the text the function ships with. */
  datatype PromptText = PromptText(
    header: string,
    typeInstructions: map<string, string>,
    defaultTypeInstruction: string,
    toneInstructions: map<string, string>,
    rules: string,
    format: string)

  const SourcePrompt := PromptText(
    "You are a professional business email writer. Create a complete, polished email based on the following information:\n\n",
    map[
      "cold_email" := "Write a professional cold outreach email that introduces your business and creates interest.",
      "follow_up" := "Write a polite follow-up email that continues a previous conversation or inquiry.",
      "offer" := "Write an engaging email presenting a valuable offer or opportunity.",
      "apology" := "Write a sincere, professional apology email that takes responsibility and offers resolution.",
      "partnership" := "Write a professional partnership proposal email that highlights mutual benefits."],
    "Write a professional business email",
    map[
      "formal" := "Write in a professional, respectful, and business-appropriate tone.",
      "friendly" := "Write in a warm, approachable, and conversational tone while maintaining professionalism.",
      "persuasive" := "Write in a compelling, convincing tone that motivates action while being respectful."],
    "- Transform the provided context into a refined, professional message\n- Don't just copy the context - interpret it and write a polished version\n- Include a compelling subject line\n- Keep the email concise but impactful (150-250 words)\n- End with an appropriate call-to-action\n- Make it ready to send without further editing\n\n",
    "Format your response as:\nSubject: [Professional subject line]\n\nDear [Recipient],\n\n[Polished email body that interprets and refines the context]\n\nBest regards,\n[Sender name/business]")

  /** A table lookup as a template literal renders it: the entry, or the text
      "undefined" for a key the table lacks. */
  function Lookup(table: map<string, string>, key: string): Option<string> {
    if key in table then Some(table[key]) else None
  }

  /** The labelled lines of the brief, in prompt order. */
  function BriefFields(b: Brief): seq<string> {
    ["Email Type: " + b.emailType, "Writing to: " + b.recipientType, "From: " + b.businessType,
     "Context/Background: " + b.context, "Tone: " + b.tone]
  }

  /** The brief block of the prompt: its lines, then a blank line. */
  function BriefLines(b: Brief): string {
    Join(BriefFields(b), "\n") + "\n\n"
  }

  /** The two instruction lines: an unknown type falls back to the generic instruction;
      an unknown tone has no entry and is interpolated as the text "undefined". */
  function InstructionLines(p: PromptText, b: Brief): string {
    "Instructions:\n- " + Lookup(p.typeInstructions, b.emailType).GetOr(p.defaultTypeInstruction)
      + "\n- " + Lookup(p.toneInstructions, b.tone).GetOr("undefined") + "\n"
  }

  /** Where the parts of a prompt sit in their concatenation. */
  lemma PromptPieces(header: string, brief: string, instructions: string, rules: string, format: string)
    ensures var r := header + (brief + "\n\n") + instructions + rules + format;
      && StartsWith(r, header) && EndsWith(r, format)
      && OccursAt(r, |header|, brief)
      && OccursAt(r, |header| + |brief| + 2, instructions)
  {
    var front := header + (brief + "\n\n");
    BriefPiece(header, brief, instructions + rules + format);
    assert front + instructions + rules + format == front + (instructions + rules + format);
    InstructionsPiece(front, instructions, rules, format);
    assert header[..|header|] == header;
    AffixAppend(header, (brief + "\n\n") + instructions + rules + format, header);
    assert header + ((brief + "\n\n") + instructions + rules + format) == front + instructions + rules + format;
    assert format[|format| - |format|..] == format;
    AffixAppend(front + instructions + rules, format, format);
  }

  lemma BriefPiece(header: string, brief: string, rest: string)
    ensures OccursAt(header + (brief + "\n\n") + rest, |header|, brief)
  {
    assert brief[0..|brief|] == brief;
    OccursAppend(brief, "\n\n", 0, brief);
    OccursAppend(header, brief + "\n\n", 0, brief);
    OccursAppend(header + (brief + "\n\n"), rest, |header|, brief);
  }

  lemma InstructionsPiece(front: string, instructions: string, rules: string, format: string)
    ensures OccursAt(front + instructions + rules + format, |front|, instructions)
  {
    assert instructions[0..|instructions|] == instructions;
    OccursAppend(front, instructions, 0, instructions);
    OccursAppend(front + instructions, rules, |front|, instructions);
    OccursAppend(front + instructions + rules, format, |front|, instructions);
  }

  lemma RulesPiece(front: string, rules: string, format: string)
    ensures OccursAt(front + rules + format, |front|, rules)
  {
    assert rules[0..|rules|] == rules;
    OccursAppend(front, rules, 0, rules);
    OccursAppend(front + rules, format, |front|, rules);
  }

  lemma BlockPiece(header: string, block: string, instructions: string, rules: string, format: string)
    ensures OccursAt(header + block + instructions + rules + format, |header|, block)
  {
    assert block[0..|block|] == block;
    OccursAppend(header, block, 0, block);
    OccursAppend(header + block, instructions, |header|, block);
    OccursAppend(header + block + instructions, rules, |header|, block);
    OccursAppend(header + block + instructions + rules, format, |header|, block);
  }

  function CreateRefinedPrompt(p: PromptText, b: Brief): (r: string)
    ensures StartsWith(r, p.header) && EndsWith(r, p.format)
    ensures OccursAt(r, |p.header|, Join(BriefFields(b), "\n"))
    ensures OccursAt(r, |p.header|, BriefLines(b))
    ensures OccursAt(r, |p.header| + |BriefLines(b)|, InstructionLines(p, b))
    ensures OccursAt(r, |p.header| + |BriefLines(b)| + |InstructionLines(p, b)|, p.rules)
    ensures |r| == |p.header| + |BriefLines(b)| + |InstructionLines(p, b)| + |p.rules| + |p.format|
  {
    PromptPieces(p.header, Join(BriefFields(b), "\n"), InstructionLines(p, b), p.rules, p.format);
    RulesPiece(p.header + BriefLines(b) + InstructionLines(p, b), p.rules, p.format);
    BlockPiece(p.header, BriefLines(b), InstructionLines(p, b), p.rules, p.format);
    p.header + BriefLines(b) + InstructionLines(p, b) + p.rules + p.format
  }

  /** The brief block reads back line by line: when no field of the brief holds a line
      break, splitting the block at line breaks gives exactly the five labelled lines,
      each field verbatim after its label. */
  lemma BriefLinesReadBack(b: Brief)
    requires '\n' !in b.emailType && '\n' !in b.recipientType && '\n' !in b.businessType
    requires '\n' !in b.context && '\n' !in b.tone
    ensures Split(Join(BriefFields(b), "\n"), '\n') == BriefFields(b)
  {
    var f := BriefFields(b);
    forall k | 0 <= k < |f|
      ensures '\n' !in f[k]
    {
    }
    SplitJoin(f, '\n');
  }

  /** A tone the table lacks gives the instruction line "- undefined"; a type the
      table lacks gives the generic instruction. */
  lemma InstructionFallbacks(p: PromptText, b: Brief)
    ensures b.tone !in p.toneInstructions ==> EndsWith(InstructionLines(p, b), "\n- undefined\n")
    ensures b.emailType !in p.typeInstructions ==>
      StartsWith(InstructionLines(p, b), "Instructions:\n- " + p.defaultTypeInstruction + "\n- ")
  {
    var l := InstructionLines(p, b);
    var ty := Lookup(p.typeInstructions, b.emailType).GetOr(p.defaultTypeInstruction);
    var tn := Lookup(p.toneInstructions, b.tone).GetOr("undefined");
    var head := "Instructions:\n- " + ty + "\n- ";
    assert l == head + tn + "\n";
    assert l[..|head|] == head;
    assert l[|l| - |"\n- " + tn + "\n"|..] == "\n- " + tn + "\n";
  }
}
