# SmartMail AI — a Dafny model of the email composer, the free/pro gates and the payment checks

SmartMail AI writes business emails. A user fills in a five-field form: email type, recipient,
business, context and tone. A free account may generate three emails a day; a pro account has no
limit and may also add personalization fields, apply templates from a library, and save emails to
a history page. The pro flag is set by a payment flow built on the Razorpay gateway: one function
creates an order, one verifies the payment signature and upgrades the account, and one reports
the subscription window.

This project models the deterministic core of that system as pure Dafny functions over ASCII
strings (`seq<char>`) and immutable records, and proves what each piece promises:

- `EmailComposer` is the template half of the generate-email function:
  - keyword analysis of the context;
  - the prioritised subject table;
  - the four-block fallback body;
  - the instruction prompt.

  The fixed sentences of the body and of the prompt are data: `Wording` and `PromptText`.
  `SourceWording` and `SourcePrompt` hold the text the function ships with. The properties
  hold for any wording; `ShippedFormalEnds` and `ShippedCasualEnds` state the shipped
  greetings and closings.
- `EmailParser` turns a model's reply into an email:
  - an exact matcher for the case-insensitive `Subject:` regular expression, including how `\s*`
    backtracks and how the lazy capture stops;
  - the placeholder clean-up;
  - the rule that swaps in the fallback body;
  - the request handler: the first usable model reply, otherwise the fallback.
- `Dashboard` covers the generate and save buttons:
  - the form check, the three-a-day quota and the counter;
  - the personalization block and the template wrapper;
  - the category-to-type mapping.
- `Personalization` is the field list: add, remove, update, the custom field, grouping by
  category and the quick-add offers.
- `Templates` is the template library: the catalog's index, category tabs, preview, variable
  badges and the copy format.
- `History` is the history page: the email-type label, the tone colours and badge, deletion, and
  the pro gate before loading.
- `VerifyPayment`, `CreateOrder`, `CheckSubscription` and `PaymentHistory` are the payment
  functions and the billing card.
- `Strings` models the JavaScript string operations the code uses (`trim`, `toLowerCase`,
  `includes`, `replace`, `split`, `join`, `substring`) with the properties the other modules
  need. `Wrappers` holds `Option`, `Result` and JavaScript truthiness of an optional string
  (`Present`).

The network, the clock, the random transaction id and HMAC-SHA256 enter as parameters:
- the model replies are a sequence of optional texts;
- a gateway or `respond` function stands for a remote endpoint;
- the clock reading is `now`;
- HMAC-SHA256 is `hmac`.

Three behaviours of the code that its own names do not suggest are kept as written:
- The template category `Follow-up` (EmailTemplatesLibrary.tsx:153) becomes the email
  type "follow-up" (Dashboard.tsx:145), not the form's select value `follow_up`
  (Dashboard.tsx:452): only a space is replaced (`Dashboard.OneWordCategory`).
- A tone other than the exact string "formal" gets the casual voice.
- A tone that is not a key of the tone table is written into the prompt as the text
  "undefined".

## Model

| member | source | states |
|---|---|---|
| EmailComposer.MentionsIff | supabase/functions/generate-email/index.ts:206-214 | a keyword list is mentioned iff one of its words is a substring of the lower-cased context |
| EmailComposer.ToLowerContains | supabase/functions/generate-email/index.ts:208 | a substring stays a substring after both are lower-cased |
| EmailComposer.MentionsMonotone | supabase/functions/generate-email/index.ts:206-214 | a text that contains a context mentions every keyword that context mentions |
| EmailComposer.AnalyzeContextMonotone | supabase/functions/generate-email/index.ts:206-217 | `AnalyzeContext`: every flag raised for a context is raised for any text containing it |
| EmailComposer.AnalyzeContextAppend | supabase/functions/generate-email/index.ts:206-217 | appending text to the context never clears a flag |
| EmailComposer.GenerateSubject | supabase/functions/generate-email/index.ts:219-252 | the subject is never empty |
| EmailComposer.SubjectPriority | supabase/functions/generate-email/index.ts:220-236 | once a context rule fires, type and business do not matter, and launch+feedback beats announcement+SaaS, which beats efficiency |
| EmailComposer.SubjectFromTable | supabase/functions/generate-email/index.ts:238-251 | with no context rule, the per-type entry of `TypeSubject` is used, else "Message from <business>"; the follow_up and apology entries ignore the tone |
| EmailComposer.QuietContext | supabase/functions/generate-email/index.ts:206-236 | a context without the letters w, o, u, k, v, r raises no subject rule |
| EmailComposer.ApologyScenario | supabase/functions/generate-email/index.ts:196-204 | a formal apology with such a context gets "Our Sincere Apologies" |
| EmailComposer.Blocks | supabase/functions/generate-email/index.ts:295 | three texts joined by blank lines begin with the first, end with the last, and hold the middle right after the first blank line |
| EmailComposer.EnhanceEmailBody | supabase/functions/generate-email/index.ts:254-296 | the body begins with the greeting and ends with the closing of the tone's voice |
| EmailComposer.EnhanceEmailBodyBlocks | supabase/functions/generate-email/index.ts:265-295 | the main content and the call to action sit at fixed offsets after the greeting, as chosen by the pitch and feedback branches |
| EmailComposer.EnhanceEmailBodyEnds | supabase/functions/generate-email/index.ts:261-263 | a formal body begins "Dear <recipient>,\n\n" and every body ends "<business> Team" |
| EmailComposer.FallbackBodyResolved | supabase/functions/generate-email/index.ts:254-296 | the template body holds no "{" when the wording texts, the recipient and the business hold none: no placeholder is left unresolved |
| EmailComposer.ShippedFormalEnds | supabase/functions/generate-email/index.ts:260-293 | with the shipped wording, a formal body opens "Dear <recipient>,\n\nI hope this email finds you well." and ends with the thanks, "Best regards," and "<business> Team" |
| EmailComposer.ShippedCasualEnds | supabase/functions/generate-email/index.ts:260-293 | with the shipped wording, a casual body opens "Hi there!\n\nHope you're doing great!" and ends with the thanks, "Cheers," and "<business> Team" |
| EmailComposer.EnhanceContextOnlySelects | supabase/functions/generate-email/index.ts:254-296 | the body is independent of the email type, and of the context beyond its two branch decisions |
| EmailComposer.PitchBranchIff | supabase/functions/generate-email/index.ts:256-267 | the SmartMail pitch is taken iff the lower-cased context contains "smartmail" or "email" |
| EmailComposer.GenerateIntelligentEmail | supabase/functions/generate-email/index.ts:196-204 | the fallback email has a non-empty subject and a body framed by the tone's greeting and closing; its subject is the one `GenerateSubject` picks for the keyword analysis of the context, and its body is the template body for the brief |
| EmailComposer.EfficiencyScenario | supabase/functions/generate-email/index.ts:207-236 | a formal brief whose context mentions "save" and has no letter n gets the formal efficiency subject, since the launch and announcement rules both need an n |
| EmailComposer.PromptPieces | supabase/functions/generate-email/index.ts:140-166 | the prompt begins with the header, ends with the format, and holds the brief and the instructions at their offsets |
| EmailComposer.BriefPiece | supabase/functions/generate-email/index.ts:140-147 | the brief sits right after the header |
| EmailComposer.InstructionsPiece | supabase/functions/generate-email/index.ts:148-150 | the instruction lines sit right after the brief block |
| EmailComposer.CreateRefinedPrompt | supabase/functions/generate-email/index.ts:125-167 | the prompt is the header, the five labelled brief lines, the two instruction lines, the rules and the answer format, each at its offset, and nothing else |
| EmailComposer.BriefLinesReadBack | supabase/functions/generate-email/index.ts:142-146 | fields without line breaks split back out of the brief block unchanged |
| EmailComposer.InstructionFallbacks | supabase/functions/generate-email/index.ts:149-150 | a tone that is not a key of the tone table renders as "undefined", and a type that is not a key of the type table gets the generic instruction |
| EmailParser.SpaceRun | supabase/functions/generate-email/index.ts:174 | the greedy `\s*` run: all white space, ending at non-space or the end |
| EmailParser.SpaceRunIs | supabase/functions/generate-email/index.ts:182 | white space up to a non-space or the end is exactly the `\s` run found |
| EmailParser.SpaceRunPieces | supabase/functions/generate-email/index.ts:182 | white space between two texts, the second not starting with white space, is exactly the run |
| EmailParser.GreetingSpaces | supabase/functions/generate-email/index.ts:182 | the run after "Dear" stops at the bracket of "[Recipient]" |
| EmailParser.LineEnd | supabase/functions/generate-email/index.ts:174 | the first line terminator at or after a position, or the end of the text |
| EmailParser.LineEndIs | supabase/functions/generate-email/index.ts:174 | any position preceded only by non-terminators and followed by a terminator or the end is that line end |
| EmailParser.LazyLineShape | supabase/functions/generate-email/index.ts:174 | the lazy capture succeeds iff a non-empty terminator-free run followed by a line feed or the end exists, and returns one |
| EmailParser.BacktrackSpaces | supabase/functions/generate-email/index.ts:174 | backtracking `\s*` finds the longest space prefix after which the capture succeeds, or proves none does |
| EmailParser.MatchAt | supabase/functions/generate-email/index.ts:174 | a match attempted at a position starts there |
| EmailParser.MatchAtSpec | supabase/functions/generate-email/index.ts:174 | a match found at a position has the regex's shape and the longest space run; none found means no match starts there |
| EmailParser.FirstWhere | supabase/functions/generate-email/index.ts:174 | the regex scan: the first position in range that satisfies the test, or none in range |
| EmailParser.FindSubjectShape | supabase/functions/generate-email/index.ts:174 | a match found has the regex's shape |
| EmailParser.FindSubjectBefore | supabase/functions/generate-email/index.ts:174 | whenever a match exists, one is found that starts no later |
| EmailParser.FindSubjectSpec | supabase/functions/generate-email/index.ts:174 | `FindSubject` finds the leftmost match, and finds none iff the text has no match |
| EmailParser.SubjectLabelMatches | supabase/functions/generate-email/index.ts:174 | "Subject:" matches the case-insensitive label |
| EmailParser.SubjectLineFirst | supabase/functions/generate-email/index.ts:174 | "Subject: <line>\n" at the start is matched with the line as capture |
| EmailParser.PromptLayoutRoundTrip | supabase/functions/generate-email/index.ts:174-178 | a reply in the requested layout yields its trimmed subject and its trimmed rest as body |
| EmailParser.SpaceRunToEnd | supabase/functions/generate-email/index.ts:174 | the space run over trailing white space reaches the end |
| EmailParser.BlankSubjectLine | supabase/functions/generate-email/index.ts:174-176 | "Subject:" followed only by spaces gives an empty subject, since the backtracked capture is a single space |
| EmailParser.ExtractSubject | supabase/functions/generate-email/index.ts:170-178 | without a match, the default subject and the text unchanged; with one, the trimmed capture of the match `FindSubject` finds, and the text with that match cut out, trimmed |
| EmailParser.DefaultSubjectTypes | supabase/functions/generate-email/index.ts:170 | `DefaultSubject` names a type without "_" as it is, and turns only the first underscore of "x_y" into a space |
| EmailParser.ReplaceDear | supabase/functions/generate-email/index.ts:182 | a text not opening with "dear" in any case is kept, and a changed text starts "Dear <recipient>" |
| EmailParser.ReplaceDearGreeting | supabase/functions/generate-email/index.ts:182 | "Dear", white space and "[Recipient]", in any case, at the start become "Dear <recipient>" and the rest is kept |
| EmailParser.BracketClose | supabase/functions/generate-email/index.ts:185 | the first `]` on the same line, with no `]` or terminator before it |
| EmailParser.BracketCloseIs | supabase/functions/generate-email/index.ts:185 | a `]` with no `]` or line terminator before it is where `.*?\]` stops |
| EmailParser.RemoveYourTags | supabase/functions/generate-email/index.ts:185 | cutting tags never lengthens the text |
| EmailParser.RemoveYourTagsNoBracket | supabase/functions/generate-email/index.ts:185 | a text without `[` is left as it is |
| EmailParser.RemoveYourTagsKeeps | supabase/functions/generate-email/index.ts:185 | every character left was in the text |
| EmailParser.RemoveYourTagsPrefix | supabase/functions/generate-email/index.ts:185 | a head without `[` is kept and the scan resumes after it |
| EmailParser.RemoveYourTagsCut | supabase/functions/generate-email/index.ts:185 | a "[Your" tag in any case, up to the first `]` on its line, is cut after the bracket-free text before it |
| EmailParser.CleanUpNoBracket | supabase/functions/generate-email/index.ts:181-186 | a body without `[` is only trimmed, whatever the names |
| EmailParser.CleanUpSigned | supabase/functions/generate-email/index.ts:181-186 | `CleanUp` of the greeting placeholder, bracket-free text and the sender placeholder is "Dear <recipient>", that text and the business, trimmed |
| EmailParser.RecipientPlaceholderCase | supabase/functions/generate-email/index.ts:161 | the prompt's "[Recipient]" lower-cases to the pattern |
| EmailParser.SenderPlaceholderCase | supabase/functions/generate-email/index.ts:166 | the prompt's "[Sender name/business]" lower-cases to the pattern |
| EmailParser.ParseAndRefineEmail | supabase/functions/generate-email/index.ts:169-194 | the subject is the extracted one; the body is the cleaned reply text when that has 100+ characters and does not contain the context's first 50, and the fallback body otherwise |
| EmailParser.PromptLayoutEmail | supabase/functions/generate-email/index.ts:169-194 | for a reply "Subject: s\n" + rest in the requested layout, the email's subject is the trimmed s, and its body is the cleaned, trimmed rest unless that is under 100 characters or repeats the context's first 50, when it is the fallback body |
| EmailParser.ParseAndRefineIndependent | supabase/functions/generate-email/index.ts:169-194 | the subject depends only on the reply, the type and the business; a reply body that is kept does not depend on the wording of the fallback |
| EmailParser.EmptyContextFallsBack | supabase/functions/generate-email/index.ts:189-191 | an empty context always forces the fallback body |
| EmailParser.FirstOf | supabase/functions/generate-email/index.ts:31-79 | the index of the first element passing the test, or none passes |
| EmailParser.FirstUsable | supabase/functions/generate-email/index.ts:58-60 | the first model reply with non-blank text, or none has one |
| EmailParser.RespondSpec | supabase/functions/generate-email/index.ts:31-93 | `Respond` parses the first usable reply, or answers with the fallback email when none is usable |
| EmailParser.HandleRequest | supabase/functions/generate-email/index.ts:110-121 | with the body either parsed into five strings or not parsed at all: an unparseable body is answered with exactly the fixed error, and a parsed one with the email `Respond` gives |
| Dashboard.Filled | src/pages/Dashboard.tsx:177 | only fields whose trimmed value is non-empty, and every such field |
| Dashboard.FilledAppend | src/pages/Dashboard.tsx:177 | filtering keeps order and repetitions: it distributes over concatenation, and a single field is kept iff its value is not blank |
| Dashboard.DetailLine | src/pages/Dashboard.tsx:178 | "label: value" with the value as typed |
| Dashboard.JoinNonEmpty | src/pages/Dashboard.tsx:179-181 | a join whose first line is non-empty is non-empty |
| Dashboard.PersonalizationDataEmpty | src/pages/Dashboard.tsx:176-181 | `PersonalizationData` is empty iff no field is filled |
| Dashboard.DetailLineFree | src/pages/Dashboard.tsx:178 | a detail line has no line break unless its label or value has one |
| Dashboard.PersonalizationReadBack | src/pages/Dashboard.tsx:176-179 | without line breaks in the fields, details with a filled field split back into the detail lines |
| Dashboard.EnhancedContext | src/pages/Dashboard.tsx:173-184 | the details block is appended after "\n\nPersonalization Details:\n" only for a pro user with a filled field; otherwise the context is unchanged |
| Dashboard.ToLowerKeeps | src/pages/Dashboard.tsx:145 | lower-casing neither adds nor removes a non-letter |
| Dashboard.OneWordCategory | src/pages/Dashboard.tsx:145 | `CategoryToType` of a category without a space only lower-cases it, so "Follow-up" gets no underscore |
| Dashboard.ToLowerTwoWords | src/pages/Dashboard.tsx:145 | lower-casing two words around a space lower-cases each word |
| Dashboard.TwoWordCategory | src/pages/Dashboard.tsx:145 | the first space becomes "_": "Cold Email" gives "cold_email" |
| Dashboard.TemplateContext | src/pages/Dashboard.tsx:191 | the wrapper begins "Template: <title>" and ends with the enhanced context |
| Dashboard.BuildRequest | src/pages/Dashboard.tsx:173-206 | recipient, business and tone are kept; the template decides type and context only for a pro user; the template flag and variables follow the selection |
| Dashboard.FreeRequestIsForm | src/pages/Dashboard.tsx:175-193 | a free user's request carries the form exactly as typed |
| Dashboard.SelectedTypeSent | src/pages/Dashboard.tsx:143-206 | the type a chosen template sets is the type sent, free or pro, with the template flag and the template's variables |
| Dashboard.SelectThenClear | src/pages/Dashboard.tsx:143-152 | clearing after choosing gives the form cleared without a choice |
| Dashboard.ClearedFormIncomplete | src/pages/Dashboard.tsx:149-162 | after clearing, `Complete` rejects the form |
| Dashboard.Counted | src/pages/Dashboard.tsx:215-227 | a free count goes up by exactly one; a pro profile is untouched |
| Dashboard.GenerateEmail | src/pages/Dashboard.tsx:154-246 | an incomplete form changes nothing; a reached quota only opens the dialog; otherwise the built request is sent, and success shows the email and counts it while failure changes nothing |
| Dashboard.ProUnlimited | src/pages/Dashboard.tsx:164-167 | a pro user with a complete form is never blocked and their count never moves |
| Dashboard.ThreeFreeGenerations | src/pages/Dashboard.tsx:164-227 | from zero, a free user gets three emails and the fourth press opens the dialog and sends nothing |
| Dashboard.SaveEmail | src/pages/Dashboard.tsx:264-288 | a row is written iff an email is on screen and the user is pro, and it holds the form's fields |
| Dashboard.SavedContextIsRaw | src/pages/Dashboard.tsx:277-288 | after a pro user's successful generation the save goes through, and the row keeps the typed context, not the personalised or templated one |
| Dashboard.UpgradeClick | src/pages/Dashboard.tsx:135-141 | the dialog opens iff the user is pro; anyone else goes to payment |
| Dashboard.QuotaDialogLeadsToPayment | src/pages/Dashboard.tsx:164-167 | a dialog opened by generating is the quota's (`QuotaReached`), and the dialog's upgrade button closes it and leads to payment |
| Dashboard.DialogUpgrade | src/pages/Dashboard.tsx:773-778 | the dialog's upgrade button always closes the dialog, and goes to payment iff the user is not pro |
| Dashboard.UpgradeButtonsAgree | src/pages/Dashboard.tsx:773-778 | the dialog's button sends a user to payment iff the header's button does |
| Personalization.InitialFields | src/components/AdvancedPersonalization.tsx:27-34 | given fields are kept; with none, the four default empty text fields |
| Personalization.AddField | src/components/AdvancedPersonalization.tsx:65-77 | one empty field appended with the clock id, the name and the category; earlier fields untouched; a text area iff the name contains "Description" or "Challenge" |
| Personalization.RemoveField | src/components/AdvancedPersonalization.tsx:79-83 | every field with the id goes and every other field stays |
| Personalization.UpdateField | src/components/AdvancedPersonalization.tsx:85-91 | length and every id, name, kind and category kept; only matching fields take the value |
| Personalization.AddCustomField | src/components/AdvancedPersonalization.tsx:93-98 | a non-blank answer adds a context field named by the trimmed answer; a blank or cancelled one changes nothing |
| Personalization.RemoveAbsent | src/components/AdvancedPersonalization.tsx:79-83 | removing an absent id changes nothing |
| Personalization.RemoveIdempotent | src/components/AdvancedPersonalization.tsx:79-83 | removing twice is removing once |
| Personalization.RemoveAppend | src/components/AdvancedPersonalization.tsx:79-83 | removal keeps the order: it distributes over concatenation |
| Personalization.AddThenRemove | src/components/AdvancedPersonalization.tsx:65-83 | adding under a fresh id and removing it restores the list |
| Personalization.UpdateThenRemove | src/components/AdvancedPersonalization.tsx:79-91 | removing a field forgets its update |
| Personalization.UpdateTwice | src/components/AdvancedPersonalization.tsx:85-91 | the later of two updates wins |
| Personalization.UnusedIff | src/components/AdvancedPersonalization.tsx:177-178 | `Unused`: a name is offered iff it is a candidate and no field of any category has it |
| Personalization.UnusedSubsequence | src/components/AdvancedPersonalization.tsx:177-180 | no more offers than candidates, and none iff every candidate is used |
| Personalization.QuickAddSpec | src/components/AdvancedPersonalization.tsx:175-180 | `QuickAdd`: a category offers exactly its unused predefined names, and is shown iff it has one |
| Personalization.OfCategory | src/components/AdvancedPersonalization.tsx:100-106 | the fields of one category, all from the list |
| Personalization.PushCategories | src/components/AdvancedPersonalization.tsx:101-104 | a reduce step adds a category only when it is new, at the end |
| Personalization.PushMembers | src/components/AdvancedPersonalization.tsx:101-104 | a reduce step adds exactly one member |
| Personalization.PushShape | src/components/AdvancedPersonalization.tsx:101-104 | a reduce step extends only the field's group, or opens it at the end |
| Personalization.NoneOfCategory | src/components/AdvancedPersonalization.tsx:100-106 | a category no field has selects nothing |
| Personalization.PushKeyed | src/components/AdvancedPersonalization.tsx:100-106 | a reduce step keeps the groups keyed to the list so far |
| Personalization.GroupedFieldsSpec | src/components/AdvancedPersonalization.tsx:100-106 | `GroupedFields`: one group per category present, no two alike, each holding that category's fields in list order, with the total count preserved |
| Personalization.FieldInOneGroup | src/components/AdvancedPersonalization.tsx:100-106 | a field sits only in the group of its category |
| Templates.CatalogKeys | src/components/EmailTemplatesLibrary.tsx:27-670 | the catalog has 26 templates with pairwise distinct ids |
| Templates.CatalogIdsDistinct | src/components/EmailTemplatesLibrary.tsx:714 | the list keys of a catalogued list are distinct |
| Templates.CatalogCategories | src/components/EmailTemplatesLibrary.tsx:672 | every template is filed under a tab other than "All" |
| Templates.InCategory | src/components/EmailTemplatesLibrary.tsx:677 | filtering never lengthens the list |
| Templates.FilterTemplates | src/components/EmailTemplatesLibrary.tsx:675-677 | "All" gives the whole list; any other tab gives its category's templates |
| Templates.InCategoryIff | src/components/EmailTemplatesLibrary.tsx:677 | a template is shown under a tab iff it is filed under that category |
| Templates.InCategoryAppend | src/components/EmailTemplatesLibrary.tsx:677 | filtering keeps the list order |
| Templates.InCategoryAll | src/components/EmailTemplatesLibrary.tsx:677 | a list inside one category passes its filter unchanged |
| Templates.FilterIdempotent | src/components/EmailTemplatesLibrary.tsx:675-677 | filtering twice is filtering once |
| Templates.Preview | src/components/EmailTemplatesLibrary.tsx:738 | the first min(200, length) characters of the body, then "..." |
| Templates.VariableBadges | src/components/EmailTemplatesLibrary.tsx:744-752 | min(6, n) names from the front are shown, plus a count badge iff n > 6, which accounts for the rest |
| Templates.MoreLabel | src/components/EmailTemplatesLibrary.tsx:751 | "+<digits> more", whose digits read back as the count |
| Templates.CatalogOverflow | src/components/EmailTemplatesLibrary.tsx:192-229 | every catalogued card shows the count badge except follow-up-3 and follow-up-4 |
| Templates.CopyText | src/components/EmailTemplatesLibrary.tsx:688 | "Subject: " first, the body last, and a blank line right after the subject |
| Templates.NoOccurrenceInside | src/components/EmailTemplatesLibrary.tsx:688 | a two-character pattern absent from the subject, which does not end with its first character, does not start inside it |
| Templates.FirstAfter | src/components/EmailTemplatesLibrary.tsx:688 | such a pattern placed after the subject is found first there |
| Templates.FirstBlankLine | src/components/EmailTemplatesLibrary.tsx:688 | the first blank line is the one after the subject |
| Templates.CopyRoundTrip | src/components/EmailTemplatesLibrary.tsx:688 | a subject with no blank line, not ending in a line break, reads back with the body |
| History.LabelFrom | src/pages/History.tsx:160-164 | the character-wise label has the length of the type |
| History.LabelFromAt | src/pages/History.tsx:160-164 | each label character: a space for "_", upper-cased after "_" or at the start, else as is |
| History.Words | src/pages/History.tsx:161-163 | one word per piece |
| History.JoinPrepend | src/pages/History.tsx:163 | prefixing the first piece prefixes the join |
| History.WordsTail | src/pages/History.tsx:161-163 | the words after the first are all capitalised |
| History.SplitLabelUnderscore | src/pages/History.tsx:160-164 | a leading "_" opens an empty first word |
| History.SplitLabelWord | src/pages/History.tsx:160-164 | any other leading character stays in the first word |
| History.SplitLabel | src/pages/History.tsx:160-164 | split-capitalise-join agrees with the character-wise label |
| History.EmailTypeLabelCharwise | src/pages/History.tsx:160-164 | `EmailTypeLabel` equals its character-wise form |
| History.EmailTypeLabelShape | src/pages/History.tsx:160-164 | the label has no "_" and the length of the type |
| History.EmailTypeLabelIdempotent | src/pages/History.tsx:160-164 | labelling a label changes nothing |
| History.TwoWordLabel | src/pages/History.tsx:160-164 | "a_b" is labelled as the two capitalised words around a space |
| History.ToneColor | src/pages/History.tsx:166-173 | gray exactly for the tones other than the three known ones |
| History.ToneColorsDistinct | src/pages/History.tsx:168-170 | the three known tones get three different classes |
| History.ToneBadge | src/pages/History.tsx:237 | the first character upper-cased and the rest unchanged |
| History.WithoutId | src/pages/History.tsx:133 | every entry with the id goes and every other stays |
| History.DeleteEmail | src/pages/History.tsx:120-148 | on failure the list is unchanged; on success the entries with that id are gone |
| History.WithoutIdAppend | src/pages/History.tsx:133 | deletion keeps the others' order |
| History.DeleteUnique | src/pages/History.tsx:120-148 | with unique ids, exactly the one entry is taken out |
| History.WithoutIdAbsent | src/pages/History.tsx:133 | deleting an absent id changes nothing |
| History.LoadHistory | src/pages/History.tsx:41-102 | no user means sign-in; the list is shown iff the user is pro; a load error shows an empty list with the error flag |
| History.NonProNeverLoads | src/pages/History.tsx:70-78 | a non-pro user is sent back whatever the saved emails are |
| VerifyPayment.SignedMessage | supabase/functions/verify-razorpay-payment/index.ts:31 | the order id, a bar, then the payment id, recoverable from the message |
| VerifyPayment.SignedMessageInjective | supabase/functions/verify-razorpay-payment/index.ts:31 | with bar-free order ids, the message determines both ids |
| VerifyPayment.Verify | supabase/functions/verify-razorpay-payment/index.ts:19-108 | status 200 or 400; the update is issued iff secret, signature, header and user all pass, and it sets only the caller's pro flag to true; 200 iff that update succeeded |
| VerifyPayment.NeverDowngrades | supabase/functions/verify-razorpay-payment/index.ts:76-82 | no answer clears the pro flag |
| VerifyPayment.SecretCheckedFirst | supabase/functions/verify-razorpay-payment/index.ts:23-28 | without a secret, the HMAC is irrelevant and the answer is the fixed 400 |
| VerifyPayment.SignatureBeforeAuth | supabase/functions/verify-razorpay-payment/index.ts:31-45 | a bad signature gives the same answer whatever the caller's credentials, with no update |
| VerifyPayment.HeaderBeforeUser | supabase/functions/verify-razorpay-payment/index.ts:48-72 | a missing header is reported before, and regardless of, the user lookup |
| CreateOrder.Currency | supabase/functions/create-razorpay-order/index.ts:18 | the requested currency, "INR" when none |
| CreateOrder.ToPaise | supabase/functions/create-razorpay-order/index.ts:36 | a multiple of 100 that divides back to the rupees |
| CreateOrder.Receipt | supabase/functions/create-razorpay-order/index.ts:38 | "receipt_" then digits that read back as the clock reading |
| CreateOrder.Order | supabase/functions/create-razorpay-order/index.ts:35-42 | amount ×100, the chosen currency, the product name |
| CreateOrder.GatewayError | supabase/functions/create-razorpay-order/index.ts:58-61 | the gateway's description when it gave one, else the fixed message |
| CreateOrder.Create | supabase/functions/create-razorpay-order/index.ts:14-89 | status 200 or 400; an order is sent, under the key pair, iff both credentials are present; a refusal reports the gateway error; success echoes the gateway's order and the key id |
| CreateOrder.CredentialsFirst | supabase/functions/create-razorpay-order/index.ts:29-32 | without credentials the gateway is irrelevant |
| CreateOrder.KeysOnlyReachGateway | supabase/functions/create-razorpay-order/index.ts:14-89 | the order sent does not depend on the key pair; the pair reaches the answer only through the gateway's reply to it and the key id echoed in a created order |
| CheckSubscription.Subscription | supabase/functions/check-subscription/index.ts:67-74 | subscribed equals the pro flag; tier "Pro", start and end present iff pro; start is updated_at and end is 2,592,000,000 ms later |
| CheckSubscription.UpgradeThenSubscribed | supabase/functions/check-subscription/index.ts:67-74 | after a payment check answered 200, the profile row it wrote makes the subscription check report pro, tier "Pro" and the thirty-day window from updated_at |
| CheckSubscription.Check | supabase/functions/check-subscription/index.ts:20-94 | header, then user, then profile are checked, each failure a fixed 400; the info is returned iff all pass |
| PaymentHistory.StatusLabel | src/components/PaymentHistory.tsx:103-115 | "completed" or "success", "pending" and "failed" in any case get their badges; anything else is shown verbatim |
| PaymentHistory.StatusCaseInsensitive | src/components/PaymentHistory.tsx:104 | statuses equal up to case get the same kind of badge |
| PaymentHistory.TotalSpentAppend | src/components/PaymentHistory.tsx:214 | `TotalSpent` of two lists is the sum of their totals |
| PaymentHistory.TotalSpentBounds | src/components/PaymentHistory.tsx:214 | with no negative amounts, the total is non-negative and at least each amount |
| PaymentHistory.TotalSpentSingle | src/components/PaymentHistory.tsx:214 | one payment's total is its amount |
| PaymentHistory.HistoryView | src/components/PaymentHistory.tsx:199-214 | the empty state iff there are no payments; otherwise the count and the total |
| PaymentHistory.HistoryViewAppend | src/components/PaymentHistory.tsx:199-214 | the view of two lists together counts both and sums both totals |
| PaymentHistory.SimulatedSummary | src/components/PaymentHistory.tsx:50-60 | the simulated list shows one payment and a total of 30 |
| Strings.UpperCharIdempotent | src/pages/History.tsx:162 | upper-casing twice is upper-casing once |
| Strings.TrimStart | supabase/functions/generate-email/index.ts:176 | a suffix of the text, after only white space, not starting with white space |
| Strings.TrimEnd | supabase/functions/generate-email/index.ts:176 | a prefix of the text, before only white space, not ending with white space |
| Strings.TrimSlice | supabase/functions/generate-email/index.ts:176 | `Trim` gives a slice with only white space outside it, empty iff the text is all white space |
| Strings.TrimEmpty | src/pages/Dashboard.tsx:177 | a value trims to nothing iff it is all white space |
| Strings.TrimNoop | supabase/functions/generate-email/index.ts:186 | a text with no white space at either end is its own trim |
| Strings.TrimIdempotent | supabase/functions/generate-email/index.ts:186 | trimming twice is trimming once |
| Strings.ToLower | supabase/functions/generate-email/index.ts:208 | the same length, each character lower-cased |
| Strings.ToLowerMissing | supabase/functions/generate-email/index.ts:208 | a letter absent in both cases is absent after lower-casing |
| Strings.ToLowerAppend | supabase/functions/generate-email/index.ts:208 | lower-casing distributes over concatenation |
| Strings.Capitalize | src/pages/History.tsx:162 | the same length, first character upper-cased, the rest kept |
| Strings.Prefix | supabase/functions/generate-email/index.ts:189 | a prefix of length min(n, length) |
| Strings.ContainsIff | supabase/functions/generate-email/index.ts:189 | `Contains` holds iff the pattern occurs at some position |
| Strings.ContainsWitness | supabase/functions/generate-email/index.ts:189 | an occurrence proves containment |
| Strings.OccursAppend | supabase/functions/generate-email/index.ts:295 | an occurrence in either part is one in the concatenation |
| Strings.MissingCharNotContained | supabase/functions/generate-email/index.ts:208 | a pattern with a character the text lacks is not contained |
| Strings.AffixAppend | supabase/functions/generate-email/index.ts:295 | a prefix of the first part and a suffix of the last survive concatenation |
| Strings.ContainsTransitive | supabase/functions/generate-email/index.ts:256-257 | containment is transitive |
| Strings.ContainsSelf | supabase/functions/generate-email/index.ts:189 | a text contains itself |
| Strings.ContainsEmpty | supabase/functions/generate-email/index.ts:189 | every text contains the empty string |
| Strings.IndexFrom | src/components/EmailTemplatesLibrary.tsx:688 | the first occurrence at or after a position, or none |
| Strings.IndexOf | src/components/EmailTemplatesLibrary.tsx:688 | the first occurrence, none iff not contained |
| Strings.ReplaceFirst | src/pages/Dashboard.tsx:145 | without the pattern the text is kept; otherwise its first occurrence is replaced |
| Strings.OccursPieces | supabase/functions/generate-email/index.ts:295 | the pieces of an occurring concatenation occur at their offsets |
| Strings.ReplaceFirstChar | src/pages/Dashboard.tsx:145 | replacing the first occurrence of a character absent from the head replaces the one after it |
| Strings.ReplaceAllCIUnchanged | supabase/functions/generate-email/index.ts:183-184 | `ReplaceAllCI`, the global case-insensitive replace, keeps a text with no occurrence |
| Strings.ReplaceAllCIPrefix | supabase/functions/generate-email/index.ts:183-184 | a head without the pattern's first letter passes through unchanged |
| Strings.ReplaceAllCIMatch | supabase/functions/generate-email/index.ts:183-184 | a leading occurrence in any case is replaced |
| Strings.NoMatchAtHead | supabase/functions/generate-email/index.ts:183-184 | no occurrence starts at a character that does not lower-case to the pattern's first |
| Strings.NoMatchInPrefix | supabase/functions/generate-email/index.ts:183-184 | no occurrence starts inside a head free of the pattern's first letter |
| Strings.ReplaceAllCISkip | supabase/functions/generate-email/index.ts:183-184 | a head where no occurrence starts passes through and the scan resumes after it |
| Strings.ReplaceAllCIFirst | supabase/functions/generate-email/index.ts:183-184 | the first occurrence, in any case, after an occurrence-free head is replaced and the scan goes on after it |
| Strings.Split | src/pages/History.tsx:161 | a split has at least one piece |
| Strings.SplitPiecesFree | src/pages/History.tsx:161 | no piece holds the separator |
| Strings.JoinSplit | src/pages/History.tsx:161-163 | `Join` of the pieces of a split, with the separator, gives the text back |
| Strings.SplitPrefixFree | src/pages/History.tsx:161 | a separator-free head joins the first piece |
| Strings.SplitJoin | src/pages/Dashboard.tsx:179 | separator-free pieces split back out of their join |
| Strings.NatToString | src/components/AdvancedPersonalization.tsx:67 | non-empty decimal digits without a leading zero |
| Strings.NatToStringRoundTrip | src/components/AdvancedPersonalization.tsx:67 | the digits read back as the number |

## Left out

- The calls to the hosted models: the reply of each of the three models is a parameter, an optional text; fetch, JSON decoding, sampling parameters and logging are not modelled.
- The catch path that reads the request body a second time: a body that does not parse is the `None` request, answered with the fixed error; the re-read itself is runtime I/O.
- HMAC-SHA256 and its hex encoding: a function parameter, with no property assumed about it.
- Supabase auth, row-level security and queries: the user, profile and saved emails are parameters, and the descending creation-date order of the history list is not modelled.
- The daily-reset call of the dashboard: its body is not part of this model, and no reset rule is invented.
- The read-modify-write race on the daily counter: concurrency.
- Dates and number formatting: `Date.now()` ids and receipts are a natural-number clock reading, the upgrade date is an opaque string, and the subscription window is integer millisecond arithmetic; ISO formatting, `toLocaleDateString` and `Intl.NumberFormat` are not modelled.
- The gateway's HTTP exchange: the gateway is a function from the key id, the key secret and the order to its reply; the Basic encoding of the pair in the authorization header is not modelled.
- CreateOrder.ToPaise: amounts are integer rupees, so the floating-point product of a fractional amount is not modelled.
- EmailParser.CleanUp: replacement strings are inserted literally; `$` patterns in a user-supplied name are not interpreted.
- EmailComposer.GenerateIntelligentEmail: that no placeholder "{" is left in the template body is proved for any wording free of "{" (`FallbackBodyResolved`); that the shipped texts of `SourceWording` are free of it is not stated, as a character search over texts of several hundred characters is beyond what the verifier settles.
- EmailComposer.SubjectFromTable: the subject table is modelled with its five own keys only; an email type naming an inherited `Object.prototype` member ("constructor", "toString", ...) reads that member, a truthy function value, in place of "Message from <business>", which is not modelled.
- EmailComposer.InstructionFallbacks: likewise, a type or tone naming an inherited `Object.prototype` member picks up that member from the instruction tables rather than the generic instruction or "undefined"; the model has no such keys.
- EmailParser.HandleRequest: the request is either a brief of five strings or a body that does not parse. A JSON body with a field missing or not a string is not modelled: a missing context, for instance, throws wherever the context is read (the 50-character check, the keyword analysis, the pitch test), and the second read of the body in the catch fails as well, so the function answers the 500 error for such a body; a missing type makes the default subject throw while each reply is parsed, so the template email is always sent.
- VerifyPayment.Verify: models the POST request only; the CORS preflight, answered 200 "ok" without any update, and a body that fails to parse, answered 400 with the parser's message, are not modelled.
- CreateOrder.Create: models the POST request only; the CORS preflight, answered 200 "ok", and a body that fails to parse, answered 400 with the parser's message, are not modelled.
- CheckSubscription.Check: the CORS preflight, answered 200 "ok", is not modelled.
- EmailParser.CleanUpSigned: stated for any spelling of the placeholders that lower-cases to the patterns; `RecipientPlaceholderCase` and `SenderPlaceholderCase` show the prompt's own spellings qualify, and the composition with the whole requested layout as one literal is not stated.
- Strings.ToLower: only ASCII letters change case; non-ASCII case mapping is not modelled, and lengths are counted in code points, not UTF-16 units.
- The subject regex's treatment of "\r", U+2028 and U+2029 as line terminators is modelled; Unicode white space outside the table in `Strings.IsJsSpace` is not.
- The word filter over the context in the generic body branch: it computes a list the body never uses.
- Templates.CatalogOverflow: stated by position in the catalog (the two follow-ups at indexes 8 and 9) rather than by comparing every id.
- The templates' subject and body texts and variable names: the catalog index holds each template's id, title, category, number of variables and popularity, and a template list is taken as a parameter that agrees with it (`Catalogued`); the consistency between placeholders and variable lists is not modelled.
- The pages' rendering, navigation, toasts, the clipboard, downloads and the simulated payment page.
- The random transaction id of the simulated payment: a parameter.
- The unused `keyPhrases` analysis and the `hasCallToAction` flag, which no subject rule reads, are computed but have no effect.
