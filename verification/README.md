# LegalForesight front end: decision rules in Dafny

This project models the deterministic decision rules of the LegalForesight web
front end, a Next.js application that sends a legal document (plain text, or a
PDF or image as a data URI) to five AI analyses and shows the results as a
report with a chat panel. The AI calls are opaque. What is modelled is
everything around them:

- **Flow wrappers** (`src/ai/flows/*.ts`). Each wrapper is a guard in front of a flow:
  - the shared "text or photo must be present" check;
  - the auto-fix checks and the check on the auto-fix output;
  - the two chat guards and their order;
  - the keyword-driven placeholder clause tool and the risk-tag vocabulary.
- **Home page** (`src/app/page.tsx`):
  - choosing the document context: the user's text, a label guessed from the file name, or a default;
  - building the payload;
  - accepting an uploaded file;
  - folding the five settled analysis outcomes into stored results, an error text and a notice.
- **Report** (`src/components/AnalysisDisplay.tsx`):
  - the risk badge, and the split of the risk assessment into badge and body;
  - when a list collapses to its empty message, and the `hasContent` test;
  - which fix controls a flagged clause or missing point offers.
- **Chat panel** (`src/components/ChatInterface.tsx`): asking a question, the request sent, how a reply or failure is recorded, and when the answer shows.
- **Account forms** (`src/app/signup/page.tsx`, `src/app/login/page.tsx`): the validation schemas and what submitting forwards.

Modules:

- `Values` holds `Option`, `Result` and JavaScript truthiness of strings.
- `Text` holds `trim`, ASCII `toLowerCase`, `includes`, `indexOf` and `join`.
- `DocumentInput` holds the document guard that four analysis wrappers share.
- `Rules` holds ordered keyword tables. The three if/else-if keyword chains of the front end are each proved equal to the first-match rule over such a table.
- `FormIssues` holds the e-mail rule and the credential pair that the sign-up and log-in forms share.
- Every other module mirrors one source file.

A wrapper that throws is `Err(message)`. A wrapper that hands its input to the flow is `Ok(input)`, and its contracts show that the input is passed on unchanged. What an AI prompt answers is a parameter.

Two behaviours of the code worth noting:

- The analysis wrappers accept an input carrying both document text and a photo. Only the absence of both is an error.
- After a partial failure, the page's error text is the fixed per-analysis notes, not the rejection reasons. The reasons appear only when all five analyses fail.

## Model

| member | source | states |
|---|---|---|
| Values.KeepTruthy | src/app/page.tsx:111-116 | A payload field is present exactly when the page value is truthy, and then it is that value |
| Text.Trim | src/app/page.tsx:100 | `trim` cuts a blank prefix and a blank suffix off the text, and what remains starts and ends with a non-whitespace character; it is empty exactly for blank text |
| Text.Lower | src/app/page.tsx:102-104 | `toLowerCase` keeps the length and folds each ASCII capital to its small letter, position by position |
| Text.ContainsIff | src/app/page.tsx:102 | `includes` holds exactly when the keyword occurs at some position of the text |
| Text.IndexOf | src/components/AnalysisDisplay.tsx:172 | `indexOf` is -1 exactly when the character is absent; otherwise it is the first position of that character |
| Rules.FirstMatchWins | src/app/page.tsx:102-105 | In an ordered keyword chain, the first rule that fires decides, whatever later rules would say |
| Rules.NoMatchFallsBack | src/app/page.tsx:105 | When no keyword of any rule occurs, the chain yields its fallback |
| DocumentInput.RequireDocument | src/ai/flows/summarize-legal-document.ts:32-34 | The shared guard throws "Either documentText or photoDataUri must be provided." exactly when neither field is truthy; otherwise the input goes on unchanged |
| SummarizeFlow.SummarizeLegalDocument | src/ai/flows/summarize-legal-document.ts:31-35 | Throws the document-required error exactly when neither text nor photo is truthy; otherwise forwards the input unchanged |
| SummarizeFlow.PhotoAccepted | src/ai/flows/summarize-legal-document.ts:32 | A photo-only input passes the guard |
| SummarizeFlow.ContextNeverChecked | src/ai/flows/summarize-legal-document.ts:31-35 | The context never changes whether the call is accepted |
| PredictFlow.PredictLegalOutcomes | src/ai/flows/predict-legal-outcomes.ts:36-45 | Throws exactly when no document field is truthy; valid input is forwarded unchanged |
| PredictFlow.MissingContextOnlyWarns | src/ai/flows/predict-legal-outcomes.ts:40-45 | A missing context raises a warning but the input is still accepted |
| MissingPointsFlow.IdentifyMissingPoints | src/ai/flows/identify-missing-points.ts:48-55 | Throws exactly when no document field is truthy; valid input is forwarded unchanged |
| MissingPointsFlow.OptionalFieldsNeverChecked | src/ai/flows/identify-missing-points.ts:51-54 | Document type and context never change whether the call is accepted |
| ChatFlow.ChatWithDocument | src/ai/flows/chatWithDocument.ts:28-36 | Accepted exactly with a document and a non-empty question; the document error takes priority over the question error |
| ChatFlow.BlankQuestionPasses | src/ai/flows/chatWithDocument.ts:32-34 | A whitespace-only question passes, because only emptiness is tested |
| FlagClausesFlow.ParseRiskTag | src/ai/flows/flag-critical-clauses.ts:25 | A recognised tag name is one of the eight enum names |
| FlagClausesFlow.ParseTagName | src/ai/flows/flag-critical-clauses.ts:25 | Each of the eight tags parses back from its name, so the names are distinct |
| FlagClausesFlow.FlagCriticalClauses | src/ai/flows/flag-critical-clauses.ts:35-40 | Throws exactly when no document field is truthy; valid input is forwarded unchanged |
| FlagClausesFlow.IdentifyCriticalClausesTool | src/ai/flows/flag-critical-clauses.ts:54-77 | The placeholder tool always returns exactly one clause |
| FlagClausesFlow.ToolFollowsRuleTable | src/ai/flows/flag-critical-clauses.ts:58-76 | The tool's clause comes from a priority table: "liability" first, then "non-compete", else the generic placeholder |
| FlagClausesFlow.ToolTagsInVocabulary | src/ai/flows/flag-critical-clauses.ts:54-77 | Every tag the tool emits is one of the eight schema tags |
| FlagClausesFlow.LiabilityBeatsNonCompete | src/ai/flows/flag-critical-clauses.ts:58-70 | A text mentioning both keywords gets the liability clause, tagged Legal Ambiguity and Operational Risk |
| FlagClausesFlow.PhotoOnlyGetsPlaceholder | src/ai/flows/flag-critical-clauses.ts:72-76 | Without document text the tool yields the placeholder clause tagged Other |
| FlagClausesFlow.FlowOutput | src/ai/flows/flag-critical-clauses.ts:116-120 | A null prompt output becomes an empty clause list; any other output is returned unchanged |
| AutoFixFlow.AutoFixClause | src/ai/flows/auto-fix-clause.ts:28-41 | Accepted exactly with a problem description, unless the fix type is given as "rewrite" without original text. A missing problem description is always the error reported |
| AutoFixFlow.ApplySchemaDefault | src/ai/flows/auto-fix-clause.ts:18 | The schema's declared default: an omitted fix type reads as "rewrite" and a given fix type is left alone |
| AutoFixFlow.FlowOutput | src/ai/flows/auto-fix-clause.ts:91-98 | The flow fails exactly on a null output or an empty fixed clause; otherwise it returns the output unchanged |
| AutoFixFlow.AutoFix | src/ai/flows/auto-fix-clause.ts:28-40 | An auto-fix succeeds exactly when the wrapper accepts the input and the prompt answers with a non-empty clause, which is then returned. A missing problem description gives its error; otherwise a "rewrite" without original text gives the original-text error; otherwise a failed answer gives the fix-failed error |
| AutoFixFlow.ProblemCheckFirst | src/ai/flows/auto-fix-clause.ts:29-34 | When both checks fail, the problem-description error wins |
| AutoFixFlow.GenerateWithTextOnlyWarns | src/ai/flows/auto-fix-clause.ts:35-38 | "generate" with an original text warns and is accepted |
| AutoFixFlow.OmittedFixTypeSkipsRewriteCheck | src/ai/flows/auto-fix-clause.ts:14-34 | An omitted fix type without original text passes the wrapper, although with the schema's declared default filled in the same input would fail the rewrite check |
| HomePage.FileNameLabel | src/app/page.tsx:101-106 | The guessed label is one of the four fixed labels |
| HomePage.FileNameLabelFollowsRuleTable | src/app/page.tsx:102-105 | The guess is the first-match rule over agreement, then offer or letter, then sale, on the lower-cased name; otherwise the general label |
| HomePage.ResolveContext | src/app/page.tsx:100-107 | The context is never empty. It is the trimmed user text if that is not blank, else the file-name label if there is a name, else the default review text |
| HomePage.UserContextWins | src/app/page.tsx:100-101 | A non-blank user context makes the file name irrelevant |
| HomePage.SaleAgreementIsAgreement | src/app/page.tsx:102-104 | "sale_agreement.pdf" is an Agreement Document, since the agreement rule precedes the sale rule |
| HomePage.EmploymentAgreementIsAgreement | src/app/page.tsx:102 | "Employment_Agreement_v2.pdf" is an Agreement Document: the match ignores case |
| HomePage.BuildPayload | src/app/page.tsx:110-116 | The payload always carries the context. It carries each document field only when that field is truthy, so it has a document exactly when the page does |
| HomePage.BothDocumentFieldsKept | src/app/page.tsx:111-116 | Text and image travel together when both are present |
| HomePage.GuardedPayloadPassesFlowGuards | src/app/page.tsx:119-125 | Once the page's guard passes, none of the four modelled wrappers throws its document error on the requests built from the payload |
| HomePage.ReasonText | src/app/page.tsx:164 | A rejection's text is its message, else its string form, else "Unknown error"; it is never empty |
| HomePage.AllFailedImpliesAnyFailed | src/app/page.tsx:159-165 | `AllFailed` (every analysis rejected) implies `AnyFailed` (some analysis rejected), so a total failure always leaves an error text |
| HomePage.ApplyNotesJoins | src/app/page.tsx:129-157 | The chain of `setError` updaters (`AppendNote` applied by `ApplyNotes` for each failed analysis) equals the failed analyses' notes joined by newlines, appended to any earlier error. It leaves the error alone when nothing failed |
| HomePage.NotesIffAnyFailed | src/app/page.tsx:129-160 | Some failure note is produced exactly when some analysis was rejected |
| HomePage.RejectionReasons | src/app/page.tsx:163-164 | When all five failed, the reasons list has one text per analysis, in call order |
| HomePage.RunError | src/app/page.tsx:129-165 | The error is absent exactly when nothing failed. After a partial failure it is the joined notes; after a total failure it is the header followed by the joined reasons |
| HomePage.Stored | src/app/page.tsx:129-153 | Each fulfilled result is stored unchanged and each rejected one leaves its slot empty |
| HomePage.ProcessDocument | src/app/page.tsx:86-179 | Without a document nothing changes. Otherwise results and error come from this run only, loading ends, and the error is absent exactly when nothing failed |
| HomePage.SingleFailure | src/app/page.tsx:129-157 | With exactly one failed analysis the error is that analysis's note alone |
| HomePage.RunNotice | src/app/page.tsx:159-171 | The notice is "failed" iff all failed, "partial" iff some but not all failed, and "complete" iff none failed |
| HomePage.ClassifyFile | src/app/page.tsx:53-70 | Plain text, PDF and `image/` types are told apart exactly by their MIME type; every other type is unsupported |
| HomePage.SelectFile | src/app/page.tsx:40-84 | Choosing a file clears results, error and both document fields. The name is kept exactly for a supported type. Text is read as text, PDF or image as a data URI. No file clears only the name and the document |
| HomePage.ReadCompletesDocument | src/app/page.tsx:52-67 | After a supported file is chosen and its reader (`CompleteRead`) delivers non-empty content, the content is in the text field for plain text and in the data-URI field otherwise, the other field is empty, the name is kept, the Analyze button (`AnalyzeEnabled`) is enabled, and a click runs the analyses |
| HomePage.ClickBeforeReadIsNoOp | src/app/page.tsx:245 | Right after a supported file is chosen the Analyze button (`AnalyzeEnabled`: a document or a file name, and not loading) is enabled, but a click before the read finishes changes nothing |
| HomePage.UnsupportedFileDisablesAnalyze | src/app/page.tsx:70-78 | An unsupported file starts no read and leaves the Analyze button disabled |
| AnalysisReport.RiskBadgeVariant | src/components/AnalysisDisplay.tsx:90-97 | An absent or empty assessment gets "secondary", any mention of "high" gets "destructive", and "outline" needs a present assessment |
| AnalysisReport.RiskBadgeFollowsRuleTable | src/components/AnalysisDisplay.tsx:92-96 | For a present assessment the badge is the first-match rule over high, medium, low on the lower-cased text, with "outline" when none occurs |
| AnalysisReport.MediumOutranksLow | src/components/AnalysisDisplay.tsx:93-95 | A text with "medium" and without "high" gets "default", even if it also says "low" |
| AnalysisReport.BadgeIgnoresCase | src/components/AnalysisDisplay.tsx:92 | Assessments with the same lower-case form get the same badge |
| AnalysisReport.FirstField | src/components/AnalysisDisplay.tsx:169 | `split(':')[0]` is the longest prefix without ':'; it is followed by ':' or reaches the end |
| AnalysisReport.SplitRiskAssessment | src/components/AnalysisDisplay.tsx:169-172 | The badge has no ':'. Without a colon the badge is the whole text and the body is the whole text trimmed. With a colon, badge, ':' and tail rebuild the text and the body is the trimmed tail |
| AnalysisReport.LabelEndsAtFirstColon | src/components/AnalysisDisplay.tsx:169-172 | `split` and `indexOf` agree on where the first ':' is |
| AnalysisReport.SplitFollowsIndexOf | src/components/AnalysisDisplay.tsx:169-172 | For any assessment the badge is `split(':')[0]` and the body is the text after `indexOf(':')`, trimmed; without a colon that is the whole text trimmed |
| AnalysisReport.RenderList | src/components/AnalysisDisplay.tsx:74-88 | A list shows its empty message exactly when it is absent, empty, or a single item that is "not specified" in any case or blank. Otherwise it shows every item in order, and a list of two or more items always renders |
| AnalysisReport.ContributingListIsRendered | src/components/AnalysisDisplay.tsx:63-76 | A list that counts as content is drawn as items unless its only item is blank |
| AnalysisReport.RenderedButNotContributing | src/components/AnalysisDisplay.tsx:63-76 | A list that is drawn but does not count has at least two items and opens with "not specified" |
| AnalysisReport.BlankItemCountsButShowsEmpty | src/components/AnalysisDisplay.tsx:63-76 | A single blank item counts as content yet is drawn as the empty message |
| AnalysisReport.HasContent | src/components/AnalysisDisplay.tsx:63-72 | The report has content exactly when some section has something. A summary counts by non-empty text or a list opening with something other than "not specified". Clause and missing-point lists count whenever non-empty |
| AnalysisReport.NotSpecifiedSummaryIsEmpty | src/components/AnalysisDisplay.tsx:63-68 | A summary with no text whose lists all open with "not specified" gives no content |
| AnalysisReport.Card | src/components/AnalysisDisplay.tsx:128-136 | The full report shows exactly when there is content. Otherwise the card is the upload prompt without a file name, or a no-results card naming the file |
| AnalysisReport.FixControls | src/components/AnalysisDisplay.tsx:318-342 | An item offers exactly the buttons of the group its stage selects, each once: apply when untouched, accept, Edit Further and revert while a fix is only proposed, revert-accepted once accepted. Apply calls the apply callback and is enabled exactly when no fix is loading; Accept calls the accept callback; both reverts call the revert callback; Edit Further is disabled and calls nothing |
| AnalysisReport.GroupsPartitionStages | src/components/AnalysisDisplay.tsx:319-341 | Apply shows iff neither flag is set, review iff proposed and not accepted, and revert-accepted iff accepted. Exactly one group shows for each of the four flag combinations |
| AnalysisReport.ApplyDisabledWhileLoading | src/components/AnalysisDisplay.tsx:320 | An untouched item offers only the apply button, disabled exactly while its fix is loading |
| AnalysisReport.PressableCalls | src/components/AnalysisDisplay.tsx:318-342 | Pressing an item's buttons (`Press`) reaches exactly the callbacks its stage allows: revert once accepted, accept or revert while proposed, apply when untouched and not loading, nothing while the first fix loads; every call carries the item's id and type |
| AnalysisReport.EditFurtherIsInert | src/components/AnalysisDisplay.tsx:329-339 | Edit Further never calls anything; both revert buttons call the revert callback |
| AnalysisReport.FlaggedClauseCard | src/components/AnalysisDisplay.tsx:270-342 | The original text and reason are struck through exactly while a fix is suggested and not yet accepted. A fix box shows the current text exactly once a fix exists, marked accepted iff accepted. The reason heading is "Justification / Original Reason:" once a fix exists, else "Reason for Flag:". A justification shows exactly when a fix exists and the reason changed, and it is the current reason. The risk tags are shown as given |
| AnalysisReport.MissingPointCard | src/components/AnalysisDisplay.tsx:374-434 | The heading (`MissingPointHeading`) names the item's kind. A fixable item shows its text and gets the fix controls, a suggested box while a fix is only proposed and an accepted box once accepted, with the justification note inside the box when there is one. Any other item shows its current text with no controls or fix box |
| ChatPanel.AskQuestion | src/components/ChatInterface.tsx:27-43 | A blank question or a missing document makes no call; the refusal names the blank question first, the missing document otherwise. Otherwise loading starts, answer and error clear, and the request carries the untrimmed question and only the truthy document fields |
| ChatPanel.BlankQuestionRefusedFirst | src/components/ChatInterface.tsx:28-35 | The blank-question refusal takes priority over the no-document refusal |
| ChatPanel.SentRequestPassesGuards | src/components/ChatInterface.tsx:41-46 | Every request the panel sends passes both guards of the chat wrapper |
| ChatPanel.Settle | src/components/ChatInterface.tsx:45-54 | A reply becomes the answer. A failure becomes the error: its message, or "An error occurred while getting the AI's response." when the message is empty. Loading ends either way |
| ChatPanel.Exchange | src/components/ChatInterface.tsx:27-55 | A refused question leaves the panel untouched. A sent one never meets a guard error of the wrapper (`ChatReply`), so it ends with loading off and either the flow's answer and no error, or no answer and the flow's error text (the fallback when empty) |
| ChatPanel.ExchangeShowsAnswerIffAnswered | src/components/ChatInterface.tsx:95 | After a sent question the answer box (`ShowsAnswer`: an answer and no error) shows exactly when the flow answered with non-empty text; a failure clears any earlier answer |
| ChatPanel.PendingDisablesAsk | src/components/ChatInterface.tsx:76 | While a request is pending the button (`AskEnabled`: not loading and a document present) is disabled and no answer shows |
| FormIssues.EmailIssues | src/app/signup/page.tsx:19 | The e-mail field has an issue exactly when the address is not valid, and it is "Invalid email address." |
| SignupForm.Validate | src/app/signup/page.tsx:18-25 | The form is valid exactly with a valid e-mail, a password of at least six characters and a matching confirmation. Each failed rule yields its own message under its own field, the mismatch under the confirmation field |
| SignupForm.Submit | src/app/signup/page.tsx:57-59 | Only a valid form submits, and it forwards e-mail and password without the confirmation |
| SignupForm.SubmittedPasswordConfirmed | src/app/signup/page.tsx:18-25 | A submitted password is at least six characters, equals its confirmation, and comes with a valid e-mail |
| SignupForm.DefaultFormInvalid | src/app/signup/page.tsx:44-48 | The empty initial form cannot be submitted, whatever counts as an e-mail |
| SignupForm.MismatchReportedWithShortPassword | src/app/signup/page.tsx:20-25 | A short password and a mismatch are both reported |
| LoginForm.Validate | src/app/login/page.tsx:18-21 | The form is valid exactly with a valid e-mail and a non-empty password; no issue is filed under a confirmation field |
| LoginForm.Submit | src/app/login/page.tsx:53-55 | Only a valid form submits, and it forwards both fields unchanged |
| LoginForm.AnyNonEmptyPasswordAccepted | src/app/login/page.tsx:20 | No length rule beyond non-emptiness applies to the login password |
| LoginForm.DefaultFormInvalid | src/app/login/page.tsx:40-43 | The empty initial form cannot be submitted |
| LoginForm.SignupCredentialsPassLogin | src/app/login/page.tsx:18-21 | Credentials the sign-up form accepts also pass the log-in form unchanged |

## Left out

- AI prompts and flows (`ai.definePrompt`, `ai.defineFlow`): opaque calls to an external model. The prompt's answer is a parameter, and output schemas appear only as datatypes.
- `src/ai/flows/suggest-improvements.ts` is not part of this model. Only the shape of its output is kept, because the page and the report read it.
- `Promise.allSettled` concurrency: the five settled outcomes are a parameter, in call order.
- The `catch` branch of `processDocument`: `allSettled` itself does not reject.
- The interim state while the analyses run (loading on, results cleared): only the state after they settle is modelled.
- File reading (`FileReader`): the read request is modelled, and its completion is `CompleteRead` with the content as a parameter. A reader that never completes is not modelled.
- Toasts, console output, printing, the report date, CSS classes and markup.
- ApplySchemaDefault: states the default that the auto-fix input schema declares. Whether the flow framework fills it in before the prompt runs depends on that framework's input parsing, which is not part of this model. `AutoFix` never uses the defaulted input.
- SignupForm.Validate: assumes the form library's schema runs the whole-object refinement (the password match) even when a field check has already failed, so both issues are reported together. `MismatchReportedWithShortPassword` rests on the same assumption.
- The e-mail syntax check of the form library: a parameter `isEmail`, because its pattern is not part of this model.
- `toLowerCase` is modelled for ASCII letters only, which covers every keyword compared against.
- String lengths count Unicode scalar values. JavaScript counts UTF-16 code units, so for text outside the Basic Multilingual Plane the six-character password minimum is stricter here.
- The report's item types: the page passes the raw analysis outputs where the report expects items with ids and fix flags. The model follows the item fields the report reads.
- The propose, accept and revert handlers for fixes, and any batch auto-fix: no shown file implements them, so only the availability of the controls is modelled.
- Authentication, routing, the profile page, the navigation bar and the layout: thin wrappers over external services or pure markup.
