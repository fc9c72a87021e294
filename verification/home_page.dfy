/** The home page's decision logic: choosing a document context, building the
    analysis payload, accepting an uploaded file, and folding the five settled
    analysis outcomes into results and an error text. */
module HomePage {
  import opened Values
  import opened Text
  import Rules
  import opened DocumentInput
  import SummarizeFlow
  import FlagClausesFlow
  import SuggestFlow
  import MissingPointsFlow
  import PredictFlow

  // ---------------------------------------------------------------------------
  // Document context

  const AgreementLabel := "Agreement Document"
  const OfferLabel := "Offer Letter or Similar"
  const SaleLabel := "Sale Document"
  const GeneralLabel := "General Legal Document"
  const DefaultContext := "General legal document review"

  /** The coarse label guessed from a file name, case-insensitively. */
  function FileNameLabel(fileName: string): (guess: string)
    ensures guess in {AgreementLabel, OfferLabel, SaleLabel, GeneralLabel}
  {
    var lower := Lower(fileName);
    if Contains(lower, "agreement") then AgreementLabel
    else if Contains(lower, "offer") || Contains(lower, "letter") then OfferLabel
    else if Contains(lower, "sale") then SaleLabel
    else GeneralLabel
  }

  /** The file-name heuristic as an ordered rule table. */
  const FileNameRules: seq<Rules.Rule<string>> := [
    Rules.Rule(["agreement"], AgreementLabel),
    Rules.Rule(["offer", "letter"], OfferLabel),
    Rules.Rule(["sale"], SaleLabel)
  ]

  /** The label is the one of the first rule whose keyword occurs in the lower-cased
      name, and the general label when none does. */
  lemma {:induction false} FileNameLabelFollowsRuleTable(fileName: string)
    ensures FileNameLabel(fileName) == Rules.FirstMatch(FileNameRules, Lower(fileName), GeneralLabel)
  {
    var lower := Lower(fileName);
    Rules.MatchesOne(FileNameRules[0], lower);
    Rules.MatchesTwo(FileNameRules[1], lower);
    Rules.MatchesOne(FileNameRules[2], lower);
    if Contains(lower, "agreement") {
      Rules.FirstMatchWins(FileNameRules, lower, GeneralLabel, 0);
    } else if Contains(lower, "offer") || Contains(lower, "letter") {
      Rules.FirstMatchWins(FileNameRules, lower, GeneralLabel, 1);
    } else if Contains(lower, "sale") {
      Rules.FirstMatchWins(FileNameRules, lower, GeneralLabel, 2);
    } else {
      Rules.NoMatchFallsBack(FileNameRules, lower, GeneralLabel);
    }
  }

  /** The context sent with every analysis: the trimmed user text when it is not
      blank, else the file-name label when there is a file name, else a fixed default. */
  function ResolveContext(userContext: string, fileName: Option<string>): (context: string)
    ensures context != ""
    ensures !IsBlank(userContext) ==> context == Trim(userContext)
    ensures IsBlank(userContext) && Truthy(fileName) ==> context == FileNameLabel(fileName.value)
    ensures IsBlank(userContext) && !Truthy(fileName) ==> context == DefaultContext
  {
    var trimmed := Trim(userContext);
    var determined := if trimmed == "" && Truthy(fileName) then FileNameLabel(fileName.value) else trimmed;
    if determined == "" then DefaultContext else determined
  }

  /** A non-blank user context wins whatever the file is called. */
  lemma UserContextWins(userContext: string, name1: Option<string>, name2: Option<string>)
    requires !IsBlank(userContext)
    ensures ResolveContext(userContext, name1) == ResolveContext(userContext, name2)
  {
  }

  lemma SaleAgreementMentionsAgreement(name: string)
    requires name == "sale_agreement.pdf"
    ensures Contains(Lower(name), "agreement") && Contains(Lower(name), "sale")
  {
    forall i | 0 <= i < |name|
      ensures !('A' <= name[i] <= 'Z')
    {
    }
    LowerOfLowercase(name);
    assert name[5..14] == "agreement";
    ContainsAt(Lower(name), "agreement", 5);
    assert name[0..4] == "sale";
    ContainsAt(Lower(name), "sale", 0);
  }

  /** "sale_agreement.pdf" mentions both "sale" and "agreement"; the earlier rule wins. */
  lemma SaleAgreementIsAgreement(userContext: string)
    requires IsBlank(userContext)
    ensures ResolveContext(userContext, Some("sale_agreement.pdf")) == AgreementLabel
  {
    SaleAgreementMentionsAgreement("sale_agreement.pdf");
  }

  lemma EmploymentAgreementMentionsAgreement(name: string)
    requires name == "Employment_Agreement_v2.pdf"
    ensures Contains(Lower(name), "agreement")
  {
    var lower := Lower(name);
    assert lower[11..20] == "agreement";
    ContainsAt(lower, "agreement", 11);
  }

  /** Upper-case letters in the name do not matter. */
  lemma EmploymentAgreementIsAgreement(userContext: string)
    requires IsBlank(userContext)
    ensures ResolveContext(userContext, Some("Employment_Agreement_v2.pdf")) == AgreementLabel
  {
    EmploymentAgreementMentionsAgreement("Employment_Agreement_v2.pdf");
  }

  // ---------------------------------------------------------------------------
  // The analysis payload

  /** `basePayload`: the context always, each document field only when truthy. */
  datatype Payload = Payload(context: string, documentText: Option<string>, photoDataUri: Option<string>)

  function BuildPayload(context: string, documentText: Option<string>, imageDataUri: Option<string>): (p: Payload)
    ensures p.context == context
    ensures Truthy(p.documentText) <==> Truthy(documentText)
    ensures Truthy(p.photoDataUri) <==> Truthy(imageDataUri)
    ensures p.documentText.Some? ==> p.documentText == documentText && Truthy(documentText)
    ensures p.photoDataUri.Some? ==> p.photoDataUri == imageDataUri && Truthy(imageDataUri)
    ensures HasDocument(p.documentText, p.photoDataUri) <==> HasDocument(documentText, imageDataUri)
  {
    Payload(context, KeepTruthy(documentText), KeepTruthy(imageDataUri))
  }

  /** Text and image may travel together. */
  lemma BothDocumentFieldsKept(context: string, text: string, image: string)
    requires text != "" && image != ""
    ensures BuildPayload(context, Some(text), Some(image)) == Payload(context, Some(text), Some(image))
  {
  }

  function SummarizeRequest(p: Payload): SummarizeFlow.Input {
    SummarizeFlow.Input(p.documentText, p.photoDataUri, Some(p.context))
  }

  function FlagRequest(p: Payload): FlagClausesFlow.Input {
    FlagClausesFlow.Input(p.documentText, p.photoDataUri, Some(p.context))
  }

  /** The missing-points call also receives the context as `documentType`. */
  function MissingPointsRequest(p: Payload): MissingPointsFlow.Input {
    MissingPointsFlow.Input(p.documentText, p.photoDataUri, Some(p.context), Some(p.context))
  }

  function PredictRequest(p: Payload): PredictFlow.Input {
    PredictFlow.Input(p.documentText, p.photoDataUri, Some(p.context))
  }

  // ---------------------------------------------------------------------------
  // Page state

  datatype Results = Results(
    summary: Option<SummarizeFlow.Output>,
    flaggedClauses: Option<FlagClausesFlow.Output>,
    suggestions: Option<SuggestFlow.Output>,
    missingPoints: Option<MissingPointsFlow.Output>,
    legalForesight: Option<PredictFlow.Output>)

  const NoResults := Results(None, None, None, None, None)

  datatype PageState = PageState(
    documentText: Option<string>,
    imageDataUri: Option<string>,
    fileName: Option<string>,
    documentContext: string,
    isLoading: bool,
    error: Option<string>,
    results: Results)

  /** Once the guard passes, the payload built from the page state satisfies the
      document guard of every analysis wrapper, so none of them throws its input error. */
  lemma GuardedPayloadPassesFlowGuards(st: PageState)
    requires HasDocument(st.documentText, st.imageDataUri)
    ensures var p := BuildPayload(ResolveContext(st.documentContext, st.fileName), st.documentText, st.imageDataUri);
            && SummarizeFlow.SummarizeLegalDocument(SummarizeRequest(p)) == Ok(SummarizeRequest(p))
            && FlagClausesFlow.FlagCriticalClauses(FlagRequest(p)) == Ok(FlagRequest(p))
            && MissingPointsFlow.IdentifyMissingPoints(MissingPointsRequest(p)) == Ok(MissingPointsRequest(p))
            && PredictFlow.PredictLegalOutcomes(PredictRequest(p)) == Ok(PredictRequest(p))
  {
  }

  // ---------------------------------------------------------------------------
  // Settled outcomes of the five analyses

  /** A rejection reason: its `message` and its `toString()`, each possibly absent. */
  datatype Reason = Reason(message: Option<string>, text: Option<string>)

  /** `reason?.message || reason?.toString() || "Unknown error"`. */
  function ReasonText(r: Reason): (s: string)
    ensures s != ""
    ensures Truthy(r.message) ==> s == r.message.value
    ensures !Truthy(r.message) && Truthy(r.text) ==> s == r.text.value
    ensures !Truthy(r.message) && !Truthy(r.text) ==> s == "Unknown error"
  {
    if Truthy(r.message) then r.message.value
    else if Truthy(r.text) then r.text.value
    else "Unknown error"
  }

  datatype Settled<+T> = Fulfilled(value: T) | Rejected(reason: Reason)

  /** The five outcomes, in the order the calls are issued. */
  datatype Outcomes = Outcomes(
    summary: Settled<SummarizeFlow.Output>,
    clauses: Settled<FlagClausesFlow.Output>,
    improvements: Settled<SuggestFlow.Output>,
    missingPoints: Settled<MissingPointsFlow.Output>,
    foresight: Settled<PredictFlow.Output>)

  function ReasonOf<T>(s: Settled<T>): Option<Reason> {
    match s
    case Fulfilled(_) => None
    case Rejected(r) => Some(r)
  }

  /** Per analysis, in call order: `Some(reason)` for a rejection, `None` for a success. */
  function Failures(o: Outcomes): (f: seq<Option<Reason>>)
    ensures |f| == 5
  {
    [ReasonOf(o.summary), ReasonOf(o.clauses), ReasonOf(o.improvements),
     ReasonOf(o.missingPoints), ReasonOf(o.foresight)]
  }

  function RejectedFlags(o: Outcomes): (r: seq<bool>)
    ensures |r| == 5
    ensures forall i :: 0 <= i < 5 ==> r[i] == Failures(o)[i].Some?
  {
    var f := Failures(o);
    [f[0].Some?, f[1].Some?, f[2].Some?, f[3].Some?, f[4].Some?]
  }

  /** Every one of the five analyses was rejected. */
  predicate AllFailed(o: Outcomes) {
    forall i | 0 <= i < 5 :: Failures(o)[i].Some?
  }

  /** At least one of the five analyses was rejected. */
  predicate AnyFailed(o: Outcomes) {
    exists i | 0 <= i < 5 :: Failures(o)[i].Some?
  }

  /** A total failure is a failure: it always leaves an error text. */
  lemma AllFailedImpliesAnyFailed(o: Outcomes)
    ensures AllFailed(o) ==> AnyFailed(o)
    ensures AllFailed(o) ==> RunError(o).Some?
  {
    if AllFailed(o) {
      assert Failures(o)[0].Some?;
    }
  }

  /** The fixed note each failed analysis appends, in call order. */
  const FailureNotes: seq<string> := [
    "Summarization failed.",
    "Clause flagging failed.",
    "Improvement suggestion failed.",
    "Missing points analysis failed.",
    "Legal foresight analysis failed."
  ]

  /** One error updater: the note on a new line after a truthy earlier error, else the note alone. */
  function AppendNote(prev: Option<string>, note: string): Option<string> {
    if Truthy(prev) then Some(prev.value + "\n" + note) else Some(note)
  }

  /** The updaters of the failed analyses applied one after another. */
  function ApplyNotes(prev: Option<string>, failed: seq<bool>, notes: seq<string>): Option<string>
    requires |failed| == |notes|
    decreases |failed|
  {
    if |failed| == 0 then prev
    else ApplyNotes(if failed[0] then AppendNote(prev, notes[0]) else prev, failed[1..], notes[1..])
  }

  /** The notes of the failed analyses, in order. */
  function FailedNotes(failed: seq<bool>, notes: seq<string>): (r: seq<string>)
    requires |failed| == |notes|
    decreases |failed|
  {
    if |failed| == 0 then []
    else (if failed[0] then [notes[0]] else []) + FailedNotes(failed[1..], notes[1..])
  }

  /** The updater chain produces the failed notes joined by newlines, after the
      previous error when there was one; it leaves the error alone when nothing failed. */
  lemma {:induction false} ApplyNotesJoins(prev: Option<string>, failed: seq<bool>, notes: seq<string>)
    requires |failed| == |notes|
    requires forall i :: 0 <= i < |notes| ==> notes[i] != ""
    ensures var joined := Join(FailedNotes(failed, notes), "\n");
            ApplyNotes(prev, failed, notes)
            == if FailedNotes(failed, notes) == [] then prev
               else if Truthy(prev) then Some(prev.value + "\n" + joined)
               else Some(joined)
    decreases |failed|
  {
    if |failed| > 0 {
      var next := if failed[0] then AppendNote(prev, notes[0]) else prev;
      ApplyNotesJoins(next, failed[1..], notes[1..]);
      var rest := FailedNotes(failed[1..], notes[1..]);
      if failed[0] && rest != [] {
        assert FailedNotes(failed, notes) == [notes[0]] + rest;
        assert ([notes[0]] + rest)[1..] == rest;
        var joined := Join([notes[0]] + rest, "\n");
        assert joined == notes[0] + "\n" + Join(rest, "\n");
        assert Truthy(next);
        assert ApplyNotes(prev, failed, notes) == Some(next.value + "\n" + Join(rest, "\n"));
        if Truthy(prev) {
          assert next.value == prev.value + "\n" + notes[0];
          assert next.value + "\n" + Join(rest, "\n") == prev.value + "\n" + joined;
        } else {
          assert next.value == notes[0];
        }
      } else if failed[0] {
        assert FailedNotes(failed, notes) == [notes[0]];
      } else {
        assert FailedNotes(failed, notes) == rest;
      }
    }
  }

  /** A single failure at position `k` contributes exactly its own note. */
  lemma {:induction false} OneFailedNote(failed: seq<bool>, notes: seq<string>, k: int)
    requires |failed| == |notes| && 0 <= k < |failed|
    requires forall i :: 0 <= i < |failed| ==> (failed[i] <==> i == k)
    ensures FailedNotes(failed, notes) == [notes[k]]
    decreases |failed|
  {
    if k > 0 {
      OneFailedNote(failed[1..], notes[1..], k - 1);
    } else {
      NoFailedNotes(failed[1..], notes[1..]);
    }
  }

  lemma {:induction false} NoFailedNotes(failed: seq<bool>, notes: seq<string>)
    requires |failed| == |notes|
    requires forall i :: 0 <= i < |failed| ==> !failed[i]
    ensures FailedNotes(failed, notes) == []
    decreases |failed|
  {
    if |failed| > 0 {
      NoFailedNotes(failed[1..], notes[1..]);
    }
  }

  lemma {:induction false} SomeFailedNote(failed: seq<bool>, notes: seq<string>, k: int)
    requires |failed| == |notes| && 0 <= k < |failed| && failed[k]
    ensures FailedNotes(failed, notes) != []
    decreases |failed|
  {
    if k > 0 && !failed[0] {
      SomeFailedNote(failed[1..], notes[1..], k - 1);
    }
  }

  /** Some note is produced exactly when some analysis failed. */
  lemma NotesIffAnyFailed(o: Outcomes)
    ensures FailedNotes(RejectedFlags(o), FailureNotes) != [] <==> AnyFailed(o)
  {
    if AnyFailed(o) {
      var k :| 0 <= k < 5 && Failures(o)[k].Some?;
      SomeFailedNote(RejectedFlags(o), FailureNotes, k);
    } else {
      NoFailedNotes(RejectedFlags(o), FailureNotes);
    }
  }

  /** The reasons of the rejected outcomes, in call order. */
  function RejectionReasons(f: seq<Option<Reason>>): (r: seq<string>)
    ensures |r| <= |f|
    ensures (forall i :: 0 <= i < |f| ==> f[i].Some?) ==>
              |r| == |f| && forall i :: 0 <= i < |f| ==> r[i] == ReasonText(f[i].value)
    decreases |f|
  {
    if |f| == 0 then []
    else (if f[0].Some? then [ReasonText(f[0].value)] else []) + RejectionReasons(f[1..])
  }

  const AllFailedPrefix := "All AI analyses failed. Errors:\n"

  /** The error text once all five calls have settled: the accumulated notes of the
      failed analyses, replaced by the header and the joined reasons when all five failed. */
  function RunError(o: Outcomes): (e: Option<string>)
    ensures e.None? <==> !AnyFailed(o)
    ensures AllFailed(o) ==> e == Some(AllFailedPrefix + Join(RejectionReasons(Failures(o)), "\n"))
    ensures AnyFailed(o) && !AllFailed(o) ==> e == Some(Join(FailedNotes(RejectedFlags(o), FailureNotes), "\n"))
  {
    var accumulated := ApplyNotes(None, RejectedFlags(o), FailureNotes);
    ApplyNotesJoins(None, RejectedFlags(o), FailureNotes);
    NotesIffAnyFailed(o);
    if AllFailed(o) then Some(AllFailedPrefix + Join(RejectionReasons(Failures(o)), "\n"))
    else accumulated
  }

  function Kept<T>(s: Settled<T>): (r: Option<T>)
    ensures r.Some? <==> s.Fulfilled?
    ensures r.Some? ==> r.value == s.value
  {
    if s.Fulfilled? then Some(s.value) else None
  }

  /** Every fulfilled outcome is stored unchanged; every rejected one leaves its slot cleared. */
  function Stored(o: Outcomes): (r: Results)
    ensures r.summary.Some? <==> o.summary.Fulfilled?
    ensures r.summary.Some? ==> r.summary.value == o.summary.value
    ensures r.flaggedClauses.Some? <==> o.clauses.Fulfilled?
    ensures r.flaggedClauses.Some? ==> r.flaggedClauses.value == o.clauses.value
    ensures r.suggestions.Some? <==> o.improvements.Fulfilled?
    ensures r.suggestions.Some? ==> r.suggestions.value == o.improvements.value
    ensures r.missingPoints.Some? <==> o.missingPoints.Fulfilled?
    ensures r.missingPoints.Some? ==> r.missingPoints.value == o.missingPoints.value
    ensures r.legalForesight.Some? <==> o.foresight.Fulfilled?
    ensures r.legalForesight.Some? ==> r.legalForesight.value == o.foresight.value
  {
    Results(Kept(o.summary), Kept(o.clauses), Kept(o.improvements), Kept(o.missingPoints), Kept(o.foresight))
  }

  /** `processDocument` with the five settled outcomes given. Without a loaded document
      it returns before touching any state; otherwise the results are replaced wholesale,
      the error is rebuilt from this run only, and loading ends. */
  function ProcessDocument(st: PageState, o: Outcomes): (r: PageState)
    ensures !HasDocument(st.documentText, st.imageDataUri) ==> r == st
    ensures HasDocument(st.documentText, st.imageDataUri) ==>
              && r == st.(isLoading := false, error := RunError(o), results := Stored(o))
              && (r.error.None? <==> !AnyFailed(o))
  {
    if !HasDocument(st.documentText, st.imageDataUri) then st
    else st.(isLoading := false, error := RunError(o), results := Stored(o))
  }

  /** With exactly one failed analysis the error is that analysis's note alone and the
      other four results are kept. */
  lemma SingleFailure(st: PageState, o: Outcomes, k: int)
    requires HasDocument(st.documentText, st.imageDataUri)
    requires 0 <= k < 5
    requires forall i :: 0 <= i < 5 ==> (Failures(o)[i].Some? <==> i == k)
    ensures AnyFailed(o) && !AllFailed(o)
    ensures ProcessDocument(st, o).error == Some(FailureNotes[k])
  {
    assert Failures(o)[k].Some?;
    var j := if k == 0 then 1 else 0;
    assert Failures(o)[j].None?;
    OneFailedNote(RejectedFlags(o), FailureNotes, k);
  }

  /** The notice shown after a run. */
  datatype Notice = AnalysisFailed | PartialSuccess | AnalysisComplete

  function RunNotice(o: Outcomes): (n: Notice)
    ensures n == AnalysisFailed <==> AllFailed(o)
    ensures n == PartialSuccess <==> AnyFailed(o) && !AllFailed(o)
    ensures n == AnalysisComplete <==> !AnyFailed(o)
  {
    AllFailedImpliesAnyFailed(o);
    if AllFailed(o) then AnalysisFailed
    else if AnyFailed(o) then PartialSuccess
    else AnalysisComplete
  }

  // ---------------------------------------------------------------------------
  // File selection

  datatype FileInfo = FileInfo(name: string, mimeType: string)

  datatype FileKind = PlainText | Pdf | Image | Unsupported

  lemma NotImageTypes()
    ensures !StartsWith("text/plain", "image/") && !StartsWith("application/pdf", "image/")
  {
    assert "text/plain"[..6] != "image/" by { assert "text/plain"[0] != "image/"[0]; }
    assert "application/pdf"[..6] != "image/" by { assert "application/pdf"[0] != "image/"[0]; }
  }

  /** The accepted MIME types: plain text, PDF, and any `image/` type. */
  function ClassifyFile(mimeType: string): (k: FileKind)
    ensures k == PlainText <==> mimeType == "text/plain"
    ensures k == Pdf <==> mimeType == "application/pdf"
    ensures k == Image <==> StartsWith(mimeType, "image/")
  {
    NotImageTypes();
    if mimeType == "text/plain" then PlainText
    else if mimeType == "application/pdf" || StartsWith(mimeType, "image/") then
      (if mimeType == "application/pdf" then Pdf else Image)
    else Unsupported
  }

  /** How the chosen file will be read once selected. */
  datatype ReadRequest = NoRead | ReadAsText | ReadAsDataUrl

  datatype Selection = Selection(state: PageState, read: ReadRequest)

  /** `handleFileChange`: a chosen file clears the results, the error and both document
      fields; plain text is read as text, a PDF or image as a data URI, anything else is
      refused and the file name cleared. No file clears only the name and document. */
  function SelectFile(st: PageState, file: Option<FileInfo>): (s: Selection)
    ensures file.Some? ==>
              && s.state.results == NoResults && s.state.error.None?
              && s.state.documentText.None? && s.state.imageDataUri.None?
              && (s.state.fileName.Some? <==> ClassifyFile(file.value.mimeType) != Unsupported)
              && (s.state.fileName.Some? ==> s.state.fileName == Some(file.value.name))
              && (s.read == ReadAsText <==> ClassifyFile(file.value.mimeType) == PlainText)
              && (s.read == ReadAsDataUrl <==> ClassifyFile(file.value.mimeType) in {Pdf, Image})
    ensures file.None? ==>
              s.state == st.(fileName := None, documentText := None, imageDataUri := None) && s.read == NoRead
    ensures s.state.documentContext == st.documentContext && s.state.isLoading == st.isLoading
  {
    match file
    case None => Selection(st.(fileName := None, documentText := None, imageDataUri := None), NoRead)
    case Some(f) =>
      var cleared := st.(fileName := Some(f.name), results := NoResults, error := None,
                         documentText := None, imageDataUri := None);
      match ClassifyFile(f.mimeType)
      case PlainText => Selection(cleared, ReadAsText)
      case Pdf => Selection(cleared, ReadAsDataUrl)
      case Image => Selection(cleared, ReadAsDataUrl)
      case Unsupported => Selection(cleared.(fileName := None), NoRead)
  }

  /** The reader's `onload`: the content lands in the field the read request names. */
  function CompleteRead(st: PageState, read: ReadRequest, content: string): (r: PageState)
    ensures read == ReadAsText ==> r == st.(documentText := Some(content))
    ensures read == ReadAsDataUrl ==> r == st.(imageDataUri := Some(content))
    ensures read == NoRead ==> r == st
  {
    match read
    case NoRead => st
    case ReadAsText => st.(documentText := Some(content))
    case ReadAsDataUrl => st.(imageDataUri := Some(content))
  }

  /** The Analyze button: enabled with a document or a file name, and not while loading. */
  predicate AnalyzeEnabled(st: PageState) {
    (Truthy(st.documentText) || Truthy(st.imageDataUri) || Truthy(st.fileName)) && !st.isLoading
  }

  /** Right after a supported file is chosen, before its reader finishes, the button is
      already enabled, and it is `processDocument`'s own guard that makes the click a no-op. */
  lemma ClickBeforeReadIsNoOp(st: PageState, file: FileInfo, o: Outcomes)
    requires !st.isLoading && file.name != ""
    requires ClassifyFile(file.mimeType) != Unsupported
    ensures var s := SelectFile(st, Some(file)).state;
            AnalyzeEnabled(s) && ProcessDocument(s, o) == s
  {
  }

  /** A supported file whose reader delivers non-empty content leaves a loaded document:
      the content sits in the field that matches the file's type, the other field stays
      empty, the Analyze button is enabled, and a click now runs the analyses. */
  lemma ReadCompletesDocument(st: PageState, file: FileInfo, content: string, o: Outcomes)
    requires !st.isLoading && content != ""
    requires ClassifyFile(file.mimeType) != Unsupported
    ensures var s := SelectFile(st, Some(file));
            var loaded := CompleteRead(s.state, s.read, content);
            && (ClassifyFile(file.mimeType) == PlainText ==>
                  loaded.documentText == Some(content) && loaded.imageDataUri.None?)
            && (ClassifyFile(file.mimeType) != PlainText ==>
                  loaded.imageDataUri == Some(content) && loaded.documentText.None?)
            && loaded.fileName == Some(file.name)
            && AnalyzeEnabled(loaded)
            && ProcessDocument(loaded, o) == loaded.(isLoading := false, error := RunError(o), results := Stored(o))
  {
  }

  /** An unsupported file leaves nothing to analyse and the button disabled. */
  lemma UnsupportedFileDisablesAnalyze(st: PageState, file: FileInfo)
    requires ClassifyFile(file.mimeType) == Unsupported
    ensures var s := SelectFile(st, Some(file));
            s.read == NoRead && !AnalyzeEnabled(s.state)
  {
  }
}
