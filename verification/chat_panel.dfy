/** The chat panel under the report: what asking a question does to the panel's
    state, which request it sends, how the reply or the failure is recorded, and
    when the answer is shown. */
module ChatPanel {
  import opened Values
  import opened Text
  import opened DocumentInput
  import ChatFlow

  /** The panel's state: the typed question, the last answer, the loading flag
      and the last error. */
  datatype ChatState = ChatState(
    userQuestion: string,
    aiResponse: Option<string>,
    isLoading: bool,
    error: Option<string>)

  /** The panel as first drawn. */
  const InitialChat := ChatState("", None, false, None)

  /** Why a question was refused without a request (shown as a toast). */
  datatype Refusal = EmptyQuestion | NoDocumentContext

  /** The result of pressing "Ask Question": either a refusal with the state
      untouched, or the pending state together with the request sent. */
  datatype Ask = Refused(why: Refusal) | Sent(pending: ChatState, request: ChatFlow.Input)

  /** `handleAskQuestion` up to the call: a blank question is refused first, then
      a missing document; otherwise loading starts, the old answer and error are
      cleared, and the request carries the question as typed and only the
      document fields that are truthy. */
  function AskQuestion(st: ChatState, documentText: Option<string>, imageDataUri: Option<string>): (a: Ask)
    ensures a.Refused? <==> IsBlank(st.userQuestion) || !HasDocument(documentText, imageDataUri)
    ensures IsBlank(st.userQuestion) ==> a == Refused(EmptyQuestion)
    ensures !IsBlank(st.userQuestion) && !HasDocument(documentText, imageDataUri) ==> a == Refused(NoDocumentContext)
    ensures a.Sent? ==> a.pending == ChatState(st.userQuestion, None, true, None)
    ensures a.Sent? ==> a.request.userQuestion == st.userQuestion
    ensures a.Sent? ==> a.request.documentText.Some? ==> a.request.documentText == documentText
    ensures a.Sent? ==> a.request.photoDataUri.Some? ==> a.request.photoDataUri == imageDataUri
    ensures a.Sent? ==> (Truthy(documentText) <==> Truthy(a.request.documentText))
    ensures a.Sent? ==> (Truthy(imageDataUri) <==> Truthy(a.request.photoDataUri))
  {
    if Trim(st.userQuestion) == "" then Refused(EmptyQuestion)
    else if !Truthy(documentText) && !Truthy(imageDataUri) then Refused(NoDocumentContext)
    else
      Sent(
        st.(isLoading := true, error := None, aiResponse := None),
        ChatFlow.Input(KeepTruthy(documentText), KeepTruthy(imageDataUri), st.userQuestion))
  }

  /** The question check comes first: with a blank question and no document the
      refusal is still the empty-question one. */
  lemma BlankQuestionRefusedFirst(st: ChatState, documentText: Option<string>, imageDataUri: Option<string>)
    requires IsBlank(st.userQuestion) && !HasDocument(documentText, imageDataUri)
    ensures AskQuestion(st, documentText, imageDataUri) == Refused(EmptyQuestion)
  {
  }

  /** Whatever the panel sends passes both guards of `chatWithDocument`, so the
      reply is the flow's own outcome and never one of the guard errors. */
  lemma SentRequestPassesGuards(st: ChatState, documentText: Option<string>, imageDataUri: Option<string>)
    requires AskQuestion(st, documentText, imageDataUri).Sent?
    ensures var req := AskQuestion(st, documentText, imageDataUri).request;
            ChatFlow.ChatWithDocument(req) == Ok(req)
  {
  }

  const ChatFallbackError := "An error occurred while getting the AI's response."

  /** What `chatWithDocument(request)` yields: a guard error, else the flow's outcome. */
  function ChatReply(request: ChatFlow.Input, flowOutcome: Result<ChatFlow.Output>): (r: Result<ChatFlow.Output>)
    ensures ChatFlow.ChatWithDocument(request).Ok? ==> r == flowOutcome
    ensures ChatFlow.ChatWithDocument(request).Err? ==> r == Err(ChatFlow.ChatWithDocument(request).message)
  {
    match ChatFlow.ChatWithDocument(request)
    case Err(m) => Err(m)
    case Ok(_) => flowOutcome
  }

  /** The `try`/`catch`/`finally` after the call: a reply becomes the answer, a
      failure becomes the error (its message, or the fallback text when the message
      is empty), and loading ends either way. */
  function Settle(pending: ChatState, reply: Result<ChatFlow.Output>): (st: ChatState)
    ensures !st.isLoading
    ensures st.userQuestion == pending.userQuestion
    ensures reply.Ok? ==> st.aiResponse == Some(reply.value.aiResponse) && st.error == pending.error
    ensures reply.Err? ==> st.aiResponse == pending.aiResponse && Truthy(st.error)
    ensures reply.Err? && reply.message != "" ==> st.error == Some(reply.message)
    ensures reply.Err? && reply.message == "" ==> st.error == Some(ChatFallbackError)
  {
    match reply
    case Ok(out) => pending.(aiResponse := Some(out.aiResponse), isLoading := false)
    case Err(m) => pending.(error := Some(if m != "" then m else ChatFallbackError), isLoading := false)
  }

  /** The answer box is drawn when there is an answer and no error. */
  predicate ShowsAnswer(st: ChatState) {
    Truthy(st.aiResponse) && !Truthy(st.error)
  }

  /** "Ask Question" is pressable when not loading and some document is present. */
  predicate AskEnabled(st: ChatState, documentText: Option<string>, imageDataUri: Option<string>) {
    !st.isLoading && HasDocument(documentText, imageDataUri)
  }

  /** One full exchange: ask, then settle with what the flow produced. A refused
      question leaves the state as it was. A sent one never meets a guard error of
      the wrapper, so the panel ends with the flow's answer and no error, or with
      no answer and the flow's error text (the fallback when it is empty). */
  function Exchange(st: ChatState, documentText: Option<string>, imageDataUri: Option<string>,
                    flowOutcome: Result<ChatFlow.Output>): (r: ChatState)
    ensures AskQuestion(st, documentText, imageDataUri).Refused? ==> r == st
    ensures AskQuestion(st, documentText, imageDataUri).Sent? ==>
              && !r.isLoading
              && r.userQuestion == st.userQuestion
              && (flowOutcome.Ok? ==> r.aiResponse == Some(flowOutcome.value.aiResponse) && r.error.None?)
              && (flowOutcome.Err? ==> r.aiResponse.None?)
              && (flowOutcome.Err? ==>
                    r.error == Some(if flowOutcome.message != "" then flowOutcome.message else ChatFallbackError))
  {
    match AskQuestion(st, documentText, imageDataUri)
    case Refused(_) => st
    case Sent(pending, request) =>
      SentRequestPassesGuards(st, documentText, imageDataUri);
      Settle(pending, ChatReply(request, flowOutcome))
  }

  /** After a sent question the answer is shown exactly when the flow answered with
      a non-empty text; a failure always hides any earlier answer. */
  lemma ExchangeShowsAnswerIffAnswered(st: ChatState, documentText: Option<string>, imageDataUri: Option<string>,
                                       flowOutcome: Result<ChatFlow.Output>)
    requires AskQuestion(st, documentText, imageDataUri).Sent?
    ensures ShowsAnswer(Exchange(st, documentText, imageDataUri, flowOutcome))
            <==> flowOutcome.Ok? && flowOutcome.value.aiResponse != ""
    ensures flowOutcome.Err? ==> Exchange(st, documentText, imageDataUri, flowOutcome).aiResponse.None?
  {
    SentRequestPassesGuards(st, documentText, imageDataUri);
  }

  /** While a request is pending the button is disabled, so the question cannot be sent twice. */
  lemma PendingDisablesAsk(st: ChatState, documentText: Option<string>, imageDataUri: Option<string>)
    requires AskQuestion(st, documentText, imageDataUri).Sent?
    ensures !AskEnabled(AskQuestion(st, documentText, imageDataUri).pending, documentText, imageDataUri)
    ensures !ShowsAnswer(AskQuestion(st, documentText, imageDataUri).pending)
  {
  }
}
