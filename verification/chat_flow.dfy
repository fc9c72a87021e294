/** The `chatWithDocument` wrapper: two guards in a fixed order in front of
    an opaque question-answering flow. */
module ChatFlow {
  import opened Values
  import opened Text
  import opened DocumentInput

  const ChatDocumentRequired := "Either documentText or photoDataUri must be provided to chat about the document."
  const QuestionRequired := "A user question must be provided."

  datatype Input = Input(documentText: Option<string>, photoDataUri: Option<string>, userQuestion: string)

  datatype Output = Output(aiResponse: string)

  /** The document check runs first, then the (falsy-only) question check. */
  function ChatWithDocument(input: Input): (r: Result<Input>)
    ensures r.Ok? <==> HasDocument(input.documentText, input.photoDataUri) && input.userQuestion != ""
    ensures r.Ok? ==> r.value == input
    ensures !HasDocument(input.documentText, input.photoDataUri) ==> r == Err(ChatDocumentRequired)
    ensures HasDocument(input.documentText, input.photoDataUri) && input.userQuestion == "" ==>
              r == Err(QuestionRequired)
  {
    if !HasDocument(input.documentText, input.photoDataUri) then Err(ChatDocumentRequired)
    else if input.userQuestion == "" then Err(QuestionRequired)
    else Ok(input)
  }

  /** Only falsiness is tested: a question of spaces alone gets through. */
  lemma BlankQuestionPasses(input: Input)
    requires HasDocument(input.documentText, input.photoDataUri)
    requires input.userQuestion != "" && IsBlank(input.userQuestion)
    ensures ChatWithDocument(input) == Ok(input)
  {
  }
}
