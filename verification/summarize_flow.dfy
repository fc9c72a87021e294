/** The `summarizeLegalDocument` wrapper: the document guard in front of an
    opaque summarisation flow. */
module SummarizeFlow {
  import opened Values
  import opened DocumentInput

  datatype Input = Input(documentText: Option<string>, photoDataUri: Option<string>, context: Option<string>)

  /** The summary shape: `overallSummary` is required, the four lists are optional. */
  datatype Output = Output(
    overallSummary: string,
    involvedParties: Option<seq<string>>,
    keyObligations: Option<seq<string>>,
    financialTerms: Option<seq<string>>,
    keyDates: Option<seq<string>>)

  /** `Ok(input)`: the input is handed to the flow unchanged; `Err`: the wrapper throws. */
  function SummarizeLegalDocument(input: Input): (r: Result<Input>)
    ensures r.Ok? <==> HasDocument(input.documentText, input.photoDataUri)
    ensures r.Ok? ==> r.value == input
    ensures r.Err? ==> r.message == DocumentRequired
  {
    RequireDocument(input, input.documentText, input.photoDataUri)
  }

  /** A scan or photo alone is enough, and so is text together with a photo. */
  lemma PhotoAccepted(input: Input)
    requires Truthy(input.photoDataUri)
    ensures SummarizeLegalDocument(input) == Ok(input)
  {
  }

  /** The context is never inspected: changing it never changes the verdict. */
  lemma ContextNeverChecked(input: Input, context: Option<string>)
    ensures SummarizeLegalDocument(input.(context := context)).Ok? == SummarizeLegalDocument(input).Ok?
  {
  }
}
