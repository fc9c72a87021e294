/** The `predictLegalOutcomes` wrapper: the document guard, then a warning
    (not an error) when the context is missing, then the opaque flow. */
module PredictFlow {
  import opened Values
  import opened DocumentInput

  datatype Input = Input(documentText: Option<string>, photoDataUri: Option<string>, context: Option<string>)

  /** One predicted outcome: issue and outcome are required, the category optional. */
  datatype PredictedOutcome = PredictedOutcome(
    identifiedIssue: string,
    potentialRealWorldOutcome: string,
    riskCategory: Option<string>)

  /** The prediction shape: all three fields are required. */
  datatype Output = Output(
    overallRiskAssessment: string,
    predictedOutcomes: seq<PredictedOutcome>,
    strategicRecommendations: seq<string>)

  /** `console.warn` fires when the context is falsy; nothing else follows from it. */
  predicate WarnsMissingContext(input: Input) {
    !Truthy(input.context)
  }

  function PredictLegalOutcomes(input: Input): (r: Result<Input>)
    ensures r.Ok? <==> HasDocument(input.documentText, input.photoDataUri)
    ensures r.Ok? ==> r.value == input
    ensures r.Err? ==> r.message == DocumentRequired
  {
    RequireDocument(input, input.documentText, input.photoDataUri)
  }

  /** A missing context only warns: a document without context is still forwarded as is. */
  lemma MissingContextOnlyWarns(input: Input)
    requires HasDocument(input.documentText, input.photoDataUri)
    requires !Truthy(input.context)
    ensures WarnsMissingContext(input)
    ensures PredictLegalOutcomes(input) == Ok(input)
  {
  }
}
