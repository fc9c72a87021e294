/** The `identifyMissingPoints` wrapper: the document guard in front of an
    opaque flow; `documentType` and `context` are optional and unchecked. */
module MissingPointsFlow {
  import opened Values
  import opened DocumentInput

  datatype Input = Input(
    documentText: Option<string>,
    photoDataUri: Option<string>,
    documentType: Option<string>,
    context: Option<string>)

  /** The result shape: two lists and a summary, all required. */
  datatype Output = Output(missingPoints: seq<string>, recommendations: seq<string>, summary: string)

  function IdentifyMissingPoints(input: Input): (r: Result<Input>)
    ensures r.Ok? <==> HasDocument(input.documentText, input.photoDataUri)
    ensures r.Ok? ==> r.value == input
    ensures r.Err? ==> r.message == DocumentRequired
  {
    RequireDocument(input, input.documentText, input.photoDataUri)
  }

  /** Neither the document type nor the context affects the verdict. */
  lemma OptionalFieldsNeverChecked(input: Input, documentType: Option<string>, context: Option<string>)
    ensures IdentifyMissingPoints(input.(documentType := documentType, context := context)).Ok?
         == IdentifyMissingPoints(input).Ok?
  {
  }
}
