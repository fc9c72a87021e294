/** The guard every analysis flow wrapper runs before calling its flow:
    `if (!input.documentText && !input.photoDataUri) throw ...`. */
module DocumentInput {
  import opened Values

  const DocumentRequired := "Either documentText or photoDataUri must be provided."

  /** At least one of the two document fields is truthy; both may be. */
  predicate HasDocument(documentText: Option<string>, photoDataUri: Option<string>) {
    Truthy(documentText) || Truthy(photoDataUri)
  }

  /** The guard itself: `Err` is the thrown error, `Ok(input)` lets the wrapper
      hand its input on unchanged. */
  function RequireDocument<T>(input: T, documentText: Option<string>, photoDataUri: Option<string>): (r: Result<T>)
    ensures r.Ok? <==> HasDocument(documentText, photoDataUri)
    ensures r.Ok? ==> r.value == input
    ensures r.Err? ==> r.message == DocumentRequired
  {
    if HasDocument(documentText, photoDataUri) then Ok(input) else Err(DocumentRequired)
  }
}
