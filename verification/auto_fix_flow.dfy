/** The `autoFixClause` wrapper's precondition checks and the
    `autoFixClauseFlow` output check around an opaque rewriting prompt. */
module AutoFixFlow {
  import opened Values

  const ProblemRequired := "Problem description must be provided."
  const OriginalRequired := "Original clause text must be provided when fixType is 'rewrite'."
  const FixFailed := "AI failed to generate a fixed clause."

  datatype FixType = Rewrite | Generate

  /** `fixType` is `None` when the caller omits it. The wrapper sees it that way;
      the schema's declared default could only be filled in later, by the flow. */
  datatype Input = Input(
    originalClauseText: Option<string>,
    problemDescription: Option<string>,
    documentContext: Option<string>,
    fixType: Option<FixType>)

  datatype Output = Output(fixedClauseText: string, justificationNote: Option<string>)

  /** The wrapper's checks, in order: a problem description, then the original text
      when `fixType` is given as "rewrite". "generate" with an original text only warns. */
  function AutoFixClause(input: Input): (r: Result<Input>)
    ensures r.Ok? <==> Truthy(input.problemDescription)
                       && !(input.fixType == Some(Rewrite) && !Truthy(input.originalClauseText))
    ensures r.Ok? ==> r.value == input
    ensures !Truthy(input.problemDescription) ==> r == Err(ProblemRequired)
    ensures Truthy(input.problemDescription) && r.Err? ==> r == Err(OriginalRequired)
  {
    if !Truthy(input.problemDescription) then Err(ProblemRequired)
    else if input.fixType == Some(Rewrite) && !Truthy(input.originalClauseText) then Err(OriginalRequired)
    else Ok(input)
  }

  /** `console.warn` fires for "generate" with an original text; the call still goes ahead. */
  predicate WarnsGenerateWithText(input: Input) {
    input.fixType == Some(Generate) && Truthy(input.originalClauseText)
  }

  /** The default fix type "rewrite" that the flow's input schema declares, as it
      would read an input if that default were filled in. */
  function ApplySchemaDefault(input: Input): (r: Input)
    ensures r.fixType.Some?
    ensures input.fixType.Some? ==> r == input
    ensures input.fixType.None? ==> r == input.(fixType := Some(Rewrite))
  {
    input.(fixType := Some(input.fixType.GetOr(Rewrite)))
  }

  /** The flow's check on the prompt's answer: a null answer or an empty clause is an
      error; anything else is returned unchanged. */
  function FlowOutput(promptOutput: Option<Output>): (r: Result<Output>)
    ensures r.Ok? <==> promptOutput.Some? && promptOutput.value.fixedClauseText != ""
    ensures r.Ok? ==> r.value == promptOutput.value
    ensures r.Err? ==> r.message == FixFailed
  {
    if promptOutput.None? || promptOutput.value.fixedClauseText == "" then Err(FixFailed)
    else Ok(promptOutput.value)
  }

  /** The whole call: the wrapper's checks, then the output check on what the
      prompt answers (`promptOutput`); the prompt's own reading of its input is opaque. */
  function AutoFix(input: Input, promptOutput: Option<Output>): (r: Result<Output>)
    ensures r.Ok? <==> AutoFixClause(input).Ok? && promptOutput.Some? && promptOutput.value.fixedClauseText != ""
    ensures r.Ok? ==> Truthy(input.problemDescription) && r.value.fixedClauseText != ""
    ensures r.Ok? ==> promptOutput == Some(r.value)
    ensures !Truthy(input.problemDescription) ==> r == Err(ProblemRequired)
    ensures Truthy(input.problemDescription) && input.fixType == Some(Rewrite) && !Truthy(input.originalClauseText)
            ==> r == Err(OriginalRequired)
    ensures AutoFixClause(input).Ok? && r.Err? ==> r == Err(FixFailed)
  {
    match AutoFixClause(input)
    case Err(m) => Err(m)
    case Ok(checked) => FlowOutput(promptOutput)
  }

  /** When both checks fail, the problem-description error is the one thrown. */
  lemma ProblemCheckFirst(input: Input)
    requires !Truthy(input.problemDescription)
    requires input.fixType == Some(Rewrite) && !Truthy(input.originalClauseText)
    ensures AutoFixClause(input) == Err(ProblemRequired)
  {
  }

  /** "generate" with an original text is accepted; it only warns. */
  lemma GenerateWithTextOnlyWarns(input: Input)
    requires Truthy(input.problemDescription)
    requires input.fixType == Some(Generate) && Truthy(input.originalClauseText)
    ensures WarnsGenerateWithText(input)
    ensures AutoFixClause(input) == Ok(input)
  {
  }

  /** The wrapper tests `fixType` only when it is given: an omitted fix type without
      original text passes, although the same input with the schema's declared
      default filled in is exactly the combination the explicit check rejects. */
  lemma OmittedFixTypeSkipsRewriteCheck(input: Input)
    requires Truthy(input.problemDescription)
    requires input.fixType.None? && !Truthy(input.originalClauseText)
    ensures AutoFixClause(input) == Ok(input)
    ensures ApplySchemaDefault(input).fixType == Some(Rewrite)
    ensures AutoFixClause(ApplySchemaDefault(input)) == Err(OriginalRequired)
  {
  }
}
