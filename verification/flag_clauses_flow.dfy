/** The `flagCriticalClauses` wrapper, its risk-tag vocabulary, the
    keyword-driven placeholder tool, and the flow's null-output fallback. */
module FlagClausesFlow {
  import opened Values
  import opened Text
  import opened DocumentInput
  import Rules

  /** The eight risk tags the output schema admits. */
  datatype RiskTag =
    | ControlRisk | FinancialRisk | ExitRisk | ComplianceRisk
    | OperationalRisk | ReputationalRisk | LegalAmbiguity | Other

  function TagName(t: RiskTag): string {
    match t
    case ControlRisk => "Control Risk"
    case FinancialRisk => "Financial Risk"
    case ExitRisk => "Exit Risk"
    case ComplianceRisk => "Compliance Risk"
    case OperationalRisk => "Operational Risk"
    case ReputationalRisk => "Reputational Risk"
    case LegalAmbiguity => "Legal Ambiguity"
    case Other => "Other"
  }

  /** The enum check of the schema: a string is a tag iff it is one of the eight names. */
  function ParseRiskTag(s: string): (r: Option<RiskTag>)
    ensures r.Some? ==> TagName(r.value) == s
  {
    if s == "Control Risk" then Some(ControlRisk)
    else if s == "Financial Risk" then Some(FinancialRisk)
    else if s == "Exit Risk" then Some(ExitRisk)
    else if s == "Compliance Risk" then Some(ComplianceRisk)
    else if s == "Operational Risk" then Some(OperationalRisk)
    else if s == "Reputational Risk" then Some(ReputationalRisk)
    else if s == "Legal Ambiguity" then Some(LegalAmbiguity)
    else if s == "Other" then Some(Other)
    else None
  }

  /** Every tag's name is accepted by the enum and parses back to that tag. */
  lemma ParseTagName(t: RiskTag)
    ensures ParseRiskTag(TagName(t)) == Some(t)
  {
  }

  datatype CriticalClause = CriticalClause(clauseText: string, reason: string, riskTags: Option<seq<RiskTag>>)

  datatype Input = Input(documentText: Option<string>, photoDataUri: Option<string>, context: Option<string>)

  datatype Output = Output(criticalClauses: seq<CriticalClause>)

  function FlagCriticalClauses(input: Input): (r: Result<Input>)
    ensures r.Ok? <==> HasDocument(input.documentText, input.photoDataUri)
    ensures r.Ok? ==> r.value == input
    ensures r.Err? ==> r.message == DocumentRequired
  {
    RequireDocument(input, input.documentText, input.photoDataUri)
  }

  const LiabilityClause := CriticalClause(
    "Example: The party of the first part shall not be held liable for acts of God.",
    "This clause limits liability under certain common, but broadly defined, circumstances. Its enforceability can vary.",
    Some([LegalAmbiguity, OperationalRisk]))

  const NonCompeteClause := CriticalClause(
    "Example: Employee agrees not to work for a competitor for 2 years within a 100-mile radius.",
    "Non-compete clauses can significantly restrict future employment opportunities. Their reasonableness and enforceability depend on jurisdiction and specifics.",
    Some([OperationalRisk, ControlRisk]))

  const PlaceholderClause := CriticalClause(
    "Example Critical Clause (Identified by Tool)",
    "This is an example placeholder clause identified by the tool based on the provided document data and context. It signifies a point of potential concern.",
    Some([Other]))

  /** The lower-cased document text contains the keyword; false when there is no text. */
  predicate TextMentions(documentText: Option<string>, keyword: string) {
    documentText.Some? && Contains(Lower(documentText.value), keyword)
  }

  /** The placeholder tool: one clause chosen by keyword, "liability" before "non-compete". */
  function IdentifyCriticalClausesTool(input: Input): (r: seq<CriticalClause>)
    ensures |r| == 1
  {
    if TextMentions(input.documentText, "liability") then [LiabilityClause]
    else if TextMentions(input.documentText, "non-compete") then [NonCompeteClause]
    else [PlaceholderClause]
  }

  /** The tool's rules as an ordered table. */
  const ToolRules: seq<Rules.Rule<CriticalClause>> :=
    [Rules.Rule(["liability"], LiabilityClause), Rules.Rule(["non-compete"], NonCompeteClause)]

  /** The tool returns exactly the clause of the first keyword rule that fires on the
      lower-cased text (an absent text reads as ""), else the placeholder. */
  lemma {:induction false} ToolFollowsRuleTable(input: Input)
    ensures IdentifyCriticalClausesTool(input)
         == [Rules.FirstMatch(ToolRules, Lower(input.documentText.GetOr("")), PlaceholderClause)]
  {
    var text := Lower(input.documentText.GetOr(""));
    Rules.MatchesOne(ToolRules[0], text);
    Rules.MatchesOne(ToolRules[1], text);
    if Contains(text, "liability") {
      Rules.FirstMatchWins(ToolRules, text, PlaceholderClause, 0);
    } else if Contains(text, "non-compete") {
      Rules.FirstMatchWins(ToolRules, text, PlaceholderClause, 1);
    } else {
      Rules.NoMatchFallsBack(ToolRules, text, PlaceholderClause);
    }
  }

  /** Every tag the tool emits is one of the eight schema names. */
  lemma ToolTagsInVocabulary(input: Input)
    ensures var c := IdentifyCriticalClausesTool(input)[0];
            c.riskTags.Some? && forall t :: t in c.riskTags.value ==> ParseRiskTag(TagName(t)) == Some(t)
  {
  }

  /** A text mentioning both "liability" and "non-compete" gets the liability clause. */
  lemma LiabilityBeatsNonCompete(input: Input)
    requires TextMentions(input.documentText, "liability")
    requires TextMentions(input.documentText, "non-compete")
    ensures IdentifyCriticalClausesTool(input) == [LiabilityClause]
    ensures IdentifyCriticalClausesTool(input)[0].riskTags == Some([LegalAmbiguity, OperationalRisk])
  {
  }

  /** A photo-only input always yields the single placeholder clause tagged "Other". */
  lemma PhotoOnlyGetsPlaceholder(input: Input)
    requires input.documentText.None?
    ensures IdentifyCriticalClausesTool(input) == [PlaceholderClause]
    ensures IdentifyCriticalClausesTool(input)[0].riskTags == Some([Other])
  {
  }

  /** The flow's result: the prompt's output, or an empty clause list when it is null. */
  function FlowOutput(promptOutput: Option<Output>): (r: Output)
    ensures promptOutput.None? ==> r.criticalClauses == []
    ensures promptOutput.Some? ==> r == promptOutput.value
  {
    promptOutput.GetOr(Output([]))
  }
}
