/** The derivations behind the analysis report: the risk badge, the split of the
    overall risk assessment into a label and a body, when a list collapses to its
    empty message, whether the report has any content at all, and which fix
    controls each flagged clause and missing point offers. */
module AnalysisReport {
  import opened Values
  import opened Text
  import opened Rules
  import SummarizeFlow
  import PredictFlow
  import SuggestFlow

  // ---------------------------------------------------------------------------
  // Risk badge
  // ---------------------------------------------------------------------------

  datatype BadgeVariant = Destructive | Default | Secondary | Outline

  /** The keyword priority of the badge, highest first. */
  const RiskRules: seq<Rule<BadgeVariant>> := [
    Rule(["high"], Destructive),
    Rule(["medium"], Default),
    Rule(["low"], Secondary)
  ]

  /** `getRiskBadgeVariant`: an absent or empty assessment is "secondary"; otherwise
      the lower-cased text is searched for "high", "medium" and "low" in turn. */
  function RiskBadgeVariant(riskAssessment: Option<string>): (v: BadgeVariant)
    ensures !Truthy(riskAssessment) ==> v == Secondary
    ensures Truthy(riskAssessment) && Contains(Lower(riskAssessment.value), "high") ==> v == Destructive
    ensures v == Outline ==> Truthy(riskAssessment)
  {
    if !Truthy(riskAssessment) then Secondary
    else
      var lowerRisk := Lower(riskAssessment.value);
      if Contains(lowerRisk, "high") then Destructive
      else if Contains(lowerRisk, "medium") then Default
      else if Contains(lowerRisk, "low") then Secondary
      else Outline
  }

  /** For a present assessment the if-chain is the first-match rule over the
      keyword table, with "outline" when no keyword occurs. */
  lemma {:induction false} RiskBadgeFollowsRuleTable(riskAssessment: Option<string>)
    requires Truthy(riskAssessment)
    ensures RiskBadgeVariant(riskAssessment) == FirstMatch(RiskRules, Lower(riskAssessment.value), Outline)
  {
    var text := Lower(riskAssessment.value);
    MatchesOne(RiskRules[0], text);
    MatchesOne(RiskRules[1], text);
    MatchesOne(RiskRules[2], text);
    if Contains(text, "high") {
      FirstMatchWins(RiskRules, text, Outline, 0);
    } else if Contains(text, "medium") {
      FirstMatchWins(RiskRules, text, Outline, 1);
    } else if Contains(text, "low") {
      FirstMatchWins(RiskRules, text, Outline, 2);
    } else {
      NoMatchFallsBack(RiskRules, text, Outline);
    }
  }

  /** "low" never outranks an earlier keyword: whatever else the text says, a
      mention of "medium" without "high" gives "default". */
  lemma {:induction false} MediumOutranksLow(riskAssessment: Option<string>)
    requires Truthy(riskAssessment)
    requires !Contains(Lower(riskAssessment.value), "high")
    requires Contains(Lower(riskAssessment.value), "medium")
    ensures FirstMatch(RiskRules, Lower(riskAssessment.value), Outline) == Default
    ensures RiskBadgeVariant(riskAssessment) == Default
  {
    RiskBadgeFollowsRuleTable(riskAssessment);
    var text := Lower(riskAssessment.value);
    MatchesOne(RiskRules[0], text);
    MatchesOne(RiskRules[1], text);
    FirstMatchWins(RiskRules, text, Outline, 1);
  }

  /** Case does not matter: two assessments with the same lower-case form get the same badge. */
  lemma BadgeIgnoresCase(a: string, b: string)
    requires a != [] && b != [] && Lower(a) == Lower(b)
    ensures RiskBadgeVariant(Some(a)) == RiskBadgeVariant(Some(b))
  {
  }

  // ---------------------------------------------------------------------------
  // Risk assessment label and body
  // ---------------------------------------------------------------------------

  /** `s.split(c)[0]`: everything before the first `c`, or all of `s`. */
  function FirstField(s: string, c: char): (r: string)
    ensures |r| <= |s| && r == s[..|r|]
    ensures c !in r
    ensures |r| < |s| ==> s[|r|] == c
    decreases |s|
  {
    if s == [] || s[0] == c then []
    else
      var rest := FirstField(s[1..], c);
      assert s[..|rest| + 1] == [s[0]] + s[1..][..|rest|];
      [s[0]] + rest
  }

  /** The badge label and the paragraph shown under it. */
  datatype RiskHeadline = RiskHeadline(badge: string, body: string)

  /** The label is the text up to the first ':'; the body is the text after the
      first ':' (after position 0 when there is none, so all of it), trimmed. */
  function SplitRiskAssessment(s: string): (h: RiskHeadline)
    ensures ':' !in h.badge
    ensures ':' !in s ==> h.badge == s && h.body == Trim(s)
    ensures ':' in s ==> |h.badge| < |s| && s == h.badge + ":" + s[|h.badge| + 1..] && h.body == Trim(s[|h.badge| + 1..])
  {
    var at := IndexOf(s, ':');
    var badge := FirstField(s, ':');
    LabelEndsAtFirstColon(s);
    assert at >= 0 ==> s == s[..at] + [s[at]] + s[at + 1..];
    RiskHeadline(badge, Trim(s[at + 1..]))
  }

  /** `split(':')[0]` and `indexOf(':')` agree on where the first ':' is. */
  lemma LabelEndsAtFirstColon(s: string)
    ensures ':' in s ==> |FirstField(s, ':')| == IndexOf(s, ':')
    ensures ':' !in s ==> FirstField(s, ':') == s
  {
  }

  /** The two halves as the report computes them: the label is `split(':')[0]`
      and the body is the text after `indexOf(':')`, trimmed, for any text. */
  lemma SplitFollowsIndexOf(s: string)
    ensures SplitRiskAssessment(s).badge == FirstField(s, ':')
    ensures SplitRiskAssessment(s).body == Trim(s[IndexOf(s, ':') + 1..])
  {
    LabelEndsAtFirstColon(s);
  }

  // ---------------------------------------------------------------------------
  // Lists and the content test
  // ---------------------------------------------------------------------------

  /** An item that reads "not specified" in any ASCII case. */
  predicate NotSpecified(item: string) {
    Lower(item) == "not specified"
  }

  /** What `renderList` draws for a list. */
  datatype ListView = EmptyMessage(message: string) | Items(items: seq<string>)

  /** `renderList`: the empty message for an absent or empty list and for a list
      whose only item is "not specified" or blank; otherwise every item, in order. */
  function RenderList(items: Option<seq<string>>, emptyMessage: string): (v: ListView)
    ensures v.Items? ==> items.Some? && v.items == items.value && |v.items| > 0
    ensures v.EmptyMessage? ==> v.message == emptyMessage
    ensures items.Some? && |items.value| >= 2 ==> v == Items(items.value)
    ensures v.EmptyMessage? <==>
              items.None? || |items.value| == 0 ||
              (|items.value| == 1 && (NotSpecified(items.value[0]) || IsBlank(items.value[0])))
  {
    if items.None? || |items.value| == 0
       || (|items.value| == 1 && (Lower(items.value[0]) == "not specified" || Trim(items.value[0]) == ""))
    then EmptyMessage(emptyMessage)
    else Items(items.value)
  }

  /** A summary list counts towards `hasContent` when it has a first item that is
      not "not specified"; later items are not looked at. */
  predicate ListContributes(items: Option<seq<string>>) {
    items.Some? && |items.value| > 0 && !NotSpecified(items.value[0])
  }

  /** A contributing list is drawn as items unless its only item is blank. */
  lemma ContributingListIsRendered(items: Option<seq<string>>, emptyMessage: string)
    requires ListContributes(items)
    requires !(|items.value| == 1 && IsBlank(items.value[0]))
    ensures RenderList(items, emptyMessage) == Items(items.value)
  {
  }

  /** A list that is drawn but does not count has at least two items and opens with "not specified". */
  lemma RenderedButNotContributing(items: Option<seq<string>>, emptyMessage: string)
    requires RenderList(items, emptyMessage).Items?
    requires !ListContributes(items)
    ensures |items.value| >= 2 && NotSpecified(items.value[0])
  {
  }

  /** The one way the two rules disagree the other way: a single blank item counts
      as content yet is drawn as the empty message. */
  lemma BlankItemCountsButShowsEmpty(item: string, emptyMessage: string)
    requires IsBlank(item) && item != []
    ensures ListContributes(Some([item]))
    ensures RenderList(Some([item]), emptyMessage) == EmptyMessage(emptyMessage)
  {
    assert Lower(item)[0] == LowerChar(item[0]);
    assert IsWhitespace(item[0]);
    assert "not specified"[0] == 'n';
  }

  /** The summary's overall text or any of its four lists carries content. */
  predicate SummaryHasContent(s: SummarizeFlow.Output) {
    || s.overallSummary != ""
    || ListContributes(s.involvedParties)
    || ListContributes(s.keyObligations)
    || ListContributes(s.financialTerms)
    || ListContributes(s.keyDates)
  }

  /** The foresight section has an assessment, an outcome or a recommendation. */
  predicate ForesightHasContent(f: PredictFlow.Output) {
    f.overallRiskAssessment != "" || |f.predictedOutcomes| > 0 || |f.strategicRecommendations| > 0
  }

  /** `hasContent`: some section has something worth showing. */
  function HasContent(
    summary: Option<SummarizeFlow.Output>,
    flaggedClauses: seq<FlaggedClauseItem>,
    suggestions: Option<SuggestFlow.Output>,
    missingPoints: seq<MissingPointItem>,
    legalForesight: Option<PredictFlow.Output>
  ): (b: bool)
    ensures |flaggedClauses| > 0 || |missingPoints| > 0 ==> b
    ensures (&& summary.None? && flaggedClauses == [] && missingPoints == []
             && (suggestions.None? || suggestions.value.suggestions == [])
             && legalForesight.None?) ==> !b
    ensures b <==>
              (summary.Some? && SummaryHasContent(summary.value))
              || |flaggedClauses| > 0
              || (suggestions.Some? && |suggestions.value.suggestions| > 0)
              || |missingPoints| > 0
              || (legalForesight.Some? && ForesightHasContent(legalForesight.value))
  {
    || (summary.Some? && summary.value.overallSummary != "")
    || (summary.Some? && ListContributes(summary.value.involvedParties))
    || (summary.Some? && ListContributes(summary.value.keyObligations))
    || (summary.Some? && ListContributes(summary.value.financialTerms))
    || (summary.Some? && ListContributes(summary.value.keyDates))
    || |flaggedClauses| > 0
    || (suggestions.Some? && |suggestions.value.suggestions| > 0)
    || |missingPoints| > 0
    || (legalForesight.Some? && ForesightHasContent(legalForesight.value))
  }

  /** A summary that says nothing but "not specified" leaves the report empty. */
  lemma NotSpecifiedSummaryIsEmpty(s: SummarizeFlow.Output, first: string)
    requires s.overallSummary == "" && NotSpecified(first)
    requires forall l :: l in [s.involvedParties, s.keyObligations, s.financialTerms, s.keyDates] ==>
               l.None? || l == Some([]) || (l.Some? && |l.value| > 0 && l.value[0] == first)
    ensures !HasContent(Some(s), [], None, [], None)
  {
    assert s.involvedParties in [s.involvedParties, s.keyObligations, s.financialTerms, s.keyDates];
    assert s.keyObligations in [s.involvedParties, s.keyObligations, s.financialTerms, s.keyDates];
    assert s.financialTerms in [s.involvedParties, s.keyObligations, s.financialTerms, s.keyDates];
    assert s.keyDates in [s.involvedParties, s.keyObligations, s.financialTerms, s.keyDates];
  }

  /** Which card the report shows at the top level. */
  datatype ReportCard = UploadPrompt | NothingToShow(fileName: string) | FullReport

  function Card(fileName: Option<string>, hasContent: bool): (c: ReportCard)
    ensures c == FullReport <==> hasContent
    ensures c.NothingToShow? ==> Truthy(fileName) && c.fileName == fileName.value
    ensures c == UploadPrompt <==> !Truthy(fileName) && !hasContent
  {
    if !Truthy(fileName) && !hasContent then UploadPrompt
    else if Truthy(fileName) && !hasContent then NothingToShow(fileName.value)
    else FullReport
  }

  // ---------------------------------------------------------------------------
  // Fix controls
  // ---------------------------------------------------------------------------

  /** The `itemType` the report passes to its callbacks. */
  datatype ItemType = FlaggedClause | MissingPoint

  /** A flagged clause as the report reads it. */
  datatype FlaggedClauseItem = FlaggedClauseItem(
    id: string,
    originalClauseText: string,
    currentClauseText: string,
    originalReason: string,
    currentReason: string,
    riskTags: Option<seq<string>>,
    isFixProposed: bool,
    isFixAccepted: bool,
    fixLoading: bool)

  datatype MissingPointKind = Missing | Recommendation | SummaryNote

  /** A missing point, recommendation or summary line as the report reads it. */
  datatype MissingPointItem = MissingPointItem(
    id: string,
    kind: MissingPointKind,
    text: string,
    currentText: string,
    isFixable: bool,
    isFixProposed: bool,
    isFixAccepted: bool,
    fixLoading: bool,
    justificationNote: Option<string>)

  /** The callback a button invokes. */
  datatype Handler = OnApplyAutoFix | OnAcceptFix | OnRevertFix

  datatype Action = Apply | Accept | EditFurther | Revert | RevertAccepted

  datatype Button = Button(action: Action, caption: string, enabled: bool, handler: Option<Handler>)

  /** The three mutually exclusive control groups. */
  datatype Group = ApplyGroup | ReviewGroup | AcceptedGroup

  function GroupOf(a: Action): Group {
    match a
    case Apply => ApplyGroup
    case Accept | EditFurther | Revert => ReviewGroup
    case RevertAccepted => AcceptedGroup
  }

  /** Where an item is in its fix life cycle; acceptance dominates. */
  function StageGroup(isFixProposed: bool, isFixAccepted: bool): Group {
    if isFixAccepted then AcceptedGroup
    else if isFixProposed then ReviewGroup
    else ApplyGroup
  }

  function ButtonLabel(t: ItemType, a: Action): string {
    match (t, a)
    case (FlaggedClause, Apply) => "Apply Auto-Fix"
    case (MissingPoint, Apply) => "Suggest Clause"
    case (FlaggedClause, Accept) => "Accept Fix"
    case (MissingPoint, Accept) => "Accept Clause"
    case (_, EditFurther) => "Edit Further"
    case (_, Revert) => "Revert"
    case (FlaggedClause, RevertAccepted) => "Revert Accepted Fix"
    case (MissingPoint, RevertAccepted) => "Revert Accepted Clause"
  }

  /** The callback each button is wired to: apply, accept, both reverts to the
      revert callback, and none for "Edit Further". */
  function HandlerOf(a: Action): Option<Handler> {
    match a
    case Apply => Some(OnApplyAutoFix)
    case Accept => Some(OnAcceptFix)
    case EditFurther => None
    case Revert | RevertAccepted => Some(OnRevertFix)
  }

  /** The buttons for one item, in display order: every button of the group the
      item's stage selects, each once, and no other. */
  function FixControls(t: ItemType, isFixProposed: bool, isFixAccepted: bool, fixLoading: bool): (r: seq<Button>)
    ensures |r| > 0
    ensures forall act :: (exists i :: 0 <= i < |r| && r[i].action == act)
                          <==> GroupOf(act) == StageGroup(isFixProposed, isFixAccepted)
    ensures forall i, j :: 0 <= i < j < |r| ==> r[i].action != r[j].action
    ensures forall i :: 0 <= i < |r| ==> r[i].handler == HandlerOf(r[i].action)
    ensures forall i :: 0 <= i < |r| ==> GroupOf(r[i].action) == StageGroup(isFixProposed, isFixAccepted)
    ensures forall i :: 0 <= i < |r| ==> r[i].caption == ButtonLabel(t, r[i].action)
    ensures forall i :: 0 <= i < |r| && r[i].action == Apply ==> (r[i].enabled <==> !fixLoading)
    ensures forall i :: 0 <= i < |r| && r[i].action != Apply ==> (r[i].enabled <==> r[i].action != EditFurther)
    ensures forall i :: 0 <= i < |r| ==> (r[i].handler.None? <==> r[i].action == EditFurther)
  {
    var r :=
      (if !isFixProposed && !isFixAccepted
       then [Button(Apply, ButtonLabel(t, Apply), !fixLoading, Some(OnApplyAutoFix))] else [])
      + (if isFixProposed && !isFixAccepted
         then [Button(Accept, ButtonLabel(t, Accept), true, Some(OnAcceptFix)),
               Button(EditFurther, ButtonLabel(t, EditFurther), false, None),
               Button(Revert, ButtonLabel(t, Revert), true, Some(OnRevertFix))]
         else [])
      + (if isFixAccepted then [Button(RevertAccepted, ButtonLabel(t, RevertAccepted), true, Some(OnRevertFix))] else []);
    if isFixAccepted then
      assert |r| == 1 && r[0].action == RevertAccepted;
      r
    else if isFixProposed then
      assert |r| == 3 && r[0].action == Accept && r[1].action == EditFurther && r[2].action == Revert;
      r
    else
      assert |r| == 1 && r[0].action == Apply;
      r
  }

  /** Each of the four flag combinations shows exactly one group, and every group
      is reachable: the groups partition the (proposed, accepted) space. */
  lemma GroupsPartitionStages(t: ItemType, p: bool, a: bool, loading: bool)
    ensures var g := GroupOf(FixControls(t, p, a, loading)[0].action);
            && (g == ApplyGroup <==> !p && !a)
            && (g == ReviewGroup <==> p && !a)
            && (g == AcceptedGroup <==> a)
  {
  }

  /** The apply (or suggest) button is disabled exactly while a fix is loading. */
  lemma ApplyDisabledWhileLoading(t: ItemType, loading: bool)
    ensures FixControls(t, false, false, loading) == [Button(Apply, ButtonLabel(t, Apply), !loading, Some(OnApplyAutoFix))]
  {
  }

  /** What pressing a button does: the handler with the item's id and type, or
      nothing for a disabled button or one without a handler. */
  datatype Call = Call(handler: Handler, itemId: string, itemType: ItemType)

  function Press(b: Button, itemId: string, itemType: ItemType): (c: Option<Call>)
    ensures c.Some? <==> b.enabled && b.handler.Some?
    ensures c.Some? ==> c.value == Call(b.handler.value, itemId, itemType)
  {
    if b.enabled && b.handler.Some? then Some(Call(b.handler.value, itemId, itemType)) else None
  }

  /** The callbacks an item's enabled buttons can call, by stage: revert once
      accepted; accept or revert while a fix is proposed; apply when untouched and
      not loading; nothing while the first fix is loading. */
  function StageHandlers(isFixProposed: bool, isFixAccepted: bool, fixLoading: bool): set<Handler> {
    if isFixAccepted then {OnRevertFix}
    else if isFixProposed then {OnAcceptFix, OnRevertFix}
    else if fixLoading then {}
    else {OnApplyAutoFix}
  }

  /** Pressing the buttons of an item reaches exactly the callbacks its stage
      allows, always with the item's own id and type. */
  lemma PressableCalls(t: ItemType, p: bool, a: bool, loading: bool, id: string)
    ensures var r := FixControls(t, p, a, loading);
            forall h :: (exists i :: 0 <= i < |r| && Press(r[i], id, t) == Some(Call(h, id, t)))
                        <==> h in StageHandlers(p, a, loading)
    ensures var r := FixControls(t, p, a, loading);
            forall i :: 0 <= i < |r| && Press(r[i], id, t).Some? ==>
              Press(r[i], id, t).value.itemId == id && Press(r[i], id, t).value.itemType == t
  {
    var r := FixControls(t, p, a, loading);
    if a {
      assert Press(r[0], id, t) == Some(Call(OnRevertFix, id, t));
    } else if p {
      assert Press(r[0], id, t) == Some(Call(OnAcceptFix, id, t));
      assert Press(r[1], id, t).None?;
      assert Press(r[2], id, t) == Some(Call(OnRevertFix, id, t));
    } else if !loading {
      assert Press(r[0], id, t) == Some(Call(OnApplyAutoFix, id, t));
    }
  }

  /** "Edit Further" never calls anything; both revert buttons call the revert callback. */
  lemma EditFurtherIsInert(t: ItemType, p: bool, a: bool, loading: bool, id: string, i: int)
    requires 0 <= i < |FixControls(t, p, a, loading)|
    ensures var b := FixControls(t, p, a, loading)[i];
            && (b.action == EditFurther ==> Press(b, id, t).None?)
            && (b.action in {Revert, RevertAccepted} ==> Press(b, id, t) == Some(Call(OnRevertFix, id, t)))
  {
  }

  /** The fix box under a clause or missing point. */
  datatype FixBox = Suggested(text: string) | AcceptedFix(text: string)

  /** What one flagged clause shows. */
  datatype ClauseCard = ClauseCard(
    originalText: string,
    originalStruck: bool,
    fixBox: Option<FixBox>,
    reasonHeading: string,
    reason: string,
    reasonStruck: bool,
    justification: Option<string>,
    tags: seq<string>,
    controls: seq<Button>)

  const UntouchedReasonHeading := "Reason for Flag:"
  const FixedReasonHeading := "Justification / Original Reason:"

  /** One flagged clause: the original text and reason, struck through while a fix
      is only suggested; the fix box once a fix exists; a justification when the
      reason changed; the risk tags; and the stage's controls. */
  function FlaggedClauseCard(c: FlaggedClauseItem): (v: ClauseCard)
    ensures v.originalText == c.originalClauseText
    ensures v.originalStruck <==> v.fixBox.Some? && v.fixBox.value.Suggested?
    ensures v.fixBox.Some? <==> c.isFixProposed || c.isFixAccepted
    ensures v.fixBox.Some? ==> v.fixBox.value.text == c.currentClauseText
    ensures v.fixBox.Some? ==> (v.fixBox.value.AcceptedFix? <==> c.isFixAccepted)
    ensures v.reasonHeading == if v.fixBox.Some? then FixedReasonHeading else UntouchedReasonHeading
    ensures v.reason == c.originalReason && (v.reasonStruck <==> v.originalStruck)
    ensures v.justification.Some? <==> v.fixBox.Some? && c.currentReason != c.originalReason
    ensures v.justification.Some? ==> v.fixBox.Some? && v.justification.value != c.originalReason
    ensures v.justification.Some? ==> v.justification.value == c.currentReason
    ensures c.riskTags.Some? ==> v.tags == c.riskTags.value
    ensures c.riskTags.None? ==> v.tags == []
    ensures v.controls == FixControls(FlaggedClause, c.isFixProposed, c.isFixAccepted, c.fixLoading)
  {
    var proposedOnly := c.isFixProposed && !c.isFixAccepted;
    var touched := c.isFixProposed || c.isFixAccepted;
    ClauseCard(
      c.originalClauseText,
      proposedOnly,
      if proposedOnly then Some(Suggested(c.currentClauseText))
      else if c.isFixAccepted then Some(AcceptedFix(c.currentClauseText))
      else None,
      if touched then FixedReasonHeading else UntouchedReasonHeading,
      c.originalReason,
      proposedOnly,
      if touched && c.currentReason != c.originalReason then Some(c.currentReason) else None,
      c.riskTags.GetOr([]),
      FixControls(FlaggedClause, c.isFixProposed, c.isFixAccepted, c.fixLoading))
  }

  /** What one missing-point item shows; `note` is the justification line inside the fix box. */
  datatype PointCard = PointCard(
    heading: string,
    shownText: string,
    shownStruck: bool,
    fixBox: Option<FixBox>,
    note: Option<string>,
    controls: seq<Button>)

  function MissingPointHeading(k: MissingPointKind): string {
    match k
    case Missing => "Missing Information Identified:"
    case Recommendation => "Recommendation:"
    case SummaryNote => "Summary of Missing Points:"
  }

  /** Only fixable items get a fix box or controls; a fixable item shows its
      original text, any other item its current text. A fixable item gets a
      suggested box while a fix is only proposed and an accepted box once it is
      accepted, and the box carries the justification note when there is one. */
  function MissingPointCard(m: MissingPointItem): (v: PointCard)
    ensures m.kind == Missing ==> v.heading == "Missing Information Identified:"
    ensures m.kind == Recommendation ==> v.heading == "Recommendation:"
    ensures m.kind == SummaryNote ==> v.heading == "Summary of Missing Points:"
    ensures v.shownText == if m.isFixable then m.text else m.currentText
    ensures !m.isFixable ==> v.controls == [] && v.fixBox.None? && !v.shownStruck
    ensures m.isFixable ==> v.controls == FixControls(MissingPoint, m.isFixProposed, m.isFixAccepted, m.fixLoading)
    ensures m.isFixable ==> (v.fixBox.Some? <==> m.isFixProposed || m.isFixAccepted)
    ensures v.fixBox.Some? ==> (v.fixBox.value.AcceptedFix? <==> m.isFixAccepted)
    ensures v.fixBox.Some? ==> v.fixBox.value.text == m.currentText
    ensures v.shownStruck <==> v.fixBox.Some? && v.fixBox.value.Suggested?
    ensures v.note.Some? <==> v.fixBox.Some? && Truthy(m.justificationNote)
    ensures v.note.Some? ==> v.note == m.justificationNote
  {
    var proposedOnly := m.isFixProposed && !m.isFixAccepted;
    var box :=
      if m.isFixable && proposedOnly then Some(Suggested(m.currentText))
      else if m.isFixable && m.isFixAccepted then Some(AcceptedFix(m.currentText))
      else None;
    PointCard(
      MissingPointHeading(m.kind),
      if m.isFixable then m.text else m.currentText,
      proposedOnly && m.isFixable,
      box,
      if box.Some? && Truthy(m.justificationNote) then m.justificationNote else None,
      if m.isFixable then FixControls(MissingPoint, m.isFixProposed, m.isFixAccepted, m.fixLoading) else [])
  }
}
