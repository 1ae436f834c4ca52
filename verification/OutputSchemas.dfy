/** What the output validators of the Builder and the Reviewer accept (model_executor.py). */
module OutputSchemas {
  import opened Wrappers
  import opened Text
  import opened Values

  const VALID_DECISIONS: set<string> := {"approve", "request_changes"}
  const VALID_SEVERITIES: set<string> := {"critical", "major", "minor", "nitpick"}
  const VALID_CONFIDENCES: set<string> := {"high", "medium", "low"}
  const VALID_FILE_ACTIONS: set<string> := {"create", "modify", "delete"}
  const VALID_RISK_LEVELS: set<string> := {"low", "medium", "high", "critical"}
  const VALID_ACTION_TYPES: set<string> := {"file", "shell", "git"}
  const BUILDER_MIN_PROPOSALS: nat := 2
  const BUILDER_MAX_PROPOSALS: nat := 3

  // ---------------------------------------------------------------- fields

  predicate IsText(v: Value) {
    v.Str?
  }

  predicate IsNonEmptyText(v: Value) {
    v.Str? && Strip(v.text) != ""
  }

  /** isinstance(v, (int, float)), which a bool is too. */
  predicate IsNumber(v: Value) {
    v.Num? || v.Bool?
  }

  predicate IsOneOf(v: Value, names: set<string>) {
    v.Str? && v.text in names
  }

  /** A required field that passes a check. */
  predicate Has(v: Value, key: string, check: Value -> bool) {
    Get(v, key).Some? && check(Get(v, key).value)
  }

  /** A field that may be missing or null, and else passes a check. */
  predicate May(v: Value, key: string, check: Value -> bool) {
    Get(v, key) == None || Get(v, key).value == Null || check(Get(v, key).value)
  }

  predicate ListOf(v: Value, check: Value -> bool) {
    v.List? && forall item | item in v.items :: check(item)
  }

  predicate NonEmptyListOf(v: Value, check: Value -> bool) {
    ListOf(v, check) && v.items != []
  }

  predicate IsRiskLevel(v: Value) {
    IsOneOf(v, VALID_RISK_LEVELS)
  }

  // ---------------------------------------------------------------- the Builder

  predicate FileItem(v: Value) {
    && v.Dict? && Has(v, "path", IsNonEmptyText) && Has(v, "reason", IsNonEmptyText)
    && Has(v, "action", (a: Value) => IsOneOf(a, VALID_FILE_ACTIONS))
  }

  predicate ChangeStep(v: Value) {
    v.Dict? && Has(v, "step", IsNumber) && Has(v, "description", IsText)
  }

  predicate CommandItem(v: Value) {
    && v.Dict? && Has(v, "command", IsNonEmptyText) && Has(v, "reason", IsNonEmptyText)
    && May(v, "risk_level", IsRiskLevel)
  }

  predicate ExecutionStep(v: Value) {
    && v.Dict? && Has(v, "step_number", IsNumber)
    && Has(v, "action_type", (a: Value) => IsOneOf(a, VALID_ACTION_TYPES))
    && Has(v, "target", IsNonEmptyText) && Has(v, "description", IsNonEmptyText)
    && May(v, "risk_level", IsRiskLevel)
  }

  predicate ImpactItem(v: Value) {
    && v.Dict? && May(v, "files_affected", IsNumber) && May(v, "commands_count", IsNumber)
    && May(v, "risk_summary", IsText)
  }

  predicate IsTextList(v: Value) {
    ListOf(v, IsText)
  }

  predicate IsCommandList(v: Value) {
    ListOf(v, CommandItem)
  }

  predicate IsStepList(v: Value) {
    ListOf(v, ExecutionStep)
  }

  predicate IsBool(v: Value) {
    v.Bool?
  }

  /** _validate_single_proposal, the fields that every candidate must have. */
  predicate RequiredFields(v: Value) {
    && v.Dict?
    && Has(v, "change_summary", IsNonEmptyText)
    && Has(v, "proposed_files", (f: Value) => NonEmptyListOf(f, FileItem))
    && Has(v, "change_steps", (s: Value) => NonEmptyListOf(s, ChangeStep))
    && Has(v, "reasoning_summary", IsNonEmptyText)
    && Has(v, "validation_plan", (p: Value) => NonEmptyListOf(p, IsText))
  }

  /** The fields it may leave out. */
  predicate OptionalFields(v: Value) {
    && May(v, "risk_notes", IsTextList)
    && May(v, "proposed_commands", IsCommandList)
    && May(v, "execution_steps", IsStepList)
    && May(v, "risk_level", IsRiskLevel)
    && May(v, "requires_approval", IsBool)
    && May(v, "approval_reasons", IsTextList)
    && May(v, "estimated_impact", ImpactItem)
  }

  predicate BuilderCandidate(v: Value) {
    RequiredFields(v) && OptionalFields(v)
  }

  /** BuilderOutputSchema.validate: a wrapper of two or three candidates, whatever else stands beside them. */
  predicate BuilderOutput(v: Value) {
    && v.Dict?
    && Has(v, "proposals", (p: Value) => ListOf(p, BuilderCandidate))
    && BUILDER_MIN_PROPOSALS <= |Get(v, "proposals").value.items| <= BUILDER_MAX_PROPOSALS
  }

  // ---------------------------------------------------------------- the Reviewer

  predicate Issue(v: Value) {
    && v.Dict? && Has(v, "severity", (s: Value) => IsOneOf(s, VALID_SEVERITIES))
    && Has(v, "description", IsNonEmptyText)
  }

  /** ReviewerOutputSchema.validate; a review_summary is never looked at. */
  predicate ReviewerOutput(v: Value) {
    && v.Dict?
    && Has(v, "decision", (d: Value) => IsOneOf(d, VALID_DECISIONS))
    && Has(v, "reason", IsNonEmptyText)
    && Has(v, "issues_found", (i: Value) => ListOf(i, Issue))
    && Has(v, "confidence", (c: Value) => IsOneOf(c, VALID_CONFIDENCES))
  }

  // ---------------------------------------------------------------- a candidate that passes

  const WORD: Value := Str("x")

  lemma WordIsText()
    ensures IsNonEmptyText(WORD)
  {
    assert StripLeft("x") == "x";
  }

  /** A file of a candidate. */
  function SampleFile(action: string): Value {
    Dict(map["path" := WORD, "action" := Str(action), "reason" := WORD])
  }

  const SAMPLE_STEP: Value := Dict(map["step" := Num(1.0), "description" := WORD])

  /** The least a candidate must say about one file. */
  function SampleFields(action: string): map<string, Value> {
    map["change_summary" := WORD, "proposed_files" := List([SampleFile(action)]), "change_steps" := List([SAMPLE_STEP]),
        "reasoning_summary" := WORD, "validation_plan" := List([WORD])]
  }

  lemma SampleFilePasses(action: string)
    requires action in VALID_FILE_ACTIONS
    ensures FileItem(SampleFile(action))
  {
    hide Strip;
    WordIsText();
  }

  /** The sample, with nothing else or with a null risk beside it. */
  predicate IsSample(v: Value, action: string) {
    v == Dict(SampleFields(action)) || v == Dict(SampleFields(action)["risk_level" := Null])
  }

  lemma SampleHasRequired(v: Value, action: string)
    requires action in VALID_FILE_ACTIONS && IsSample(v, action)
    ensures RequiredFields(v)
  {
    hide FileItem, ChangeStep, IsNonEmptyText, SampleFile, IsText;
    WordIsText();
    SampleFilePasses(action);
    StepAndPlanPass();
    assert Get(v, "change_summary") == Some(WORD) && Get(v, "reasoning_summary") == Some(WORD);
    assert Get(v, "proposed_files") == Some(List([SampleFile(action)]));
    assert Get(v, "change_steps") == Some(List([SAMPLE_STEP])) && Get(v, "validation_plan") == Some(List([WORD]));
  }

  lemma StepAndPlanPass()
    ensures ChangeStep(SAMPLE_STEP) && IsText(WORD)
  {
  }

  lemma SampleLacksOptional(v: Value, action: string)
    requires IsSample(v, action)
    ensures OptionalFields(v)
  {
    hide IsTextList, IsCommandList, IsStepList, IsRiskLevel, IsBool, ImpactItem;
    assert Get(v, "risk_notes") == None && Get(v, "proposed_commands") == None && Get(v, "execution_steps") == None;
    assert Get(v, "requires_approval") == None && Get(v, "approval_reasons") == None;
    assert Get(v, "estimated_impact") == None;
    assert Get(v, "risk_level") == None || Get(v, "risk_level").value == Null;
  }

  lemma SamplePasses(v: Value, action: string)
    requires action in VALID_FILE_ACTIONS && IsSample(v, action)
    ensures BuilderCandidate(v)
  {
    hide RequiredFields, OptionalFields, IsSample;
    SampleHasRequired(v, action);
    SampleLacksOptional(v, action);
  }
}
