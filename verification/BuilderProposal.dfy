/** Filling in what a Builder candidate leaves out (model_executor.py), on which the Comparator then selects. */
module BuilderProposal {
  import opened Wrappers
  import opened Values
  import opened Comparator
  import opened OutputSchemas

  type Data = map<string, Value>

  /** data.get(key, []) where the field is a list; null has no items to walk. */
  function Items(d: Data, key: string): seq<Value> {
    if key in d && d[key].List? then d[key].items else []
  }

  predicate IsDeletion(f: Value) {
    Get(f, "action") == Some(Str("delete"))
  }

  predicate Deletes(d: Data) {
    exists f | f in Items(d, "proposed_files") :: IsDeletion(f)
  }

  predicate HasCommandRisk(d: Data, level: string) {
    exists c | c in Items(d, "proposed_commands") :: Get(c, "risk_level") == Some(Str(level))
  }

  /** The worst of what the candidate does, and never less than medium when it touches a file. */
  function DefaultRisk(d: Data): string {
    if HasCommandRisk(d, "critical") then "critical"
    else if Deletes(d) || HasCommandRisk(d, "high") then "high"
    else if Items(d, "proposed_files") != [] then "medium"
    else "low"
  }

  predicate Risky(v: Value) {
    v == Str("high") || v == Str("critical")
  }

  function Shown(v: Value): string {
    if v.Str? then v.text else ""
  }

  /** A line for the overall risk, then one for each deletion in order. */
  function Reasons(d: Data, risk: Value): seq<Value> {
    (if Risky(risk) then [Str("Overall risk level: " + Shown(risk))] else []) + Deletions(Items(d, "proposed_files"))
  }

  function Deletions(files: seq<Value>): seq<Value> {
    if files == [] then []
    else
      var n := |files| - 1;
      Deletions(files[..n])
      + if IsDeletion(files[n]) then [Str("File deletion: " + Shown(GetOr(files[n], "path", Str("?"))))] else []
  }

  function Impact(d: Data): Value {
    Dict(map["files_affected" := Num(|Items(d, "proposed_files")| as real),
             "commands_count" := Num(|Items(d, "proposed_commands")| as real)])
  }

  /** data.setdefault(key, v). */
  function Default(d: Data, key: string, v: Value): (r: Data)
    ensures r.Keys == d.Keys + {key}
    ensures forall k | k in d :: r[k] == d[k]
    ensures key in d ==> r == d
    ensures key !in d ==> r[key] == v
  {
    if key in d then d else d[key := v]
  }

  function WithLists(d: Data): Data {
    Default(Default(d, "proposed_commands", List([])), "execution_steps", List([]))
  }

  function WithRisk(d: Data): Data {
    Default(d, "risk_level", Str(DefaultRisk(d)))
  }

  function WithApproval(d: Data): Data
    requires "risk_level" in d
  {
    Default(d, "requires_approval", Bool(Risky(d["risk_level"])))
  }

  function WithReasons(d: Data): Data
    requires "risk_level" in d
  {
    Default(d, "approval_reasons", List(Reasons(d, d["risk_level"])))
  }

  function WithImpact(d: Data): Data {
    Default(d, "estimated_impact", Impact(d))
  }

  /** The candidate with every field it lacks, each filled in from those before it. */
  function Normalized(d: Data): Data {
    WithImpact(WithReasons(WithApproval(WithRisk(WithLists(d)))))
  }

  /** Commands given as null pass the schema but cannot be walked or counted. */
  predicate CannotNormalize(d: Data) {
    "proposed_commands" in d && d["proposed_commands"] == Null && ("risk_level" !in d || "estimated_impact" !in d)
  }

  function RiskRank(level: string): nat {
    if level == "medium" then 1 else if level == "high" then 2 else if level == "critical" then 3 else 0
  }

  /** The risk computed from the files and commands, one by one. */
  method ComputeRisk(d: Data) returns (risk: string)
    ensures risk == DefaultRisk(d)
  {
    var files, commands := Items(d, "proposed_files"), Items(d, "proposed_commands");
    risk := "low";
    for i := 0 to |files|
      invariant risk == "low" && forall k | 0 <= k < i :: !IsDeletion(files[k])
    {
      if IsDeletion(files[i]) {
        risk := "high";
        break;
      }
    }
    assert risk == if Deletes(d) then "high" else "low";
    for i := 0 to |commands|
      invariant risk ==
        if exists k :: 0 <= k < i && Get(commands[k], "risk_level") == Some(Str("critical")) then "critical"
        else if Deletes(d) || exists k :: 0 <= k < i && Get(commands[k], "risk_level") == Some(Str("high")) then "high"
        else "low"
    {
      var level := Get(commands[i], "risk_level");
      if level == Some(Str("high")) || level == Some(Str("critical")) {
        if RiskRank(level.value.text) > RiskRank(risk) {
          risk := level.value.text;
        }
      }
    }
    if risk == "low" && files != [] {
      risk := "medium";
    }
  }

  /** The reasons collected file by file. */
  method CollectReasons(d: Data, risk: Value) returns (reasons: seq<Value>)
    ensures reasons == Reasons(d, risk)
  {
    reasons := if Risky(risk) then [Str("Overall risk level: " + Shown(risk))] else [];
    ghost var head := reasons;
    var files := Items(d, "proposed_files");
    for i := 0 to |files|
      invariant reasons == head + Deletions(files[..i])
    {
      assert files[..i + 1][..i] == files[..i];
      if IsDeletion(files[i]) {
        reasons := reasons + [Str("File deletion: " + Shown(GetOr(files[i], "path", Str("?"))))];
      }
    }
    assert files[..|files|] == files;
  }

  lemma ListsKeepItems(d: Data)
    ensures Items(WithLists(d), "proposed_files") == Items(d, "proposed_files")
    ensures Items(WithLists(d), "proposed_commands") == Items(d, "proposed_commands")
    ensures "proposed_commands" in WithLists(d)
    ensures WithLists(d)["proposed_commands"] == Null <==> "proposed_commands" in d && d["proposed_commands"] == Null
    ensures forall k | k != "proposed_commands" && k != "execution_steps" :: k in WithLists(d) <==> k in d
  {
  }

  /** The fields computed once the risk is known; None where counting the commands raises. */
  method FillRest(d0: Data) returns (result: Option<Data>)
    requires "risk_level" in d0 && "proposed_commands" in d0
    ensures result == None <==> d0["proposed_commands"] == Null && "estimated_impact" !in d0
    ensures result.Some? ==> result.value == WithImpact(WithReasons(WithApproval(d0)))
  {
    hide Items, Reasons, Impact, Risky;
    var d := d0;
    if "requires_approval" !in d {
      d := d["requires_approval" := Bool(Risky(d["risk_level"]))];
    }
    assert d == WithApproval(d0);
    if "approval_reasons" !in d {
      var reasons := CollectReasons(d, d["risk_level"]);
      d := d["approval_reasons" := List(reasons)];
    }
    assert d == WithReasons(WithApproval(d0));
    if "estimated_impact" !in d {
      if d["proposed_commands"] == Null {
        return None;
      }
      d := d["estimated_impact" := Impact(d)];
    }
    return Some(d);
  }

  /** Normalizing in place; None where the source raises. */
  method NormalizeBuilderProposal(d0: Data) returns (result: Option<Data>)
    requires BuilderCandidate(Dict(d0))
    ensures result == None <==> CannotNormalize(d0)
    ensures result.Some? ==> result.value == Normalized(d0)
  {
    hide BuilderCandidate, Items, DefaultRisk, WithApproval, WithReasons, WithImpact;
    ListsKeepItems(d0);
    var d := Default(d0, "proposed_commands", List([]));
    d := Default(d, "execution_steps", List([]));
    if "risk_level" !in d {
      if d["proposed_commands"] == Null {
        return None;
      }
      var risk := ComputeRisk(d);
      d := d["risk_level" := Str(risk)];
    }
    assert d == WithRisk(WithLists(d0));
    result := FillRest(d);
  }

  const FIELDS: set<string> :=
    {"proposed_commands", "execution_steps", "risk_level", "requires_approval", "approval_reasons", "estimated_impact"}

  lemma CompleteIsFixed(d: Data)
    requires FIELDS <= d.Keys
    ensures Normalized(d) == d
  {
    hide DefaultRisk, Reasons, Impact, Risky, Default;
    assert "proposed_commands" in FIELDS && "execution_steps" in FIELDS && "risk_level" in FIELDS;
    assert "requires_approval" in FIELDS && "approval_reasons" in FIELDS && "estimated_impact" in FIELDS;
  }

  lemma NormalizedKeys(d: Data)
    ensures Normalized(d).Keys == d.Keys + FIELDS
  {
    hide DefaultRisk, Reasons, Impact, Risky, Default;
  }

  lemma NormalizedKeeps(d: Data, key: string)
    requires key in d
    ensures key in Normalized(d) && Normalized(d)[key] == d[key]
  {
    hide DefaultRisk, Reasons, Impact, Risky, Default;
  }

  /** Nothing the Builder gave is changed, nothing is left out, and a second pass does nothing. */
  lemma NormalizingOnlyFillsIn(d: Data)
    ensures forall k | k in d :: k in Normalized(d) && Normalized(d)[k] == d[k]
    ensures Normalized(d).Keys == d.Keys + FIELDS
    ensures Normalized(Normalized(d)) == Normalized(d)
  {
    hide Normalized;
    NormalizedKeys(d);
    forall k | k in d {
      NormalizedKeeps(d, k);
    }
    CompleteIsFixed(Normalized(d));
  }

  /**
   * Whether the Comparator will take the normalized candidate for auto-approvable. The Builder's own word
   * decides if there is one; else the risk it named, where an explicit null counts as harmless; else that
   * it deletes nothing and runs no dangerous command.
   */
  lemma AutoApprovableExactly(d: Data)
    requires BuilderCandidate(Dict(d)) && !CannotNormalize(d)
    ensures AutoApprovable(Dict(Normalized(d))) <==>
      if "requires_approval" in d then d["requires_approval"] == Bool(false)
      else if "risk_level" in d then !Risky(d["risk_level"])
      else !Deletes(d) && !HasCommandRisk(d, "high") && !HasCommandRisk(d, "critical")
  {
    hide BuilderCandidate, DefaultRisk, Reasons, Impact;
    ListsKeepItems(d);
    RiskyDefault(d);
    var d2 := WithRisk(WithLists(d));
    var d3 := WithApproval(d2);
    assert Normalized(d)["requires_approval"] == d3["requires_approval"];
  }

  lemma RiskyDefault(d: Data)
    ensures Risky(Str(DefaultRisk(WithLists(d)))) <==>
        Deletes(d) || HasCommandRisk(d, "high") || HasCommandRisk(d, "critical")
  {
    ListsKeepItems(d);
  }

  /** A deletion whose risk is given as null asks for no approval. */
  lemma NullRiskHidesDeletion() returns (d: Data)
    ensures BuilderCandidate(Dict(d)) && Deletes(d) && "requires_approval" !in d && !CannotNormalize(d)
    ensures AutoApprovable(Dict(Normalized(d)))
  {
    hide BuilderCandidate, Normalized, AutoApprovable;
    d := SampleFields("delete")["risk_level" := Null];
    SamplePasses(Dict(d), "delete");
    assert SampleFile("delete") in Items(d, "proposed_files") && IsDeletion(SampleFile("delete"));
    AutoApprovableExactly(d);
  }

  /** Every default is of the kind the schema asks for. */
  lemma DefaultsPass(d: Data, risk: Value)
    ensures IsRiskLevel(Str(DefaultRisk(d))) && IsTextList(List(Reasons(d, risk))) && ImpactItem(Impact(d))
  {
    hide Items;
    DeletionsAreText(Items(d, "proposed_files"));
  }

  /** What the normalized candidate holds in a field the Builder left out. */
  lemma NormalizedFieldPasses(d: Data, key: string)
    requires key in Normalized(d) && key !in d
    ensures key == "proposed_commands" ==> IsCommandList(Normalized(d)[key])
    ensures key == "execution_steps" ==> IsStepList(Normalized(d)[key])
    ensures key == "risk_level" ==> IsRiskLevel(Normalized(d)[key])
    ensures key == "requires_approval" ==> IsBool(Normalized(d)[key])
    ensures key == "approval_reasons" ==> IsTextList(Normalized(d)[key])
    ensures key == "estimated_impact" ==> ImpactItem(Normalized(d)[key])
  {
    hide DefaultRisk, Reasons, Impact, Risky, Default, IsRiskLevel, IsTextList, ImpactItem;
    var d3 := WithApproval(WithRisk(WithLists(d)));
    DefaultsPass(WithLists(d), Null);
    DefaultsPass(d3, d3["risk_level"]);
    DefaultsPass(WithReasons(d3), Null);
  }

  lemma {:induction false} DeletionsAreText(files: seq<Value>)
    ensures forall r | r in Deletions(files) :: r.Str?
  {
    if files != [] {
      DeletionsAreText(files[..|files| - 1]);
    }
  }

  /** Normalizing keeps a candidate valid. */
  lemma NormalizedStaysValid(d: Data)
    requires BuilderCandidate(Dict(d))
    ensures BuilderCandidate(Dict(Normalized(d)))
  {
    hide Normalized, FileItem, ChangeStep, CommandItem, ExecutionStep, ImpactItem, IsNonEmptyText, IsRiskLevel,
      IsTextList, IsCommandList, IsStepList;
    NormalizingOnlyFillsIn(d);
    forall key | key in Normalized(d) && key !in d {
      NormalizedFieldPasses(d, key);
    }
  }

  function WithNotes(d: Data): Data {
    Default(d, "risk_notes", List([]))
  }

  lemma NotesStayValid(d: Data)
    requires BuilderCandidate(Dict(d))
    ensures BuilderCandidate(Dict(WithNotes(d))) && (CannotNormalize(WithNotes(d)) <==> CannotNormalize(d))
  {
    hide FileItem, ChangeStep, IsCommandList, IsStepList, ImpactItem, IsNonEmptyText, IsRiskLevel;
  }

  function CandidatesOf(v: Value): (r: seq<Value>)
    requires BuilderOutput(v)
    ensures forall i | 0 <= i < |r| :: BuilderCandidate(r[i]) && r[i].Dict?
  {
    Get(v, "proposals").value.items
  }

  /** The candidate as it is handed on. */
  function Completed(c: Value): Value
    requires c.Dict?
  {
    Dict(Normalized(WithNotes(c.fields)))
  }

  lemma CompletedStaysValid(c: Value)
    requires BuilderCandidate(c)
    ensures BuilderCandidate(Completed(c)) && BuilderCandidate(Dict(WithNotes(c.fields)))
    ensures CannotNormalize(WithNotes(c.fields)) <==> CannotNormalize(c.fields)
  {
    hide FileItem, ChangeStep, OptionalFields, Normalized;
    NotesStayValid(c.fields);
    NormalizedStaysValid(WithNotes(c.fields));
  }

  /**
   * The Builder's step after its output has passed the schema: every candidate completed, in place and in
   * order, nothing else touched, and an output that passes again; None where completing one raises.
   */
  method CompleteOutput(v: Value) returns (result: Option<Value>)
    requires BuilderOutput(v)
    ensures result == None <==> exists i :: 0 <= i < |CandidatesOf(v)| && CannotNormalize(CandidatesOf(v)[i].fields)
    ensures result.Some? ==>
      && BuilderOutput(result.value) && |CandidatesOf(result.value)| == |CandidatesOf(v)|
      && (forall i | 0 <= i < |CandidatesOf(v)| :: CandidatesOf(result.value)[i] == Completed(CandidatesOf(v)[i]))
      && (forall key | key != "proposals" :: Get(result.value, key) == Get(v, key))
  {
    hide BuilderCandidate, Completed, Normalized, CannotNormalize;
    var candidates := CandidatesOf(v);
    var done: seq<Value> := [];
    for i := 0 to |candidates|
      invariant |done| == i
      invariant forall k | 0 <= k < i :: BuilderCandidate(done[k]) && done[k] == Completed(candidates[k])
      invariant forall k | 0 <= k < i :: !CannotNormalize(candidates[k].fields)
    {
      CompletedStaysValid(candidates[i]);
      var normalized := NormalizeBuilderProposal(WithNotes(candidates[i].fields));
      if normalized == None {
        return None;
      }
      assert Dict(normalized.value) == Completed(candidates[i]) by {
        CompletedIs(candidates[i]);
      }
      done := done + [Dict(normalized.value)];
    }
    return Some(Dict(v.fields["proposals" := List(done)]));
  }

  lemma CompletedIs(c: Value)
    requires c.Dict?
    ensures Completed(c) == Dict(Normalized(WithNotes(c.fields)))
  {
  }
}
