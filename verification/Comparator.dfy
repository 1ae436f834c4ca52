/** Collapsing the Builder's candidates to one (executor.py): never a veto, first wins ties. */
module Comparator {
  import opened Wrappers
  import opened Values

  predicate AutoApprovable(c: Value) {
    c.Dict? && Get(c, "requires_approval") == Some(Bool(false))
  }

  /** The N candidates in the builder slot: a list, a wrapper around one, or a single proposal. */
  function Candidates(slot: Option<Value>): Option<seq<Value>> {
    if slot == None then None
    else match slot.value
      case List(items) => Some(items)
      case Dict(fields) =>
        if "proposals" in fields && fields["proposals"].List? then Some(fields["proposals"].items)
        else if fields != map[] then Some([slot.value])
        else None
      case _ => None
  }

  const UNREADABLE_RANK: nat := 3

  /** Risk names are trimmed and lower-cased before the lookup; `canon` stands for that. */
  function Rank(canon: string -> string, c: Value): nat {
    if Get(c, "risk_level").Some? && Get(c, "risk_level").value.Str? then
      var name := canon(Get(c, "risk_level").value.text);
      if name == "low" then 0 else if name == "medium" then 1 else if name == "high" then 2 else UNREADABLE_RANK
    else UNREADABLE_RANK
  }

  /** i is the first among those of least rank. */
  ghost predicate FirstOfLeastRisk(canon: string -> string, cands: seq<Value>, i: nat) {
    && i < |cands|
    && (forall j | 0 <= j < |cands| :: Rank(canon, cands[i]) <= Rank(canon, cands[j]))
    && (forall j | 0 <= j < i :: Rank(canon, cands[i]) < Rank(canon, cands[j]))
  }

  /** The candidate's risk is the one of this name, trimmed and in lower case. */
  predicate HasRisk(canon: string -> string, c: Value, name: string) {
    && c.Dict? && "risk_level" in c.fields && c.fields["risk_level"].Str?
    && canon(c.fields["risk_level"].text) == name
  }

  /** i is the first candidate of this risk. */
  ghost predicate FirstOf(canon: string -> string, cands: seq<Value>, name: string, i: nat) {
    i < |cands| && HasRisk(canon, cands[i], name) && forall j | 0 <= j < i :: !HasRisk(canon, cands[j], name)
  }

  /** The first of low risk, without one the first of medium, then of high risk, and else the first. */
  ghost predicate LeastByName(canon: string -> string, cands: seq<Value>, i: nat) {
    if exists c | c in cands :: HasRisk(canon, c, "low") then FirstOf(canon, cands, "low", i)
    else if exists c | c in cands :: HasRisk(canon, c, "medium") then FirstOf(canon, cands, "medium", i)
    else if exists c | c in cands :: HasRisk(canon, c, "high") then FirstOf(canon, cands, "high", i)
    else i == 0
  }

  lemma RankByName(canon: string -> string, c: Value)
    ensures Rank(canon, c) == 0 <==> HasRisk(canon, c, "low")
    ensures Rank(canon, c) == 1 <==> HasRisk(canon, c, "medium")
    ensures Rank(canon, c) == 2 <==> HasRisk(canon, c, "high")
    ensures Rank(canon, c) <= 3
  {
  }

  lemma LeastRiskByName(canon: string -> string, cands: seq<Value>, i: nat)
    requires FirstOfLeastRisk(canon, cands, i)
    ensures LeastByName(canon, cands, i)
  {
    hide Rank, HasRisk;
    forall c | c in cands
      ensures Rank(canon, cands[i]) <= Rank(canon, c) <= 3
      ensures Rank(canon, c) == 0 <==> HasRisk(canon, c, "low")
      ensures Rank(canon, c) == 1 <==> HasRisk(canon, c, "medium")
      ensures Rank(canon, c) == 2 <==> HasRisk(canon, c, "high")
    {
      RankByName(canon, c);
    }
    assert cands[i] in cands;
    forall j | 0 <= j < i
      ensures Rank(canon, cands[i]) < Rank(canon, cands[j]) && cands[j] in cands
    {
    }
    if i > 0 {
      assert cands[0] in cands;
    }
  }

  /** What is found in the builder slot: a list of candidates, a wrapper around one, or a single one. */
  predicate Offers(slot: Option<Value>, cands: seq<Value>) {
    match slot
    case Some(List(items)) => cands == items
    case Some(Dict(fields)) =>
      if "proposals" in fields && fields["proposals"].List? then fields["proposals"] == List(cands)
      else cands == if fields == map[] then [] else [Dict(fields)]
    case _ => cands == []
  }

  lemma OffersExactly(slot: Option<Value>, cands: seq<Value>)
    ensures Offers(slot, cands) <==> Candidates(slot).GetOr([]) == cands
  {
  }

  method ComparatorFallback(canon: string -> string, cands: seq<Value>) returns (index: Option<nat>, chosen: Value)
    ensures index.Some? <==> cands != []
    ensures index == None ==> chosen == Dict(map[])
    ensures index.Some? ==> FirstOfLeastRisk(canon, cands, index.value) && LeastByName(canon, cands, index.value)
    ensures index.Some? ==> chosen == if cands[index.value].Dict? then cands[index.value] else Dict(map[])
  {
    if cands == [] {
      return None, Dict(map[]);
    }
    var bestIndex, bestRank: Option<nat> := 0, None;
    for i := 0 to |cands|
      invariant bestIndex < |cands|
      invariant i == 0 <==> bestRank == None
      invariant i > 0 ==> bestIndex < i && bestRank == Some(Rank(canon, cands[bestIndex]))
      invariant i > 0 ==> forall j | 0 <= j < i :: Rank(canon, cands[bestIndex]) <= Rank(canon, cands[j])
      invariant i > 0 ==> forall j | 0 <= j < bestIndex :: Rank(canon, cands[bestIndex]) < Rank(canon, cands[j])
    {
      var rank := UNREADABLE_RANK;
      var level := Get(cands[i], "risk_level");
      if level.Some? && level.value.Str? {
        var name := canon(level.value.text);
        if name == "low" { rank := 0; }
        else if name == "medium" { rank := 1; }
        else if name == "high" { rank := 2; }
      }
      if bestRank == None || rank < bestRank.value {
        bestRank, bestIndex := Some(rank), i;
      }
    }
    LeastRiskByName(canon, cands, bestIndex);
    return Some(bestIndex), if cands[bestIndex].Dict? then cands[bestIndex] else Dict(map[]);
  }

  /** i is the selection among cands: the first auto-approvable one, else the first, else by least risk. */
  ghost predicate Selected(canon: string -> string, cands: seq<Value>, i: nat) {
    && i < |cands|
    && if exists j :: 0 <= j < |cands| && AutoApprovable(cands[j])
       then AutoApprovable(cands[i]) && forall j | 0 <= j < i :: !AutoApprovable(cands[j])
       else if cands[0].Dict? then i == 0
       else FirstOfLeastRisk(canon, cands, i)
  }

  ghost predicate SelectedAs(canon: string -> string, cands: seq<Value>, i: nat, output: Value) {
    && Selected(canon, cands, i)
    && Get(output, "chosen") == Some(if cands[i].Dict? then cands[i] else Dict(map[]))
  }

  /** The Comparator's output for what it finds in the builder slot. */
  ghost predicate Selection(canon: string -> string, slot: Option<Value>, output: Value) {
    var cands := Candidates(slot);
    if cands == None || cands.value == [] then Get(output, "chosen") == Some(Dict(map[]))
    else
      exists i: nat :: SelectedAs(canon, cands.value, i, output)
  }

  /** The output of choosing among these candidates, in terms of their fields. */
  ghost predicate Chooses(canon: string -> string, cands: seq<Value>, output: Value) {
    && output.Dict? && output.fields.Keys == {"selected_index", "chosen"}
    && if cands == [] then output.fields["selected_index"] == Null && output.fields["chosen"] == Dict(map[])
       else exists i: nat :: ChoosesAt(canon, cands, i)
              && output.fields["selected_index"] == Num(i as real)
              && output.fields["chosen"] == if cands[i].Dict? then cands[i] else Dict(map[])
  }

  ghost predicate ChoosesAt(canon: string -> string, cands: seq<Value>, i: nat) {
    && i < |cands|
    && if exists c | c in cands :: NeedsNoApproval(c)
       then NeedsNoApproval(cands[i]) && forall j | 0 <= j < i :: !NeedsNoApproval(cands[j])
       else if cands[0].Dict? then i == 0
       else LeastByName(canon, cands, i)
  }

  predicate NeedsNoApproval(c: Value) {
    c.Dict? && "requires_approval" in c.fields && c.fields["requires_approval"] == Bool(false)
  }

  /** The first auto-approvable candidate, else the first if it is an object, else the one of least risk. */
  method Compare(canon: string -> string, slot: Option<Value>) returns (output: Value)
    ensures Selection(canon, slot, output)
    ensures exists cands :: Offers(slot, cands) && Chooses(canon, cands, output)
  {
    hide FirstOfLeastRisk, LeastByName, Candidates, Offers;
    OffersExactly(slot, Candidates(slot).GetOr([]));
    var cands := Candidates(slot).GetOr([]);
    if cands != [] {
      var chosenIndex := 0;
      for i := 0 to |cands|
        invariant chosenIndex == 0
        invariant forall j | 0 <= j < i :: !AutoApprovable(cands[j])
      {
        if AutoApprovable(cands[i]) {
          chosenIndex := i;
          break;
        }
      }
      var chosen := cands[chosenIndex];
      if chosen.Dict? {
        output := Dict(map["selected_index" := Num(chosenIndex as real), "chosen" := chosen]);
        assert SelectedAs(canon, cands, chosenIndex, output);
        return;
      }
    }
    var index, chosen := ComparatorFallback(canon, cands);
    output := Dict(map["selected_index" := if index.Some? then Num(index.value as real) else Null, "chosen" := chosen]);
    assert index.Some? ==> SelectedAs(canon, cands, index.value, output);
  }
}
