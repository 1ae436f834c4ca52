/** The task state machine (models.py) and the canonical pipeline with its participant filter (definitions.py). */
module TaskPipeline {

  datatype TaskStatus = Pending | Planning | InProgress | Reviewing | Done | Failed

  /** TASK_TRANSITIONS. */
  function Transitions(s: TaskStatus): set<TaskStatus> {
    match s
    case Pending => {Planning, InProgress, Failed}
    case Planning => {InProgress, Failed}
    case InProgress => {Reviewing, Failed}
    case Reviewing => {Done, InProgress, Failed}
    case Done => {}
    case Failed => {Pending}
  }

  predicate IsValidTransition(from: TaskStatus, to: TaskStatus) {
    to in Transitions(from)
  }

  /** The eleven legal status changes. */
  lemma TransitionTable(from: TaskStatus, to: TaskStatus)
    ensures IsValidTransition(from, to) <==>
      (from, to) in {(Pending, Planning), (Pending, InProgress), (Pending, Failed), (Planning, InProgress),
                     (Planning, Failed), (InProgress, Reviewing), (InProgress, Failed), (Reviewing, Done),
                     (Reviewing, InProgress), (Reviewing, Failed), (Failed, Pending)}
  {
  }

  datatype Role = Planner | Architect | Builder | Comparator | QA | SecurityReviewer | Reviewer | Documentation

  /** AGENT_PIPELINE, with the Comparator inserted right after the Builder. */
  const AGENT_PIPELINE: seq<Role> :=
    [Planner, Architect, Builder, Comparator, QA, SecurityReviewer, Reviewer, Documentation]

  function SuccessStatus(r: Role): TaskStatus {
    match r
    case Planner => Planning
    case Architect => Planning
    case Builder => InProgress
    case Comparator => InProgress
    case QA => Reviewing
    case SecurityReviewer => Reviewing
    case Reviewer => Done
    case Documentation => Done
  }

  /** The position of a role in the canonical order. */
  function RoleRank(r: Role): nat {
    match r
    case Planner => 0
    case Architect => 1
    case Builder => 2
    case Comparator => 3
    case QA => 4
    case SecurityReviewer => 5
    case Reviewer => 6
    case Documentation => 7
  }

  function Keep(roles: seq<Role>, enabled: set<Role>): seq<Role> {
    if roles == [] then []
    else (if roles[0] in enabled || roles[0] == Comparator then [roles[0]] else []) + Keep(roles[1..], enabled)
  }

  /** The active pipeline of a project: the enabled participants, and always the Comparator. */
  function ActivePipeline(enabled: set<Role>): seq<Role> {
    Keep(AGENT_PIPELINE, enabled)
  }

  ghost predicate Ordered(p: seq<Role>) {
    forall i, j | 0 <= i < j < |p| :: RoleRank(p[i]) < RoleRank(p[j])
  }

  lemma {:induction false} KeepFacts(roles: seq<Role>, enabled: set<Role>)
    requires Ordered(roles)
    ensures Ordered(Keep(roles, enabled))
    ensures forall r :: r in Keep(roles, enabled) <==> r in roles && (r in enabled || r == Comparator)
  {
    if roles != [] {
      var rest := Keep(roles[1..], enabled);
      KeepFacts(roles[1..], enabled);
      forall j | 0 <= j < |rest|
        ensures RoleRank(roles[0]) < RoleRank(rest[j])
      {
        assert rest[j] in roles[1..];
      }
      assert roles == [roles[0]] + roles[1..];
    }
  }

  /** p lists, in canonical order, the enabled roles and the Comparator. */
  ghost predicate Lists(p: seq<Role>, enabled: set<Role>) {
    Ordered(p) && forall r :: r in p <==> r in enabled || r == Comparator
  }

  lemma ActivePipelineLists(enabled: set<Role>)
    ensures Lists(ActivePipeline(enabled), enabled)
  {
    KeepFacts(AGENT_PIPELINE, enabled);
    forall r: Role ensures r in AGENT_PIPELINE {
      assert AGENT_PIPELINE[RoleRank(r)] == r;
    }
  }

  /** Where a role stands in an ordered pipeline, if it takes part. */
  function IndexOf(p: seq<Role>, r: Role): (i: nat)
    ensures r in p ==> i < |p| && p[i] == r
    ensures r !in p ==> i == |p|
  {
    if p == [] then 0 else if p[0] == r then 0 else 1 + IndexOf(p[1..], r)
  }

  /** Where a rejection rewinds to: the Builder, or index 1 when it is disabled. */
  function RewindIndex(p: seq<Role>): nat {
    if Builder in p then IndexOf(p, Builder) else 1
  }

  /** The status a first pass has when it reaches index i. */
  function StatusBefore(p: seq<Role>, i: nat): TaskStatus
    requires i <= |p|
  {
    if i == 0 then Planning else SuccessStatus(p[i - 1])
  }

  /** Moving on to a role's success status: nothing to do, or a legal transition. */
  predicate Advances(from: TaskStatus, to: TaskStatus) {
    from == to || IsValidTransition(from, to)
  }

  /** Every status change a run can ask for on success or rejection is legal. */
  ghost predicate Lawful(p: seq<Role>) {
    && (forall i | 0 <= i < |p| :: Advances(StatusBefore(p, i), SuccessStatus(p[i])))
    && (Reviewer in p ==> RewindIndex(p) < |p| && Advances(InProgress, SuccessStatus(p[RewindIndex(p)])))
  }

  /** The same, said of the participant switches. */
  predicate LawfulParticipants(enabled: set<Role>) {
    && (QA in enabled || SecurityReviewer in enabled || (Reviewer !in enabled && Documentation !in enabled))
    && (Reviewer in enabled ==> Builder in enabled || Planner !in enabled || Architect !in enabled)
  }

  lemma IndexOfRank(p: seq<Role>, i: nat, r: Role)
    requires Ordered(p) && i < |p| && r in p && RoleRank(r) < RoleRank(p[i])
    ensures IndexOf(p, r) < i
  {
  }

  lemma OrderedAt(p: seq<Role>, i: nat, j: nat)
    requires Ordered(p) && i < j < |p|
    ensures RoleRank(p[i]) < RoleRank(p[j])
  {
  }

  predicate ReviewStagePresent(enabled: set<Role>) {
    QA in enabled || SecurityReviewer in enabled
  }

  lemma LawfulIffParticipants(p: seq<Role>, enabled: set<Role>)
    requires Lists(p, enabled)
    ensures Lawful(p) <==> LawfulParticipants(enabled)
  {
    if ReviewStagePresent(enabled) || (Reviewer !in enabled && Documentation !in enabled) {
      forall i | 0 <= i < |p|
        ensures Advances(StatusBefore(p, i), SuccessStatus(p[i]))
      {
        FirstPassAdvances(p, enabled, i);
      }
      if Reviewer in enabled {
        RewindTarget(p, enabled);
      }
    } else {
      var i := if Reviewer in enabled then IndexOf(p, Reviewer) else IndexOf(p, Documentation);
      IndexOfRank(p, i, Comparator);
      assert RoleRank(p[i - 1]) < RoleRank(p[i]) && p[i - 1] in p;
      assert !Advances(StatusBefore(p, i), SuccessStatus(p[i]));
    }
  }

  lemma FirstPassAdvances(p: seq<Role>, enabled: set<Role>, i: nat)
    requires Lists(p, enabled) && i < |p|
    requires ReviewStagePresent(enabled) || (Reviewer !in enabled && Documentation !in enabled)
    ensures Advances(StatusBefore(p, i), SuccessStatus(p[i]))
  {
    assert p[i] in p;
    if RoleRank(p[i]) > 3 {
      var q := if RoleRank(p[i]) < 6 then Comparator else if QA in enabled then QA else SecurityReviewer;
      IndexOfRank(p, i, q);
      assert IndexOf(p, q) == i - 1 || RoleRank(q) < RoleRank(p[i - 1]);
    }
    if i > 0 {
      assert RoleRank(p[i - 1]) < RoleRank(p[i]);
    }
  }

  /** Without a Builder the rewind lands on index 1, which is the Architect exactly when both early roles are on. */
  lemma RewindTarget(p: seq<Role>, enabled: set<Role>)
    requires Lists(p, enabled) && Reviewer in enabled && ReviewStagePresent(enabled)
    ensures RewindIndex(p) < IndexOf(p, Reviewer) < |p|
    ensures Advances(InProgress, SuccessStatus(p[RewindIndex(p)])) <==>
            Builder in enabled || Planner !in enabled || Architect !in enabled
  {
    hide IndexOf, Ordered;
    var r, q := IndexOf(p, Reviewer), if QA in enabled then QA else SecurityReviewer;
    IndexOfRank(p, r, q);
    IndexOfRank(p, IndexOf(p, q), Comparator);
    if Builder in enabled {
      IndexOfRank(p, r, Builder);
    } else {
      SecondRole(p);
      assert p[1] in p;
      OrderedAt(p, 1, r);
    }
  }

  /** Second place goes to the Architect exactly when the Planner comes first and the Architect takes part. */
  lemma SecondRole(p: seq<Role>)
    requires Ordered(p) && |p| > 1
    ensures p[1] == Architect <==> Planner in p && Architect in p
    ensures p[1] != Planner
  {
    assert RoleRank(p[0]) < RoleRank(p[1]);
    if Planner in p && Architect in p {
      IndexOfRank(p, IndexOf(p, Architect), Planner);
    }
  }
}
