/** The task timeline (routers/orchestration.py): collected table by table, then sorted stably. */
module AuditTrail {
  import opened ExecutionChain

  datatype Kind =
    | ProposalCreated | ApprovalDecided | SnapshotFrozen | RequestCreated | RequestFinalized
    | ResultRecorded(mode: Mode)

  datatype Event = Event(kind: Kind, id: nat, timestamp: nat)

  /** _EVENT_ORDER. */
  function Order(k: Kind): nat {
    match k
    case ProposalCreated => 0
    case ApprovalDecided => 1
    case SnapshotFrozen => 2
    case RequestCreated => 3
    case RequestFinalized => 4
    case ResultRecorded(mode) => if mode == RollbackMode then 6 else 5
  }

  datatype Table = Proposals | Approvals | Snapshots | Requests | Results

  /** The events one row gives rise to: approvals only once decided, requests a second one once finalized. */
  function RowEvents(db: Db, task: nat, t: Table, id: nat): seq<Event> {
    match t
    case Proposals =>
      if id in db.proposals && db.proposals[id].task == task
        then [Event(ProposalCreated, id, db.proposals[id].createdAt)] else []
    case Approvals =>
      if id in db.approvals && db.approvals[id].task == task
         && (db.approvals[id].status == AApproved || db.approvals[id].status == ARejected)
      then [Event(ApprovalDecided, id, DecidedAt(db.approvals[id]))] else []
    case Snapshots =>
      if id in db.snapshots && db.snapshots[id].task == task
        then [Event(SnapshotFrozen, id, db.snapshots[id].createdAt)] else []
    case Requests =>
      if id in db.requests && db.requests[id].task == task then
        [Event(RequestCreated, id, db.requests[id].createdAt)]
        + if db.requests[id].status != RRequested then [Event(RequestFinalized, id, db.requests[id].updatedAt)] else []
      else []
    case Results =>
      if id in db.results && db.results[id].task == task
      then [Event(ResultRecorded(db.results[id].mode), id, db.results[id].completedAt)] else []
  }

  /** SELECT over one table, in insertion order. */
  function Section(db: Db, task: nat, t: Table, n: nat): seq<Event> {
    if n == 0 then [] else Section(db, task, t, n - 1) + RowEvents(db, task, t, n - 1)
  }

  function BeforeResults(db: Db, task: nat): seq<Event> {
    Section(db, task, Proposals, db.next) + Section(db, task, Approvals, db.next)
    + Section(db, task, Snapshots, db.next) + Section(db, task, Requests, db.next)
  }

  function Collected(db: Db, task: nat): seq<Event> {
    BeforeResults(db, task) + Section(db, task, Results, db.next)
  }

  method Collect(db: Db, task: nat) returns (events: seq<Event>)
    ensures events == Collected(db, task)
  {
    events := [];
    for id := 0 to db.next
      invariant events == Section(db, task, Proposals, id)
    {
      if id in db.proposals && db.proposals[id].task == task {
        events := events + [Event(ProposalCreated, id, db.proposals[id].createdAt)];
      }
    }
    ghost var e1 := events;
    for id := 0 to db.next
      invariant events == e1 + Section(db, task, Approvals, id)
    {
      if id in db.approvals && db.approvals[id].task == task
         && (db.approvals[id].status == AApproved || db.approvals[id].status == ARejected) {
        events := events + [Event(ApprovalDecided, id, DecidedAt(db.approvals[id]))];
      }
    }
    ghost var e2 := events;
    for id := 0 to db.next
      invariant events == e2 + Section(db, task, Snapshots, id)
    {
      if id in db.snapshots && db.snapshots[id].task == task {
        events := events + [Event(SnapshotFrozen, id, db.snapshots[id].createdAt)];
      }
    }
    ghost var e3 := events;
    for id := 0 to db.next
      invariant events == e3 + Section(db, task, Requests, id)
    {
      if id in db.requests && db.requests[id].task == task {
        events := events + [Event(RequestCreated, id, db.requests[id].createdAt)];
        if db.requests[id].status != RRequested {
          events := events + [Event(RequestFinalized, id, db.requests[id].updatedAt)];
        }
      }
    }
    ghost var e4 := events;
    for id := 0 to db.next
      invariant events == e4 + Section(db, task, Results, id)
    {
      if id in db.results && db.results[id].task == task {
        events := events + [Event(ResultRecorded(db.results[id].mode), id, db.results[id].completedAt)];
      }
    }
  }

  /** Which events the tables of a task hold, and how each is dated. */
  predicate IsEvent(db: Db, task: nat, ev: Event) {
    match ev.kind
    case ProposalCreated =>
      && ev.id in db.proposals && db.proposals[ev.id].task == task && ev.timestamp == db.proposals[ev.id].createdAt
    case ApprovalDecided =>
      && ev.id in db.approvals && db.approvals[ev.id].task == task
      && (db.approvals[ev.id].status == AApproved || db.approvals[ev.id].status == ARejected)
      && var a := db.approvals[ev.id];
         ev.timestamp == if a.resolvedAt.Some? then a.resolvedAt.value else a.createdAt
    case SnapshotFrozen =>
      && ev.id in db.snapshots && db.snapshots[ev.id].task == task && ev.timestamp == db.snapshots[ev.id].createdAt
    case RequestCreated =>
      && ev.id in db.requests && db.requests[ev.id].task == task && ev.timestamp == db.requests[ev.id].createdAt
    case RequestFinalized =>
      && ev.id in db.requests && db.requests[ev.id].task == task && ev.timestamp == db.requests[ev.id].updatedAt
      && (db.requests[ev.id].status == RConfirmed || db.requests[ev.id].status == RRejected)
    case ResultRecorded(mode) =>
      && ev.id in db.results && db.results[ev.id].task == task && ev.timestamp == db.results[ev.id].completedAt
      && mode == db.results[ev.id].mode
  }

  /** The table an event is read from. */
  function TableOf(k: Kind): Table {
    match k
    case ProposalCreated => Proposals
    case ApprovalDecided => Approvals
    case SnapshotFrozen => Snapshots
    case RequestCreated | RequestFinalized => Requests
    case ResultRecorded(_) => Results
  }

  lemma ShortCounts(s: seq<Event>, ev: Event)
    requires |s| <= 2 && (|s| == 2 ==> s[0] != s[1])
    ensures multiset(s)[ev] == if ev in s then 1 else 0
  {
    if |s| == 1 {
      assert s == [s[0]];
    } else if |s| == 2 {
      assert s == [s[0], s[1]];
    }
  }

  lemma RowMembers(db: Db, task: nat, t: Table, id: nat, ev: Event)
    ensures ev in RowEvents(db, task, t, id) <==> t == TableOf(ev.kind) && id == ev.id && IsEvent(db, task, ev)
    ensures var row := RowEvents(db, task, t, id); |row| <= 2 && (|row| == 2 ==> row[0].kind != row[1].kind)
  {
  }

  lemma RowHolds(db: Db, task: nat, t: Table, id: nat, ev: Event)
    ensures multiset(RowEvents(db, task, t, id))[ev]
            == if t == TableOf(ev.kind) && id == ev.id && IsEvent(db, task, ev) then 1 else 0
  {
    hide RowEvents, IsEvent, TableOf;
    RowMembers(db, task, t, id, ev);
    ShortCounts(RowEvents(db, task, t, id), ev);
  }

  lemma {:induction false} SectionHolds(db: Db, task: nat, t: Table, n: nat, ev: Event)
    ensures multiset(Section(db, task, t, n))[ev]
            == if t == TableOf(ev.kind) && ev.id < n && IsEvent(db, task, ev) then 1 else 0
  {
    hide IsEvent, RowEvents, TableOf;
    if n > 0 {
      SectionHolds(db, task, t, n - 1, ev);
      RowHolds(db, task, t, n - 1, ev);
    }
  }

  lemma {:induction false} SectionMembers(db: Db, task: nat, t: Table, n: nat, ev: Event)
    ensures ev in Section(db, task, t, n) <==> ev.id < n && ev in RowEvents(db, task, t, ev.id)
  {
    if n > 0 {
      SectionMembers(db, task, t, n - 1, ev);
      assert forall e | e in RowEvents(db, task, t, n - 1) :: e.id == n - 1;
    }
  }

  /** Results, by growing id, all below n. */
  ghost predicate Growing(s: seq<Event>, n: nat) {
    && (forall i | 0 <= i < |s| :: s[i].kind.ResultRecorded? && s[i].id < n)
    && (forall i, j | 0 <= i < j < |s| :: s[i].id < s[j].id)
  }

  /** Within the results section ids only grow. */
  lemma {:induction false} ResultsGrow(db: Db, task: nat, n: nat)
    ensures Growing(Section(db, task, Results, n), n)
  {
    if n > 0 {
      ResultsGrow(db, task, n - 1);
      GrowingNext(Section(db, task, Results, n - 1), RowEvents(db, task, Results, n - 1), n - 1);
    }
  }

  lemma GrowingNext(s: seq<Event>, row: seq<Event>, n: nat)
    requires Growing(s, n) && |row| <= 1 && (row != [] ==> row[0].kind.ResultRecorded? && row[0].id == n)
    ensures Growing(s + row, n + 1)
  {
  }

  /** The sort key: the timestamp, then the fixed order of the kinds; equal keys stay as collected. */
  predicate Before(events: seq<Event>, a: nat, b: nat)
    requires a < |events| && b < |events|
  {
    var x, y := events[a], events[b];
    || x.timestamp < y.timestamp
    || (x.timestamp == y.timestamp && Order(x.kind) < Order(y.kind))
    || (x.timestamp == y.timestamp && Order(x.kind) == Order(y.kind) && a < b)
  }

  /** order lists every position of events once, by key and, among equal keys, as collected. */
  ghost predicate SortsStably(events: seq<Event>, order: seq<nat>) {
    && |order| == |events|
    && (forall i | 0 <= i < |order| :: order[i] < |events|)
    && (forall a | 0 <= a < |events| :: a in order)
    && (forall i, j | 0 <= i < j < |order| :: Before(events, order[i], order[j]))
  }

  /** events.sort(key=...): stable, here by insertion. */
  method SortEvents(events: seq<Event>) returns (sorted: seq<Event>, order: seq<nat>)
    ensures SortsStably(events, order)
    ensures |sorted| == |events| && forall i | 0 <= i < |sorted| :: sorted[i] == events[order[i]]
  {
    order := [];
    for n := 0 to |events|
      invariant |order| == n
      invariant forall i | 0 <= i < n :: order[i] < n
      invariant forall a | 0 <= a < n :: a in order
      invariant forall i, j | 0 <= i < j < n :: Before(events, order[i], order[j])
    {
      var k := n;
      while k > 0 && Before(events, n, order[k - 1])
        invariant 0 <= k <= n
        invariant forall i | k <= i < n :: Before(events, n, order[i])
      {
        k := k - 1;
      }
      order := Inserted(events, order, n, k);
    }
    sorted := [];
    for i := 0 to |order|
      invariant |sorted| == i && forall j | 0 <= j < i :: sorted[j] == events[order[j]]
    {
      sorted := sorted + [events[order[i]]];
    }
  }

  function Inserted(events: seq<Event>, order: seq<nat>, n: nat, k: nat): (r: seq<nat>)
    requires |order| == n < |events| && k <= n
    requires forall i | 0 <= i < n :: order[i] < n
    requires forall a | 0 <= a < n :: a in order
    requires forall i, j | 0 <= i < j < n :: Before(events, order[i], order[j])
    requires forall i | k <= i < n :: Before(events, n, order[i])
    requires k == 0 || !Before(events, n, order[k - 1])
    ensures |r| == n + 1
    ensures forall i | 0 <= i <= n :: r[i] <= n
    ensures forall a | 0 <= a <= n :: a in r
    ensures forall i, j | 0 <= i < j <= n :: Before(events, r[i], r[j])
  {
    var r := order[..k] + [n] + order[k..];
    assert forall i | 0 <= i < k :: r[i] == order[i];
    assert r[k] == n;
    assert forall i | k < i <= n :: r[i] == order[i - 1];
    assert forall a | 0 <= a < n :: a in r by {
      forall a | 0 <= a < n ensures a in r {
        assert a in order;
        var i :| 0 <= i < |order| && order[i] == a;
        assert r[if i < k then i else i + 1] == a;
      }
    }
    assert forall i | 0 <= i < k :: Before(events, order[i], n) by {
      forall i | 0 <= i < k ensures Before(events, order[i], n) {
        assert i < k - 1 ==> Before(events, order[i], order[k - 1]);
      }
    }
    r
  }

  method BuildTaskAuditTrail(db: Db, task: nat) returns (trail: seq<Event>, order: seq<nat>)
    ensures SortsStably(Collected(db, task), order) && |trail| == |order|
    ensures forall i | 0 <= i < |trail| :: trail[i] == Collected(db, task)[order[i]]
    ensures |trail| == |Collected(db, task)| && forall ev :: ev in trail <==> ev in Collected(db, task)
  {
    hide Collected, Before;
    var events := Collect(db, task);
    trail, order := SortEvents(events);
    forall a | 0 <= a < |events|
      ensures events[a] in trail
    {
      assert a in order;
      var i :| 0 <= i < |order| && order[i] == a;
      assert trail[i] == events[a];
    }
  }

  /** The direct causes in a chain: what had to happen before what. */
  ghost predicate Causes(db: Db, x: Event, y: Event) {
    match (x.kind, y.kind)
    case (ProposalCreated, ApprovalDecided) => IsApprovalFor(db, y.id, x.id)
    case (ProposalCreated, SnapshotFrozen) => y.id in db.snapshots && db.snapshots[y.id].proposal == x.id
    case (ApprovalDecided, SnapshotFrozen) => y.id in db.snapshots && db.snapshots[y.id].approval == x.id
    case (SnapshotFrozen, RequestCreated) => y.id in db.requests && db.requests[y.id].snapshot == x.id
    case (RequestCreated, RequestFinalized) => x.id == y.id
    case (RequestFinalized, ResultRecorded(_)) => y.id in db.results && db.results[y.id].request == x.id
    case (ResultRecorded(DryMode), ResultRecorded(RealMode)) => SameRequest(db, x.id, y.id)
    case (ResultRecorded(RealMode), ResultRecorded(RollbackMode)) => SameRequest(db, x.id, y.id)
    case _ => false
  }

  predicate SameRequest(db: Db, d: nat, e: nat) {
    d in db.results && e in db.results && db.results[d].request == db.results[e].request
  }

  lemma CollectedHolds(db: Db, task: nat, ev: Event)
    ensures multiset(Collected(db, task))[ev] == if ev.id < db.next && IsEvent(db, task, ev) then 1 else 0
  {
    hide Section, IsEvent;
    SectionHolds(db, task, Proposals, db.next, ev);
    SectionHolds(db, task, Approvals, db.next, ev);
    SectionHolds(db, task, Snapshots, db.next, ev);
    SectionHolds(db, task, Requests, db.next, ev);
    SectionHolds(db, task, Results, db.next, ev);
  }

  lemma CollectedIsEvent(db: Db, task: nat, i: nat)
    requires i < |Collected(db, task)|
    ensures IsEvent(db, task, Collected(db, task)[i])
  {
    hide IsEvent, Collected;
    var ev := Collected(db, task)[i];
    CollectedHolds(db, task, ev);
    assert ev in multiset(Collected(db, task));
  }

  /** Every event the tables of the task hold is collected once, and nothing else is. */
  lemma CollectedExactly(hash: string -> string, db: Db, task: nat, ev: Event)
    requires Inv(hash, db)
    ensures multiset(Collected(db, task))[ev] == if IsEvent(db, task, ev) then 1 else 0
    ensures ev in Collected(db, task) <==> IsEvent(db, task, ev)
  {
    hide ApprovalsOk, SnapshotsOk, RequestsOk, ResultsOk, Collected;
    CollectedHolds(db, task, ev);
    assert ev in Collected(db, task) <==> ev in multiset(Collected(db, task));
  }

  lemma ResultsCollectedInOrder(db: Db, task: nat, i: nat, j: nat)
    requires i < |Collected(db, task)| && j < |Collected(db, task)|
    requires Collected(db, task)[i].kind.ResultRecorded? && Collected(db, task)[j].kind.ResultRecorded?
    requires Collected(db, task)[i].id < Collected(db, task)[j].id
    ensures i < j
  {
    hide Section, BeforeResults;
    var head, tail := BeforeResults(db, task), Section(db, task, Results, db.next);
    if i < |head| {
      NoResultsBefore(db, task, i);
    } else if j < |head| {
      NoResultsBefore(db, task, j);
    } else {
      ResultsGrow(db, task, db.next);
      GrowingOrder(tail, db.next, i - |head|, j - |head|);
    }
  }

  lemma NoResultsBefore(db: Db, task: nat, i: nat)
    requires i < |BeforeResults(db, task)|
    ensures !BeforeResults(db, task)[i].kind.ResultRecorded?
  {
    hide Section;
    var ev, n := BeforeResults(db, task)[i], db.next;
    SectionMembers(db, task, Proposals, n, ev);
    SectionMembers(db, task, Approvals, n, ev);
    SectionMembers(db, task, Snapshots, n, ev);
    SectionMembers(db, task, Requests, n, ev);
  }

  lemma GrowingOrder(s: seq<Event>, n: nat, i: nat, j: nat)
    requires Growing(s, n) && i < |s| && j < |s| && s[i].id < s[j].id
    ensures i < j
  {
  }

  /** A cause is dated no later than its effect, and where the dates agree the sort still puts it first. */
  lemma CauseIsEarlier(hash: string -> string, db: Db, task: nat, x: Event, y: Event)
    requires Inv(hash, db) && IsEvent(db, task, x) && IsEvent(db, task, y) && Causes(db, x, y)
    ensures x.timestamp <= y.timestamp
    ensures
      || Order(x.kind) < Order(y.kind)
      || (x.kind.ResultRecorded? && y.kind.ResultRecorded? && x.id < y.id && Order(x.kind) == Order(y.kind))
  {
    hide FreshIds, ApprovalsOk, SnapshotsOk, RequestsOk, ResultsOk;
    match (x.kind, y.kind)
    case (ProposalCreated, ApprovalDecided) => ApprovalRow(db, y.id, x.id);
    case (ProposalCreated, SnapshotFrozen) => SnapshotRow(hash, db, y.id);
    case (ApprovalDecided, SnapshotFrozen) => SnapshotRow(hash, db, y.id);
    case (SnapshotFrozen, RequestCreated) => RequestRow(db, y.id);
    case (RequestCreated, RequestFinalized) => RequestRow(db, y.id);
    case (RequestFinalized, ResultRecorded(_)) => ResultRowOk(db, y.id);
    case (ResultRecorded(DryMode), ResultRecorded(RealMode)) => ResultPair(db, x.id, y.id);
    case (ResultRecorded(RealMode), ResultRecorded(RollbackMode)) => ResultPair(db, x.id, y.id);
    case _ =>
  }

  lemma ApprovalRow(db: Db, a: nat, p: nat)
    requires ApprovalsOk(db) && IsApprovalFor(db, a, p)
    ensures p in db.proposals && Linked(db.proposals[p], db.approvals[a])
  {
  }

  lemma SnapshotRow(hash: string -> string, db: Db, s: nat)
    requires SnapshotsOk(hash, db) && s in db.snapshots
    ensures SnapshotOk(hash, db, db.snapshots[s])
  {
  }

  lemma RequestRow(db: Db, r: nat)
    requires RequestsOk(db) && r in db.requests
    ensures RequestOk(db, db.requests[r])
  {
  }

  lemma ResultRowOk(db: Db, e: nat)
    requires ResultsOk(db) && e in db.results
    ensures ResultOk(db, db.results[e])
  {
  }

  lemma ResultPair(db: Db, d: nat, e: nat)
    requires ResultsOk(db) && SameRequest(db, d, e)
    requires
      || (db.results[d].mode == DryMode && db.results[e].mode == RealMode)
      || (db.results[d].mode == RealMode && db.results[e].mode == RollbackMode)
    ensures db.results[d].completedAt <= db.results[e].completedAt
    ensures db.results[d].mode == DryMode ==> d < e
  {
    var r, mode := db.results[e].request, db.results[d].mode;
    ResultRowOk(db, e);
    assert IsResultOf(db, d, r, mode) && IsResultOf(db, e, r, db.results[e].mode);
    var f: nat :| IsResultOf(db, f, r, mode) && db.results[f].completedAt <= db.results[e].completedAt;
    assert f == d;
  }

  /**
   * The trail of any reachable state respects causality: within a chain, proposal, decided approval,
   * snapshot, request, its finalization, dry run, real run and rollback come in that order, ties included.
   */
  lemma TrailRespectsCausality(hash: string -> string, db: Db, task: nat, trail: seq<Event>, order: seq<nat>, i: nat,
                               j: nat)
    requires Inv(hash, db)
    requires SortsStably(Collected(db, task), order) && |trail| == |order|
    requires forall k | 0 <= k < |trail| :: trail[k] == Collected(db, task)[order[k]]
    requires i < |trail| && j < |trail| && Causes(db, trail[i], trail[j])
    ensures i < j
  {
    hide Inv, Collected, Causes;
    var events := Collected(db, task);
    CollectedIsEvent(db, task, order[i]);
    CollectedIsEvent(db, task, order[j]);
    CauseIsEarlier(hash, db, task, trail[i], trail[j]);
    if trail[i].kind.ResultRecorded? && trail[j].kind.ResultRecorded? && trail[i].id < trail[j].id {
      ResultsCollectedInOrder(db, task, order[i], order[j]);
    }
    assert Before(events, order[i], order[j]);
  }
}
