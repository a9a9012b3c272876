/** The daemon's own state: the bounded queue of snapshots, the dedupe baseline and the
    per-device failure counters. */
module CodexDaemon {
  import opened Decimals
  import opened CursorSpec
  import opened HostCache
  import opened Fanout
  import opened Dedupe
  import opened Divergence

  const SNAPSHOT_QUEUE_MAX := 8
  const HEALTH_FAILURE_THRESHOLD := 5

  // ------------------------------------------------------------- queue

  function Enqueued(queue: seq<Snapshot>, x: Snapshot): seq<Snapshot> {
    if |queue| < SNAPSHOT_QUEUE_MAX then queue + [x] else queue[1..] + [x]
  }

  /** The queue with everything ever put on it, and the places in that history of what was taken. */
  datatype Line = Line(queue: seq<Snapshot>, history: seq<Snapshot>, taken: seq<nat>)

  datatype QueueOp = Put(x: Snapshot) | Take

  function Stepped(l: Line, op: QueueOp): Line {
    match op
    case Put(x) => Line(Enqueued(l.queue, x), l.history + [x], l.taken)
    case Take =>
      if l.queue == [] then l
      else Line(l.queue[1..], l.history, l.taken + [if |l.queue| <= |l.history| then |l.history| - |l.queue| else 0])
  }

  function AfterOps(ops: seq<QueueOp>): Line {
    if ops == [] then Line([], [], []) else Stepped(AfterOps(ops[..|ops| - 1]), ops[|ops| - 1])
  }

  /** The queue is the end of the history, and what was taken lies before it, in order. */
  predicate InLine(l: Line) {
    && |l.queue| <= SNAPSHOT_QUEUE_MAX
    && |l.queue| <= |l.history|
    && l.queue == l.history[|l.history| - |l.queue|..]
    && (forall i :: 0 <= i < |l.taken| ==> l.taken[i] < |l.history| - |l.queue|)
    && (forall i, j :: 0 <= i < j < |l.taken| ==> l.taken[i] < l.taken[j])
    && (l.queue == [] && l.history != [] ==> l.taken != [] && l.taken[|l.taken| - 1] == |l.history| - 1)
  }

  lemma PutInLine(l: Line, x: Snapshot)
    requires InLine(l)
    ensures InLine(Stepped(l, Put(x)))
  {
  }

  lemma TakeInLine(l: Line)
    requires InLine(l)
    ensures InLine(Stepped(l, Take))
    ensures l.queue != [] ==> var t := Stepped(l, Take).taken; l.history[t[|t| - 1]] == l.queue[0]
  {
  }

  /** At every point of every run the queue holds at most eight snapshots and is the end of what was
      put on it. A put makes it one longer until it is full; then it loses exactly its oldest entry. What was
      taken comes from before that end, each entry at most once and in order. The newest snapshot is never the
      one dropped: it is still queued, or it was taken. */
  lemma {:induction false} QueueIsASuffix(ops: seq<QueueOp>)
    ensures var l := AfterOps(ops);
            && InLine(l) && |l.queue| <= 8
            && (ops != [] && ops[|ops| - 1].Put? ==>
                  var before := |AfterOps(ops[..|ops| - 1]).queue|;
                  |l.queue| == if before < 8 then before + 1 else 8)
            && (ops != [] && ops[|ops| - 1].Take? ==>
                  var before := |AfterOps(ops[..|ops| - 1]).queue|;
                  |l.queue| == if before > 0 then before - 1 else 0)
            && (l.history != [] ==>
                  || (l.queue != [] && l.queue[|l.queue| - 1] == l.history[|l.history| - 1])
                  || (l.taken != [] && l.taken[|l.taken| - 1] == |l.history| - 1))
    decreases ops
  {
    if ops != [] {
      QueueIsASuffix(ops[..|ops| - 1]);
      match ops[|ops| - 1] {
        case Put(x) => PutInLine(AfterOps(ops[..|ops| - 1]), x);
        case Take => TakeInLine(AfterOps(ops[..|ops| - 1]));
      }
    }
  }

  // ---------------------------------------------------------- counters

  type Counters = map<string, nat>

  function CountOf(c: Counters, id: string): nat {
    if id in c then c[id] else 0
  }

  /** The push counters after a fan-out. */
  function PushCounters(c: Counters, results: Results, unverified: set<string>): Counters {
    map id <- c.Keys + results.Keys
      | id in results ==> results[id].Transport? || id in unverified
      :: if id in results then CountOf(c, id) + 1 else c[id]
  }

  /** The health counters after a fan-out: a confirmed contact and an eviction clear them. */
  function HealthCounters(c: Counters, results: Results, unverified: set<string>): Counters {
    map id <- c | id in results ==> results[id].Transport? || id in unverified :: c[id]
  }

  function PushCount(c: Counters, id: string, failed: bool): Counters {
    if failed then c[id := CountOf(c, id) + 1] else c - {id}
  }

  function HealthCount(c: Counters, id: string, failed: bool): Counters {
    if failed then c else c - {id}
  }

  /** Everything the bookkeeping of a fan-out writes. */
  datatype Books = Books(files: Files, push: Counters, health: Counters)

  /** The outcomes not in `todo` are entered, and `anyOk` says whether one of them was confirmed. */
  ghost predicate Booked(was: Books, b: Books, anyOk: bool, results: Results,
                         unverified: set<string>, todo: set<string>)
    requires todo <= results.Keys
  {
    && Progress(Collector.Daemon, was.files, b.files, results, unverified, results.Keys - todo)
    && b.push == PushCounters(was.push, results - todo, unverified)
    && b.health == HealthCounters(was.health, results - todo, unverified)
    && (anyOk <==> Confirmed(results - todo, unverified) != {})
  }

  lemma BooksOpen(was: Books, results: Results, unverified: set<string>)
    requires UniqueIds(was.files.paired)
    ensures Booked(was, was, false, results, unverified, results.Keys)
  {
    assert results.Keys - results.Keys == {} && results - results.Keys == map[];
  }

  lemma CountersNext(push: Counters, health: Counters, now: Results, next: Results, unverified: set<string>, id: string)
    requires id in next && id !in now && now == next - {id}
    ensures var failed := next[id].Transport? || id in unverified;
            && PushCounters(push, next, unverified) == PushCount(PushCounters(push, now, unverified), id, failed)
            && HealthCounters(health, next, unverified)
               == HealthCount(HealthCounters(health, now, unverified), id, failed)
  {
  }

  lemma BooksNext(was: Books, b: Books, anyOk: bool, results: Results, unverified: set<string>,
                  todo: set<string>, id: string)
    requires todo <= results.Keys && id in todo
    requires Booked(was, b, anyOk, results, unverified, todo)
    ensures var failed := results[id].Transport? || id in unverified;
            Booked(was, Books(Entered(Collector.Daemon, b.files, id, results[id], id in unverified),
                              PushCount(b.push, id, failed), HealthCount(b.health, id, failed)),
                   anyOk || (results[id].Delivered? && id !in unverified), results, unverified, todo - {id})
  {
    var now, next := results - todo, results - (todo - {id});
    ProgressNext(Collector.Daemon, was.files, b.files, results, unverified, results.Keys - todo, id);
    assert results.Keys - (todo - {id}) == results.Keys - todo + {id};
    assert now == next - {id};
    CountersNext(was.push, was.health, now, next, unverified, id);
    assert Confirmed(next, unverified)
        == Confirmed(now, unverified) + if results[id].Delivered? && id !in unverified then {id} else {};
  }

  lemma BooksClosed(was: Books, b: Books, anyOk: bool, results: Results, unverified: set<string>)
    requires Booked(was, b, anyOk, results, unverified, {})
    ensures Progress(Collector.Daemon, was.files, b.files, results, unverified, results.Keys)
    ensures Paired(b.files) == Paired(was.files) - Unpaired(results, unverified)
    ensures b.push == PushCounters(was.push, results, unverified)
    ensures b.health == HealthCounters(was.health, results, unverified)
    ensures anyOk <==> Confirmed(results, unverified) != {}
  {
    assert results.Keys - {} == results.Keys && results - {} == results;
    assert Unpaired(results, unverified) * results.Keys == Unpaired(results, unverified);
  }

  // ------------------------------------------------------------- steps

  /** What a step of the daemon sees and changes: the agent's files, both counters and the
      snapshot it last delivered. */
  datatype Mind = Mind(files: Files, push: Counters, health: Counters, baseline: Option<Snapshot>)

  /** A missed health probe; an answered one with its document; a 401, a foreign device id or a shared
      host; a fan-out with its outcomes; a change of the files by other processes. */
  datatype Happening =
    | Miss(id: string)
    | Healthy(id: string, body: map<string, Py>)
    | Condemned(id: string)
    | FannedOut(snapshot: Snapshot, results: Results, unverified: set<string>)
    | Others(files: Files)

  /** What the happening makes of m is n. */
  ghost predicate Leads(m: Mind, h: Happening, n: Mind) {
    match h
    case Miss(id) =>
      var misses := CountOf(m.health, id) + 1;
      n == m.(health := m.health[id := misses],
              files := if misses < HEALTH_FAILURE_THRESHOLD then m.files
                       else WrittenPush(m.files, id, PushState(false, 0)))
    case Healthy(id, body) =>
      var fine := m.baseline.Some? && !FirmwareDiverged(body, m.baseline.value) && CountOf(m.push, id) == 0;
      n == m.(health := m.health - {id},
              files := if fine then WrittenPush(m.files, id, PushState(true, 0)) else m.files)
    case Condemned(id) => n == m.(files := WrittenPush(m.files, id, PushState(false, 0)))
    case FannedOut(snapshot, results, unverified) =>
      && Progress(Collector.Daemon, m.files, n.files, results, unverified, results.Keys)
      && n.push == PushCounters(m.push, results, unverified)
      && n.health == HealthCounters(m.health, results, unverified)
      && n.baseline == if Confirmed(results, unverified) == {} then m.baseline else Some(snapshot)
    case Others(files) => n == m.(files := files)
  }

  // ----------------------------------------------------------- program

  class Daemon {
    var queue: seq<Snapshot>
    var lastSnapshot: Option<Snapshot>
    var lastPushed: Option<Snapshot>
    var pushFailures: Counters
    var healthFailures: Counters

    function View(files: AgentFiles): Mind
      reads this, files
    {
      Mind(files.View(), pushFailures, healthFailures, lastPushed)
    }

    constructor ()
      ensures queue == [] && lastSnapshot == None && lastPushed == None
      ensures pushFailures == map[] && healthFailures == map[]
    {
      queue, lastSnapshot, lastPushed := [], None, None;
      pushFailures, healthFailures := map[], map[];
    }

    method EnqueueBounded(x: Snapshot)
      modifies this`queue
      requires |queue| <= SNAPSHOT_QUEUE_MAX
      ensures queue == Enqueued(old(queue), x) && |queue| <= SNAPSHOT_QUEUE_MAX
    {
      if |queue| < SNAPSHOT_QUEUE_MAX {
        queue := queue + [x];
      } else {
        queue := queue[1..];
        queue := queue + [x];
      }
    }

    method EnqueueSnapshot(x: Snapshot)
      modifies this`queue, this`lastSnapshot
      requires |queue| <= SNAPSHOT_QUEUE_MAX
      ensures queue == Enqueued(old(queue), x) && |queue| <= SNAPSHOT_QUEUE_MAX && lastSnapshot == Some(x)
    {
      lastSnapshot := Some(x);
      EnqueueBounded(x);
    }

    /** One turn of the poll loop on a snapshot read. */
    method Poll(latest: Snapshot, ghost below: (Session, Session) -> bool)
      requires TotalOrder(below) && |queue| <= SNAPSHOT_QUEUE_MAX
      modifies this`queue, this`lastSnapshot
      ensures |queue| <= SNAPSHOT_QUEUE_MAX
      ensures var put := Polled(latest, lastPushed, below);
              queue == (if put == [] then old(queue) else Enqueued(old(queue), put[0]))
              && lastSnapshot == (if put == [] then old(lastSnapshot) else Some(put[0]))
    {
      var snapshot := AnchorResetsAt(latest, lastPushed);
      if lastPushed.Some? {
        SemanticallyEqualExactly(snapshot, lastPushed.value, below);
        if snapshot.agent == lastPushed.value.agent
           && multiset(snapshot.sessions) == multiset(lastPushed.value.sessions) {
          return;
        }
      }
      EnqueueSnapshot(snapshot);
    }

    /** The bookkeeping of a fan-out: files, counters, evictions and the dedupe baseline. */
    method EnterPushes(files: AgentFiles, snapshot: Snapshot, results: Results, unverified: set<string>)
      requires UniqueIds(files.paired)
      modifies files, this`pushFailures, this`healthFailures, this`lastPushed
      ensures Leads(old(View(files)), FannedOut(snapshot, results, unverified), View(files))
      ensures Paired(files.View()) == Paired(old(files.View())) - Unpaired(results, unverified)
    {
      var todo := results.Keys;
      var anyOk := false;
      ghost var was := Books(files.View(), pushFailures, healthFailures);
      BooksOpen(was, results, unverified);
      while todo != {}
        invariant todo <= results.Keys && lastPushed == old(lastPushed)
        invariant Booked(was, Books(files.View(), pushFailures, healthFailures), anyOk, results, unverified, todo)
        decreases |todo|
      {
        var id :| id in todo;
        BooksNext(was, Books(files.View(), pushFailures, healthFailures), anyOk, results, unverified, todo, id);
        var confirmed := EnterOne(files, id, results[id], id in unverified);
        anyOk := anyOk || confirmed;
        todo := todo - {id};
      }
      BooksClosed(was, Books(files.View(), pushFailures, healthFailures), anyOk, results, unverified);
      if anyOk {
        lastPushed := Some(snapshot);
      }
    }

    /** Enters one outcome. */
    method EnterOne(files: AgentFiles, id: string, kind: Kind, unverified: bool) returns (confirmed: bool)
      modifies files, this`pushFailures, this`healthFailures
      ensures files.View() == Entered(Collector.Daemon, old(files.View()), id, kind, unverified)
      ensures confirmed == (kind.Delivered? && !unverified)
      ensures pushFailures == PushCount(old(pushFailures), id, kind.Transport? || unverified)
      ensures healthFailures == HealthCount(old(healthFailures), id, kind.Transport? || unverified)
    {
      confirmed := kind.Delivered? && !unverified;
      files.WritePushState(id, confirmed);
      if !confirmed && unverified {
        pushFailures := pushFailures[id := CountOf(pushFailures, id) + 1];
        return;
      }
      if kind.Auth? {
        files.Remove(id);
        pushFailures := pushFailures - {id};
        healthFailures := healthFailures - {id};
        return;
      }
      if kind.Transport? {
        pushFailures := pushFailures[id := CountOf(pushFailures, id) + 1];
      } else {
        pushFailures := pushFailures - {id};
        healthFailures := healthFailures - {id};
      }
    }

    /** A missed health probe: only the fifth in a row and later ones mark the device unhealthy. */
    method RecordHealthFailure(files: AgentFiles, id: string)
      modifies files, this`healthFailures
      ensures Leads(old(View(files)), Miss(id), View(files))
    {
      var misses := CountOf(healthFailures, id) + 1;
      healthFailures := healthFailures[id := misses];
      if misses < HEALTH_FAILURE_THRESHOLD {
        return;
      }
      files.WritePushState(id, false);
    }

    /** A healthy probe: clears the misses and reports a divergence; a stale failure is cleared only
        with a baseline, a device in step and no failed delivery outstanding. */
    method MarkHealthOk(files: AgentFiles, id: string, body: map<string, Py>) returns (diverged: bool)
      modifies files, this`healthFailures
      ensures Leads(old(View(files)), Healthy(id, body), View(files))
      ensures diverged <==> lastPushed.Some? && FirmwareDiverged(body, lastPushed.value)
    {
      diverged := false;
      healthFailures := healthFailures - {id};
      if lastPushed.None? {
        return;
      }
      if FirmwareDiverged(body, lastPushed.value) {
        diverged := true;
      } else if CountOf(pushFailures, id) == 0 {
        files.WritePushState(id, true);
      }
    }

    /** A probe refused with 401, a foreign device id, or a host shared with another record: marked
        at once, without the count. */
    method MarkHealthFailed(files: AgentFiles, id: string)
      modifies files
      ensures Leads(old(View(files)), Condemned(id), View(files))
    {
      files.WritePushState(id, false);
    }
  }
}
