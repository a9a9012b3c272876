/** One push to many devices: the answers, the devices that share a host, and the bookkeeping. */
module Fanout {
  import opened Decimals
  import opened HostCache

  datatype Kind = Delivered | Auth | Transport

  /** What a reply means; no reply is a transport failure. */
  function KindOf(status: Option<int>): Kind {
    match status
    case None => Transport
    case Some(code) => if code == 401 then Auth else if code >= 300 then Transport else Delivered
  }

  /** A 401 is a refusal, a status below 300 a delivery; any other status and no reply at all is a transport failure. */
  predicate Means(status: Option<int>, kind: Kind) {
    match kind
    case Auth => status == Some(401)
    case Delivered => status.Some? && status.value < 300
    case Transport => status.None? || (status.value >= 300 && status.value != 401)
  }

  type Results = map<string, Kind>

  /** The outcome of each device, keyed by its id; of two records with one id the last counts. */
  function ResultsOf(devices: seq<Device>, statuses: seq<Option<int>>): Results
    requires |statuses| == |devices|
  {
    if devices == [] then map[]
    else
      var n := |devices| - 1;
      ResultsOf(devices[..n], statuses[..n])[devices[n].id := KindOf(statuses[n])]
  }

  method PushToAll(devices: seq<Device>, statuses: seq<Option<int>>) returns (results: Results)
    requires |statuses| == |devices|
    ensures results == ResultsOf(devices, statuses)
  {
    results := map[];
    var i := 0;
    while i < |devices|
      invariant i <= |devices|
      invariant results == ResultsOf(devices[..i], statuses[..i])
    {
      assert devices[..i + 1][..i] == devices[..i] && statuses[..i + 1][..i] == statuses[..i];
      results := results[devices[i].id := KindOf(statuses[i])];
      i := i + 1;
    }
    assert devices[..i] == devices && statuses[..i] == statuses;
  }

  lemma {:induction false} ResultsKeys(devices: seq<Device>, statuses: seq<Option<int>>)
    requires |statuses| == |devices|
    ensures ResultsOf(devices, statuses).Keys == Ids(devices)
    decreases devices
  {
    if devices != [] {
      var n := |devices| - 1;
      ResultsKeys(devices[..n], statuses[..n]);
      assert devices == devices[..n] + [devices[n]];
      assert Ids(devices) == Ids(devices[..n]) + {devices[n].id};
    }
  }

  /** The replies of the records with the id, in the order of the list. */
  function RepliesAt(devices: seq<Device>, statuses: seq<Option<int>>, id: string): seq<Option<int>>
    requires |statuses| == |devices|
  {
    if devices == [] then []
    else
      var n := |devices| - 1;
      RepliesAt(devices[..n], statuses[..n], id) + if devices[n].id == id then [statuses[n]] else []
  }

  lemma {:induction false} LastReplyCounts(devices: seq<Device>, statuses: seq<Option<int>>, id: string)
    requires |statuses| == |devices|
    ensures var results, replies := ResultsOf(devices, statuses), RepliesAt(devices, statuses, id);
            && (id in results <==> replies != [])
            && (id in results ==> Means(replies[|replies| - 1], results[id]))
    decreases devices
  {
    if devices != [] {
      var n := |devices| - 1;
      LastReplyCounts(devices[..n], statuses[..n], id);
    }
  }

  lemma {:induction false} ResultAt(devices: seq<Device>, statuses: seq<Option<int>>, i: nat)
    requires |statuses| == |devices| && i < |devices| && UniqueIds(devices)
    ensures devices[i].id in ResultsOf(devices, statuses)
    ensures Means(statuses[i], ResultsOf(devices, statuses)[devices[i].id])
    decreases devices
  {
    var n := |devices| - 1;
    if i < n {
      ResultAt(devices[..n], statuses[..n], i);
    }
  }

  /** Every device has an outcome and nothing else has; with unique ids it is what the device's own reply
      means: exactly a 401 is a refusal, exactly a status below 300 a delivery. */
  lemma {:induction false} ResultsAreTheAnswers(devices: seq<Device>, statuses: seq<Option<int>>)
    requires |statuses| == |devices|
    ensures ResultsOf(devices, statuses).Keys == Ids(devices)
    ensures UniqueIds(devices) ==>
              forall i :: 0 <= i < |devices| ==>
                devices[i].id in ResultsOf(devices, statuses)
                && Means(statuses[i], ResultsOf(devices, statuses)[devices[i].id])
  {
    ResultsKeys(devices, statuses);
    if UniqueIds(devices) {
      forall i | 0 <= i < |devices|
        ensures devices[i].id in ResultsOf(devices, statuses)
        ensures Means(statuses[i], ResultsOf(devices, statuses)[devices[i].id])
      {
        ResultAt(devices, statuses, i);
      }
    }
  }

  // ------------------------------------------------------ shared hosts

  /** The ids cached for a host, in the order of the list. */
  function IdsAt(devices: seq<Device>, host: string): seq<string> {
    if devices == [] then []
    else
      var n := |devices| - 1;
      IdsAt(devices[..n], host) + if devices[n].host == host then [devices[n].id] else []
  }

  lemma {:induction false} IdsAtInOrder(devices: seq<Device>, more: seq<Device>, host: string)
    ensures IdsAt(devices + more, host) == IdsAt(devices, host) + IdsAt(more, host)
    decreases more
  {
    if more == [] {
      assert devices + more == devices;
    } else {
      var n := |more| - 1;
      assert (devices + more)[..|devices| + n] == devices + more[..n];
      IdsAtInOrder(devices, more[..n], host);
    }
  }

  function Hosts(devices: seq<Device>): set<string> {
    set d <- devices :: d.host
  }

  type Groups = map<string, seq<string>>

  function ByHost(devices: seq<Device>): Groups {
    map host <- Hosts(devices) :: IdsAt(devices, host)
  }

  lemma IdsAtNext(before: seq<Device>, d: Device, host: string)
    ensures IdsAt(before + [d], host) == IdsAt(before, host) + if d.host == host then [d.id] else []
  {
    assert (before + [d])[..|before|] == before;
  }

  lemma ByHostNext(before: seq<Device>, d: Device)
    ensures var groups := ByHost(before);
            ByHost(before + [d]) == groups[d.host := (if d.host in groups then groups[d.host] else []) + [d.id]]
  {
    var groups, longer := ByHost(before), ByHost(before + [d]);
    assert Hosts(before + [d]) == Hosts(before) + {d.host} by {
      forall e <- before ensures e in before + [d] {}
      assert d in before + [d];
    }
    if d.host !in Hosts(before) {
      NoIdsElsewhere(before, d.host);
    }
    var updated := groups[d.host := (if d.host in groups then groups[d.host] else []) + [d.id]];
    forall host <- longer ensures longer[host] == updated[host] {
      IdsAtNext(before, d, host);
      assert IdsAt(before, host) + [] == IdsAt(before, host);
    }
  }

  /** The hosts that two or more records share, with the ids of those records. */
  method DuplicateHostGroups(devices: seq<Device>) returns (groups: Groups)
    ensures groups == map host <- Hosts(devices) | |IdsAt(devices, host)| > 1 :: IdsAt(devices, host)
  {
    var byHost: Groups := map[];
    var i := 0;
    while i < |devices|
      invariant i <= |devices|
      invariant byHost == ByHost(devices[..i])
    {
      var d := devices[i];
      ByHostNext(devices[..i], d);
      assert devices[..i + 1] == devices[..i] + [d];
      byHost := byHost[d.host := (if d.host in byHost then byHost[d.host] else []) + [d.id]];
      i := i + 1;
    }
    assert devices[..i] == devices;
    groups := map host <- byHost.Keys | |byHost[host]| > 1 :: byHost[host];
  }

  lemma {:induction false} NoIdsElsewhere(devices: seq<Device>, host: string)
    requires host !in Hosts(devices)
    ensures IdsAt(devices, host) == []
    decreases devices
  {
    if devices != [] {
      var n := |devices| - 1;
      assert devices[n] in devices;
      NoIdsElsewhere(devices[..n], host);
    }
  }

  /** The ids of all groups of shared hosts. */
  function Affected(devices: seq<Device>): set<string> {
    set host <- Hosts(devices), id <- IdsAt(devices, host) | |IdsAt(devices, host)| > 1 :: id
  }

  /** The record at i shares its host with another record. */
  predicate Aliased(devices: seq<Device>, i: nat)
    requires i < |devices|
  {
    exists j :: 0 <= j < |devices| && j != i && devices[j].host == devices[i].host
  }

  /** The positions of the records at a host. */
  function At(devices: seq<Device>, host: string): set<nat> {
    set i | 0 <= i < |devices| && devices[i].host == host
  }

  lemma {:induction false} IdsAtAre(devices: seq<Device>, host: string)
    ensures |IdsAt(devices, host)| == |At(devices, host)|
    ensures forall id :: id in IdsAt(devices, host) <==> exists d <- devices :: d.host == host && d.id == id
    decreases devices
  {
    if devices != [] {
      var n := |devices| - 1;
      IdsAtAre(devices[..n], host);
      assert devices == devices[..n] + [devices[n]];
      assert At(devices, host) == At(devices[..n], host) + if devices[n].host == host then {n} else {};
    }
  }

  lemma TwoOfASet(s: set<nat>, i: nat)
    requires i in s
    ensures |s| > 1 <==> exists j :: j in s && j != i
  {
    var rest := s - {i};
    assert s == rest + {i} && |s| == |rest| + 1;
    if |s| > 1 {
      var j :| j in rest;
    } else {
      assert rest == {};
    }
  }

  /** An id is in a group exactly when one of its records shares its host with another record. */
  lemma {:induction false} AffectedShareAHost(devices: seq<Device>, id: string)
    ensures id in Affected(devices) <==>
              exists i :: 0 <= i < |devices| && devices[i].id == id && Aliased(devices, i)
  {
    if i :| 0 <= i < |devices| && devices[i].id == id && Aliased(devices, i) {
      var host := devices[i].host;
      var j :| 0 <= j < |devices| && j != i && devices[j].host == host;
      assert devices[i] in devices;
      IdsAtAre(devices, host);
      TwoOfASet(At(devices, host), i);
      assert j in At(devices, host) && |IdsAt(devices, host)| > 1;
      assert host in Hosts(devices) && id in IdsAt(devices, host);
    }
    if id in Affected(devices) {
      var host :| host in Hosts(devices) && id in IdsAt(devices, host) && |IdsAt(devices, host)| > 1;
      IdsAtAre(devices, host);
      var d :| d in devices && d.host == host && d.id == id;
      var i :| 0 <= i < |devices| && devices[i] == d;
      TwoOfASet(At(devices, host), i);
      var j :| j in At(devices, host) && j != i;
      assert devices[i].id == id && Aliased(devices, i);
    }
  }

  // ------------------------------------------------------- bookkeeping

  /** The two collectors share the fan-out and enter its outcomes differently. */
  datatype Collector = Statusline | Daemon

  /** How one outcome is entered into the files: a shared host overrules everything, a 401
      unpairs, a failure is noted. */
  function Entered(who: Collector, f: Files, id: string, kind: Kind, unverified: bool): Files {
    var failures := if who.Statusline? then FailuresOf(f, id) + 1 else 0;
    if unverified || kind.Transport? then WrittenPush(f, id, PushState(false, failures))
    else if kind.Delivered? then WrittenPush(f, id, PushState(true, 0))
    else if who.Statusline? then RemoveFrom(f, id)
    else RemoveFrom(WrittenPush(f, id, PushState(false, 0)), id)
  }

  function Unpaired(results: Results, unverified: set<string>): set<string> {
    set id <- results | results[id].Auth? && id !in unverified
  }

  function Confirmed(results: Results, unverified: set<string>): set<string> {
    set id <- results | results[id].Delivered? && id !in unverified
  }

  function Faulted(results: Results, unverified: set<string>): set<string> {
    set id <- results | results[id].Transport? || id in unverified
  }

  function PushOf(f: Files, id: string): Option<PushState> {
    if id in f.pushes then Some(f.pushes[id]) else None
  }

  /** What the files say about a device once its outcome is entered. */
  function PushAfter(who: Collector, f: Files, id: string, kind: Kind, unverified: bool): Option<PushState> {
    if kind.Auth? && !unverified then
      if id in Paired(f) then None
      else if who.Daemon? && SafeId(id) then Some(PushState(false, 0))
      else PushOf(f, id)
    else if !SafeId(id) then PushOf(f, id)
    else if kind.Delivered? && !unverified then Some(PushState(true, 0))
    else Some(PushState(false, if who.Statusline? then FailuresOf(f, id) + 1 else 0))
  }

  lemma EnteredPushes(who: Collector, f: Files, id: string, kind: Kind, unverified: bool, other: string)
    ensures PushOf(Entered(who, f, id, kind, unverified), other)
         == if other == id then PushAfter(who, f, id, kind, unverified) else PushOf(f, other)
  {
  }

  lemma EnteredPaired(who: Collector, f: Files, id: string, kind: Kind, unverified: bool)
    requires UniqueIds(f.paired)
    ensures var g := Entered(who, f, id, kind, unverified);
            && UniqueIds(g.paired) && g.claims == f.claims
            && Paired(g) == (if kind.Auth? && !unverified then Paired(f) - {id} else Paired(f))
  {
    if kind.Auth? && !unverified {
      var before := if who.Statusline? then f else WrittenPush(f, id, PushState(false, 0));
      assert before.paired == f.paired;
      assert Entered(who, f, id, kind, unverified) == RemoveFrom(before, id);
      RemoveFacts(before, id);
    } else {
      assert Entered(who, f, id, kind, unverified).paired == f.paired;
    }
  }

  /** The outcomes of `done` are entered and nothing else has changed. */
  ghost predicate Progress(who: Collector, was: Files, f: Files, results: Results, unverified: set<string>,
                           done: set<string>)
    requires done <= results.Keys
  {
    && UniqueIds(f.paired) && f.claims == was.claims
    && Paired(f) == Paired(was) - (Unpaired(results, unverified) * done)
    && forall id :: PushOf(f, id) ==
         if id in done then PushAfter(who, was, id, results[id], id in unverified) else PushOf(was, id)
  }

  lemma ProgressNext(who: Collector, was: Files, f: Files, results: Results, unverified: set<string>, done: set<string>,
                     id: string)
    requires done <= results.Keys && id in results && id !in done
    requires Progress(who, was, f, results, unverified, done)
    ensures Progress(who, was, Entered(who, f, id, results[id], id in unverified), results, unverified, done + {id})
  {
    var g := Entered(who, f, id, results[id], id in unverified);
    EnteredPaired(who, f, id, results[id], id in unverified);
    assert PushOf(f, id) == PushOf(was, id);
    assert FailuresOf(f, id) == FailuresOf(was, id);
    forall other ensures PushOf(g, other) ==
        if other in done + {id} then PushAfter(who, was, other, results[other], other in unverified)
        else PushOf(was, other)
    {
      EnteredPushes(who, f, id, results[id], id in unverified, other);
    }
  }

  /** Enters one outcome of the statusline; a 401 that counts does not tip the exit code. */
  method Enter(files: AgentFiles, id: string, kind: Kind, unverified: bool) returns (fine: bool)
    modifies files
    ensures files.View() == Entered(Statusline, old(files.View()), id, kind, unverified)
    ensures fine == !(unverified || kind.Transport?)
  {
    if unverified {
      var _ := files.BumpPushFailures(id);
      return false;
    }
    if kind.Delivered? {
      files.ResetPushFailures(id);
      return true;
    }
    if kind.Auth? {
      files.Remove(id);
      return true;
    }
    var _ := files.BumpPushFailures(id);
    fine := false;
  }
}
