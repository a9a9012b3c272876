/** The fan-out as the statusline runs it, step by step, each step being one of the step system's.

    What module FanoutCycle proves of every run therefore holds of this program. Replies, browses and
    clock readings are inputs; other processes are left to the step system. */
module FanoutProgram {
  import opened Decimals
  import opened HostCache
  import opened Fanout
  import opened FanoutCycle

  /** The replies to the first pushes and to the retries, the two browses and the two clock readings. */
  datatype World = World(statuses: seq<Option<int>>, retries: map<string, Option<int>>,
                         found: Found, foundAgain: Found, now: int, nowAgain: int)

  /** The reply to the retry of a device; none when the world lists none. */
  function RetryReply(world: World, id: string): Option<int> {
    if id in world.retries then world.retries[id] else None
  }

  /** A step of the cycle itself that reads its input from this world. */
  predicate StepOf(step: Step, world: World) {
    match step
    case Other(_) => false
    case Send(statuses) => statuses == world.statuses
    case ClaimFailed(now) => now == world.now
    case Browse(found) => found == world.found
    case Resend(id, status) => status == RetryReply(world, id)
    case ClaimShared(now) => now == world.nowAgain
    case BrowseAgain(found) => found == world.foundAgain
    case _ => true
  }

  /** The run leads from the start to s in this world, with no other process taking a step. */
  predicate Tracks(start: State, run: seq<Step>, s: State, world: World, cooldown: int) {
    Runs(start, run, cooldown) && After(start, run, cooldown) == s && forall step <- run :: StepOf(step, world)
  }

  lemma {:induction false} TrackStep(start: State, run: seq<Step>, s: State, step: Step, world: World, cooldown: int)
    requires Tracks(start, run, s, world, cooldown) && Allowed(s, step) && StepOf(step, world)
    ensures Tracks(start, run + [step], Next(s, step, cooldown), world, cooldown)
    decreases run
  {
    var longer := run + [step];
    if run != [] {
      assert run[0] in run && forall t <- run[1..] :: t in run;
      TrackStep(Next(start, run[0], cooldown), run[1..], s, step, world, cooldown);
      assert longer[1..] == run[1..] + [step];
    }
  }

  /** A run undisturbed by others unlists exactly what it unpaired itself. */
  lemma {:induction false} UndisturbedPairings(start: State, run: seq<Step>, s: State, world: World, cooldown: int)
    requires Inv(start) && Tracks(start, run, s, world, cooldown)
    ensures start.removed <= s.removed
    ensures Paired(s.files) == Paired(start.files) - (s.removed - start.removed)
    decreases run
  {
    if run != [] {
      assert run[0] in run && forall t <- run[1..] :: t in run;
      NextKeeps(start, run[0], cooldown);
      OwnStepFacts(start, run[0], cooldown);
      UndisturbedPairings(Next(start, run[0], cooldown), run[1..], s, world, cooldown);
    }
  }

  /** Looks a device up in the list it was pushed from. */
  method LookUpHost(devices: seq<Device>, id: string) returns (host: Option<string>)
    ensures host == HostOf(devices, id)
  {
    host := None;
    var i := 0;
    while i < |devices|
      invariant i <= |devices|
      invariant host == HostOf(devices[..i], id)
    {
      assert devices[..i + 1][..i] == devices[..i];
      if devices[i].id == id {
        host := Some(devices[i].host);
      }
      i := i + 1;
    }
    assert devices[..i] == devices;
  }

  /** Re-resolves the devices that could not be reached and retries each that moved, once. */
  method RefreshAndRetry(files: AgentFiles, devices: seq<Device>, results: Results, world: World, cooldown: int,
                         ghost start: State, ghost before: seq<Step>, ghost entry: State)
    returns (updated: Results, raised: bool, ghost run: seq<Step>, ghost s: State)
    requires HostsGiven(world.found) && files.View() == entry.files
    requires Tracks(start, before, entry, world, cooldown) && entry.phase == Sent(devices, results)
    modifies files
    ensures Tracks(start, run, s, world, cooldown) && files.View() == s.files && s.who == entry.who
    ensures raised ==> s.phase == Abandoned
    ensures !raised ==> Allowed(s, LoadAgain) && s.phase.results == updated
  {
    run, s, updated, raised := before, entry, results, false;
    var failed := TransportFailed(results);
    TrackStep(start, run, s, ClaimFailed(world.now), world, cooldown);
    run, s := run + [ClaimFailed(world.now)], Next(s, ClaimFailed(world.now), cooldown);
    if failed == {} {
      return;
    }
    var eligible := ClaimSet(files, failed, world.now, cooldown);
    if eligible == {} {
      return;
    }
    TrackStep(start, run, s, Browse(world.found), world, cooldown);
    run, s := run + [Browse(world.found)], Next(s, Browse(world.found), cooldown);
    if world.found.None? {
      raised := true;
      return;
    }
    var hosts, todo := world.found.value, eligible;
    while todo != {}
      invariant Tracks(start, run, s, world, cooldown) && files.View() == s.files && s.who == entry.who
      invariant s.phase == Retrying(devices, updated, hosts, todo)
      decreases |todo|
    {
      var id :| id in todo;
      TrackStep(start, run, s, Retry(id), world, cooldown);
      run, s := run + [Retry(id)], Next(s, Retry(id), cooldown);
      todo := todo - {id};
      var known := LookUpHost(devices, id);
      if id in hosts && known != Some(hosts[id]) {
        var present := files.UpdateHost(id, hosts[id]);
        if present {
          var status := RetryReply(world, id);
          TrackStep(start, run, s, Resend(id, status), world, cooldown);
          run, s := run + [Resend(id, status)], Next(s, Resend(id, status), cooldown);
          updated := updated[id := KindOf(status)];
        }
      }
    }
  }

  method ClaimSet(files: AgentFiles, ids: set<string>, now: int, cooldown: int) returns (eligible: set<string>)
    modifies files
    ensures (files.View(), eligible) == ClaimIn(old(files.View()), ids, now, cooldown)
  {
    var list, rest := [], ids;
    while rest != {}
      invariant rest <= ids && Elements(list) == ids - rest && files.View() == old(files.View())
      decreases |rest|
    {
      var id :| id in rest;
      assert Elements(list + [id]) == Elements(list) + {id};
      list, rest := list + [id], rest - {id};
    }
    assert ids - {} == ids;
    eligible := files.Claim(list, now, cooldown);
  }

  /** Splits records that share a host by one throttled browse, and returns the ids that still share one. */
  method ReconcileDuplicateHosts(files: AgentFiles, results: Results, current: seq<Device>, world: World, cooldown: int,
                                 ghost start: State, ghost before: seq<Step>, ghost entry: State)
    returns (unverified: set<string>, ghost run: seq<Step>, ghost s: State)
    requires HostsGiven(world.foundAgain) && files.View() == entry.files
    requires Tracks(start, before, entry, world, cooldown) && entry.phase == Checking(results, current)
    modifies files
    ensures Tracks(start, run, s, world, cooldown) && files.View() == s.files && s.who == entry.who
    ensures s.phase == Entering(results, unverified, results.Keys, true)
  {
    run, s := before, entry;
    unverified := SharedIds(current);
    TrackStep(start, run, s, ClaimShared(world.nowAgain), world, cooldown);
    run, s := run + [ClaimShared(world.nowAgain)], Next(s, ClaimShared(world.nowAgain), cooldown);
    if unverified == {} {
      return;
    }
    var eligible := ClaimSet(files, unverified, world.nowAgain, cooldown);
    if eligible == {} {
      return;
    }
    TrackStep(start, run, s, BrowseAgain(world.foundAgain), world, cooldown);
    run, s := run + [BrowseAgain(world.foundAgain)], Next(s, BrowseAgain(world.foundAgain), cooldown);
    if world.foundAgain.None? {
      return;
    }
    var hosts, todo := world.foundAgain.value, eligible;
    while todo != {}
      invariant Tracks(start, run, s, world, cooldown) && files.View() == s.files && s.who == entry.who
      invariant s.phase == Refreshing(results, current, hosts, todo)
      decreases |todo|
    {
      var id :| id in todo;
      TrackStep(start, run, s, Refresh(id), world, cooldown);
      run, s := run + [Refresh(id)], Next(s, Refresh(id), cooldown);
      var known := LookUpHost(current, id);
      if id in hosts && known != Some(hosts[id]) {
        var _ := files.UpdateHost(id, hosts[id]);
      }
      todo := todo - {id};
    }
    TrackStep(start, run, s, Reload, world, cooldown);
    run, s := run + [Reload], Next(s, Reload, cooldown);
    unverified := SharedIds(Loaded(files.paired));
  }

  method SharedIds(devices: seq<Device>) returns (ids: set<string>)
    ensures ids == Affected(devices)
  {
    var groups := DuplicateHostGroups(devices);
    ids := set host <- groups, id <- groups[host] :: id;
    forall id <- Affected(devices) ensures id in ids {
      var host :| host in Hosts(devices) && id in IdsAt(devices, host) && |IdsAt(devices, host)| > 1;
      assert host in groups;
    }
  }

  /** Enters the outcome of every device once, in any order. */
  method EnterAll(files: AgentFiles, results: Results, unverified: set<string>, cooldown: int,
                  ghost world: World, ghost start: State, ghost before: seq<Step>, ghost entry: State)
    returns (overallOk: bool, ghost run: seq<Step>, ghost s: State)
    requires files.View() == entry.files && entry.who.Statusline? && Tracks(start, before, entry, world, cooldown)
    requires entry.phase == Entering(results, unverified, results.Keys, true) && UniqueIds(files.paired)
    modifies files
    ensures Tracks(start, run, s, world, cooldown) && files.View() == s.files
    ensures s.phase == Finished(results, unverified, overallOk)
    ensures Progress(Statusline, old(files.View()), files.View(), results, unverified, results.Keys)
  {
    run, s, overallOk := before, entry, true;
    var todo := results.Keys;
    ghost var was := files.View();
    while todo != {}
      invariant todo <= results.Keys && s.who.Statusline?
      invariant Tracks(start, run, s, world, cooldown) && files.View() == s.files
      invariant s.phase == Entering(results, unverified, todo, overallOk)
      invariant Progress(Statusline, was, files.View(), results, unverified, results.Keys - todo)
      decreases |todo|
    {
      var id :| id in todo;
      ProgressNext(Statusline, was, files.View(), results, unverified, results.Keys - todo, id);
      assert results.Keys - (todo - {id}) == results.Keys - todo + {id};
      TrackStep(start, run, s, EnterOne(id), world, cooldown);
      run, s := run + [EnterOne(id)], Next(s, EnterOne(id), cooldown);
      var fine := Enter(files, id, results[id], id in unverified);
      overallOk := overallOk && fine;
      todo := todo - {id};
    }
    TrackStep(start, run, s, Finish, world, cooldown);
    run, s := run + [Finish], Next(s, Finish, cooldown);
  }

  /** The second half of a fan-out: shared hosts are judged, then the outcomes entered. */
  method VerifyAndEnter(files: AgentFiles, results: Results, world: World, cooldown: int,
                        ghost start: State, ghost before: seq<Step>, ghost entry: State)
    returns (overallOk: bool, ghost run: seq<Step>, ghost s: State)
    requires HostsGiven(world.foundAgain) && files.View() == entry.files && entry.who.Statusline?
    requires Tracks(start, before, entry, world, cooldown) && Inv(start)
    requires Allowed(entry, LoadAgain) && entry.phase.results == results
    modifies files
    ensures Tracks(start, run, s, world, cooldown) && files.View() == s.files
    ensures s.phase.Finished? && s.phase.results == results && s.phase.allOk == overallOk
  {
    run, s := before, entry;
    var current := Loaded(files.paired);
    TrackStep(start, run, s, LoadAgain, world, cooldown);
    run, s := run + [LoadAgain], Next(s, LoadAgain, cooldown);
    var unverified;
    unverified, run, s := ReconcileDuplicateHosts(files, results, current, world, cooldown, start, run, s);
    Reached(start, run, cooldown);
    overallOk, run, s := EnterAll(files, results, unverified, cooldown, world, start, run, s);
  }

  /** The whole fan-out. It is a run of the step system on the replies, browses and clock readings it is given; its
      exit code is 0 exactly when that run finished with nothing failed; and it unpairs exactly the devices
      whose last reply is a 401 and that are not unverified. */
  method DoFanout(files: AgentFiles, world: World, cooldown: int)
    returns (exitCode: int, ghost run: seq<Step>, ghost s: State)
    requires |world.statuses| == |Loaded(files.paired)| && UniqueIds(files.paired)
    requires HostsGiven(world.found) && HostsGiven(world.foundAgain)
    modifies files
    ensures Tracks(Initial(Statusline, old(files.View())), run, s, world, cooldown) && files.View() == s.files
    ensures s.phase.Finished? || s.phase.Abandoned?
    ensures exitCode == if s.phase.Finished? && s.phase.allOk then 0 else 1
    ensures s.phase.Finished? ==>
              var start := Initial(Statusline, old(files.View()));
              forall id :: id in Paired(files.View()) <==>
                id in Paired(old(files.View()))
                && !(Refused(RepliesOf(start, run, cooldown, id)) && id !in s.phase.unverified)
  {
    ghost var start := Initial(Statusline, files.View());
    run, s := [], start;
    var devices := Loaded(files.paired);
    TrackStep(start, run, s, Start(devices), world, cooldown);
    run, s := run + [Start(devices)], Next(s, Start(devices), cooldown);
    if devices == [] {
      return 1, run, s;
    }
    var results := PushToAll(devices, world.statuses);
    TrackStep(start, run, s, Send(world.statuses), world, cooldown);
    run, s := run + [Send(world.statuses)], Next(s, Send(world.statuses), cooldown);
    var raised;
    results, raised, run, s := RefreshAndRetry(files, devices, results, world, cooldown, start, run, s);
    if raised {
      return 1, run, s;
    }
    Reached(start, run, cooldown);
    var overallOk;
    overallOk, run, s := VerifyAndEnter(files, results, world, cooldown, start, run, s);
    Reached(start, run, cooldown);
    UndisturbedPairings(start, run, s, world, cooldown);
    CycleAccounts(Statusline, start.files, run, cooldown);
    exitCode := if overallOk then 0 else 1;
  }
}
