/** A whole fan-out cycle among other processes.

    Each step is one critical section on the agent's files, one network exchange or one
    browse. Other processes may change the files between any two steps. */
module FanoutCycle {
  import opened Decimals
  import opened HostCache
  import opened Fanout

  datatype Phase =
    | Starting
    | Sending(devices: seq<Device>)
    | Sent(devices: seq<Device>, results: Results)
    | Browsing(devices: seq<Device>, results: Results, eligible: set<string>)
    | Retrying(devices: seq<Device>, results: Results, hosts: map<string, string>, todo: set<string>)
    | Resending(devices: seq<Device>, results: Results, hosts: map<string, string>, todo: set<string>, id: string)
    | Recovered(results: Results)
    | Checking(results: Results, current: seq<Device>)
    | BrowsingAgain(results: Results, current: seq<Device>, eligible: set<string>)
    | Refreshing(results: Results, current: seq<Device>, hosts: map<string, string>, todo: set<string>)
    | Entering(results: Results, unverified: set<string>, todo: set<string>, allOk: bool)
    | Finished(results: Results, unverified: set<string>, allOk: bool)
    | Abandoned

  /** `asked` is the set of devices pushed to; `removed`, `confirmed` and `faulted` are the cycle's own
      entries so far. */
  datatype State = State(who: Collector, files: Files, phase: Phase, asked: set<string>,
                         removed: set<string>, confirmed: set<string>, faulted: set<string>)

  datatype Step =
    | Other(op: FileOp)
    | Start(devices: seq<Device>)
    | Send(statuses: seq<Option<int>>)
    | ClaimFailed(now: int)
    | Browse(found: Found)
    | Retry(id: string)
    | Resend(id: string, status: Option<int>)
    | LoadAgain
    | ClaimShared(now: int)
    | BrowseAgain(found: Found)
    | Refresh(id: string)
    | Reload
    | EnterOne(id: string)
    | Finish

  /** Hosts are never empty: a browse yields `address:port`. The statusline pushes to the whole list, the
      daemon also to some devices only. */
  predicate Allowed(s: State, step: Step) {
    match step
    case Other(Adds(device)) => device.host != ""
    case Other(Updates(_, host)) => host != ""
    case Other(_) => true
    case Start(devices) => s.phase.Starting? && (s.who.Statusline? ==> devices == Loaded(s.files.paired))
    case Send(statuses) => s.phase.Sending? && |statuses| == |s.phase.devices|
    case ClaimFailed(_) => s.phase.Sent?
    case Browse(found) => s.phase.Browsing? && HostsGiven(found)
    case Retry(id) => s.phase.Retrying? && id in s.phase.todo
    case Resend(id, _) => s.phase.Resending? && id == s.phase.id
    case LoadAgain => s.phase.Recovered? || (s.phase.Retrying? && s.phase.todo == {})
    case ClaimShared(_) => s.phase.Checking?
    case BrowseAgain(found) => s.phase.BrowsingAgain? && HostsGiven(found)
    case Refresh(id) => s.phase.Refreshing? && id in s.phase.todo
    case Reload => s.phase.Refreshing? && s.phase.todo == {}
    case EnterOne(id) => s.phase.Entering? && id in s.phase.todo
    case Finish => s.phase.Entering? && s.phase.todo == {}
  }

  function TransportFailed(results: Results): set<string> {
    set id <- results | results[id].Transport?
  }

  /** The host a list gives a device. */
  function HostOf(devices: seq<Device>, id: string): Option<string> {
    if devices == [] then None
    else
      var d := devices[|devices| - 1];
      if d.id == id then Some(d.host) else HostOf(devices[..|devices| - 1], id)
  }

  /** The browse shows the device at another host than the list does. */
  predicate Moved(devices: seq<Device>, hosts: map<string, string>, id: string) {
    id in hosts && HostOf(devices, id) != Some(hosts[id])
  }

  function BeginEntering(s: State, results: Results, basis: seq<Device>): State {
    s.(phase := Entering(results, Affected(basis), results.Keys, true))
  }

  function Next(s: State, step: Step, cooldown: int): State
    requires Allowed(s, step)
  {
    match step
    case Other(op) => s.(files := Applied(s.files, op, cooldown))
    case Start(devices) =>
      if devices == [] then s.(phase := Abandoned) else s.(phase := Sending(devices), asked := Ids(devices))
    case Send(statuses) => s.(phase := Sent(s.phase.devices, ResultsOf(s.phase.devices, statuses)))
    case ClaimFailed(now) =>
      if TransportFailed(s.phase.results) == {} then s.(phase := Recovered(s.phase.results))
      else
        var (files, eligible) := ClaimIn(s.files, TransportFailed(s.phase.results), now, cooldown);
        s.(files := files,
           phase := if eligible == {} then Recovered(s.phase.results)
                    else Browsing(s.phase.devices, s.phase.results, eligible))
    case Browse(None) => s.(phase := Abandoned)
    case Browse(Some(hosts)) => s.(phase := Retrying(s.phase.devices, s.phase.results, hosts, s.phase.eligible))
    case Retry(id) =>
      var todo := s.phase.todo - {id};
      var skipped := Retrying(s.phase.devices, s.phase.results, s.phase.hosts, todo);
      if !Moved(s.phase.devices, s.phase.hosts, id) then s.(phase := skipped)
      else
        var (files, present) := UpdateIn(s.files, id, s.phase.hosts[id]);
        s.(files := files,
           phase := if present then Resending(s.phase.devices, s.phase.results, s.phase.hosts, todo, id) else skipped)
    case Resend(id, status) =>
      s.(phase := Retrying(s.phase.devices, s.phase.results[id := KindOf(status)], s.phase.hosts, s.phase.todo))
    case LoadAgain => s.(phase := Checking(s.phase.results, Loaded(s.files.paired)))
    case ClaimShared(now) =>
      var shared := Affected(s.phase.current);
      if shared == {} then BeginEntering(s, s.phase.results, s.phase.current)
      else
        var (files, eligible) := ClaimIn(s.files, shared, now, cooldown);
        if eligible == {} then BeginEntering(s.(files := files), s.phase.results, s.phase.current)
        else s.(files := files, phase := BrowsingAgain(s.phase.results, s.phase.current, eligible))
    case BrowseAgain(None) => BeginEntering(s, s.phase.results, s.phase.current)
    case BrowseAgain(Some(hosts)) =>
      s.(phase := Refreshing(s.phase.results, s.phase.current, hosts, s.phase.eligible))
    case Refresh(id) =>
      s.(files := if Moved(s.phase.current, s.phase.hosts, id) then UpdateIn(s.files, id, s.phase.hosts[id]).0
                  else s.files,
         phase := Refreshing(s.phase.results, s.phase.current, s.phase.hosts, s.phase.todo - {id}))
    case Reload => BeginEntering(s, s.phase.results, Loaded(s.files.paired))
    case EnterOne(id) =>
      EnteredOne(s, id, if id in s.phase.results then s.phase.results[id] else Transport, id in s.phase.unverified)
    case Finish => s.(phase := Finished(s.phase.results, s.phase.unverified, s.phase.allOk))
  }

  function EnteredOne(s: State, id: string, kind: Kind, unverified: bool): State
    requires s.phase.Entering?
  {
    s.(files := Entered(s.who, s.files, id, kind, unverified),
       phase := Entering(s.phase.results, s.phase.unverified, s.phase.todo - {id},
                         s.phase.allOk && !unverified && !kind.Transport?),
       removed := s.removed + if kind.Auth? && !unverified then {id} else {},
       confirmed := s.confirmed + if kind.Delivered? && !unverified then {id} else {},
       faulted := s.faulted + if kind.Transport? || unverified then {id} else {})
  }

  function Initial(who: Collector, files: Files): State {
    State(who, files, Starting, {}, {}, {}, {})
  }

  predicate Runs(s: State, run: seq<Step>, cooldown: int)
    decreases run
  {
    run == [] || (Allowed(s, run[0]) && Runs(Next(s, run[0], cooldown), run[1..], cooldown))
  }

  function After(s: State, run: seq<Step>, cooldown: int): State
    requires Runs(s, run, cooldown)
    decreases run
  {
    if run == [] then s else After(Next(s, run[0], cooldown), run[1..], cooldown)
  }

  // -------------------------------------------------------- invariant

  predicate NothingEntered(s: State) {
    s.removed == {} && s.confirmed == {} && s.faulted == {}
  }

  /** Exactly the outcomes of `done` are entered, each in its place. */
  predicate EnteredSoFar(s: State, results: Results, unverified: set<string>, done: set<string>) {
    && s.removed == Unpaired(results, unverified) * done
    && s.confirmed == Confirmed(results, unverified) * done
    && s.faulted == Faulted(results, unverified) * done
  }

  predicate PhaseHolds(s: State) {
    match s.phase
    case Starting => NothingEntered(s) && s.asked == {}
    case Sending(devices) => NothingEntered(s) && Ids(devices) == s.asked
    case Sent(_, results) => NothingEntered(s) && results.Keys == s.asked
    case Browsing(_, results, eligible) => NothingEntered(s) && results.Keys == s.asked && eligible <= s.asked
    case Retrying(_, results, hosts, todo) =>
      NothingEntered(s) && results.Keys == s.asked && todo <= s.asked && HostsGiven(Some(hosts))
    case Resending(_, results, hosts, todo, id) =>
      NothingEntered(s) && results.Keys == s.asked && todo <= s.asked && id in s.asked && HostsGiven(Some(hosts))
    case Recovered(results) => NothingEntered(s) && results.Keys == s.asked
    case Checking(results, _) => NothingEntered(s) && results.Keys == s.asked
    case BrowsingAgain(results, _, _) => NothingEntered(s) && results.Keys == s.asked
    case Refreshing(results, _, hosts, _) =>
      NothingEntered(s) && results.Keys == s.asked && HostsGiven(Some(hosts))
    case Entering(results, unverified, todo, allOk) =>
      && results.Keys == s.asked && todo <= s.asked
      && EnteredSoFar(s, results, unverified, s.asked - todo)
      && (allOk <==> s.faulted == {})
    case Finished(results, unverified, allOk) =>
      && results.Keys == s.asked
      && EnteredSoFar(s, results, unverified, s.asked)
      && (allOk <==> s.faulted == {})
    case Abandoned => NothingEntered(s)
  }

  predicate Inv(s: State) {
    UniqueIds(s.files.paired) && PhaseHolds(s)
  }

  /** What a step of the cycle itself does to the list: only an entered 401 changes which ids are
      paired, and no step inserts one. */
  lemma OwnStepFacts(s: State, step: Step, cooldown: int)
    requires Inv(s) && Allowed(s, step) && !step.Other?
    ensures UniqueIds(Next(s, step, cooldown).files.paired)
    ensures s.removed <= Next(s, step, cooldown).removed
    ensures Paired(Next(s, step, cooldown).files)
         == Paired(s.files) - (Next(s, step, cooldown).removed - s.removed)
  {
    match step
    case Retry(id) =>
      if id in s.phase.hosts {
        UpdateFacts(s.files, id, s.phase.hosts[id]);
      }
    case Refresh(id) =>
      if id in s.phase.hosts {
        UpdateFacts(s.files, id, s.phase.hosts[id]);
      }
    case EnterOne(id) => EnteredPaired(s.who, s.files, id, s.phase.results[id], id in s.phase.unverified);
    case _ =>
  }

  lemma EnterKeeps(s: State, id: string, cooldown: int)
    requires Inv(s) && Allowed(s, EnterOne(id))
    ensures PhaseHolds(Next(s, EnterOne(id), cooldown))
  {
    var t := Next(s, EnterOne(id), cooldown);
    assert s.asked - t.phase.todo == (s.asked - s.phase.todo) + {id};
  }

  lemma PhaseKeeps(s: State, step: Step, cooldown: int)
    requires Inv(s) && Allowed(s, step) && !step.EnterOne?
    ensures PhaseHolds(Next(s, step, cooldown))
  {
    match step
    case Send(statuses) => ResultsKeys(s.phase.devices, statuses);
    case Resend(_, _) => assert Next(s, step, cooldown).phase.results.Keys == s.phase.results.Keys + {s.phase.id};
    case Finish => assert s.asked - {} == s.asked;
    case ClaimShared(_) => assert s.phase.results.Keys - s.phase.results.Keys == {};
    case BrowseAgain(None) => assert s.phase.results.Keys - s.phase.results.Keys == {};
    case Reload => assert s.phase.results.Keys - s.phase.results.Keys == {};
    case _ =>
  }

  lemma NextKeeps(s: State, step: Step, cooldown: int)
    requires Inv(s) && Allowed(s, step)
    ensures Inv(Next(s, step, cooldown))
  {
    if step.EnterOne? {
      EnterKeeps(s, step.id, cooldown);
    } else {
      PhaseKeeps(s, step, cooldown);
    }
    if step.Other? {
      AppliedFacts(s.files, step.op, cooldown);
    } else {
      OwnStepFacts(s, step, cooldown);
    }
  }

  lemma {:induction false} Reached(s: State, run: seq<Step>, cooldown: int)
    requires Inv(s) && Runs(s, run, cooldown)
    ensures Inv(After(s, run, cooldown))
    decreases run
  {
    if run != [] {
      NextKeeps(s, run[0], cooldown);
      Reached(Next(s, run[0], cooldown), run[1..], cooldown);
    }
  }

  // ---------------------------------------------------- outcome files

  /** Another process writes the device's outcome file, or drops the device and the file with it. */
  predicate TouchedByOthers(run: seq<Step>, id: string) {
    exists step <- run :: step.Other? && ((step.op.Writes? || step.op.Removes?) && step.op.id == id)
  }

  /** Another process writes ok into the device's outcome file. */
  predicate OkByOthers(run: seq<Step>, id: string) {
    exists step <- run :: step.Other? && step.op.Writes? && step.op.id == id && step.op.state.ok
  }

  lemma AppliedOutcome(f: Files, op: FileOp, cooldown: int, id: string)
    ensures SaysOk(Applied(f, op, cooldown), id) ==> SaysOk(f, id) || (op.Writes? && op.id == id && op.state.ok)
    ensures !((op.Writes? || op.Removes?) && op.id == id) ==> PushOf(Applied(f, op, cooldown), id) == PushOf(f, id)
  {
  }

  /** A step of the cycle itself touches an outcome file only by entering that device's outcome. */
  lemma OwnOutcome(s: State, step: Step, cooldown: int, id: string)
    requires Inv(s) && Allowed(s, step) && !step.Other?
    ensures step != EnterOne(id) ==> PushOf(Next(s, step, cooldown).files, id) == PushOf(s.files, id)
    ensures step == EnterOne(id) ==>
              PushOf(Next(s, step, cooldown).files, id)
              == PushAfter(s.who, s.files, id, s.phase.results[id], id in s.phase.unverified)
  {
    if step.EnterOne? {
      EnteredPushes(s.who, s.files, step.id, s.phase.results[step.id], step.id in s.phase.unverified, id);
    }
  }

  /** What is entered once is not entered again. */
  lemma EnteredOnce(s: State, id: string, cooldown: int)
    requires Inv(s) && Allowed(s, EnterOne(id))
    ensures id !in s.removed && id !in s.confirmed && id !in s.faulted
  {
  }

  lemma {:induction false} OkOnlyIfConfirmed(s: State, run: seq<Step>, cooldown: int, id: string)
    requires Inv(s) && Runs(s, run, cooldown) && !OkByOthers(run, id)
    ensures SaysOk(After(s, run, cooldown).files, id) ==>
              SaysOk(s.files, id) || id in After(s, run, cooldown).confirmed
    ensures s.confirmed <= After(s, run, cooldown).confirmed
    decreases run
  {
    if run != [] {
      NextKeeps(s, run[0], cooldown);
      if run[0].Other? {
        AppliedOutcome(s.files, run[0].op, cooldown, id);
      } else {
        OwnOutcome(s, run[0], cooldown, id);
      }
      assert run == [run[0]] + run[1..];
      OkOnlyIfConfirmed(Next(s, run[0], cooldown), run[1..], cooldown, id);
    }
  }

  /** The file of a device whose outcome is entered and that no other process touches. */
  predicate FileHolds(s: State, id: string) {
    && (id in s.confirmed ==> PushOf(s.files, id) == Some(PushState(true, 0)))
    && (id in s.faulted ==> !SaysOk(s.files, id))
  }

  lemma {:induction false} FilesFollowEntries(s: State, run: seq<Step>, cooldown: int, id: string)
    requires Inv(s) && Runs(s, run, cooldown) && !TouchedByOthers(run, id) && SafeId(id) && FileHolds(s, id)
    ensures FileHolds(After(s, run, cooldown), id)
    decreases run
  {
    if run != [] {
      var next := Next(s, run[0], cooldown);
      NextKeeps(s, run[0], cooldown);
      assert run == [run[0]] + run[1..];
      if run[0].Other? {
        AppliedOutcome(s.files, run[0].op, cooldown, id);
      } else {
        OwnOutcome(s, run[0], cooldown, id);
        if run[0] == EnterOne(id) {
          EnteredOnce(s, id, cooldown);
        }
      }
      FilesFollowEntries(next, run[1..], cooldown, id);
    }
  }

  // ------------------------------------------- replies and judged lists

  /** What a step brings of the device's replies. */
  function RepliesIn(s: State, step: Step, id: string): seq<Option<int>>
    requires Allowed(s, step)
  {
    match step
    case Send(statuses) => RepliesAt(s.phase.devices, statuses, id)
    case Resend(other, status) => if other == id then [status] else []
    case _ => []
  }

  /** All replies of the device in a run, to the first push and to the retry. */
  function RepliesOf(s: State, run: seq<Step>, cooldown: int, id: string): seq<Option<int>>
    requires Runs(s, run, cooldown)
    decreases run
  {
    if run == [] then []
    else RepliesIn(s, run[0], id) + RepliesOf(Next(s, run[0], cooldown), run[1..], cooldown, id)
  }

  /** The last reply was a 401. */
  predicate Refused(replies: seq<Option<int>>) {
    replies != [] && replies[|replies| - 1] == Some(401)
  }

  /** The last reply was a status below 300. */
  predicate Took(replies: seq<Option<int>>) {
    replies != [] && match replies[|replies| - 1] case Some(code) => code < 300 case None => false
  }

  /** The list of paired devices a run loaded last to look for shared hosts. */
  function LastLoad(s: State, run: seq<Step>, cooldown: int): Option<seq<Device>>
    requires Runs(s, run, cooldown)
    decreases run
  {
    if run == [] then None
    else
      match LastLoad(Next(s, run[0], cooldown), run[1..], cooldown)
      case Some(devices) => Some(devices)
      case None => if run[0].LoadAgain? || run[0].Reload? then Some(Loaded(s.files.paired)) else None
  }

  /** The devices a run sets out to push to. */
  function Asked(run: seq<Step>): set<string> {
    if run == [] then {} else (if run[0].Start? then Ids(run[0].devices) else {}) + Asked(run[1..])
  }

  function ResultsIn(phase: Phase): Option<Results> {
    match phase
    case Starting => None
    case Sending(_) => None
    case Abandoned => None
    case _ => Some(phase.results)
  }

  /** Each result so far is what the device's last reply means. */
  predicate RepliesHold(s: State, id: string, replies: seq<Option<int>>) {
    match ResultsIn(s.phase)
    case None => !s.phase.Abandoned? ==> replies == []
    case Some(results) =>
      && (id in results <==> replies != [])
      && (id in results ==> Means(replies[|replies| - 1], results[id]))
  }

  lemma ResultsStay(s: State, step: Step, cooldown: int)
    requires Allowed(s, step) && !step.Send? && !step.Resend?
    ensures var t := Next(s, step, cooldown); t.phase.Abandoned? || ResultsIn(t.phase) == ResultsIn(s.phase)
  {
  }

  lemma RepliesNext(s: State, step: Step, cooldown: int, id: string, replies: seq<Option<int>>)
    requires Inv(s) && Allowed(s, step) && RepliesHold(s, id, replies)
    ensures RepliesHold(Next(s, step, cooldown), id, replies + RepliesIn(s, step, id))
  {
    assert replies + [] == replies;
    if step.Send? {
      LastReplyCounts(s.phase.devices, step.statuses, id);
    } else if !step.Resend? {
      ResultsStay(s, step, cooldown);
    }
  }

  lemma {:induction false} RepliesFrom(s: State, run: seq<Step>, cooldown: int, id: string, replies: seq<Option<int>>)
    requires Inv(s) && Runs(s, run, cooldown) && RepliesHold(s, id, replies)
    ensures RepliesHold(After(s, run, cooldown), id, replies + RepliesOf(s, run, cooldown, id))
    decreases run
  {
    if run == [] {
      assert replies + [] == replies;
    } else {
      var next, more := Next(s, run[0], cooldown), RepliesIn(s, run[0], id);
      NextKeeps(s, run[0], cooldown);
      RepliesNext(s, run[0], cooldown, id, replies);
      RepliesFrom(next, run[1..], cooldown, id, replies + more);
      assert replies + more + RepliesOf(next, run[1..], cooldown, id)
          == replies + RepliesOf(s, run, cooldown, id);
    }
  }

  /** The list that is looked through for shared hosts is the one loaded last. */
  predicate LoadHolds(s: State, load: Option<seq<Device>>) {
    match s.phase
    case Checking(_, current) => load == Some(current)
    case BrowsingAgain(_, current, _) => load == Some(current)
    case Refreshing(_, current, _, _) => load == Some(current)
    case Entering(_, unverified, _, _) => load.Some? && unverified == Affected(load.value)
    case Finished(_, unverified, _) => load.Some? && unverified == Affected(load.value)
    case _ => true
  }

  lemma {:induction false} LoadsFrom(s: State, run: seq<Step>, cooldown: int, load: Option<seq<Device>>)
    requires Runs(s, run, cooldown) && LoadHolds(s, load)
    ensures var last := LastLoad(s, run, cooldown);
            LoadHolds(After(s, run, cooldown), if last.Some? then last else load)
    decreases run
  {
    if run != [] {
      var here := if run[0].LoadAgain? || run[0].Reload? then Some(Loaded(s.files.paired)) else load;
      LoadsFrom(Next(s, run[0], cooldown), run[1..], cooldown, here);
    }
  }

  lemma {:induction false} AskedFrom(s: State, run: seq<Step>, cooldown: int)
    requires Runs(s, run, cooldown) && (s.phase.Starting? ==> s.asked == {})
    ensures After(s, run, cooldown).asked == s.asked + Asked(run)
    decreases run
  {
    if run != [] {
      AskedFrom(Next(s, run[0], cooldown), run[1..], cooldown);
    }
  }

  // -------------------------------------------------- recovery, step by step

  lemma {:induction false} HostOfIs(devices: seq<Device>, id: string, host: string)
    requires UniqueIds(devices)
    ensures HostOf(devices, id) == Some(host) <==> Device(id, host) in devices
    decreases devices
  {
    if devices != [] {
      var n := |devices| - 1;
      HostOfIs(devices[..n], id, host);
      assert devices == devices[..n] + [devices[n]];
    }
  }

  /** A claim asks for exactly the devices that need a browse, those without a delivery or a 401 at first and those
      that share a host later, and is granted those whose id is safe and whose cooldown is over. */
  lemma ClaimsExactly(s: State, now: int, cooldown: int)
    ensures Allowed(s, ClaimFailed(now)) ==>
              var t := Next(s, ClaimFailed(now), cooldown);
              var granted := set id <- s.phase.results | s.phase.results[id].Transport? && SafeId(id)
                                 && (id !in s.files.claims || now - s.files.claims[id] >= cooldown);
              if granted == {} then t.phase == Recovered(s.phase.results) && t.files == s.files
              else t.phase == Browsing(s.phase.devices, s.phase.results, granted)
    ensures Allowed(s, ClaimShared(now)) ==>
              var t := Next(s, ClaimShared(now), cooldown);
              var granted := set id <- Affected(s.phase.current) | SafeId(id)
                                 && (id !in s.files.claims || now - s.files.claims[id] >= cooldown);
              if granted == {} then t.phase.Entering? && t.files == s.files
              else t.phase == BrowsingAgain(s.phase.results, s.phase.current, granted)
  {
  }

  /** A granted device is pushed to again exactly when the browse shows it at another host than it was pushed to
      and it is still paired; its record then stands at that host. Otherwise nothing happens to it. */
  lemma RetryExactly(s: State, id: string, cooldown: int)
    requires Inv(s) && Allowed(s, Retry(id)) && UniqueIds(s.phase.devices)
    ensures var t, hosts := Next(s, Retry(id), cooldown), s.phase.hosts;
            var again := id in hosts && Device(id, hosts[id]) !in s.phase.devices && id in Paired(s.files);
            && (t.phase.Resending? <==> again)
            && (again ==> t.phase.id == id && Device(id, hosts[id]) in Loaded(t.files.paired))
            && (!again ==> t.files == s.files)
  {
    var hosts := s.phase.hosts;
    if id in hosts {
      HostOfIs(s.phase.devices, id, hosts[id]);
      UpdateFacts(s.files, id, hosts[id]);
    }
  }

  /** A device that shares its host is moved exactly when the browse shows it elsewhere and it is still paired. */
  lemma RefreshExactly(s: State, id: string, cooldown: int)
    requires Inv(s) && Allowed(s, Refresh(id)) && UniqueIds(s.phase.current)
    ensures var t, hosts := Next(s, Refresh(id), cooldown), s.phase.hosts;
            var elsewhere := id in hosts && Device(id, hosts[id]) !in s.phase.current;
            && (elsewhere && id in Paired(s.files) ==> Device(id, hosts[id]) in Loaded(t.files.paired))
            && (!elsewhere || id !in Paired(s.files) ==> t.files == s.files)
  {
    var hosts := s.phase.hosts;
    if id in hosts {
      HostOfIs(s.phase.current, id, hosts[id]);
      UpdateFacts(s.files, id, hosts[id]);
    }
  }

  // ---------------------------------------------------------- theorems

  /** A finished cycle of either collector, whatever other processes did in between: ids are still
      unique; exactly the devices it set out to push to have replied or failed to; the unverified devices are those
      that share a host in the list loaded last; the cycle unpaired exactly the devices whose last reply is a 401
      and that are not unverified, and so none for any other failure, which is what the list shows of every
      device no other process added or dropped; and it reports success exactly when nothing else failed. */
  lemma {:induction false} CycleAccounts(who: Collector, files: Files, run: seq<Step>, cooldown: int)
    requires UniqueIds(files.paired) && Runs(Initial(who, files), run, cooldown)
    requires After(Initial(who, files), run, cooldown).phase.Finished?
    ensures var start := Initial(who, files);
            var s, unverified := After(start, run, cooldown), After(start, run, cooldown).phase.unverified;
            && UniqueIds(s.files.paired)
            && (forall id :: id in Asked(run) <==> RepliesOf(start, run, cooldown, id) != [])
            && LastLoad(start, run, cooldown).Some?
            && unverified == Affected(LastLoad(start, run, cooldown).value)
            && (forall id :: id in s.removed <==> Refused(RepliesOf(start, run, cooldown, id)) && id !in unverified)
            && (s.phase.allOk <==>
                forall id <- Asked(run) ::
                  && id !in unverified
                  && (Took(RepliesOf(start, run, cooldown, id)) || Refused(RepliesOf(start, run, cooldown, id))))
            && (forall id :: !AddedByOthers(run, id) && !DroppedByOthers(run, id) ==>
                  (id in Paired(s.files) <==>
                   id in Paired(files) && !(Refused(RepliesOf(start, run, cooldown, id)) && id !in unverified)))
  {
    var start := Initial(who, files);
    Reached(start, run, cooldown);
    LoadsFrom(start, run, cooldown, None);
    AskedFrom(start, run, cooldown);
    var s := After(start, run, cooldown);
    forall id ensures RepliesHold(s, id, RepliesOf(start, run, cooldown, id)) {
      RepliesFrom(start, run, cooldown, id, []);
      assert [] + RepliesOf(start, run, cooldown, id) == RepliesOf(start, run, cooldown, id);
    }
    SuccessIs(start, run, cooldown);
    forall id | !AddedByOthers(run, id) && !DroppedByOthers(run, id)
      ensures id in Paired(s.files) <==> id in Paired(files) && id !in s.removed
    {
      PairingsFrom(start, run, cooldown, id);
    }
  }

  lemma SuccessIs(start: State, run: seq<Step>, cooldown: int)
    requires Runs(start, run, cooldown)
    requires var s := After(start, run, cooldown);
             && s.phase.Finished? && Inv(s)
             && forall id :: RepliesHold(s, id, RepliesOf(start, run, cooldown, id))
    ensures var s := After(start, run, cooldown);
            s.phase.allOk <==>
            forall id <- s.asked ::
              && id !in s.phase.unverified
              && (Took(RepliesOf(start, run, cooldown, id)) || Refused(RepliesOf(start, run, cooldown, id)))
  {
    var s := After(start, run, cooldown);
    assert s.phase.allOk <==> Faulted(s.phase.results, s.phase.unverified) == {};
    forall id <- s.asked
      ensures id in Faulted(s.phase.results, s.phase.unverified) <==>
              !(&& id !in s.phase.unverified
                && (Took(RepliesOf(start, run, cooldown, id)) || Refused(RepliesOf(start, run, cooldown, id))))
    {
      assert RepliesHold(s, id, RepliesOf(start, run, cooldown, id));
    }
  }

  /** The outcome files after a finished cycle. A device whose file did not say ok before and does now,
      although no other process wrote that, was pushed to, took the push and is not unverified. Where no
      other process touches the file, it says ok for every such device, and never for one that is
      unverified or whose last reply is neither a delivery nor a 401. */
  lemma {:induction false} OutcomesOnFile(who: Collector, files: Files, run: seq<Step>, cooldown: int, id: string)
    requires UniqueIds(files.paired) && Runs(Initial(who, files), run, cooldown)
    requires After(Initial(who, files), run, cooldown).phase.Finished?
    ensures var start := Initial(who, files);
            var s, unverified := After(start, run, cooldown), After(start, run, cooldown).phase.unverified;
            var replies := RepliesOf(start, run, cooldown, id);
            && (SaysOk(s.files, id) && !SaysOk(files, id) && !OkByOthers(run, id) ==>
                  Took(replies) && id !in unverified)
            && (SafeId(id) && !TouchedByOthers(run, id) && replies != [] ==>
                  && (Took(replies) && id !in unverified ==> SaysOk(s.files, id))
                  && ((!Took(replies) && !Refused(replies)) || id in unverified ==> !SaysOk(s.files, id)))
  {
    var start := Initial(who, files);
    Reached(start, run, cooldown);
    RepliesFrom(start, run, cooldown, id, []);
    assert [] + RepliesOf(start, run, cooldown, id) == RepliesOf(start, run, cooldown, id);
    if !OkByOthers(run, id) {
      OkOnlyIfConfirmed(start, run, cooldown, id);
    }
    if SafeId(id) && !TouchedByOthers(run, id) {
      FilesFollowEntries(start, run, cooldown, id);
    }
    EnteredByReply(After(start, run, cooldown), id, RepliesOf(start, run, cooldown, id));
  }

  lemma EnteredByReply(s: State, id: string, replies: seq<Option<int>>)
    requires Inv(s) && s.phase.Finished? && RepliesHold(s, id, replies)
    ensures id in s.confirmed <==> Took(replies) && id !in s.phase.unverified
    ensures id in s.faulted <==> replies != [] && ((!Took(replies) && !Refused(replies)) || id in s.phase.unverified)
    ensures id in s.removed <==> Refused(replies) && id !in s.phase.unverified
  {
  }

  /** Another process adds the id during the run. */
  predicate AddedByOthers(run: seq<Step>, id: string) {
    exists step <- run :: step.Other? && step.op.Adds? && step.op.device.id == id
  }

  /** Another process drops the id, or the whole list, during the run. */
  predicate DroppedByOthers(run: seq<Step>, id: string) {
    exists step <- run :: step.Other? && (step.op.Clears? || (step.op.Removes? && step.op.id == id))
  }

  lemma {:induction false} PairingsFrom(s: State, run: seq<Step>, cooldown: int, id: string)
    requires Inv(s) && Runs(s, run, cooldown)
    ensures var t := After(s, run, cooldown);
            && s.removed <= t.removed
            && (id !in Paired(s.files) && !AddedByOthers(run, id) ==> id !in Paired(t.files))
            && (id in Paired(s.files) && !DroppedByOthers(run, id) && id !in t.removed ==> id in Paired(t.files))
            && (id in t.removed - s.removed && !AddedByOthers(run, id) ==> id !in Paired(t.files))
    decreases run
  {
    if run != [] {
      var next := Next(s, run[0], cooldown);
      NextKeeps(s, run[0], cooldown);
      if run[0].Other? {
        AppliedFacts(s.files, run[0].op, cooldown);
      } else {
        OwnStepFacts(s, run[0], cooldown);
      }
      PairingsFrom(next, run[1..], cooldown, id);
      assert run == [run[0]] + run[1..];
    }
  }

  /** Conservation of pairings at every point of every run: an id that no other process adds appears
      only if it was there at the start, and one that no other process drops is missing only if the
      cycle itself unpaired it; what the cycle unpaired stays unpaired until somebody pairs it anew. */
  lemma {:induction false} PairingsConserved(who: Collector, files: Files, run: seq<Step>, cooldown: int, id: string)
    requires UniqueIds(files.paired) && Runs(Initial(who, files), run, cooldown)
    ensures var s := After(Initial(who, files), run, cooldown);
            && UniqueIds(s.files.paired)
            && (id in Paired(s.files) && !AddedByOthers(run, id) ==> id in Paired(files) && id !in s.removed)
            && (id in Paired(files) && !DroppedByOthers(run, id) && id !in s.removed ==> id in Paired(s.files))
  {
    Reached(Initial(who, files), run, cooldown);
    PairingsFrom(Initial(who, files), run, cooldown, id);
  }
}
