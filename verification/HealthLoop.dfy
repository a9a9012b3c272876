/** The daemon's check before a re-bind: a 401 at a cached host may come from another display, so
    the host is confirmed by a browse first. */
module HealthLoop {
  import opened Decimals
  import opened HostCache

  /** A device whose host the browse confirmed, with the files it leaves. A host that moved is written
      only while the device is still paired. */
  function Confirmed(f: Files, device: Device, eligible: set<string>, hosts: map<string, string>)
    : (Files, Option<Device>)
  {
    if device.id !in eligible || device.id !in hosts then (f, None)
    else if hosts[device.id] == device.host then (f, Some(device))
    else
      var (g, present) := UpdateIn(f, device.id, hosts[device.id]);
      (g, if present then Some(Device(device.id, hosts[device.id])) else None)
  }

  // ------------------------------------------------ among other processes

  /** The check as steps: the claim, the browse, then one device after the other. */
  datatype Phase =
    | Asking
    | Browsing(eligible: set<string>)
    | Confirming(eligible: set<string>, hosts: map<string, string>, todo: seq<Device>, verified: seq<Device>)
    | Settled(eligible: set<string>, hosts: map<string, string>, verified: seq<Device>)

  datatype State = State(files: Files, phase: Phase)

  datatype Step =
    | Other(op: FileOp)
    | Ask(now: int)
    | Browse(found: Found)
    | Check
    | Settle

  predicate Allowed(s: State, step: Step) {
    match step
    case Other(op) => (op.Adds? ==> op.device.host != "") && (op.Updates? ==> op.host != "")
    case Ask(_) => s.phase.Asking?
    case Browse(found) => s.phase.Browsing? && HostsGiven(found)
    case Check => s.phase.Confirming? && s.phase.todo != []
    case Settle => s.phase.Confirming? && s.phase.todo == []
  }

  function Next(s: State, step: Step, rebind: seq<Device>, cooldown: int): State
    requires Allowed(s, step)
  {
    match step
    case Other(op) => s.(files := Applied(s.files, op, cooldown))
    case Ask(now) =>
      var (files, eligible) := ClaimIn(s.files, Ids(rebind), now, cooldown);
      State(files, if eligible == {} then Settled({}, map[], []) else Browsing(eligible))
    case Browse(None) => s.(phase := Settled({}, map[], []))
    case Browse(Some(hosts)) => s.(phase := Confirming(s.phase.eligible, hosts, rebind, []))
    case Check =>
      var (files, one) := Confirmed(s.files, s.phase.todo[0], s.phase.eligible, s.phase.hosts);
      State(files, Confirming(s.phase.eligible, s.phase.hosts, s.phase.todo[1..],
                              if one.Some? then s.phase.verified + [one.value] else s.phase.verified))
    case Settle => s.(phase := Settled(s.phase.eligible, s.phase.hosts, s.phase.verified))
  }

  predicate Runs(s: State, run: seq<Step>, rebind: seq<Device>, cooldown: int)
    decreases run
  {
    run == [] || (Allowed(s, run[0]) && Runs(Next(s, run[0], rebind, cooldown), run[1..], rebind, cooldown))
  }

  function After(s: State, run: seq<Step>, rebind: seq<Device>, cooldown: int): State
    requires Runs(s, run, rebind, cooldown)
    decreases run
  {
    if run == [] then s else After(Next(s, run[0], rebind, cooldown), run[1..], rebind, cooldown)
  }

  /** The devices confirmed so far. */
  function VerifiedSoFar(s: State): seq<Device> {
    if s.phase.Confirming? || s.phase.Settled? then s.phase.verified else []
  }

  predicate Inv(s: State, rebind: seq<Device>) {
    && UniqueIds(s.files.paired)
    && (forall d <- VerifiedSoFar(s) :: d.id in Ids(rebind))
    && (s.phase.Confirming? ==> HostsGiven(Some(s.phase.hosts)) && forall d <- s.phase.todo :: d in rebind)
    && (s.phase.Confirming? || s.phase.Settled? ==>
          forall d <- s.phase.verified ::
            d.id in s.phase.eligible && d.id in s.phase.hosts && d.host == s.phase.hosts[d.id])
  }

  predicate AddedByOthers(run: seq<Step>, id: string) {
    exists step <- run :: step.Other? && step.op.Adds? && step.op.device.id == id
  }

  predicate DroppedByOthers(run: seq<Step>, id: string) {
    exists step <- run :: step.Other? && (step.op.Clears? || (step.op.Removes? && step.op.id == id))
  }

  /** A step of the check itself changes no pairing, and verifies a device at another host than it
      asked for only while the device is paired. */
  lemma OwnStep(s: State, step: Step, rebind: seq<Device>, cooldown: int)
    requires Inv(s, rebind) && Allowed(s, step) && !step.Other?
    ensures var t := Next(s, step, rebind, cooldown);
            && UniqueIds(t.files.paired) && Paired(t.files) == Paired(s.files)
            && forall d <- VerifiedSoFar(t) :: d in VerifiedSoFar(s) || d in rebind || d.id in Paired(s.files)
  {
    if step.Check? {
      var d := s.phase.todo[0];
      if d.id in s.phase.hosts {
        UpdateFacts(s.files, d.id, s.phase.hosts[d.id]);
      }
    }
  }

  lemma NextKeeps(s: State, step: Step, rebind: seq<Device>, cooldown: int)
    requires Inv(s, rebind) && Allowed(s, step)
    ensures Inv(Next(s, step, rebind, cooldown), rebind)
  {
    if step.Other? {
      AppliedFacts(s.files, step.op, cooldown);
    } else {
      OwnStep(s, step, rebind, cooldown);
      if step.Check? {
        assert s.phase.todo[0] in s.phase.todo;
      }
    }
  }

  lemma {:induction false} Reached(s: State, run: seq<Step>, rebind: seq<Device>, cooldown: int)
    requires Inv(s, rebind) && Runs(s, run, rebind, cooldown)
    ensures Inv(After(s, run, rebind, cooldown), rebind)
    decreases run
  {
    if run != [] {
      NextKeeps(s, run[0], rebind, cooldown);
      Reached(Next(s, run[0], rebind, cooldown), run[1..], rebind, cooldown);
    }
  }

  /** From any moment at which a device is not paired and no other process pairs it anew: it stays unpaired,
      and it is verified from then on at most at the host it asked for. */
  lemma {:induction false} NotResurrected(s: State, run: seq<Step>, rebind: seq<Device>, cooldown: int, id: string)
    requires Inv(s, rebind) && Runs(s, run, rebind, cooldown)
    ensures var t := After(s, run, rebind, cooldown);
            && (id !in Paired(s.files) && !AddedByOthers(run, id) ==>
                  && id !in Paired(t.files)
                  && forall d <- VerifiedSoFar(t) :: d.id == id ==> d in VerifiedSoFar(s) || d in rebind)
            && (id in Paired(s.files) && !DroppedByOthers(run, id) ==> id in Paired(t.files))
    decreases run
  {
    if run != [] {
      var next := Next(s, run[0], rebind, cooldown);
      NextKeeps(s, run[0], rebind, cooldown);
      if run[0].Other? {
        AppliedFacts(s.files, run[0].op, cooldown);
      } else {
        OwnStep(s, run[0], rebind, cooldown);
      }
      assert run == [run[0]] + run[1..];
      NotResurrected(next, run[1..], rebind, cooldown, id);
    }
  }

  /** Among other processes, at every point: each verified device asked for a re-bind, was due, and
      stands at exactly the host the browse showed for it. The check itself inserts and drops no
      pairing, and a device that is unpaired during the browse, and not paired anew, is not
      re-bound at another host than it asked for. */
  lemma {:induction false} RebindsAreConfirmed(files: Files, before: seq<Step>, more: seq<Step>, rebind: seq<Device>,
                                               cooldown: int, id: string)
    requires UniqueIds(files.paired) && Runs(State(files, Asking), before, rebind, cooldown)
    requires Runs(After(State(files, Asking), before, rebind, cooldown), more, rebind, cooldown)
    ensures var mid := After(State(files, Asking), before, rebind, cooldown);
            var end := After(mid, more, rebind, cooldown);
            && (end.phase.Confirming? || end.phase.Settled? ==>
                  forall d <- end.phase.verified ::
                    && d.id in Ids(rebind) && d.id in end.phase.eligible
                    && d.id in end.phase.hosts && d.host == end.phase.hosts[d.id])
            && (id in Paired(mid.files) && !DroppedByOthers(more, id) ==> id in Paired(end.files))
            && (id !in Paired(mid.files) && !AddedByOthers(more, id) ==> id !in Paired(end.files))
            && (mid.phase.Browsing? && id !in Paired(mid.files) && !AddedByOthers(more, id) ==>
                  forall d <- VerifiedSoFar(end) :: d.id == id ==> d in rebind)
  {
    var mid := After(State(files, Asking), before, rebind, cooldown);
    Reached(State(files, Asking), before, rebind, cooldown);
    Reached(mid, more, rebind, cooldown);
    NotResurrected(mid, more, rebind, cooldown, id);
  }

  // -------------------------------------------------- what is verified

  /** The claim asks for every device to re-bind and is granted those whose id is safe and whose cooldown is over. */
  lemma AskExactly(s: State, now: int, rebind: seq<Device>, cooldown: int)
    requires Allowed(s, Ask(now))
    ensures var t := Next(s, Ask(now), rebind, cooldown);
            var granted := set d <- rebind | SafeId(d.id)
                               && (d.id !in s.files.claims || now - s.files.claims[d.id] >= cooldown) :: d.id;
            t.phase == if granted == {} then Settled({}, map[], []) else Browsing(granted)
  {
    var granted := set d <- rebind | SafeId(d.id)
                       && (d.id !in s.files.claims || now - s.files.claims[d.id] >= cooldown) :: d.id;
    assert ClaimIn(s.files, Ids(rebind), now, cooldown).1 == granted;
  }

  /** The device was granted and seen, at the host it asked for or, while paired, at any. */
  predicate Earns(d: Device, id: string, eligible: set<string>, hosts: map<string, string>, paired: bool) {
    d.id == id && id in eligible && id in hosts && (hosts[id] == d.host || paired)
  }

  predicate SomeEarns(devices: seq<Device>, id: string, eligible: set<string>, hosts: map<string, string>, paired: bool)
  {
    exists d <- devices :: Earns(d, id, eligible, hosts, paired)
  }

  /** Of the devices checked so far, those that earned it are verified; the others wait in order. */
  predicate ChecksHold(s: State, rebind: seq<Device>, id: string) {
    match s.phase
    case Confirming(eligible, hosts, todo, verified) =>
      && |todo| <= |rebind| && todo == rebind[|rebind| - |todo|..]
      && (id in hosts ==>
            (Device(id, hosts[id]) in verified <==>
             SomeEarns(rebind[..|rebind| - |todo|], id, eligible, hosts, id in Paired(s.files))))
    case Settled(eligible, hosts, verified) =>
      id in hosts ==>
        (Device(id, hosts[id]) in verified <==> SomeEarns(rebind, id, eligible, hosts, id in Paired(s.files)))
    case _ => true
  }

  /** One check verifies the device exactly when it earns it, and moves its record exactly when the browse
      shows a paired device elsewhere. */
  lemma CheckExactly(s: State, rebind: seq<Device>, cooldown: int)
    requires Inv(s, rebind) && Allowed(s, Check)
    ensures var t, d, hosts := Next(s, Check, rebind, cooldown), s.phase.todo[0], s.phase.hosts;
            var earned := Earns(d, d.id, s.phase.eligible, hosts, d.id in Paired(s.files));
            && t.phase.verified == s.phase.verified + (if earned then [Device(d.id, hosts[d.id])] else [])
            && (earned && hosts[d.id] != d.host ==> Device(d.id, hosts[d.id]) in Loaded(t.files.paired))
            && (!earned || hosts[d.id] == d.host ==> t.files == s.files)
  {
    var d := s.phase.todo[0];
    if d.id in s.phase.hosts {
      UpdateFacts(s.files, d.id, s.phase.hosts[d.id]);
    }
  }

  lemma EarnsSnoc(before: seq<Device>, d: Device, id: string, eligible: set<string>, hosts: map<string, string>,
                  paired: bool)
    ensures SomeEarns(before + [d], id, eligible, hosts, paired)
        <==> SomeEarns(before, id, eligible, hosts, paired) || Earns(d, id, eligible, hosts, paired)
  {
    assert forall e <- before :: e in before + [d];
    assert d in before + [d];
  }

  lemma ChecksNext(s: State, step: Step, rebind: seq<Device>, cooldown: int, id: string)
    requires Inv(s, rebind) && Allowed(s, step) && ChecksHold(s, rebind, id)
    requires id in Paired(Next(s, step, rebind, cooldown).files) <==> id in Paired(s.files)
    ensures ChecksHold(Next(s, step, rebind, cooldown), rebind, id)
  {
    match step
    case Check =>
      var n := |rebind| - |s.phase.todo|;
      CheckExactly(s, rebind, cooldown);
      EarnsSnoc(rebind[..n], rebind[n], id, s.phase.eligible, s.phase.hosts, id in Paired(s.files));
      assert rebind[..n + 1] == rebind[..n] + [rebind[n]] && rebind[n..][1..] == rebind[n + 1..];
    case Settle => assert rebind[..|rebind|] == rebind;
    case Browse(_) => assert rebind[0..] == rebind;
    case _ =>
  }

  lemma {:induction false} ChecksFrom(s: State, run: seq<Step>, rebind: seq<Device>, cooldown: int, id: string)
    requires Inv(s, rebind) && Runs(s, run, rebind, cooldown) && ChecksHold(s, rebind, id)
    requires !AddedByOthers(run, id) && !DroppedByOthers(run, id)
    ensures ChecksHold(After(s, run, rebind, cooldown), rebind, id)
    ensures id in Paired(After(s, run, rebind, cooldown).files) <==> id in Paired(s.files)
    decreases run
  {
    if run != [] {
      var next := Next(s, run[0], rebind, cooldown);
      NextKeeps(s, run[0], rebind, cooldown);
      assert run == [run[0]] + run[1..];
      if run[0].Other? {
        AppliedFacts(s.files, run[0].op, cooldown);
      } else {
        OwnStep(s, run[0], rebind, cooldown);
      }
      ChecksNext(s, run[0], rebind, cooldown, id);
      ChecksFrom(next, run[1..], rebind, cooldown, id);
    }
  }

  /** When the check is over and no other process paired or unpaired the device meanwhile: it is verified at the
      host the browse showed exactly when it was granted and either asked for that host or is paired. */
  lemma {:induction false} VerifiedExactly(files: Files, run: seq<Step>, rebind: seq<Device>, cooldown: int, id: string)
    requires UniqueIds(files.paired) && Runs(State(files, Asking), run, rebind, cooldown)
    requires !AddedByOthers(run, id) && !DroppedByOthers(run, id)
    requires After(State(files, Asking), run, rebind, cooldown).phase.Settled?
    ensures var s := After(State(files, Asking), run, rebind, cooldown);
            var hosts := s.phase.hosts;
            id in hosts ==>
              (Device(id, hosts[id]) in s.phase.verified <==>
               exists d <- rebind ::
                 d.id == id && id in s.phase.eligible && (hosts[id] == d.host || id in Paired(files)))
  {
    ChecksFrom(State(files, Asking), run, rebind, cooldown, id);
    var s := After(State(files, Asking), run, rebind, cooldown);
    if id in s.phase.hosts {
      assert SomeEarns(rebind, id, s.phase.eligible, s.phase.hosts, id in Paired(files)) <==>
          exists d <- rebind ::
            d.id == id && id in s.phase.eligible && (s.phase.hosts[id] == d.host || id in Paired(files)) by {
        forall d <- rebind
          ensures Earns(d, id, s.phase.eligible, s.phase.hosts, id in Paired(files)) <==>
                    d.id == id && id in s.phase.eligible && (s.phase.hosts[id] == d.host || id in Paired(files))
        {
        }
      }
    }
  }

  // ------------------------------------------------------ the program

  lemma {:induction false} Extended(s: State, run: seq<Step>, step: Step, rebind: seq<Device>, cooldown: int)
    requires Runs(s, run, rebind, cooldown) && Allowed(After(s, run, rebind, cooldown), step)
    ensures Runs(s, run + [step], rebind, cooldown)
    ensures After(s, run + [step], rebind, cooldown) == Next(After(s, run, rebind, cooldown), step, rebind, cooldown)
    decreases run
  {
    if run != [] {
      Extended(Next(s, run[0], rebind, cooldown), run[1..], step, rebind, cooldown);
      assert (run + [step])[1..] == run[1..] + [step];
    }
  }

  /** A step of the check itself, at this time and with this outcome of the browse. */
  predicate StepOf(step: Step, now: int, hosts: Found) {
    !step.Other? && (step.Ask? ==> step.now == now) && (step.Browse? ==> step.found == hosts)
  }

  /** The devices to re-bind, each at its confirmed host: a run of the steps with no other process.
      `hosts` is the outcome of the browse. */
  method VerifyRebindHosts(files: AgentFiles, rebind: seq<Device>, hosts: Found, now: int, cooldown: int)
    returns (verified: seq<Device>, ghost run: seq<Step>)
    requires HostsGiven(hosts)
    modifies files
    ensures Runs(State(old(files.View()), Asking), run, rebind, cooldown)
    ensures var s := After(State(old(files.View()), Asking), run, rebind, cooldown);
            s.files == files.View() && s.phase.Settled? && s.phase.verified == verified
    ensures forall step <- run :: StepOf(step, now, hosts)
  {
    ghost var start := State(files.View(), Asking);
    run, verified := [Ask(now)], [];
    assert run[1..] == [];
    var eligible := ClaimIds(files, rebind, now, cooldown);
    if eligible == {} {
      return;
    }
    Extended(start, run, Browse(hosts), rebind, cooldown);
    run := run + [Browse(hosts)];
    if hosts.None? {
      return;
    }
    var i := 0;
    assert rebind[0..] == rebind;
    while i < |rebind|
      invariant i <= |rebind|
      invariant Runs(start, run, rebind, cooldown) && forall step <- run :: StepOf(step, now, hosts)
      invariant After(start, run, rebind, cooldown)
             == State(files.View(), Confirming(eligible, hosts.value, rebind[i..], verified))
    {
      var d := rebind[i];
      Extended(start, run, Check, rebind, cooldown);
      run := run + [Check];
      assert rebind[i..][1..] == rebind[i + 1..];
      if d.id in eligible && d.id in hosts.value {
        if hosts.value[d.id] == d.host {
          verified := verified + [d];
        } else {
          var present := files.UpdateHost(d.id, hosts.value[d.id]);
          if present {
            verified := verified + [Device(d.id, hosts.value[d.id])];
          }
        }
      }
      i := i + 1;
    }
    assert rebind[i..] == [];
    Extended(start, run, Settle, rebind, cooldown);
    run := run + [Settle];
  }

  method ClaimIds(files: AgentFiles, rebind: seq<Device>, now: int, cooldown: int) returns (eligible: set<string>)
    modifies files
    ensures (files.View(), eligible) == ClaimIn(old(files.View()), Ids(rebind), now, cooldown)
  {
    var ids := seq(|rebind|, i requires 0 <= i < |rebind| => rebind[i].id);
    assert Elements(ids) == Ids(rebind) by {
      forall d <- rebind ensures d.id in ids {
        var k :| 0 <= k < |rebind| && rebind[k] == d;
        assert ids[k] == d.id;
      }
    }
    eligible := files.Claim(ids, now, cooldown);
  }
}
