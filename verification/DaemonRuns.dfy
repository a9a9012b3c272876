/** Whole runs of the daemon: when a device is shown as failing and when as healthy again. */
module DaemonRuns {
  import opened Decimals
  import opened CursorSpec
  import opened HostCache
  import opened Fanout
  import opened Divergence
  import opened CodexDaemon

  /** The states of a run from a fresh start, on whatever files, and what led from each to the next. */
  ghost predicate Trace(states: seq<Mind>, hs: seq<Happening>) {
    && |states| == |hs| + 1
    && states[0].push == map[] && states[0].health == map[] && states[0].baseline.None?
    && forall i :: 0 <= i < |hs| ==> Leads(states[i], hs[i], states[i + 1])
  }

  // ------------------------------------------------------ missed probes

  /** A confirmed contact with the device, or its eviction: a healthy probe, a delivered push or an
      attributable 401 to a push. */
  predicate Clears(h: Happening, id: string) {
    || (h.Healthy? && h.id == id)
    || (h.FannedOut? && id in h.results && id !in h.unverified && !h.results[id].Transport?)
  }

  function MissCount(hs: seq<Happening>, id: string): nat {
    if hs == [] then 0
    else MissCount(hs[..|hs| - 1], id) + if hs[|hs| - 1] == Miss(id) then 1 else 0
  }

  /** There are n misses at the end with no contact and no eviction among them. */
  ghost predicate MissesInARow(hs: seq<Happening>, id: string, n: nat) {
    exists k :: 0 <= k <= |hs| && MissCount(hs[k..], id) >= n && Uncleared(hs[k..], id)
  }

  ghost predicate Uncleared(hs: seq<Happening>, id: string) {
    forall h <- hs :: !Clears(h, id)
  }

  function Streak(hs: seq<Happening>, id: string): nat {
    if hs == [] then 0
    else
      var before, h := Streak(hs[..|hs| - 1], id), hs[|hs| - 1];
      if h == Miss(id) then before + 1 else if Clears(h, id) then 0 else before
  }

  lemma TracePrefix(states: seq<Mind>, hs: seq<Happening>, n: nat)
    requires Trace(states, hs) && n <= |hs|
    ensures Trace(states[..n + 1], hs[..n])
  {
  }

  lemma {:induction false} HealthCountIsStreak(states: seq<Mind>, hs: seq<Happening>, id: string)
    requires Trace(states, hs)
    ensures CountOf(states[|hs|].health, id) == Streak(hs, id)
    decreases hs
  {
    if hs != [] {
      var n := |hs| - 1;
      TracePrefix(states, hs, n);
      HealthCountIsStreak(states[..n + 1], hs[..n], id);
      assert Leads(states[n], hs[n], states[n + 1]);
    }
  }

  /** Where the last streak begins: after the last contact or eviction. */
  function StreakStart(hs: seq<Happening>, id: string): (k: nat)
    ensures k <= |hs|
  {
    if hs == [] then 0 else if Clears(hs[|hs| - 1], id) then |hs| else StreakStart(hs[..|hs| - 1], id)
  }

  lemma SuffixSnoc(hs: seq<Happening>, id: string, k: nat)
    requires k < |hs|
    ensures hs[k..][..|hs[k..]| - 1] == hs[..|hs| - 1][k..] && hs[k..][|hs[k..]| - 1] == hs[|hs| - 1]
    ensures Uncleared(hs[k..], id) <==> Uncleared(hs[..|hs| - 1][k..], id) && !Clears(hs[|hs| - 1], id)
  {
    assert hs[k..] == hs[..|hs| - 1][k..] + [hs[|hs| - 1]];
  }

  lemma {:induction false} StreakIsThere(hs: seq<Happening>, id: string)
    ensures MissCount(hs[StreakStart(hs, id)..], id) == Streak(hs, id)
    ensures Uncleared(hs[StreakStart(hs, id)..], id)
    decreases hs
  {
    if hs != [] && !Clears(hs[|hs| - 1], id) {
      var before := hs[..|hs| - 1];
      StreakIsThere(before, id);
      SuffixSnoc(hs, id, StreakStart(before, id));
    }
  }

  lemma {:induction false} StreakIsLongest(hs: seq<Happening>, id: string, k: nat)
    requires k <= |hs| && Uncleared(hs[k..], id)
    ensures MissCount(hs[k..], id) <= Streak(hs, id)
    decreases hs
  {
    if k < |hs| {
      SuffixSnoc(hs, id, k);
      StreakIsLongest(hs[..|hs| - 1], id, k);
    }
  }

  lemma StreakCounts(hs: seq<Happening>, id: string, n: nat)
    ensures Streak(hs, id) >= n <==> MissesInARow(hs, id, n)
  {
    StreakIsThere(hs, id);
    if k :| 0 <= k <= |hs| && MissCount(hs[k..], id) >= n && Uncleared(hs[k..], id) {
      StreakIsLongest(hs, id, k);
    }
  }

  /** At any point of any run: a missed probe turns a device that is shown as ok into a failing one
      exactly when at least five misses, this one included, have come since the last confirmed contact or
      eviction. It changes no other device. */
  lemma {:induction false} UnhealthyAfterFive(states: seq<Mind>, hs: seq<Happening>, id: string)
    requires Trace(states, hs) && hs != [] && hs[|hs| - 1] == Miss(id)
    requires SafeId(id) && SaysOk(states[|hs| - 1].files, id)
    ensures !SaysOk(states[|hs|].files, id) <==> MissesInARow(hs, id, 5)
    ensures forall other :: other != id ==>
              (SaysOk(states[|hs|].files, other) <==> SaysOk(states[|hs| - 1].files, other))
  {
    var n := |hs| - 1;
    TracePrefix(states, hs, n);
    HealthCountIsStreak(states[..n + 1], hs[..n], id);
    StreakCounts(hs, id, 5);
    assert Leads(states[n], hs[n], states[n + 1]);
  }

  // ----------------------------------------------------- healthy probes

  /** The snapshot of the last fan-out that some device took and is known to have taken. */
  function LastDelivered(hs: seq<Happening>): Option<Snapshot> {
    if hs == [] then None
    else
      var h := hs[|hs| - 1];
      if h.FannedOut? && Confirmed(h.results, h.unverified) != {} then Some(h.snapshot)
      else LastDelivered(hs[..|hs| - 1])
  }

  /** A push to the device failed or could not be attributed. */
  predicate FailsPush(h: Happening, id: string) {
    h.FannedOut? && id in h.results && (h.results[id].Transport? || id in h.unverified)
  }

  /** A push reached the device, or evicted it. */
  predicate SettlesPush(h: Happening, id: string) {
    h.FannedOut? && id in h.results && !FailsPush(h, id)
  }

  /** A push to the device failed and none has reached or evicted it since. */
  ghost predicate Undelivered(hs: seq<Happening>, id: string) {
    exists k :: 0 <= k < |hs| && FailsPush(hs[k], id) && forall j :: k < j < |hs| ==> !SettlesPush(hs[j], id)
  }

  lemma UndeliveredSnoc(hs: seq<Happening>, id: string)
    requires hs != []
    ensures var before, h := hs[..|hs| - 1], hs[|hs| - 1];
            Undelivered(hs, id) <==> FailsPush(h, id) || (Undelivered(before, id) && !SettlesPush(h, id))
  {
    var before, h := hs[..|hs| - 1], hs[|hs| - 1];
    if k :| 0 <= k < |before| && FailsPush(before[k], id)
            && forall j :: k < j < |before| ==> !SettlesPush(before[j], id) {
      if !SettlesPush(h, id) {
        assert FailsPush(hs[k], id);
        forall j | k < j < |hs| ensures !SettlesPush(hs[j], id) {
          assert j < |before| ==> hs[j] == before[j];
        }
      }
    }
    if k :| 0 <= k < |hs| && FailsPush(hs[k], id) && forall j :: k < j < |hs| ==> !SettlesPush(hs[j], id) {
      if k < |before| {
        assert FailsPush(before[k], id) && !SettlesPush(hs[|hs| - 1], id);
        forall j | k < j < |before| ensures !SettlesPush(before[j], id) {
          assert before[j] == hs[j];
        }
      }
    }
  }

  lemma {:induction false} PushCountIsUndelivered(states: seq<Mind>, hs: seq<Happening>, id: string)
    requires Trace(states, hs)
    ensures CountOf(states[|hs|].push, id) > 0 <==> Undelivered(hs, id)
    ensures states[|hs|].baseline == LastDelivered(hs)
    decreases hs
  {
    if hs != [] {
      var n := |hs| - 1;
      TracePrefix(states, hs, n);
      PushCountIsUndelivered(states[..n + 1], hs[..n], id);
      UndeliveredSnoc(hs, id);
      assert Leads(states[n], hs[n], states[n + 1]);
    }
  }

  /** At any point of any run: a healthy probe turns a device that is not shown as ok into one that is
      exactly when some push was delivered before, the document matches the snapshot delivered last, and no push
      to this device is undelivered. */
  lemma {:induction false} HealthyAgain(states: seq<Mind>, hs: seq<Happening>, id: string, body: map<string, Py>)
    requires Trace(states, hs) && hs != [] && hs[|hs| - 1] == Healthy(id, body)
    requires SafeId(id) && !SaysOk(states[|hs| - 1].files, id)
    ensures var before := hs[..|hs| - 1];
            SaysOk(states[|hs|].files, id) <==>
            && LastDelivered(before).Some?
            && !FirmwareDiverged(body, LastDelivered(before).value)
            && !Undelivered(before, id)
  {
    var n := |hs| - 1;
    TracePrefix(states, hs, n);
    PushCountIsUndelivered(states[..n + 1], hs[..n], id);
    assert Leads(states[n], hs[n], states[n + 1]);
  }

  // ------------------------------------------------- outcomes at once

  /** At any point of any run: a fan-out leaves a device shown as ok exactly when it took the push and is not
      unverified, a condemned device is not shown as ok, and neither touches any other device. */
  lemma {:induction false} ShownAtOnce(states: seq<Mind>, hs: seq<Happening>, id: string)
    requires Trace(states, hs) && hs != [] && SafeId(id)
    ensures var h, was, now := hs[|hs| - 1], states[|hs| - 1].files, states[|hs|].files;
            && (h.FannedOut? ==>
                  if id in h.results then SaysOk(now, id) <==> h.results[id].Delivered? && id !in h.unverified
                  else SaysOk(now, id) <==> SaysOk(was, id))
            && (h.Condemned? ==> if id == h.id then !SaysOk(now, id) else SaysOk(now, id) <==> SaysOk(was, id))
  {
    var n := |hs| - 1;
    assert Leads(states[n], hs[n], states[n + 1]);
    if hs[n].FannedOut? {
      OkIsPushed(states[n].files, id);
      OkIsPushed(states[n + 1].files, id);
    }
  }

  lemma OkIsPushed(f: Files, id: string)
    ensures SaysOk(f, id) <==> PushOf(f, id).Some? && PushOf(f, id).value.ok
  {
  }
}
