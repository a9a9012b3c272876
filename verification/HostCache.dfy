/** One agent's state files: paired devices, browse cooldowns and per-device push outcomes.

    Every operation below is one critical section under the agent's file lock. Times are
    whole units of the clock. */
module HostCache {
  import opened Decimals

  const MAX_DEVICE_ID_LEN := 64

  datatype Device = Device(id: string, host: string)

  predicate IdChar(c: char) {
    'A' <= c <= 'Z' || 'a' <= c <= 'z' || '0' <= c <= '9' || c == '.' || c == '_' || c == '-'
  }

  predicate IdText(s: string) {
    s != "" && forall c <- s :: IdChar(c)
  }

  /** The allowlist as it is matched: `$` also matches in front of one final line feed. */
  predicate SafeId(s: string) {
    && 0 < |s| <= MAX_DEVICE_ID_LEN
    && (IdText(s) || (s[|s| - 1] == '\n' && IdText(s[..|s| - 1])))
  }

  /** Letters, digits, point, underscore and hyphen, by their codes. */
  predicate IdCode(n: int) {
    65 <= n <= 90 || 97 <= n <= 122 || 48 <= n <= 57 || n == 46 || n == 95 || n == 45
  }

  /** s is the text t of such codes, or t and one line feed. */
  predicate Matches(s: string, t: string) {
    t != "" && (s == t || s == t + "\n") && forall c <- t :: IdCode(c as int)
  }

  /** The safe ids are the texts of at most 64 bytes that match. */
  lemma SafeIdIs(s: string)
    ensures SafeId(s) <==> |s| <= 64 && exists t :: Matches(s, t)
  {
    if SafeId(s) {
      var t := if IdText(s) then s else s[..|s| - 1];
      assert s == t || s == t + "\n";
      assert forall c <- t :: IdChar(c) && IdCode(c as int);
      assert Matches(s, t);
    }
    if t :| Matches(s, t) {
      forall c <- t ensures IdChar(c) {
        assert IdCode(c as int);
      }
      if s != t {
        assert s[|s| - 1] == '\n' && s[..|s| - 1] == t;
      }
    }
  }

  // ---------------------------------------------------- paired devices

  /** What a load keeps of the file's records. */
  function Loaded(file: seq<Device>): seq<Device> {
    if file == [] then []
    else (if SafeId(file[0].id) && file[0].host != "" then [file[0]] else []) + Loaded(file[1..])
  }

  function Without(devices: seq<Device>, id: string): (r: seq<Device>)
    ensures |r| <= |devices|
    ensures |r| == |devices| ==> r == devices
    ensures forall d :: d in r <==> d in devices && d.id != id
  {
    if devices == [] then []
    else (if devices[0].id != id then [devices[0]] else []) + Without(devices[1..], id)
  }

  /** The first record of the id gets the host; nothing is inserted. */
  function Rehosted(devices: seq<Device>, id: string, host: string): seq<Device> {
    if devices == [] then []
    else if devices[0].id == id then [Device(id, host)] + devices[1..]
    else [devices[0]] + Rehosted(devices[1..], id, host)
  }

  predicate HasId(devices: seq<Device>, id: string) {
    exists d <- devices :: d.id == id
  }

  function Elements(ids: seq<string>): set<string> {
    set id <- ids
  }

  function Ids(devices: seq<Device>): set<string> {
    set d <- devices :: d.id
  }

  predicate UniqueIds(devices: seq<Device>) {
    forall i, j :: 0 <= i < j < |devices| ==> devices[i].id != devices[j].id
  }

  // --------------------------------------------------------- cooldowns

  predicate Due(claims: map<string, int>, id: string, now: int, cooldown: int) {
    id !in claims || now - claims[id] >= cooldown
  }

  function Grants(claims: map<string, int>, requested: set<string>, now: int, cooldown: int): set<string> {
    set id <- requested | SafeId(id) && Due(claims, id, now, cooldown)
  }

  function Granted(claims: map<string, int>, granted: set<string>, now: int): map<string, int> {
    map id <- claims.Keys + granted :: if id in granted then now else claims[id]
  }

  // -------------------------------------------------------- operations

  datatype PushState = PushState(ok: bool, failures: nat)

  datatype Files = Files(paired: seq<Device>, claims: map<string, int>, pushes: map<string, PushState>)

  function AddTo(f: Files, device: Device): Files {
    if SafeId(device.id) then f.(paired := Without(Loaded(f.paired), device.id) + [device]) else f
  }

  /** The files after an update of a host, and whether the device was there. */
  function UpdateIn(f: Files, id: string, host: string): (Files, bool) {
    if !SafeId(id) || !HasId(Loaded(f.paired), id) then (f, false)
    else if Rehosted(Loaded(f.paired), id, host) == Loaded(f.paired) then (f, true)
    else (f.(paired := Rehosted(Loaded(f.paired), id, host)), true)
  }

  function RemoveFrom(f: Files, id: string): Files {
    if HasId(Loaded(f.paired), id) then f.(paired := Without(Loaded(f.paired), id), pushes := f.pushes - {id}) else f
  }

  function ClaimIn(f: Files, requested: set<string>, now: int, cooldown: int): (Files, set<string>) {
    var granted := Grants(f.claims, requested, now, cooldown);
    (f.(claims := Granted(f.claims, granted, now)), granted)
  }

  function WrittenPush(f: Files, id: string, state: PushState): Files {
    if SafeId(id) then f.(pushes := f.pushes[id := state]) else f
  }

  function FailuresOf(f: Files, id: string): nat {
    if id in f.pushes then f.pushes[id].failures else 0
  }

  /** The device's outcome file says ok. */
  predicate SaysOk(f: Files, id: string) {
    id in f.pushes && f.pushes[id].ok
  }

  // ---------------------------------------------------------- program

  class AgentFiles {
    var paired: seq<Device>
    var claims: map<string, int>
    var pushes: map<string, PushState>

    function View(): Files
      reads this
    {
      Files(paired, claims, pushes)
    }

    constructor ()
      ensures View() == Files([], map[], map[])
    {
      paired, claims, pushes := [], map[], map[];
    }

    method Add(device: Device)
      modifies this
      ensures View() == AddTo(old(View()), device)
    {
      if !SafeId(device.id) {
        return;
      }
      var existing := Loaded(paired);
      paired := Without(existing, device.id) + [device];
    }

    method UpdateHost(id: string, host: string) returns (present: bool)
      modifies this
      ensures (View(), present) == UpdateIn(old(View()), id, host)
    {
      if !SafeId(id) {
        return false;
      }
      var existing := Loaded(paired);
      var i := 0;
      while i < |existing|
        invariant i <= |existing|
        invariant forall k :: 0 <= k < i ==> existing[k].id != id
      {
        if existing[i].id == id {
          assert existing[i] in existing;
          RehostedAt(existing, id, host, i);
          if existing[i].host == host {
            assert existing[i := Device(id, host)] == existing;
            return true;
          }
          assert existing[i := Device(id, host)][i] != existing[i];
          paired := existing[i := Device(id, host)];
          return true;
        }
        i := i + 1;
      }
      present := false;
    }

    method Remove(id: string)
      modifies this
      ensures View() == RemoveFrom(old(View()), id)
    {
      LoadedFacts(paired);
      var existing := Loaded(paired);
      var filtered := Without(existing, id);
      WithoutShorter(existing, id);
      if |filtered| == |existing| {
        return;
      }
      paired := filtered;
      if SafeId(id) {
        pushes := pushes - {id};
      }
    }

    /** Filters the requested ids to those whose cooldown is over and stamps them. */
    method Claim(deviceIds: seq<string>, now: int, cooldown: int) returns (eligible: set<string>)
      modifies this
      ensures (View(), eligible) == ClaimIn(old(View()), Elements(deviceIds), now, cooldown)
    {
      eligible := {};
      var i := 0;
      while i < |deviceIds|
        invariant i <= |deviceIds|
        invariant eligible == Grants(old(claims), Elements(deviceIds[..i]), now, cooldown)
        invariant claims == Granted(old(claims), eligible, now)
        invariant paired == old(paired) && pushes == old(pushes)
      {
        var id := deviceIds[i];
        assert deviceIds[..i + 1] == deviceIds[..i] + [id];
        if SafeId(id) && (id !in claims || now - claims[id] >= cooldown) {
          eligible := eligible + {id};
          claims := claims[id := now];
        }
        i := i + 1;
      }
      assert deviceIds[..i] == deviceIds;
    }

    method WritePushState(id: string, ok: bool)
      modifies this
      ensures View() == WrittenPush(old(View()), id, PushState(ok, 0))
    {
      if !SafeId(id) {
        return;
      }
      pushes := pushes[id := PushState(ok, 0)];
    }

    method BumpPushFailures(id: string) returns (count: nat)
      modifies this
      ensures View() == WrittenPush(old(View()), id, PushState(false, FailuresOf(old(View()), id) + 1))
      ensures count == if SafeId(id) then FailuresOf(old(View()), id) + 1 else 0
    {
      if !SafeId(id) {
        return 0;
      }
      count := 1;
      if id in pushes {
        count := pushes[id].failures + 1;
      }
      pushes := pushes[id := PushState(false, count)];
    }

    method ResetPushFailures(id: string)
      modifies this
      ensures View() == WrittenPush(old(View()), id, PushState(true, 0))
    {
      if !SafeId(id) {
        return;
      }
      pushes := pushes[id := PushState(true, 0)];
    }

    /** The aggregate of the devices' outcomes: a known failure outranks a missing outcome. */
    method ComputeAggregateOk() returns (verdict: Option<bool>)
      ensures verdict == Some(false) <==>
              exists d <- Loaded(paired) :: d.id in pushes && !pushes[d.id].ok
      ensures verdict == Some(true) <==>
              Loaded(paired) != [] && forall d <- Loaded(paired) :: d.id in pushes && pushes[d.id].ok
    {
      var devices := Loaded(paired);
      if devices == [] {
        return None;
      }
      var pending := false;
      var i := 0;
      while i < |devices|
        invariant i <= |devices|
        invariant forall k :: 0 <= k < i && devices[k].id in pushes ==> pushes[devices[k].id].ok
        invariant pending <==> exists k :: 0 <= k < i && devices[k].id !in pushes
      {
        if devices[i].id !in pushes {
          pending := true;
        } else if !pushes[devices[i].id].ok {
          assert devices[i] in devices;
          return Some(false);
        }
        i := i + 1;
      }
      assert devices[0] in devices;
      verdict := if pending then None else Some(true);
      if pending {
        var k :| 0 <= k < i && devices[k].id !in pushes;
        assert devices[k] in devices;
      }
    }
  }

  // ------------------------------------------------ facts of the lists

  lemma {:induction false} RehostedAt(devices: seq<Device>, id: string, host: string, i: nat)
    requires i < |devices| && devices[i].id == id && forall k :: 0 <= k < i ==> devices[k].id != id
    ensures Rehosted(devices, id, host) == devices[i := Device(id, host)]
    decreases devices
  {
    if i > 0 {
      RehostedAt(devices[1..], id, host, i - 1);
    }
  }

  lemma {:induction false} WithoutShorter(devices: seq<Device>, id: string)
    ensures HasId(devices, id) <==> |Without(devices, id)| < |devices|
    decreases devices
  {
    if devices != [] {
      WithoutShorter(devices[1..], id);
      assert devices == [devices[0]] + devices[1..];
    }
  }

  predicate AllLoadable(devices: seq<Device>) {
    forall d <- devices :: SafeId(d.id) && d.host != ""
  }

  lemma {:induction false} LoadedSound(file: seq<Device>)
    ensures AllLoadable(Loaded(file))
    ensures forall d :: d in Loaded(file) ==> d in file
    ensures AllLoadable(file) ==> Loaded(file) == file
    decreases file
  {
    if file != [] {
      LoadedSound(file[1..]);
    }
  }

  /** A load keeps exactly the safe and complete records of a file. */
  lemma {:induction false} LoadedIs(file: seq<Device>)
    ensures forall d :: d in Loaded(file) <==> d in file && SafeId(d.id) && d.host != ""
    decreases file
  {
    if file != [] {
      LoadedIs(file[1..]);
      assert file == [file[0]] + file[1..];
    }
  }

  lemma {:induction false} LoadedInOrder(file: seq<Device>, more: seq<Device>)
    ensures Loaded(file + more) == Loaded(file) + Loaded(more)
    decreases file
  {
    if file == [] {
      assert file + more == more;
    } else {
      assert (file + more)[1..] == file[1..] + more;
      LoadedInOrder(file[1..], more);
    }
  }

  lemma {:induction false} WithoutInOrder(devices: seq<Device>, more: seq<Device>, id: string)
    ensures Without(devices + more, id) == Without(devices, id) + Without(more, id)
    decreases devices
  {
    if devices == [] {
      assert devices + more == more;
    } else {
      assert (devices + more)[1..] == devices[1..] + more;
      WithoutInOrder(devices[1..], more, id);
    }
  }

  lemma UniqueTail(devices: seq<Device>)
    requires devices != []
    ensures UniqueIds(devices) <==> UniqueIds(devices[1..]) && forall d <- devices[1..] :: d.id != devices[0].id
  {
    if UniqueIds(devices[1..]) && forall d <- devices[1..] :: d.id != devices[0].id {
      forall i, j | 0 <= i < j < |devices| ensures devices[i].id != devices[j].id {
        assert devices[j] == devices[1..][j - 1] && devices[j] in devices[1..];
      }
    }
  }

  lemma {:induction false} LoadedUnique(file: seq<Device>)
    requires UniqueIds(file)
    ensures UniqueIds(Loaded(file))
    decreases file
  {
    if file != [] {
      UniqueTail(file);
      LoadedUnique(file[1..]);
      LoadedSound(file[1..]);
      if Loaded(file) != Loaded(file[1..]) {
        UniqueTail(Loaded(file));
      }
    }
  }

  lemma LoadedFacts(file: seq<Device>)
    ensures AllLoadable(Loaded(file))
    ensures AllLoadable(file) ==> Loaded(file) == file
    ensures UniqueIds(file) ==> UniqueIds(Loaded(file))
  {
    LoadedSound(file);
    if UniqueIds(file) {
      LoadedUnique(file);
    }
  }

  lemma {:induction false} WithoutFacts(devices: seq<Device>, id: string)
    requires UniqueIds(devices)
    ensures UniqueIds(Without(devices, id))
    ensures Ids(Without(devices, id)) == Ids(devices) - {id}
    decreases devices
  {
    if devices != [] {
      UniqueTail(devices);
      WithoutFacts(devices[1..], id);
      assert devices == [devices[0]] + devices[1..];
      if devices[0].id != id {
        UniqueTail(Without(devices, id));
      }
    }
  }

  lemma {:induction false} RehostedKeepsIds(devices: seq<Device>, id: string, host: string)
    ensures var r := Rehosted(devices, id, host);
            && |r| == |devices|
            && forall k :: 0 <= k < |r| ==>
                 r[k].id == devices[k].id && (r[k] == devices[k] || r[k] == Device(id, host))
    decreases devices
  {
    if devices != [] && devices[0].id != id {
      RehostedKeepsIds(devices[1..], id, host);
    }
  }

  lemma RehostedFacts(devices: seq<Device>, id: string, host: string)
    requires UniqueIds(devices)
    ensures UniqueIds(Rehosted(devices, id, host)) && Ids(Rehosted(devices, id, host)) == Ids(devices)
    ensures AllLoadable(devices) && SafeId(id) && host != "" ==> AllLoadable(Rehosted(devices, id, host))
  {
    RehostedKeepsIds(devices, id, host);
    var r := Rehosted(devices, id, host);
    forall d <- devices ensures d.id in Ids(r) {
      var k :| 0 <= k < |devices| && devices[k] == d;
      assert r[k] in r;
    }
    forall d <- r ensures d.id in Ids(devices) {
      var k :| 0 <= k < |r| && r[k] == d;
      assert devices[k] in devices;
    }
  }

  lemma {:induction false} RehostedRecords(devices: seq<Device>, id: string, host: string)
    requires UniqueIds(devices)
    ensures forall d :: d in Rehosted(devices, id, host) <==>
              (d == Device(id, host) && id in Ids(devices)) || (d in devices && d.id != id)
    decreases devices
  {
    if devices != [] {
      UniqueTail(devices);
      assert devices == [devices[0]] + devices[1..];
      assert Ids(devices) == {devices[0].id} + Ids(devices[1..]);
      if devices[0].id != id {
        RehostedRecords(devices[1..], id, host);
      }
    }
  }

  /** The ids a load would list. */
  function Paired(f: Files): set<string> {
    Ids(Loaded(f.paired))
  }

  lemma AppendedFacts(devices: seq<Device>, device: Device)
    requires UniqueIds(devices) && device.id !in Ids(devices)
    ensures UniqueIds(devices + [device])
    ensures Ids(devices + [device]) == Ids(devices) + {device.id}
  {
    forall d <- devices ensures d.id in Ids(devices + [device]) {
      assert d in devices + [device];
    }
    assert device in devices + [device];
    forall i | 0 <= i < |devices| ensures devices[i].id != device.id {
      assert devices[i] in devices;
    }
  }

  /** Adding puts the record at the end in place of every older one of the id, keeps all other records and the
      ids unique, and touches nothing else. */
  lemma AddFacts(f: Files, device: Device)
    requires UniqueIds(f.paired) && device.host != ""
    ensures AddTo(f, device).claims == f.claims && AddTo(f, device).pushes == f.pushes
    ensures !SafeId(device.id) ==> AddTo(f, device) == f
    ensures SafeId(device.id) ==>
              var after := Loaded(AddTo(f, device).paired);
              && after != [] && after[|after| - 1] == device
              && forall d :: d in after <==> d == device || (d in Loaded(f.paired) && d.id != device.id)
    ensures UniqueIds(AddTo(f, device).paired)
    ensures Paired(AddTo(f, device)) == Paired(f) + if SafeId(device.id) then {device.id} else {}
  {
    var devices := Loaded(f.paired);
    LoadedFacts(f.paired);
    if SafeId(device.id) {
      WithoutFacts(devices, device.id);
      AppendedFacts(Without(devices, device.id), device);
      LoadedFacts(Without(devices, device.id) + [device]);
    }
  }

  /** Removing drops exactly the id's record and, if it was listed, its outcome file; all else stays as it was. */
  lemma RemoveFacts(f: Files, id: string)
    requires UniqueIds(f.paired)
    ensures RemoveFrom(f, id).claims == f.claims
    ensures forall d :: d in Loaded(RemoveFrom(f, id).paired) <==> d in Loaded(f.paired) && d.id != id
    ensures forall other :: other in RemoveFrom(f, id).pushes <==>
              other in f.pushes && !(other == id && id in Paired(f))
    ensures forall other <- RemoveFrom(f, id).pushes :: RemoveFrom(f, id).pushes[other] == f.pushes[other]
    ensures UniqueIds(RemoveFrom(f, id).paired)
    ensures Paired(RemoveFrom(f, id)) == Paired(f) - {id}
  {
    LoadedFacts(f.paired);
    WithoutFacts(Loaded(f.paired), id);
    LoadedFacts(Without(Loaded(f.paired), id));
  }

  lemma UpdatedRecords(f: Files, id: string, host: string)
    requires UniqueIds(f.paired) && host != ""
    ensures forall d :: d in Loaded(UpdateIn(f, id, host).0.paired) <==>
              (d == Device(id, host) && id in Paired(f)) || (d in Loaded(f.paired) && d.id != id)
  {
    var devices := Loaded(f.paired);
    LoadedFacts(f.paired);
    RehostedRecords(devices, id, host);
    if SafeId(id) {
      RehostedFacts(devices, id, host);
      LoadedFacts(Rehosted(devices, id, host));
    }
    assert HasId(devices, id) <==> id in Paired(f);
  }

  lemma UpdatedIds(f: Files, id: string, host: string)
    requires UniqueIds(f.paired) && host != ""
    ensures UniqueIds(UpdateIn(f, id, host).0.paired)
    ensures Paired(UpdateIn(f, id, host).0) == Paired(f)
    ensures UpdateIn(f, id, host).1 <==> id in Paired(f)
  {
    var devices := Loaded(f.paired);
    LoadedFacts(f.paired);
    RehostedFacts(devices, id, host);
    if SafeId(id) {
      LoadedFacts(Rehosted(devices, id, host));
    }
  }

  /** Updating a host makes it the host of the listed device and changes no other record. It neither inserts nor
      drops an id, keeps the ids unique, touches nothing else and reports whether the device is listed. */
  lemma UpdateFacts(f: Files, id: string, host: string)
    requires UniqueIds(f.paired) && host != ""
    ensures UpdateIn(f, id, host).0.claims == f.claims && UpdateIn(f, id, host).0.pushes == f.pushes
    ensures forall d :: d in Loaded(UpdateIn(f, id, host).0.paired) <==>
              (d == Device(id, host) && id in Paired(f)) || (d in Loaded(f.paired) && d.id != id)
    ensures UniqueIds(UpdateIn(f, id, host).0.paired)
    ensures Paired(UpdateIn(f, id, host).0) == Paired(f)
    ensures UpdateIn(f, id, host).1 <==> id in Paired(f)
  {
    UpdatedRecords(f, id, host);
    UpdatedIds(f, id, host);
  }

  // --------------------------------------------------- other processes

  /** What a browse found: the host of each visible device, or nothing when it failed. */
  type Found = Option<map<string, string>>

  /** One operation of another process under the lock. */
  datatype FileOp =
    | Adds(device: Device)
    | Updates(id: string, host: string)
    | Removes(id: string)
    | Clears
    | Claims(ids: set<string>, now: int)
    | ClearsClaims
    | Writes(id: string, state: PushState)

  function Applied(f: Files, op: FileOp, cooldown: int): Files {
    match op
    case Adds(device) => AddTo(f, device)
    case Updates(id, host) => UpdateIn(f, id, host).0
    case Removes(id) => RemoveFrom(f, id)
    case Clears => f.(paired := [])
    case Claims(ids, now) => ClaimIn(f, ids, now, cooldown).0
    case ClearsClaims => f.(claims := map[])
    case Writes(id, state) => WrittenPush(f, id, state)
  }

  predicate HostsGiven(found: Found) {
    found.Some? ==> forall id <- found.value :: found.value[id] != ""
  }

  lemma AppliedFacts(f: Files, op: FileOp, cooldown: int)
    requires UniqueIds(f.paired)
    requires op.Adds? ==> op.device.host != ""
    requires op.Updates? ==> op.host != ""
    ensures UniqueIds(Applied(f, op, cooldown).paired)
    ensures op.Adds? ==> Paired(Applied(f, op, cooldown)) <= Paired(f) + {op.device.id}
    ensures op.Adds? ==> Paired(f) <= Paired(Applied(f, op, cooldown))
    ensures op.Removes? ==> Paired(Applied(f, op, cooldown)) == Paired(f) - {op.id}
    ensures op.Clears? ==> Paired(Applied(f, op, cooldown)) == {}
    ensures !op.Adds? && !op.Removes? && !op.Clears? ==> Paired(Applied(f, op, cooldown)) == Paired(f)
  {
    match op
    case Adds(device) => AddFacts(f, device);
    case Updates(id, host) => UpdateFacts(f, id, host);
    case Removes(id) => RemoveFacts(f, id);
    case _ =>
  }
}
