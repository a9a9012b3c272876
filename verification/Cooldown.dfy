/** How many browses the shared cooldown lets through, over every run of claims.

    A claim may carry a time read before it got the lock, so the times of a run need not be
    in order. */
module Cooldown {
  import opened Decimals
  import opened HostCache

  /** One caller asks for these devices, with the time it read. It browses if any is granted. */
  datatype Claim = Claim(requested: set<string>, now: int)

  /** The grants of a run, in the order of the lock. */
  function GrantsOf(claims: map<string, int>, run: seq<Claim>, cooldown: int): seq<set<string>>
    decreases run
  {
    if run == [] then []
    else
      var granted := Grants(claims, run[0].requested, run[0].now, cooldown);
      [granted] + GrantsOf(Granted(claims, granted, run[0].now), run[1..], cooldown)
  }

  lemma {:induction false} GrantsLength(claims: map<string, int>, run: seq<Claim>, cooldown: int)
    ensures |GrantsOf(claims, run, cooldown)| == |run|
    decreases run
  {
    if run != [] {
      var granted := Grants(claims, run[0].requested, run[0].now, cooldown);
      GrantsLength(Granted(claims, granted, run[0].now), run[1..], cooldown);
    }
  }

  /** The times at which the device was granted, in the order of the lock. */
  function TimesOf(run: seq<Claim>, grants: seq<set<string>>, id: string): seq<int>
    requires |grants| == |run|
    decreases run
  {
    if run == [] then []
    else (if id in grants[0] then [run[0].now] else []) + TimesOf(run[1..], grants[1..], id)
  }

  /** Each time is at least the cooldown after the one before. */
  predicate Apart(times: seq<int>, cooldown: int) {
    forall i :: 0 < i < |times| ==> times[i] - times[i - 1] >= cooldown
  }

  /** Successive grants to one device are a cooldown apart, whatever the callers' clocks read. */
  lemma {:induction false} GrantsApart(claims: map<string, int>, run: seq<Claim>, cooldown: int, id: string)
    ensures var grants := GrantsOf(claims, run, cooldown);
            && |grants| == |run|
            && Apart(TimesOf(run, grants, id), cooldown)
            && (id in claims && TimesOf(run, grants, id) != [] ==>
                  TimesOf(run, grants, id)[0] - claims[id] >= cooldown)
    decreases run
  {
    if run != [] {
      var granted := Grants(claims, run[0].requested, run[0].now, cooldown);
      GrantsApart(Granted(claims, granted, run[0].now), run[1..], cooldown, id);
    }
  }

  /** The time of the last grant in the run, else the one the cooldown file holds. */
  function LastGrant(claims: map<string, int>, run: seq<Claim>, grants: seq<set<string>>, id: string): Option<int>
    requires |grants| == |run|
  {
    var times := TimesOf(run, grants, id);
    if times != [] then Some(times[|times| - 1]) else if id in claims then Some(claims[id]) else None
  }

  /** The k-th claim grants a device exactly when it asks for it, the id is safe, and no grant came less
      than a cooldown before. */
  lemma {:induction false} GrantedExactly(claims: map<string, int>, run: seq<Claim>, cooldown: int, k: nat, id: string)
    requires k < |run|
    ensures var grants := GrantsOf(claims, run, cooldown);
            && |grants| == |run|
            && (id in grants[k] <==>
                && id in run[k].requested && SafeId(id)
                && match LastGrant(claims, run[..k], grants[..k], id)
                   case None => true
                   case Some(last) => run[k].now - last >= cooldown)
    decreases run
  {
    var grants := GrantsOf(claims, run, cooldown);
    GrantsLength(claims, run, cooldown);
    if k > 0 {
      var after := Granted(claims, grants[0], run[0].now);
      GrantedExactly(after, run[1..], cooldown, k - 1, id);
      assert run[..k][1..] == run[1..][..k - 1] && grants[..k][1..] == grants[1..][..k - 1];
      assert LastGrant(claims, run[..k], grants[..k], id) == LastGrant(after, run[..k][1..], grants[..k][1..], id);
    }
  }

  // ----------------------------------------------------------- window

  predicate InWindow(t: int, from: int, length: int) {
    from <= t < from + length
  }

  function CeilDiv(a: int, b: int): int
    requires b > 0
  {
    (a + b - 1) / b
  }

  function CountIn(times: seq<int>, from: int, length: int): nat {
    if times == [] then 0
    else (if InWindow(times[0], from, length) then 1 else 0) + CountIn(times[1..], from, length)
  }

  lemma ApartTail(times: seq<int>, cooldown: int)
    requires Apart(times, cooldown) && times != []
    ensures Apart(times[1..], cooldown)
  {
    forall i | 0 < i < |times[1..]| ensures times[1..][i] - times[1..][i - 1] >= cooldown {
      assert times[i + 1] - times[i] >= cooldown;
    }
  }

  /** Of times that are a cooldown apart and start at or after `first`, the k-th that lies below
      the window's end is at least first + (k - 1) * cooldown. */
  lemma {:induction false} CountBelow(times: seq<int>, first: int, from: int, length: int, cooldown: int)
    requires cooldown > 0 && Apart(times, cooldown)
    requires times != [] ==> times[0] >= first
    requires first >= from
    ensures CountIn(times, from, length) > 0 ==>
              first + (CountIn(times, from, length) - 1) * cooldown < from + length
    decreases times
  {
    if times != [] {
      ApartTail(times, cooldown);
      CountBelow(times[1..], times[0] + cooldown, from, length, cooldown);
      var k := CountIn(times[1..], from, length);
      assert k * cooldown == (k - 1) * cooldown + cooldown;
    }
  }

  /** At most ceil(length / cooldown) times lie in a window. */
  lemma {:induction false} CountBound(times: seq<int>, from: int, length: int, cooldown: int)
    requires cooldown > 0 && length >= 0 && Apart(times, cooldown)
    ensures CountIn(times, from, length) <= CeilDiv(length, cooldown)
    decreases times
  {
    if times != [] {
      ApartTail(times, cooldown);
      if times[0] < from {
        CountBound(times[1..], from, length, cooldown);
      } else {
        CountBelow(times, times[0], from, length, cooldown);
        CeilAbove(CountIn(times, from, length), length, cooldown);
      }
    } else {
      CeilAbove(0, length, cooldown);
    }
  }

  lemma CeilAbove(n: nat, length: int, cooldown: int)
    requires cooldown > 0 && length >= 0 && (n > 0 ==> (n - 1) * cooldown < length)
    ensures n <= CeilDiv(length, cooldown)
  {
    var q := CeilDiv(length, cooldown);
    assert length + cooldown - 1 == q * cooldown + (length + cooldown - 1) % cooldown;
    if n > q + 1 {
      TimesGrows(n - 1, q, cooldown);
      assert false;
    }
  }

  // ---------------------------------------------------------- browses

  /** The browses a run launches within a window. */
  function Browses(run: seq<Claim>, grants: seq<set<string>>, from: int, length: int): nat
    requires |grants| == |run|
    decreases run
  {
    if run == [] then 0
    else
      (if grants[0] != {} && InWindow(run[0].now, from, length) then 1 else 0)
      + Browses(run[1..], grants[1..], from, length)
  }

  /** The grants within a window, summed over the devices. */
  function GrantSum(run: seq<Claim>, grants: seq<set<string>>, from: int, length: int, devices: seq<string>): nat
    requires |grants| == |run|
    decreases devices
  {
    if devices == [] then 0
    else CountIn(TimesOf(run, grants, devices[0]), from, length) + GrantSum(run, grants, from, length, devices[1..])
  }

  predicate GrantedFrom(grants: seq<set<string>>, devices: seq<string>) {
    forall g <- grants, id <- g :: id in devices
  }

  /** One more claim adds at least one grant to the sum if it granted any of the devices. */
  lemma {:induction false} SumNext(run: seq<Claim>, grants: seq<set<string>>, from: int, length: int,
                                   devices: seq<string>)
    requires |grants| == |run| && run != []
    ensures var rest := GrantSum(run[1..], grants[1..], from, length, devices);
            && GrantSum(run, grants, from, length, devices) >= rest
            && (InWindow(run[0].now, from, length) && (exists id <- devices :: id in grants[0]) ==>
                  GrantSum(run, grants, from, length, devices) >= rest + 1)
    decreases devices
  {
    if devices != [] {
      SumNext(run, grants, from, length, devices[1..]);
      var times := TimesOf(run[1..], grants[1..], devices[0]);
      assert TimesOf(run, grants, devices[0]) == (if devices[0] in grants[0] then [run[0].now] else []) + times;
      assert ([run[0].now] + times)[1..] == times;
      assert [] + times == times;
    }
  }

  lemma {:induction false} BrowsesBelowSum(run: seq<Claim>, grants: seq<set<string>>, from: int, length: int,
                                           devices: seq<string>)
    requires |grants| == |run| && GrantedFrom(grants, devices)
    ensures Browses(run, grants, from, length) <= GrantSum(run, grants, from, length, devices)
    decreases run
  {
    if run != [] {
      BrowsesBelowSum(run[1..], grants[1..], from, length, devices);
      SumNext(run, grants, from, length, devices);
      if grants[0] != {} {
        var id :| id in grants[0];
        assert grants[0] in grants && id in devices;
      }
    }
  }

  lemma {:induction false} SumBound(run: seq<Claim>, grants: seq<set<string>>, cooldown: int, from: int, length: int,
                                    devices: seq<string>)
    requires cooldown > 0 && length >= 0 && |grants| == |run|
    requires forall id <- devices :: Apart(TimesOf(run, grants, id), cooldown)
    ensures GrantSum(run, grants, from, length, devices) <= |devices| * CeilDiv(length, cooldown)
    decreases devices
  {
    if devices != [] {
      CountBound(TimesOf(run, grants, devices[0]), from, length, cooldown);
      SumBound(run, grants, cooldown, from, length, devices[1..]);
      SumStep(|devices| - 1, CeilDiv(length, cooldown));
    }
  }

  lemma SumStep(n: nat, each: int)
    ensures (n + 1) * each == n * each + each
  {
  }

  lemma {:induction false} GrantsRequested(claims: map<string, int>, run: seq<Claim>, cooldown: int,
                                           devices: seq<string>)
    requires forall claim <- run, id <- claim.requested :: id in devices
    ensures GrantedFrom(GrantsOf(claims, run, cooldown), devices)
    decreases run
  {
    if run != [] {
      var granted := Grants(claims, run[0].requested, run[0].now, cooldown);
      GrantsRequested(Granted(claims, granted, run[0].now), run[1..], cooldown, devices);
      assert run[0] in run;
    }
  }

  /** In any window all callers together browse at most n * ceil(length / cooldown) times for n
      devices, from any cooldown file and in any order of the lock. */
  lemma {:induction false} BrowsesBounded(claims: map<string, int>, run: seq<Claim>, cooldown: int,
                                          devices: seq<string>, from: int, length: int)
    requires cooldown > 0 && length >= 0
    requires forall claim <- run, id <- claim.requested :: id in devices
    ensures |GrantsOf(claims, run, cooldown)| == |run|
    ensures Browses(run, GrantsOf(claims, run, cooldown), from, length) <= |devices| * CeilDiv(length, cooldown)
  {
    var grants := GrantsOf(claims, run, cooldown);
    GrantsLength(claims, run, cooldown);
    GrantsRequested(claims, run, cooldown, devices);
    forall id <- devices ensures Apart(TimesOf(run, grants, id), cooldown) {
      GrantsApart(claims, run, cooldown, id);
    }
    SumBound(run, grants, cooldown, from, length, devices);
    BrowsesBelowSum(run, grants, from, length, devices);
  }

  // -------------------------------------------------- the bound is met

  /** The device is asked for at every moment from i on. */
  function Every(i: nat, length: nat, id: string): seq<Claim>
    decreases length - i
  {
    if i >= length then [] else [Claim({id}, i)] + Every(i + 1, length, id)
  }

  lemma DivUnique(x: int, q: int, r: int, unit: int)
    requires unit > 0 && x == q * unit + r && 0 <= r < unit
    ensures x / unit == q
  {
    var p := x / unit;
    assert x == p * unit + x % unit;
    if p > q {
      TimesGrows(p, q, unit);
      assert false;
    } else if q > p {
      TimesGrows(q, p, unit);
      assert false;
    }
  }

  lemma CeilStep(a: int, b: int)
    requires b > 0
    ensures CeilDiv(a, b) == CeilDiv(a - b, b) + 1
    ensures -b < a <= 0 ==> CeilDiv(a, b) == 0
  {
    var q, r := (a - 1) / b, (a - 1) % b;
    assert a - 1 == q * b + r;
    assert a + b - 1 == (q + 1) * b + r;
    DivUnique(a + b - 1, q + 1, r, b);
    if -b < a <= 0 {
      DivUnique(a + b - 1, 0, a + b - 1, b);
    }
  }

  lemma OneGrant(id: string, last: int, i: int, cooldown: int)
    requires SafeId(id)
    ensures Grants(map[id := last], {id}, i, cooldown) == if i - last >= cooldown then {id} else {}
    ensures Granted(map[id := last], {id}, i) == map[id := i]
    ensures Granted(map[id := last], {}, i) == map[id := last]
  {
  }

  lemma {:induction false} EveryGranted(i: nat, length: nat, cooldown: int, id: string, last: int)
    requires cooldown > 0 && SafeId(id) && last < i <= last + cooldown && i <= length
    ensures var grants := GrantsOf(map[id := last], Every(i, length, id), cooldown);
            && |grants| == |Every(i, length, id)|
            && Browses(Every(i, length, id), grants, 0, length) == CeilDiv(length - last, cooldown) - 1
    decreases length - i
  {
    CeilStep(length - last, cooldown);
    if i < length {
      OneGrant(id, last, i, cooldown);
      EveryGranted(i + 1, length, cooldown, id, if i == last + cooldown then i else last);
    }
  }

  /** One device asked for at every moment of a window is granted exactly ceil(length / cooldown)
      times, so the bound cannot be lowered. */
  lemma {:induction false} BoundIsMet(length: nat, cooldown: int, id: string)
    requires cooldown > 0 && SafeId(id)
    ensures var run := Every(0, length, id);
            && |GrantsOf(map[], run, cooldown)| == |run|
            && Browses(run, GrantsOf(map[], run, cooldown), 0, length) == CeilDiv(length, cooldown)
  {
    if length == 0 {
      CeilStep(0, cooldown);
    } else {
      var granted := Grants(map[], {id}, 0, cooldown);
      assert granted == {id};
      assert Granted(map[], granted, 0) == map[id := 0];
      EveryGranted(1, length, cooldown, id, 0);
    }
  }
}
