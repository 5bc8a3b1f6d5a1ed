/** Remote devices and their bonds: a list of bonded devices, a bounded list of devices seen lately, and what is reported
    of a device's bond. */
module DeviceBonds {
  import opened Rounding
  import opened Sequences

  const CACHE_MAX: nat := 300

  datatype Bearer = BrEdr | LowEnergy

  datatype Bond = Unbonded | Bonding | Bonded

  /** The flags of a device. A pairing is under way on either bearer; paired and bonded are kept for each. */
  datatype Device = Device(pairing: bool, bredrPaired: bool, bredrBonded: bool, lePaired: bool, leBonded: bool)

  datatype Report = Report(id: nat, status: nat, bond: Bond)

  const SUCCESS: nat := 0

  /** The two lists, the records in memory, what was reported, and the bond each device came with. Devices are named by
      identity; those from `created` on are unused. */
  datatype Devices = Devices(bonded: seq<nat>, cached: seq<nat>, records: map<nat, Device>, reports: seq<Report>,
    birth: map<nat, Bond>, created: nat)

  predicate IsPaired(d: Device, b: Bearer) {
    if b == BrEdr then d.bredrPaired else d.lePaired
  }

  predicate IsBonded(d: Device, b: Bearer) {
    if b == BrEdr then d.bredrBonded else d.leBonded
  }

  function Other(b: Bearer): Bearer {
    if b == BrEdr then LowEnergy else BrEdr
  }

  function BondOf(d: Device): Bond {
    if d.pairing then Bonding else if d.bredrPaired || d.lePaired then Bonded else Unbonded
  }

  // ---------------------------------------------------------------- lists

  lemma {:induction false} FrontIsDistinct(ids: seq<nat>)
    requires Distinct(ids) && ids != []
    ensures var n := |ids| - 1;
      Distinct(ids[..n]) && forall x :: x in ids[..n] <==> x in ids && x != ids[n]
  {
    var n := |ids| - 1;
    if n > 0 {
      FrontIsDistinct(ids[1..]);
      assert ids[..n][1..] == ids[1..][..n - 1] && ids[1..][n - 1] == ids[n];
      assert ids[n] in ids[1..];
      assert ids[..n] == [ids[0]] + ids[1..][..n - 1];
    }
  }

  // ---------------------------------------------------------------- the invariant

  /** Each record is in exactly one list, once. */
  ghost predicate Listed(s: Devices) {
    && Distinct(s.bonded) && Distinct(s.cached)
    && (forall x <- s.bonded :: x !in s.cached)
    && (forall x :: x in s.records <==> x in s.bonded || x in s.cached)
  }

  /** The same, but for a device that is between the lists or in the cache. */
  ghost predicate ListedBut(s: Devices, id: nat) {
    && Distinct(s.bonded) && Distinct(s.cached)
    && id in s.records && id !in s.bonded
    && (forall x <- s.bonded :: x !in s.cached)
    && (forall x :: x in s.records <==> x in s.bonded || x in s.cached || x == id)
  }

  /** A device is in the bonded list exactly when some bearer is paired, and no bearer is bonded without being paired. */
  ghost predicate Fits(s: Devices, id: nat)
    requires id in s.records
  {
    var d := s.records[id];
    && (id in s.bonded <==> d.bredrPaired || d.lePaired)
    && (d.bredrBonded ==> d.bredrPaired) && (d.leBonded ==> d.lePaired)
    && id < s.created && id in s.birth
  }

  ghost predicate Sound(s: Devices) {
    Listed(s) && forall id <- s.records :: Fits(s, id)
  }

  // ---------------------------------------------------------------- the cache

  /** Puts a device at the front of the cache; a full cache gives up its last device. */
  function Cache(s: Devices, id: nat): (r: Devices)
    requires ListedBut(s, id)
    ensures Listed(r) && id in r.records && id !in r.bonded
    ensures r == s.(cached := r.cached, records := r.records)
    ensures forall x <- r.records :: x in s.records && r.records[x] == s.records[x]
    ensures |r.cached| <= Max(CACHE_MAX, |s.cached|)
  {
    if id in s.cached then
      DropDrops(s.cached, id);
      s.(cached := [id] + Drop(s.cached, id))
    else if |s.cached| < CACHE_MAX then s.(cached := [id] + s.cached)
    else
      var last := |s.cached| - 1;
      FrontIsDistinct(s.cached);
      s.(cached := [id] + s.cached[..last], records := s.records - {s.cached[last]})
  }

  /** The device goes to the front, the others keep their order, and only a full cache gives one up: its last. */
  lemma CacheIsRecentFirst(s: Devices, id: nat)
    requires ListedBut(s, id)
    ensures var r, n := Cache(s, id), |s.cached|;
      && r.bonded == s.bonded && r.cached != [] && r.cached[0] == id
      && (forall i :: 0 <= i < n && s.cached[i] == id ==> r.cached == [id] + (s.cached[..i] + s.cached[i + 1..]))
      && (id !in s.cached ==> r.cached == [id] + if n < 300 then s.cached else s.cached[..n - 1])
      && r.records == if id in s.cached || n < 300 then s.records else s.records - {s.cached[n - 1]}
  {
    forall i | 0 <= i < |s.cached| && s.cached[i] == id
      ensures Drop(s.cached, id) == s.cached[..i] + s.cached[i + 1..]
    {
      NotBefore(s.cached, i);
      DropAt(s.cached, id, i);
    }
  }

  lemma {:induction false} NotBefore(ids: seq<nat>, i: nat)
    requires Distinct(ids) && i < |ids|
    ensures ids[i] !in ids[..i]
  {
    if i > 0 {
      NotBefore(ids[1..], i - 1);
      assert ids[..i][1..] == ids[1..][..i - 1] && ids[i] == ids[1..][i - 1];
    }
  }

  // ---------------------------------------------------------------- pairing

  /** The new flags of one bearer. The bonded flag stays once it is set, until the bearer is unpaired. */
  function Flagged(d: Device, b: Bearer, pairing: bool, paired: bool, bonded: bool): Device {
    if b == BrEdr then d.(pairing := pairing, bredrPaired := paired, bredrBonded := paired && (d.bredrBonded || bonded))
    else d.(pairing := pairing, lePaired := paired, leBonded := paired && (d.leBonded || bonded))
  }

  /** A request to pair again, and a pairing that fails, leave a paired bearer alone. */
  predicate LeavesPaired(d: Device, b: Bearer, pairing: bool, paired: bool) {
    IsPaired(d, b) && (pairing || (!paired && d.pairing))
  }

  predicate Unchanged(d: Device, b: Bearer, pairing: bool, paired: bool, bonded: bool) {
    pairing == d.pairing && paired == IsPaired(d, b) && bonded == IsBonded(d, b)
  }

  function NewFlags(d: Device, b: Bearer, pairing: bool, paired: bool, bonded: bool): Device {
    if Unchanged(d, b, pairing, paired, bonded) then d
    else if LeavesPaired(d, b, pairing, paired) then d.(pairing := pairing)
    else Flagged(d, b, pairing, paired, bonded)
  }

  /** The list a device moves to when a bearer becomes paired or unpaired. */
  function Move(s: Devices, id: nat, b: Bearer, paired: bool): (r: Devices)
    requires Sound(s) && id in s.records
    ensures Listed(r) && id in r.records && r == s.(cached := r.cached, bonded := r.bonded, records := r.records)
    ensures forall x <- r.records :: x in s.records && r.records[x] == s.records[x]
    ensures forall x <- r.records :: x != id ==> (x in r.bonded <==> x in s.bonded)
    ensures id in r.bonded <==> paired || IsPaired(s.records[id], Other(b))
    ensures |r.cached| <= Max(CACHE_MAX, |s.cached|)
  {
    var d := s.records[id];
    assert Fits(s, id);
    DropDrops(s.cached, id);
    DropDrops(s.bonded, id);
    if paired && !d.bredrPaired && !d.lePaired then s.(cached := Drop(s.cached, id), bonded := [id] + s.bonded)
    else if !paired && !IsPaired(d, Other(b)) then Cache(s.(bonded := Drop(s.bonded, id)), id)
    else s
  }

  function UpdateBearer(s: Devices, id: nat, b: Bearer, pairing: bool, paired: bool, bonded: bool): (r: Devices)
    requires Sound(s) && id in s.records
    ensures Sound(r) && id in r.records && r == s.(cached := r.cached, bonded := r.bonded, records := r.records)
    ensures r.records[id] == NewFlags(s.records[id], b, pairing, paired, bonded)
    ensures forall x <- r.records :: x in s.records && (x != id ==> r.records[x] == s.records[x])
    ensures |r.cached| <= Max(CACHE_MAX, |s.cached|)
  {
    var d := s.records[id];
    assert Fits(s, id);
    NewFlagsFit(d, b, pairing, paired, bonded);
    if Unchanged(d, b, pairing, paired, bonded) || LeavesPaired(d, b, pairing, paired) then
      Relabelled(s, s, id, NewFlags(d, b, pairing, paired, bonded))
    else
      Relabelled(s, Move(s, id, b, paired), id, NewFlags(d, b, pairing, paired, bonded))
  }

  /** The lists are those of `t`, and the device has new flags that fit them. */
  function Relabelled(s: Devices, t: Devices, id: nat, d: Device): (r: Devices)
    requires Sound(s) && id in s.records && Listed(t) && id in t.records
    requires t == s.(cached := t.cached, bonded := t.bonded, records := t.records)
    requires forall x <- t.records :: x in s.records && t.records[x] == s.records[x]
    requires forall x <- t.records :: x != id ==> (x in t.bonded <==> x in s.bonded)
    requires id in t.bonded <==> d.bredrPaired || d.lePaired
    requires (d.bredrBonded ==> d.bredrPaired) && (d.leBonded ==> d.lePaired)
    ensures Sound(r) && r == t.(records := t.records[id := d])
  {
    RelabelledIsSound(s, t, id, d);
    t.(records := t.records[id := d])
  }

  lemma NewFlagsFit(d: Device, b: Bearer, pairing: bool, paired: bool, bonded: bool)
    requires (d.bredrBonded ==> d.bredrPaired) && (d.leBonded ==> d.lePaired)
    ensures var d' := NewFlags(d, b, pairing, paired, bonded);
      && (d'.bredrBonded ==> d'.bredrPaired) && (d'.leBonded ==> d'.lePaired)
      && ((d'.bredrPaired || d'.lePaired) <==>
          if Unchanged(d, b, pairing, paired, bonded) || LeavesPaired(d, b, pairing, paired)
          then d.bredrPaired || d.lePaired
          else paired || IsPaired(d, Other(b)))
  {
  }

  lemma RelabelledIsSound(s: Devices, t: Devices, id: nat, d: Device)
    requires Sound(s) && id in s.records && Listed(t) && id in t.records
    requires t == s.(cached := t.cached, bonded := t.bonded, records := t.records)
    requires forall x <- t.records :: x in s.records && t.records[x] == s.records[x]
    requires forall x <- t.records :: x != id ==> (x in t.bonded <==> x in s.bonded)
    requires id in t.bonded <==> d.bredrPaired || d.lePaired
    requires (d.bredrBonded ==> d.bredrPaired) && (d.leBonded ==> d.lePaired)
    ensures Sound(t.(records := t.records[id := d]))
  {
    var r := t.(records := t.records[id := d]);
    assert Fits(s, id);
    forall x | x in r.records ensures Fits(r, x) {
      assert x in s.records && Fits(s, x);
    }
  }

  /** The flags after an update of the BR/EDR bearer. A paired bearer is not touched by a request to pair it again, nor by
      a pairing that fails; else it is paired as the update says, and bonded if it is paired and was bonded or is told
      so. The pairing flag is the new one in any case, and the LE bearer keeps its flags. */
  lemma BredrFlags(s: Devices, id: nat, pairing: bool, paired: bool, bonded: bool)
    requires Sound(s) && id in s.records
    ensures var r := UpdateBearer(s, id, BrEdr, pairing, paired, bonded);
      var d, d' := s.records[id], r.records[id];
      var refused := d.bredrPaired && (pairing || (!paired && d.pairing));
      && d'.pairing == pairing && d'.lePaired == d.lePaired && d'.leBonded == d.leBonded
      && d'.bredrPaired == (if refused then d.bredrPaired else paired)
      && d'.bredrBonded == (if refused then d.bredrBonded else paired && (d.bredrBonded || bonded))
  {
    assert Fits(s, id);
  }

  lemma LeFlags(s: Devices, id: nat, pairing: bool, paired: bool, bonded: bool)
    requires Sound(s) && id in s.records
    ensures var r := UpdateBearer(s, id, LowEnergy, pairing, paired, bonded);
      var d, d' := s.records[id], r.records[id];
      var refused := d.lePaired && (pairing || (!paired && d.pairing));
      && d'.pairing == pairing && d'.bredrPaired == d.bredrPaired && d'.bredrBonded == d.bredrBonded
      && d'.lePaired == (if refused then d.lePaired else paired)
      && d'.leBonded == (if refused then d.leBonded else paired && (d.leBonded || bonded))
  {
    assert Fits(s, id);
  }

  /** The lists after an update: a device that gets its first paired bearer goes from the cache to the front of the bonded
      list, one that loses its last paired bearer goes to the front of the cache, and no other device changes lists. */
  ghost predicate FollowsPairing(s: Devices, r: Devices, id: nat, was: bool, isNow: bool) {
    && (isNow ==> r.records.Keys == s.records.Keys)
    && (was && isNow ==> r.bonded == s.bonded && r.cached == s.cached)
    && (!was && isNow ==> r.bonded == [id] + s.bonded && forall x :: x in r.cached <==> x in s.cached && x != id)
    && (was && !isNow ==> r.cached != [] && r.cached[0] == id && forall x :: x in r.bonded <==> x in s.bonded && x != id)
    && (!was && !isNow ==> r.bonded == s.bonded)
  }

  lemma MovedLists(s: Devices, id: nat, b: Bearer, paired: bool)
    requires Sound(s) && id in s.records
    ensures FollowsPairing(s, Move(s, id, b, paired), id, s.records[id].bredrPaired || s.records[id].lePaired,
      paired || IsPaired(s.records[id], Other(b)))
  {
    assert Fits(s, id);
    DropDrops(s.cached, id);
    DropDrops(s.bonded, id);
    if !paired && !IsPaired(s.records[id], Other(b)) {
      if id !in s.bonded {
        DropAt(s.bonded, id, |s.bonded|);
      }
      CacheIsRecentFirst(s.(bonded := Drop(s.bonded, id)), id);
    }
  }

  lemma UpdatedLists(s: Devices, id: nat, b: Bearer, pairing: bool, paired: bool, bonded: bool)
    requires Sound(s) && id in s.records
    ensures var r := UpdateBearer(s, id, b, pairing, paired, bonded);
      FollowsPairing(s, r, id, s.records[id].bredrPaired || s.records[id].lePaired,
        r.records[id].bredrPaired || r.records[id].lePaired)
    ensures var r, d, d' := UpdateBearer(s, id, b, pairing, paired, bonded), s.records[id],
        UpdateBearer(s, id, b, pairing, paired, bonded).records[id];
      !d.bredrPaired && !d.lePaired && !d'.bredrPaired && !d'.lePaired && (pairing != d.pairing || bonded) ==>
        r.cached != [] && r.cached[0] == id
  {
    assert Fits(s, id);
    NewFlagsFit(s.records[id], b, pairing, paired, bonded);
    MovedLists(s, id, b, paired);
  }

  // ---------------------------------------------------------------- reports

  /** What is reported when a bond changes; between unbonded and bonded a bonding is put in. */
  function Reported(id: nat, status: nat, before: Bond, after: Bond): seq<Report> {
    if before == after then []
    else if before == Bonding || after == Bonding then [Report(id, status, after)]
    else [Report(id, SUCCESS, Bonding), Report(id, status, after)]
  }

  function UpdateDevice(s: Devices, id: nat, b: Bearer, status: nat, pairing: bool, paired: bool, bonded: bool):
      (r: Devices)
    requires Sound(s) && id in s.records
    ensures Sound(r) && |r.cached| <= Max(CACHE_MAX, |s.cached|)
  {
    var t := UpdateBearer(s, id, b, pairing, paired, bonded);
    WithReports(t, Reported(id, status, BondOf(s.records[id]), BondOf(t.records[id])))
  }

  /** What an update reports: nothing if the bond is the same before and after, else the new one with the status of the
      update, and before it a bonding with success if it goes from none to bonded or back. A bond is a bonding while a
      pairing is under way, and else bonded if either bearer is paired. */
  lemma UpdateReports(s: Devices, id: nat, b: Bearer, status: nat, pairing: bool, paired: bool, bonded: bool)
    requires Sound(s) && id in s.records
    ensures var r := UpdateDevice(s, id, b, status, pairing, paired, bonded);
      && id in r.records
      && var d, d' := s.records[id], r.records[id];
        var was := if d.pairing then Bonding else if d.bredrPaired || d.lePaired then Bonded else Unbonded;
        var isNow := if d'.pairing then Bonding else if d'.bredrPaired || d'.lePaired then Bonded else Unbonded;
        r.reports == s.reports +
          if was == isNow then []
          else if was != Bonding && isNow != Bonding then [Report(id, 0, Bonding), Report(id, status, isNow)]
          else [Report(id, status, isNow)]
  {
  }

  function WithReports(s: Devices, reports: seq<Report>): (r: Devices)
    requires Sound(s)
    ensures Sound(r) && r == s.(reports := s.reports + reports)
  {
    var r := s.(reports := s.reports + reports);
    assert forall id <- r.records :: Fits(s, id) ==> Fits(r, id);
    r
  }

  const UNKNOWN := Device(false, false, false, false, false)

  /** A device nobody knows yet. */
  function Create(s: Devices): (r: Devices)
    requires Sound(s)
    ensures Sound(r) && |r.cached| <= Max(CACHE_MAX, |s.cached|)
  {
    var id := s.created;
    assert id !in s.records by { assert forall x <- s.records :: Fits(s, x); }
    Cache(s.(records := s.records[id := UNKNOWN], birth := s.birth[id := Unbonded], created := id + 1), id)
  }

  /** A device that is seen again. */
  function Seen(s: Devices, id: nat): (r: Devices)
    requires Sound(s) && id in s.records
    ensures Sound(r) && |r.cached| <= Max(CACHE_MAX, |s.cached|)
  {
    assert Fits(s, id);
    if s.records[id].bredrPaired || s.records[id].lePaired then s else Cache(s, id)
  }

  // ---------------------------------------------------------------- what is told about a device

  function BondsOf(reports: seq<Report>, id: nat): seq<Bond> {
    if reports == [] then []
    else
      var n := |reports| - 1;
      if reports[n].id == id then BondsOf(reports[..n], id) + [reports[n].bond] else BondsOf(reports[..n], id)
  }

  function LastOf(first: Bond, later: seq<Bond>): Bond {
    if later == [] then first else later[|later| - 1]
  }

  /** Each step is into a bonding or out of one: never from unbonded to bonded or back, and never without a change. */
  ghost predicate Smooth(first: Bond, later: seq<Bond>)
    decreases |later|
  {
    later != [] ==>
      && (LastOf(first, later[..|later| - 1]) == Bonding) != (later[|later| - 1] == Bonding)
      && Smooth(first, later[..|later| - 1])
  }

  /** What was told about a device so far goes in smooth steps and ends with its present bond. */
  ghost predicate ToldOf(s: Devices, id: nat)
    requires id in s.birth
  {
    && Smooth(s.birth[id], BondsOf(s.reports, id))
    && (id in s.records ==> LastOf(s.birth[id], BondsOf(s.reports, id)) == BondOf(s.records[id]))
  }

  ghost predicate Told(s: Devices) {
    && (forall id <- s.birth :: id < s.created && ToldOf(s, id))
    && (forall r <- s.reports :: r.id in s.birth)
  }

  lemma BondsSnoc(reports: seq<Report>, r: Report, id: nat)
    ensures BondsOf(reports + [r], id) ==
      if r.id == id then BondsOf(reports, id) + [r.bond] else BondsOf(reports, id)
  {
    assert (reports + [r])[..|reports|] == reports;
  }

  lemma SmoothSnoc(first: Bond, later: seq<Bond>, next: Bond)
    requires Smooth(first, later) && (LastOf(first, later) == Bonding) != (next == Bonding)
    ensures Smooth(first, later + [next])
  {
    assert (later + [next])[..|later|] == later;
  }

  lemma {:induction false} NothingTold(reports: seq<Report>, id: nat)
    requires forall r <- reports :: r.id != id
    ensures BondsOf(reports, id) == []
  {
    if reports != [] {
      NothingTold(reports[..|reports| - 1], id);
    }
  }

  lemma OneReport(reports: seq<Report>, r: Report, first: Bond)
    requires Smooth(first, BondsOf(reports, r.id)) && (LastOf(first, BondsOf(reports, r.id)) == Bonding) != (r.bond == Bonding)
    ensures Smooth(first, BondsOf(reports + [r], r.id)) && LastOf(first, BondsOf(reports + [r], r.id)) == r.bond
  {
    BondsSnoc(reports, r, r.id);
    SmoothSnoc(first, BondsOf(reports, r.id), r.bond);
  }

  /** One change of a bond is told in smooth steps. */
  lemma ReportedIsSmooth(reports: seq<Report>, id: nat, status: nat, before: Bond, after: Bond, first: Bond)
    requires Smooth(first, BondsOf(reports, id)) && LastOf(first, BondsOf(reports, id)) == before
    ensures var told := BondsOf(reports + Reported(id, status, before, after), id);
      Smooth(first, told) && LastOf(first, told) == after
  {
    if before == after {
      assert reports + [] == reports;
    } else if before == Bonding || after == Bonding {
      OneReport(reports, Report(id, status, after), first);
    } else {
      var once, twice := Report(id, SUCCESS, Bonding), Report(id, status, after);
      OneReport(reports, once, first);
      OneReport(reports + [once], twice, first);
      assert (reports + [once]) + [twice] == reports + [once, twice];
    }
  }

  /** It is told to nobody else's account. */
  lemma ReportedOfOthers(reports: seq<Report>, id: nat, status: nat, before: Bond, after: Bond, other: nat)
    requires other != id
    ensures BondsOf(reports + Reported(id, status, before, after), other) == BondsOf(reports, other)
  {
    if before == after {
      assert reports + [] == reports;
    } else if before == Bonding || after == Bonding {
      BondsSnoc(reports, Report(id, status, after), other);
    } else {
      var once, twice := Report(id, SUCCESS, Bonding), Report(id, status, after);
      BondsSnoc(reports, once, other);
      BondsSnoc(reports + [once], twice, other);
      assert (reports + [once]) + [twice] == reports + [once, twice];
    }
  }

  lemma TellingIsTold(s: Devices, t: Devices, id: nat, status: nat)
    requires Told(s) && id in s.records && id in s.birth && id in t.records
    requires t == s.(cached := t.cached, bonded := t.bonded, records := t.records)
    requires forall x <- t.records :: x in s.records && (x != id ==> t.records[x] == s.records[x])
    ensures Told(t.(reports := t.reports + Reported(id, status, BondOf(s.records[id]), BondOf(t.records[id]))))
  {
    var before, after := BondOf(s.records[id]), BondOf(t.records[id]);
    var r := t.(reports := t.reports + Reported(id, status, before, after));
    assert ToldOf(s, id);
    forall x | x in r.birth ensures x < r.created && ToldOf(r, x) {
      assert ToldOf(s, x);
      if x == id {
        ReportedIsSmooth(s.reports, id, status, before, after, s.birth[id]);
      } else {
        ReportedOfOthers(s.reports, id, status, before, after, x);
      }
    }
  }

  lemma UpdateIsTold(s: Devices, id: nat, b: Bearer, status: nat, pairing: bool, paired: bool, bonded: bool)
    requires Sound(s) && Told(s) && id in s.records
    ensures Told(UpdateDevice(s, id, b, status, pairing, paired, bonded))
  {
    assert Fits(s, id);
    TellingIsTold(s, UpdateBearer(s, id, b, pairing, paired, bonded), id, status);
  }

  lemma CacheIsTold(s: Devices, id: nat)
    requires ListedBut(s, id) && Told(s)
    ensures Told(Cache(s, id))
  {
    var r := Cache(s, id);
    forall x | x in r.birth ensures x < r.created && ToldOf(r, x) {
      assert ToldOf(s, x);
    }
  }

  lemma CreateIsTold(s: Devices)
    requires Sound(s) && Told(s)
    ensures Told(Create(s))
  {
    var id := s.created;
    assert id !in s.records by { assert forall x <- s.records :: Fits(s, x); }
    var t := s.(records := s.records[id := UNKNOWN], birth := s.birth[id := Unbonded], created := id + 1);
    NothingTold(s.reports, id);
    forall x | x in t.birth ensures x < t.created && ToldOf(t, x) {
      assert x != id ==> ToldOf(s, x);
    }
    CacheIsTold(t, id);
  }

  // ---------------------------------------------------------------- runs

  datatype DeviceEvent =
    | Update(id: nat, bearer: Bearer, status: nat, pairing: bool, paired: bool, bonded: bool)
    | Sighting(id: nat)
    | NewSighting

  function DeviceStep(s: Devices, e: DeviceEvent): (r: Devices)
    requires Sound(s)
    ensures Sound(r) && |r.cached| <= Max(CACHE_MAX, |s.cached|)
  {
    match e
    case Update(id, b, status, pairing, paired, bonded) =>
      if id in s.records then UpdateDevice(s, id, b, status, pairing, paired, bonded) else s
    case Sighting(id) => if id in s.records then Seen(s, id) else s
    case NewSighting => Create(s)
  }

  function DeviceRun(s: Devices, events: seq<DeviceEvent>): (r: Devices)
    requires Sound(s)
    ensures Sound(r) && |r.cached| <= Max(CACHE_MAX, |s.cached|)
    decreases |events|
  {
    if events == [] then s else DeviceRun(DeviceStep(s, events[0]), events[1..])
  }

  lemma {:induction false} RunIsTold(s: Devices, events: seq<DeviceEvent>)
    requires Sound(s) && Told(s)
    ensures Told(DeviceRun(s, events))
    decreases |events|
  {
    if events != [] {
      match events[0] {
        case Update(id, b, status, pairing, paired, bonded) =>
          if id in s.records {
            UpdateIsTold(s, id, b, status, pairing, paired, bonded);
          }
        case Sighting(id) =>
          if id in s.records {
            assert Fits(s, id);
            if !s.records[id].bredrPaired && !s.records[id].lePaired {
              CacheIsTold(s, id);
            }
          }
        case NewSighting => CreateIsTold(s);
      }
      RunIsTold(DeviceStep(s, events[0]), events[1..]);
    }
  }

  /** What is loaded at the start: paired devices in the bonded list, others in the cache, of whatever length. */
  ghost predicate Loaded(s: Devices) {
    && Sound(s) && s.reports == []
    && (forall id <- s.birth :: id < s.created)
    && (forall id <- s.records :: s.birth[id] == BondOf(s.records[id]))
  }

  /** Over every run: each device is in exactly one list, and in the bonded one exactly when it is paired; a bonded
      bearer is paired; the cache does not outgrow its bound or what was loaded; and what is told of each device goes in
      smooth steps and ends with its bond. */
  lemma RunsKeepBonds(s: Devices, events: seq<DeviceEvent>)
    requires Loaded(s)
    ensures var r := DeviceRun(s, events);
      && Listed(r) && (forall id <- r.records :: Fits(r, id))
      && |r.cached| <= Max(CACHE_MAX, |s.cached|)
      && (forall id <- r.records :: ToldOf(r, id))
  {
    forall id | id in s.birth ensures ToldOf(s, id) {
      assert id in s.records ==> Fits(s, id);
    }
    RunIsTold(s, events);
    var r := DeviceRun(s, events);
    forall id | id in r.records ensures Fits(r, id) && ToldOf(r, id) {
      assert Fits(r, id);
    }
  }

  /** What each event of a run does: an update of a live device its update, and a device that is seen goes to the front
      of the cache unless it is paired on either bearer. */
  lemma SightingCaches(s: Devices, id: nat)
    requires Sound(s)
    ensures var r := DeviceStep(s, Sighting(id));
      if id in s.records && !s.records[id].bredrPaired && !s.records[id].lePaired then
        && r.cached != [] && r.cached[0] == id && id in r.records
        && r.bonded == s.bonded && r.reports == s.reports
        && forall x <- r.records :: x in s.records && r.records[x] == s.records[x]
      else r == s
  {
    if id in s.records {
      assert Fits(s, id);
      if !s.records[id].bredrPaired && !s.records[id].lePaired {
        CacheIsRecentFirst(s, id);
      }
    }
  }

  /** A device that nobody knows is created with all flags clear, in front of the cache; nothing is told of it. */
  lemma NewSightingCreates(s: Devices)
    requires Sound(s)
    ensures var r, id := DeviceStep(s, NewSighting), s.created;
      && id !in s.records && id in r.records && r.created == id + 1
      && !r.records[id].pairing && !r.records[id].bredrPaired && !r.records[id].bredrBonded
      && !r.records[id].lePaired && !r.records[id].leBonded
      && r.cached != [] && r.cached[0] == id && r.bonded == s.bonded && r.reports == s.reports
      && forall x <- r.records :: x != id ==> x in s.records && r.records[x] == s.records[x]
  {
    var id := s.created;
    assert id !in s.records by { assert forall x <- s.records :: Fits(s, x); }
    CacheIsRecentFirst(s.(records := s.records[id := UNKNOWN], birth := s.birth[id := Unbonded], created := id + 1), id);
  }

  /** Over every run: what was told last of a live device is a bonding exactly while a pairing is under way, and else that
      it is bonded exactly if either bearer is paired. */
  lemma LastToldIsTrue(s: Devices, events: seq<DeviceEvent>, id: nat)
    requires Loaded(s) && id in DeviceRun(s, events).records
    ensures var r := DeviceRun(s, events);
      && id in r.birth
      && var d, told := r.records[id], LastOf(r.birth[id], BondsOf(r.reports, id));
        && (told == Bonding <==> d.pairing)
        && (told == Bonded <==> !d.pairing && (d.bredrPaired || d.lePaired))
        && (told == Unbonded <==> !d.pairing && !d.bredrPaired && !d.lePaired)
  {
    RunsKeepBonds(s, events);
    assert Fits(DeviceRun(s, events), id);
  }

  // ---------------------------------------------------------------- when a bearer is bonded

  /** The event says that this bearer is bonded, and takes effect: it is not refused because the bearer is paired. */
  predicate Notes(s: Devices, e: DeviceEvent, id: nat, b: Bearer) {
    e.Update? && e.id == id && e.bearer == b && e.bonded && id in s.records
    && var d := s.records[id];
      !((if b == BrEdr then d.bredrPaired else d.lePaired) && (e.pairing || (!e.paired && d.pairing)))
  }

  predicate HasPaired(s: Devices, id: nat, b: Bearer) {
    id in s.records && (if b == BrEdr then s.records[id].bredrPaired else s.records[id].lePaired)
  }

  predicate HasBonded(s: Devices, id: nat, b: Bearer) {
    id in s.records && (if b == BrEdr then s.records[id].bredrBonded else s.records[id].leBonded)
  }

  lemma BondedUpdate(s: Devices, x: nat, c: Bearer, pairing: bool, paired: bool, bonded: bool, id: nat, b: Bearer)
    requires Sound(s) && x in s.records && id in UpdateBearer(s, x, c, pairing, paired, bonded).records
    ensures var r := UpdateBearer(s, x, c, pairing, paired, bonded);
      HasBonded(r, id, b) <==>
        HasPaired(r, id, b) && (HasBonded(s, id, b) || Notes(s, Update(x, c, 0, pairing, paired, bonded), id, b))
  {
    assert Fits(s, x) && Fits(s, id);
    if c == BrEdr {
      BredrFlags(s, x, pairing, paired, bonded);
    } else {
      LeFlags(s, x, pairing, paired, bonded);
    }
  }

  /** One event: a bearer is bonded after it if it is paired and was bonded or the event notes it. */
  lemma BondedNext(s: Devices, e: DeviceEvent, id: nat, b: Bearer)
    requires Sound(s) && id in DeviceStep(s, e).records
    ensures var r := DeviceStep(s, e);
      HasBonded(r, id, b) <==> HasPaired(r, id, b) && (HasBonded(s, id, b) || Notes(s, e, id, b))
  {
    if id in s.records {
      assert Fits(s, id);
    }
    match e
    case Update(x, c, status, pairing, paired, bonded) =>
      if x in s.records {
        BondedUpdate(s, x, c, pairing, paired, bonded, id, b);
        var u := UpdateBearer(s, x, c, pairing, paired, bonded);
        assert DeviceStep(s, e).records == u.records;
      }
    case Sighting(x) => SightingCaches(s, x);
    case NewSighting => NewSightingCreates(s);
  }

  /** The state after the first `n` events of a run. */
  function After(s: Devices, events: seq<DeviceEvent>, n: nat): (r: Devices)
    requires Sound(s) && n <= |events|
    ensures Sound(r)
  {
    DeviceRun(s, events[..n])
  }

  lemma {:induction false} AfterNext(s: Devices, events: seq<DeviceEvent>, n: nat)
    requires Sound(s) && n < |events|
    ensures After(s, events, n + 1) == DeviceStep(After(s, events, n), events[n])
    decreases n
  {
    if n == 0 {
      assert events[..1] == [events[0]] && events[..0] == [];
      assert DeviceRun(DeviceStep(s, events[0]), []) == DeviceStep(s, events[0]);
    } else {
      AfterNext(DeviceStep(s, events[0]), events[1..], n - 1);
      assert events[..n][1..] == events[1..][..n - 1] && events[..n + 1][1..] == events[1..][..n];
    }
  }

  /** Bonded when loaded, or noted as bonded by the event before. */
  predicate NotedAt(s: Devices, events: seq<DeviceEvent>, i: nat, id: nat, b: Bearer)
    requires Sound(s) && i <= |events|
  {
    if i == 0 then HasBonded(s, id, b) else Notes(After(s, events, i - 1), events[i - 1], id, b)
  }

  ghost predicate PairedSince(s: Devices, events: seq<DeviceEvent>, i: nat, n: nat, id: nat, b: Bearer)
    requires Sound(s) && n <= |events|
  {
    forall j :: i <= j <= n ==> HasPaired(After(s, events, j), id, b)
  }

  ghost predicate NotedSince(s: Devices, events: seq<DeviceEvent>, n: nat, id: nat, b: Bearer)
    requires Sound(s) && n <= |events|
  {
    exists i :: 0 <= i <= n && NotedAt(s, events, i, id, b) && PairedSince(s, events, i, n, id, b)
  }

  lemma {:induction false} BondedWhenNoted(s: Devices, events: seq<DeviceEvent>, n: nat, id: nat, b: Bearer)
    requires Sound(s) && n <= |events|
    ensures HasBonded(After(s, events, n), id, b) <==> NotedSince(s, events, n, id, b)
    decreases n
  {
    if n == 0 {
      BondedAtStart(s, events, id, b);
    } else {
      BondedWhenNoted(s, events, n - 1, id, b);
      AfterNext(s, events, n - 1);
      if HasBonded(After(s, events, n), id, b) {
        BondedIsNoted(s, events, n, id, b);
      }
      if NotedSince(s, events, n, id, b) {
        NotedIsBonded(s, events, n, id, b);
      }
    }
  }

  lemma BondedAtStart(s: Devices, events: seq<DeviceEvent>, id: nat, b: Bearer)
    requires Sound(s)
    ensures HasBonded(After(s, events, 0), id, b) <==> NotedSince(s, events, 0, id, b)
  {
    assert After(s, events, 0) == s;
    if HasBonded(s, id, b) {
      assert Fits(s, id);
      assert NotedAt(s, events, 0, id, b) && PairedSince(s, events, 0, 0, id, b);
    }
  }

  lemma BondedIsNoted(s: Devices, events: seq<DeviceEvent>, n: nat, id: nat, b: Bearer)
    requires Sound(s) && 0 < n <= |events| && After(s, events, n) == DeviceStep(After(s, events, n - 1), events[n - 1])
    requires HasBonded(After(s, events, n - 1), id, b) ==> NotedSince(s, events, n - 1, id, b)
    requires HasBonded(After(s, events, n), id, b)
    ensures NotedSince(s, events, n, id, b)
  {
    BondedNext(After(s, events, n - 1), events[n - 1], id, b);
    if HasBonded(After(s, events, n - 1), id, b) {
      var i :| 0 <= i <= n - 1 && NotedAt(s, events, i, id, b) && PairedSince(s, events, i, n - 1, id, b);
      assert PairedSince(s, events, i, n, id, b);
    } else {
      assert NotedAt(s, events, n, id, b) && PairedSince(s, events, n, n, id, b);
    }
  }

  lemma NotedIsBonded(s: Devices, events: seq<DeviceEvent>, n: nat, id: nat, b: Bearer)
    requires Sound(s) && 0 < n <= |events| && After(s, events, n) == DeviceStep(After(s, events, n - 1), events[n - 1])
    requires NotedSince(s, events, n - 1, id, b) ==> HasBonded(After(s, events, n - 1), id, b)
    requires NotedSince(s, events, n, id, b)
    ensures HasBonded(After(s, events, n), id, b)
  {
    var i :| 0 <= i <= n && NotedAt(s, events, i, id, b) && PairedSince(s, events, i, n, id, b);
    assert HasPaired(After(s, events, n), id, b);
    BondedNext(After(s, events, n - 1), events[n - 1], id, b);
    if i < n {
      assert PairedSince(s, events, i, n - 1, id, b);
    }
  }

  /** Over every run: a bearer of a device is bonded exactly if it has been paired without a break since it was loaded as
      bonded, or since an update that took effect said it is bonded. */
  lemma BondedExactlyWhen(s: Devices, events: seq<DeviceEvent>, id: nat, b: Bearer)
    requires Sound(s)
    ensures HasBonded(DeviceRun(s, events), id, b) <==> NotedSince(s, events, |events|, id, b)
  {
    assert events[..|events|] == events;
    BondedWhenNoted(s, events, |events|, id, b);
  }
}
