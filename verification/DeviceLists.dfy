/** The device lists as an object whose fields its methods change, each proved against the function that says what it
    does. */
module DeviceLists {
  import opened DeviceBonds
  import opened Sequences

  class Bluetooth {
    var bondedDevices: seq<nat>
    var cachedDevices: seq<nat>
    var records: map<nat, Device>
    var reports: seq<Report>
    ghost var birth: map<nat, Bond>
    var created: nat

    ghost function State(): Devices
      reads this
    {
      Devices(bondedDevices, cachedDevices, records, reports, birth, created)
    }

    constructor ()
      ensures State() == Devices([], [], map[], [], map[], 0)
    {
      bondedDevices, cachedDevices, records, reports, birth, created := [], [], map[], [], map[], 0;
    }

    method CacheDevice(id: nat)
      requires ListedBut(State(), id)
      modifies `cachedDevices, `records
      ensures State() == Cache(old(State()), id)
    {
      if id in cachedDevices {
        cachedDevices := Drop(cachedDevices, id);
      } else if |cachedDevices| >= CACHE_MAX {
        var last := |cachedDevices| - 1;
        var evicted := cachedDevices[last];
        cachedDevices := cachedDevices[..last];
        records := records - {evicted};
      }
      cachedDevices := [id] + cachedDevices;
    }

    /** The list changes of a bearer that becomes paired or unpaired. */
    method MoveDevice(id: nat, b: Bearer, paired: bool)
      requires Sound(State()) && id in records
      modifies `bondedDevices, `cachedDevices, `records
      ensures State() == Move(old(State()), id, b, paired)
    {
      assert Fits(State(), id);
      var d := records[id];
      if paired && !d.lePaired && !d.bredrPaired {
        cachedDevices := Drop(cachedDevices, id);
        bondedDevices := [id] + bondedDevices;
      } else if !paired && !IsPaired(d, Other(b)) {
        DropDrops(bondedDevices, id);
        bondedDevices := Drop(bondedDevices, id);
        CacheDevice(id);
      }
    }

    method UpdateBredrState(id: nat, pairing: bool, paired: bool, bonded: bool)
      requires Sound(State()) && id in records
      modifies `bondedDevices, `cachedDevices, `records
      ensures State() == UpdateBearer(old(State()), id, BrEdr, pairing, paired, bonded)
      ensures id in records
      ensures var d, d' := old(records[id]), records[id];
        var refused := d.bredrPaired && (pairing || (!paired && d.pairing));
        && d'.pairing == pairing && d'.lePaired == d.lePaired && d'.leBonded == d.leBonded
        && d'.bredrPaired == (if refused then d.bredrPaired else paired)
        && d'.bredrBonded == (if refused then d.bredrBonded else paired && (d.bredrBonded || bonded))
    {
      assert Fits(State(), id);
      BredrFlags(State(), id, pairing, paired, bonded);
      var d := records[id];
      if pairing == d.pairing && paired == d.bredrPaired && bonded == d.bredrBonded {
        assert records[id := d] == records;
        return;
      }
      if (pairing && d.bredrPaired) || (!pairing && !paired && d.pairing && d.bredrPaired) {
        records := records[id := d.(pairing := pairing)];
        return;
      }
      MoveDevice(id, BrEdr, paired);
      records := records[id := Flagged(d, BrEdr, pairing, paired, bonded)];
    }

    method UpdateLeState(id: nat, pairing: bool, paired: bool, bonded: bool)
      requires Sound(State()) && id in records
      modifies `bondedDevices, `cachedDevices, `records
      ensures State() == UpdateBearer(old(State()), id, LowEnergy, pairing, paired, bonded)
      ensures id in records
      ensures var d, d' := old(records[id]), records[id];
        var refused := d.lePaired && (pairing || (!paired && d.pairing));
        && d'.pairing == pairing && d'.bredrPaired == d.bredrPaired && d'.bredrBonded == d.bredrBonded
        && d'.lePaired == (if refused then d.lePaired else paired)
        && d'.leBonded == (if refused then d.leBonded else paired && (d.leBonded || bonded))
    {
      assert Fits(State(), id);
      LeFlags(State(), id, pairing, paired, bonded);
      var d := records[id];
      if pairing == d.pairing && paired == d.lePaired && bonded == d.leBonded {
        assert records[id := d] == records;
        return;
      }
      if (pairing && d.lePaired) || (!pairing && !paired && d.pairing && d.lePaired) {
        records := records[id := d.(pairing := pairing)];
        return;
      }
      MoveDevice(id, LowEnergy, paired);
      records := records[id := Flagged(d, LowEnergy, pairing, paired, bonded)];
    }

    method UpdateBondState(id: nat, status: nat, oldBond: Bond, newBond: Bond)
      modifies `reports
      ensures reports == old(reports) + Reported(id, status, oldBond, newBond)
    {
      if oldBond == newBond {
        return;
      }
      if (oldBond == Unbonded && newBond == Bonded) || (oldBond == Bonded && newBond == Unbonded) {
        reports := reports + [Report(id, SUCCESS, Bonding)];
      }
      reports := reports + [Report(id, status, newBond)];
    }

    method UpdateDeviceState(id: nat, b: Bearer, status: nat, pairing: bool, paired: bool, bonded: bool)
      requires Sound(State()) && id in records
      modifies this
      ensures State() == UpdateDevice(old(State()), id, b, status, pairing, paired, bonded)
    {
      var oldBond := BondOf(records[id]);
      if b == BrEdr {
        UpdateBredrState(id, pairing, paired, bonded);
      } else {
        UpdateLeState(id, pairing, paired, bonded);
      }
      UpdateBondState(id, status, oldBond, BondOf(records[id]));
    }

    /** A device that is not found is created and cached. */
    method NewDevice() returns (id: nat)
      requires Sound(State())
      modifies this
      ensures id == old(created) && State() == Create(old(State()))
    {
      assert forall x <- records :: Fits(State(), x);
      id := created;
      records, created := records[id := UNKNOWN], created + 1;
      birth := birth[id := Unbonded];
      CacheDevice(id);
    }

    /** A device that is found by a scan. */
    method UpdateFoundDevice(id: nat)
      requires Sound(State()) && id in records
      modifies this
      ensures State() == Seen(old(State()), id)
    {
      assert Fits(State(), id);
      if !records[id].bredrPaired && !records[id].lePaired {
        CacheDevice(id);
      }
    }
  }
}
