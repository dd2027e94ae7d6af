/** The device registry: a locked map of device records, reloaded as a whole and updated piecewise. */
module Registry {
  import opened Domain

  predicate ValidDevice(c: Config) {
    c.id != "" && c.ip != "" && 0 < c.port <= 65535
  }

  type Devices = map<string, Device>

  // ---------- the operations, as functions of the map ----------

  /** The listed device as it is stored: runtime state survives a reload, a new device is unknown. */
  function Merged(known: Devices, d: Device): Device {
    if d.config.id in known then
      var e := known[d.config.id];
      d.(status := e.status, lastSeen := e.lastSeen, metadata := e.metadata)
    else d.(status := Unknown)
  }

  /** The new map once one more listed device has been looked at; an invalid one is skipped. */
  function Placed(known: Devices, into: Devices, d: Device): Devices {
    if ValidDevice(d.config) then into[d.config.id := Merged(known, d)] else into
  }

  function Loaded(known: Devices, list: seq<Device>): Devices {
    if list == [] then map[]
    else Placed(known, Loaded(known, list[..|list| - 1]), list[|list| - 1])
  }

  function Refreshed(e: Device, update: Device): Device {
    e.(status := update.status, lastSeen := update.lastSeen,
       metadata := if update.metadata.Some? then update.metadata else e.metadata)
  }

  /** Every operation that takes the write lock. */
  datatype Event =
    | Reloaded(list: seq<Device>)
    | Registered(device: Device)
    | Updated(device: Device)
    | Removed(id: string)

  function Apply(m: Devices, e: Event): Devices {
    match e
    case Reloaded(list) => Loaded(m, list)
    case Registered(d) => if ValidDevice(d.config) && d.config.id !in m then m[d.config.id := d] else m
    case Updated(d) => if d.config.id in m then m[d.config.id := Refreshed(m[d.config.id], d)] else m
    case Removed(id) => m - {id}
  }

  /** Every key is the valid id of the device stored under it. */
  ghost predicate Keyed(m: Devices) {
    forall id | id in m :: m[id].config.id == id && ValidDevice(m[id].config)
  }

  lemma {:induction false} LoadedKeyed(known: Devices, list: seq<Device>)
    ensures Keyed(Loaded(known, list))
  {
    if list != [] {
      LoadedKeyed(known, list[..|list| - 1]);
    }
  }

  /** No operation files a device under a key that is not its valid id. */
  lemma ApplyKeyed(m: Devices, e: Event)
    requires Keyed(m)
    ensures Keyed(Apply(m, e))
  {
    if e.Reloaded? {
      LoadedKeyed(m, e.list);
    }
  }

  // ---------- the registry object ----------

  /** One device record on the heap. */
  class Entry {
    var config: Config
    var telemetry: Data
    var status: Status
    var lastSeen: int
    var metadata: Option<map<string, string>>

    function Value(): Device
      reads this
    {
      Device(config, telemetry, status, lastSeen, metadata)
    }

    constructor (d: Device)
      ensures Value() == d
    {
      config, telemetry, status, lastSeen, metadata := d.config, d.telemetry, d.status, d.lastSeen, d.metadata;
    }
  }

  ghost function Values(entries: seq<Entry>): seq<Device>
    reads entries
  {
    seq(|entries|, i requires 0 <= i < |entries| reads entries => entries[i].Value())
  }

  ghost function ViewOf(m: map<string, Entry>): Devices
    reads m.Values
  {
    map id | id in m :: m[id].Value()
  }

  lemma ViewOfUpdate(m: map<string, Entry>, id: string, e: Entry)
    ensures ViewOf(m[id := e]) == ViewOf(m)[id := e.Value()]
  {
  }

  class StaticRegistry {
    var devices: map<string, Entry>

    ghost predicate Valid()
      reads this, devices.Values
    {
      Keyed(View())
    }

    ghost function View(): Devices
      reads this, devices.Values
    {
      ViewOf(devices)
    }

    lemma StoredUnderOwnId()
      requires Valid()
      ensures forall id | id in devices :: devices[id].config.id == id
    {
      forall id | id in devices
        ensures devices[id].config.id == id
      {
        assert View()[id] == devices[id].Value();
      }
    }

    constructor ()
      ensures Valid() && View() == map[] && devices == map[]
    {
      devices := map[];
    }

    /** The decoded list replaces the whole map; its own objects become the stored ones. */
    method Reload(list: seq<Entry>)
      requires Valid()
      requires forall i, j :: 0 <= i < j < |list| ==> list[i] != list[j]
      requires forall id | id in devices :: devices[id] !in list
      modifies this, list
      ensures Valid() && View() == Apply(old(View()), Reloaded(old(Values(list))))
      ensures forall id | id in devices :: devices[id] in list
    {
      ApplyKeyed(View(), Reloaded(Values(list)));
      var newDevices := Collect(list);
      devices := newDevices;
    }

    /** The loop of a reload: the listed devices, placed one by one into a new map. */
    method Collect(list: seq<Entry>) returns (newDevices: map<string, Entry>)
      requires forall i, j :: 0 <= i < j < |list| ==> list[i] != list[j]
      requires forall id | id in devices :: devices[id] !in list
      modifies list
      ensures ViewOf(newDevices) == Loaded(old(View()), old(Values(list)))
      ensures forall id | id in newDevices :: newDevices[id] in list
    {
      ghost var known, decoded := View(), Values(list);
      newDevices := map[];
      assert ViewOf(newDevices) == map[];
      var i := 0;
      while i < |list|
        invariant i <= |list|
        invariant View() == known
        invariant forall k :: i <= k < |list| ==> list[k].Value() == decoded[k]
        invariant forall id | id in newDevices :: newDevices[id] in list[..i]
        invariant ViewOf(newDevices) == Loaded(known, decoded[..i])
      {
        assert decoded[..i + 1][..i] == decoded[..i];
        newDevices := Place(list[i], newDevices);
        i := i + 1;
      }
      assert decoded[..|list|] == decoded;
    }

    /** One listed device: skipped if invalid, otherwise added to the new map. */
    method Place(dev: Entry, into: map<string, Entry>) returns (grown: map<string, Entry>)
      requires forall id | id in devices :: devices[id] != dev
      requires forall id | id in into :: into[id] != dev
      modifies dev
      ensures forall id | id in grown :: grown[id] == dev || (id in into && grown[id] == into[id])
      ensures ViewOf(grown) == Placed(View(), old(ViewOf(into)), old(dev.Value()))
    {
      grown := into;
      if !ValidDevice(dev.config) {
        return;
      }
      ghost var was, known := ViewOf(into), View();
      Adopt(dev);
      assert ViewOf(into) == was && View() == known;
      ViewOfUpdate(into, dev.config.id, dev);
      grown := into[dev.config.id := dev];
    }

    /** A listed device takes over the runtime state of the device it replaces, if there is one. */
    method Adopt(dev: Entry)
      requires forall id | id in devices :: devices[id] != dev
      modifies dev
      ensures dev.Value() == Merged(View(), old(dev.Value()))
    {
      if dev.config.id in devices {
        var existing := devices[dev.config.id];
        dev.status, dev.lastSeen, dev.metadata := existing.status, existing.lastSeen, existing.metadata;
      } else {
        dev.status := Unknown;
      }
    }

    /** A fresh copy: changing it changes nothing in the registry. */
    method GetDevice(id: string) returns (copy: Entry?)
      requires Valid()
      ensures copy == null <==> id !in devices
      ensures copy != null ==> fresh(copy) && copy.Value() == View()[id]
    {
      if id in devices {
        copy := new Entry(devices[id].Value());
      } else {
        copy := null;
      }
    }

    /** Fresh copies of all devices, each id once, in no particular order. */
    method ListDevices() returns (list: seq<Entry>)
      requires Valid()
      ensures forall i :: 0 <= i < |list| ==> fresh(list[i]) && list[i].config.id in devices
      ensures forall i :: 0 <= i < |list| ==> list[i].Value() == View()[list[i].config.id]
      ensures forall i, j :: 0 <= i < j < |list| ==> list[i].config.id != list[j].config.id
      ensures forall id | id in devices :: exists i :: 0 <= i < |list| && list[i].config.id == id
    {
      StoredUnderOwnId();
      list := [];
      ghost var ids: seq<string> := [];
      var rest := devices.Keys;
      while rest != {}
        invariant rest <= devices.Keys && |ids| == |list|
        invariant forall i :: 0 <= i < |list| ==>
                    fresh(list[i]) && ids[i] == list[i].config.id && ids[i] in devices.Keys - rest &&
                    list[i].Value() == View()[ids[i]]
        invariant forall i, j :: 0 <= i < j < |list| ==> ids[i] != ids[j]
        invariant forall id | id in devices.Keys - rest :: id in ids
        decreases rest
      {
        var id :| id in rest;
        var copy := new Entry(devices[id].Value());
        list, ids := list + [copy], ids + [id];
        rest := rest - {id};
      }
      forall id | id in devices
        ensures exists i :: 0 <= i < |list| && list[i].config.id == id
      {
        assert id in devices.Keys - rest;
        var i :| 0 <= i < |ids| && ids[i] == id;
        assert list[i].config.id == id;
      }
    }

    method Register(dev: Entry) returns (ok: bool)
      requires Valid()
      modifies this
      ensures Valid() && View() == Apply(old(View()), Registered(dev.Value()))
      ensures ok <==> ValidDevice(dev.config) && dev.config.id !in old(devices)
      ensures forall id | id in devices :: fresh(devices[id]) || (id in old(devices) && devices[id] == old(devices)[id])
    {
      if !ValidDevice(dev.config) || dev.config.id in devices {
        return false;
      }
      var copy := new Entry(dev.Value());
      ApplyKeyed(View(), Registered(dev.Value()));
      ViewOfUpdate(devices, copy.config.id, copy);
      devices := devices[copy.config.id := copy];
      ok := true;
    }

    /** Only the runtime state of a device that is still there changes. */
    method Update(updated: Entry) returns (ok: bool)
      requires Valid()
      modifies devices.Values
      ensures Valid() && View() == Apply(old(View()), Updated(old(updated.Value())))
      ensures ok <==> old(updated.config.id) in devices
    {
      if updated.config.id !in devices {
        return false;
      }
      var existing := devices[updated.config.id];
      StoredUnderOwnId();
      ApplyKeyed(View(), Updated(updated.Value()));
      ghost var before, now := View(), Refreshed(existing.Value(), updated.Value());
      existing.status := updated.status;
      existing.lastSeen := updated.lastSeen;
      if updated.metadata.Some? {
        existing.metadata := updated.metadata;
      }
      assert existing.Value() == now;
      assert View() == before[existing.config.id := now];
      ok := true;
    }

    method Remove(id: string)
      requires Valid()
      modifies this
      ensures Valid() && View() == Apply(old(View()), Removed(id))
      ensures devices == old(devices) - {id}
    {
      ApplyKeyed(View(), Removed(id));
      ghost var before := View();
      devices := devices - {id};
      assert View() == before - {id};
    }
  }
}
