/** The registry over whole runs: where each part of a stored device comes from. */
module RegistryRuns {
  import opened Domain
  import opened Registry

  /** Any interleaving of reloads, registrations, updates and removals, in lock order. */
  function Replay(log: seq<Event>): Devices {
    if log == [] then map[] else Apply(Replay(log[..|log| - 1]), log[|log| - 1])
  }

  lemma {:induction false} ReplayKeyed(log: seq<Event>)
    ensures Keyed(Replay(log))
  {
    if log != [] {
      ReplayKeyed(log[..|log| - 1]);
      ApplyKeyed(Replay(log[..|log| - 1]), log[|log| - 1]);
    }
  }

  /** Whatever is stored has an id, an address and a port in range, under its own id. */
  lemma StoredIsUsable(log: seq<Event>, id: string)
    requires id in Replay(log)
    ensures var c := Replay(log)[id].config; c.id == id != "" && c.ip != "" && 1 <= c.port <= 65535
  {
    ReplayKeyed(log);
  }

  /** A registration stores the device as given, exactly when its id is absent and it has an id, an
      address and a port in range. */
  lemma RegisteredExactly(log: seq<Event>, d: Device)
    ensures Replay(log + [Registered(d)]) ==
            if d.config.id !in Replay(log) && d.config.id != "" && d.config.ip != "" && 1 <= d.config.port <= 65535
            then Replay(log)[d.config.id := d] else Replay(log)
  {
    ReplayStep(log, Registered(d));
  }

  /** A reload stores exactly the ids listed with an address and a port in range. */
  lemma ReloadedExactly(log: seq<Event>, list: seq<Device>, id: string)
    ensures id in Replay(log + [Reloaded(list)]) <==>
            id != "" && exists d :: d in list && d.config.id == id && d.config.ip != "" && 1 <= d.config.port <= 65535
  {
    ReplayStep(log, Reloaded(list));
    LoadedEntry(Replay(log), list, id);
    if Lists(list, id) {
      var i :| 0 <= i < |list| && EntryFor(list[i], id);
      assert list[i] in list;
    }
    if id != "" && exists d :: d in list && d.config.id == id && d.config.ip != "" && 1 <= d.config.port <= 65535 {
      var d :| d in list && d.config.id == id && d.config.ip != "" && 1 <= d.config.port <= 65535;
      var i :| 0 <= i < |list| && list[i] == d;
      assert EntryFor(list[i], id);
    }
  }

  lemma ReplayStep(log: seq<Event>, e: Event)
    ensures Replay(log + [e]) == Apply(Replay(log), e)
  {
    assert (log + [e])[..|log|] == log;
  }

  // ---------- what an event offers ----------

  predicate EntryFor(d: Device, id: string) {
    d.config.id == id && ValidDevice(d.config)
  }

  predicate Lists(list: seq<Device>, id: string) {
    exists i :: 0 <= i < |list| && EntryFor(list[i], id)
  }

  /** The last valid entry of the list under this id. */
  ghost predicate LastValid(list: seq<Device>, id: string, d: Device) {
    exists i :: 0 <= i < |list| && list[i] == d && EntryFor(d, id) && forall j :: i < j < |list| ==> !EntryFor(list[j], id)
  }

  /** The event brings `id` into the registry with device `d`: a reload that lists it, with its last
      valid entry; or a valid registration while the id is absent. */
  ghost predicate Brings(m: Devices, e: Event, id: string, d: Device) {
    match e
    case Reloaded(list) => LastValid(list, id, d)
    case Registered(r) => r == d && EntryFor(d, id) && id !in m
    case _ => false
  }

  lemma {:induction false} LoadedEntry(known: Devices, list: seq<Device>, id: string)
    ensures id in Loaded(known, list) <==> Lists(list, id)
    ensures Lists(list, id) ==> exists d :: LastValid(list, id, d)
    ensures forall d :: LastValid(list, id, d) ==> Lists(list, id) && Loaded(known, list)[id] == Merged(known, d)
  {
    if list != [] {
      var n := |list| - 1;
      var rest, last := list[..n], list[n];
      LoadedEntry(known, rest, id);
      assert list == rest + [last];
      if EntryFor(last, id) {
        LastValidLast(rest, last, id);
        assert LastValid(list, id, last);
      } else {
        ListsPrefix(rest, last, id);
        forall d
          ensures LastValid(list, id, d) <==> LastValid(rest, id, d)
        {
          LastValidPrefix(rest, last, id, d);
        }
      }
    }
  }

  lemma LastValidLast(rest: seq<Device>, last: Device, id: string)
    requires EntryFor(last, id)
    ensures Lists(rest + [last], id) && forall d :: LastValid(rest + [last], id, d) <==> d == last
  {
    var list := rest + [last];
    assert list[|rest|] == last;
    assert LastValid(list, id, last);
  }

  lemma ListsPrefix(rest: seq<Device>, last: Device, id: string)
    requires !EntryFor(last, id)
    ensures Lists(rest + [last], id) <==> Lists(rest, id)
  {
    var list := rest + [last];
    if Lists(rest, id) {
      var i :| 0 <= i < |rest| && EntryFor(rest[i], id);
      assert EntryFor(list[i], id);
    }
  }

  lemma LastValidPrefix(rest: seq<Device>, last: Device, id: string, d: Device)
    requires !EntryFor(last, id)
    ensures LastValid(rest + [last], id, d) <==> LastValid(rest, id, d)
  {
    var list := rest + [last];
    if LastValid(rest, id, d) {
      var i :| 0 <= i < |rest| && rest[i] == d && EntryFor(d, id) && forall j :: i < j < |rest| ==> !EntryFor(rest[j], id);
      assert list[i] == d && forall j :: i < j < |list| ==> !EntryFor(list[j], id);
    }
    if LastValid(list, id, d) {
      var i :| 0 <= i < |list| && list[i] == d && EntryFor(d, id) && forall j :: i < j < |list| ==> !EntryFor(list[j], id);
      assert rest[i] == d && forall j :: i < j < |rest| ==> list[j] == rest[j];
    }
  }

  /** How one event bears on one id: it is there afterwards exactly when the event brings it, or it
      was there and the event neither reloads without it nor removes it. */
  lemma ApplyAt(m: Devices, e: Event, id: string)
    requires Keyed(m)
    ensures var after := Apply(m, e);
            && (id in after <==>
                  (exists d :: Brings(m, e, id, d)) || (id in m && !e.Reloaded? && e != Removed(id)))
            && (forall d :: Brings(m, e, id, d) ==>
                  id in after && after[id].config == d.config && after[id].telemetry == d.telemetry)
            && (id in m && !e.Reloaded? && e != Removed(id) ==>
                  after[id].config == m[id].config && after[id].telemetry == m[id].telemetry)
  {
    match e
    case Reloaded(list) =>
      LoadedEntry(m, list, id);
      if Lists(list, id) {
        var d :| LastValid(list, id, d);
        assert Brings(m, e, id, d);
      }
    case Registered(r) =>
      if EntryFor(r, id) && id !in m {
        assert Brings(m, e, id, r);
      }
    case Updated(_) =>
    case Removed(_) =>
  }

  // ---------- configuration ----------

  /** The configuration origin of an id: the event that brought it in, with nothing after it that
      reloads the map or removes the id. */
  ghost predicate Origin(log: seq<Event>, o: int, id: string, d: Device) {
    && 0 <= o < |log| && Brings(Replay(log[..o]), log[o], id, d)
    && forall j :: o < j < |log| ==> !log[j].Reloaded? && log[j] != Removed(id)
  }

  lemma OriginStep(log: seq<Event>, e: Event, o: int, id: string, d: Device)
    ensures Origin(log + [e], o, id, d) <==>
            if o == |log| then Brings(Replay(log), e, id, d)
            else Origin(log, o, id, d) && !e.Reloaded? && e != Removed(id)
  {
    if 0 <= o <= |log| {
      EarlierPart(log, e, o);
      assert log[..|log|] == log;
    }
  }

  ghost predicate HasOrigin(log: seq<Event>, id: string) {
    exists o, d :: Origin(log, o, id, d)
  }

  /** Some origin of the id offered exactly this configuration and telemetry, and no other does. */
  ghost predicate ConfiguredBy(log: seq<Event>, id: string, now: Device) {
    forall o, d :: Origin(log, o, id, d) ==> now.config == d.config && now.telemetry == d.telemetry
  }

  /** An id is stored exactly when it has an origin, and its configuration and telemetry are those
      its origin offered: the last valid entry of the latest load, or a later registration. */
  lemma {:induction false} ConfigurationOrigin(log: seq<Event>, id: string)
    ensures id in Replay(log) <==> HasOrigin(log, id)
    ensures id in Replay(log) ==> ConfiguredBy(log, id, Replay(log)[id])
  {
    if log != [] {
      var n := |log| - 1;
      var before, e := log[..n], log[n];
      assert log == before + [e];
      ConfigurationOrigin(before, id);
      ReplayKeyed(before);
      ApplyAt(Replay(before), e, id);
      forall o, d
        ensures Origin(log, o, id, d) <==>
                if o == n then Brings(Replay(before), e, id, d)
                else Origin(before, o, id, d) && !e.Reloaded? && e != Removed(id)
      {
        OriginStep(before, e, o, id, d);
      }
      if id in Replay(log) {
        if d :| Brings(Replay(before), e, id, d) {
          assert Origin(log, n, id, d);
        } else {
          var o, d :| Origin(before, o, id, d);
          assert Origin(log, o, id, d);
        }
      }
    }
  }

  // ---------- runtime state ----------

  datatype Runtime = Runtime(status: Status, lastSeen: int, metadata: Option<map<string, string>>)

  function RuntimeOf(d: Device): Runtime {
    Runtime(d.status, d.lastSeen, d.metadata)
  }

  predicate Updates(e: Event, id: string) {
    e.Updated? && e.device.config.id == id
  }

  /** The updates of one id, folded over a starting state; every other event is ignored. */
  function Tracked(events: seq<Event>, id: string, start: Runtime): Runtime {
    if events == [] then start
    else
      var so := Tracked(events[..|events| - 1], id, start);
      var e := events[|events| - 1];
      if !Updates(e, id) then so
      else Runtime(e.device.status, e.device.lastSeen, if e.device.metadata.Some? then e.device.metadata else so.metadata)
  }

  /** The last update decides status and last-seen time, and metadata if it carries any. */
  lemma {:induction false} LastUpdateWins(events: seq<Event>, u: nat, id: string, start: Runtime)
    requires u < |events| && Updates(events[u], id)
    requires forall j :: u < j < |events| ==> !Updates(events[j], id)
    ensures var now := Tracked(events, id, start);
            && now.status == events[u].device.status && now.lastSeen == events[u].device.lastSeen
            && (events[u].device.metadata.Some? ==> now.metadata == events[u].device.metadata)
  {
    if u < |events| - 1 {
      LastUpdateWins(events[..|events| - 1], u, id, start);
    }
  }

  /** The state a device has when it appears: as listed but unknown, or as registered. */
  function InitialRuntime(e: Event, d: Device): Runtime {
    RuntimeOf(d).(status := if e.Reloaded? then Unknown else d.status)
  }

  predicate Keeps(e: Event, id: string) {
    e != Removed(id) && (e.Reloaded? ==> Lists(e.list, id))
  }

  /** The appearance of an id: it was absent just before and has been present ever since. */
  ghost predicate Appeared(log: seq<Event>, s: int, id: string, d: Device) {
    && 0 <= s < |log| && id !in Replay(log[..s]) && Brings(Replay(log[..s]), log[s], id, d)
    && forall j :: s < j < |log| ==> Keeps(log[j], id)
  }

  lemma AppearedStep(log: seq<Event>, e: Event, s: int, id: string, d: Device)
    ensures Appeared(log + [e], s, id, d) <==>
            if s == |log| then id !in Replay(log) && Brings(Replay(log), e, id, d)
            else Appeared(log, s, id, d) && Keeps(e, id)
  {
    if 0 <= s <= |log| {
      EarlierPart(log, e, s);
      assert log[..|log|] == log;
    }
  }

  ghost predicate HasAppeared(log: seq<Event>, id: string) {
    exists s, d :: Appeared(log, s, id, d)
  }

  ghost predicate RunsOn(log: seq<Event>, id: string, now: Device) {
    forall s, d :: Appeared(log, s, id, d) ==>
      RuntimeOf(now) == Tracked(log[s + 1..], id, InitialRuntime(log[s], d))
  }

  /** An id is stored exactly when it has appeared and stayed; its status, last-seen time and
      metadata are then its updates since the appearance, folded over the state it appeared with.
      Reloads in between, and everything before, leave no trace in them. */
  lemma {:induction false} RuntimeOrigin(log: seq<Event>, id: string)
    ensures id in Replay(log) <==> HasAppeared(log, id)
    ensures id in Replay(log) ==> RunsOn(log, id, Replay(log)[id])
  {
    if log != [] {
      var n := |log| - 1;
      var before, e := log[..n], log[n];
      assert log == before + [e];
      RuntimeOrigin(before, id);
      ReplayKeyed(before);
      RuntimeAt(Replay(before), e, id);
      forall s, d
        ensures Appeared(log, s, id, d) <==>
                if s == n then id !in Replay(before) && Brings(Replay(before), e, id, d)
                else Appeared(before, s, id, d) && Keeps(e, id)
      {
        AppearedStep(before, e, s, id, d);
      }
      if id in Replay(log) {
        if id in Replay(before) {
          var s, d :| Appeared(before, s, id, d);
          assert Appeared(log, s, id, d);
        } else {
          var d :| Brings(Replay(before), e, id, d);
          assert Appeared(log, n, id, d);
        }
        RunsOnStep(before, e, id);
      }
    }
  }

  lemma RunsOnStep(log: seq<Event>, e: Event, id: string)
    requires id in Replay(log) <==> HasAppeared(log, id)
    requires id in Replay(log) ==> RunsOn(log, id, Replay(log)[id])
    requires id in Replay(log + [e])
    ensures RunsOn(log + [e], id, Replay(log + [e])[id])
  {
    var longer, n := log + [e], |log|;
    ReplayStep(log, e);
    ReplayKeyed(log);
    RuntimeAt(Replay(log), e, id);
    forall s, d | Appeared(longer, s, id, d)
      ensures RuntimeOf(Replay(longer)[id]) == Tracked(longer[s + 1..], id, InitialRuntime(longer[s], d))
    {
      AppearedStep(log, e, s, id, d);
      if s < n {
        var start := InitialRuntime(log[s], d);
        assert RuntimeOf(Replay(log)[id]) == Tracked(log[s + 1..], id, start);
        LaterPart(log, e, s + 1);
        TrackedStep(log[s + 1..], e, id, start);
      } else {
        assert longer[s + 1..] == [];
      }
    }
  }

  lemma LaterPart(log: seq<Event>, e: Event, from: nat)
    requires from <= |log|
    ensures (log + [e])[from..] == log[from..] + [e]
  {
  }

  lemma EarlierPart(log: seq<Event>, e: Event, to: nat)
    requires to <= |log|
    ensures (log + [e])[..to] == log[..to] && (to < |log| ==> (log + [e])[to] == log[to])
    ensures forall j :: 0 <= j < |log| ==> (log + [e])[j] == log[j]
    ensures (log + [e])[|log|] == e
  {
  }

  lemma TrackedStep(events: seq<Event>, e: Event, id: string, start: Runtime)
    ensures Tracked(events + [e], id, start) == Tracked([e], id, Tracked(events, id, start))
  {
    assert (events + [e])[..|events|] == events;
    assert [e][..0] == [];
  }

  /** How one event bears on the runtime state of one id. */
  lemma RuntimeAt(m: Devices, e: Event, id: string)
    requires Keyed(m)
    ensures var after := Apply(m, e);
            && (id in after <==> if id in m then Keeps(e, id) else exists d :: Brings(m, e, id, d))
            && (id !in m ==> forall d :: Brings(m, e, id, d) ==> id in after && RuntimeOf(after[id]) == InitialRuntime(e, d))
            && (id in m && Keeps(e, id) ==> RuntimeOf(after[id]) == Tracked([e], id, RuntimeOf(m[id])))
  {
    assert [e][..0] == [];
    match e
    case Reloaded(list) =>
      LoadedEntry(m, list, id);
      if Lists(list, id) {
        var d :| LastValid(list, id, d);
        assert Brings(m, e, id, d);
      }
    case Registered(r) =>
      if EntryFor(r, id) && id !in m {
        assert Brings(m, e, id, r);
      }
    case Updated(_) =>
    case Removed(_) =>
  }

  // ---------- a worker's write-back ----------

  /** The device a worker writes back: its earlier copy with a new status and last-seen time. */
  function WriteBack(copy: Device, status: Status, lastSeen: int): Device {
    copy.(status := status, lastSeen := lastSeen)
  }

  /** A worker marks the copy it holds and hands it in. Whatever other operations ran since it got
      the copy, marking it leaves the registry as it is, and only the update shows. */
  method HandIn(registry: StaticRegistry, copy: Entry, status: Status, lastSeen: int)
    requires registry.Valid() && copy !in registry.devices.Values
    modifies copy, registry.devices.Values
    ensures registry.Valid() && registry.devices == old(registry.devices)
    ensures registry.View() == Apply(old(registry.View()), Updated(WriteBack(old(copy.Value()), status, lastSeen)))
  {
    Mark(registry, copy, status, lastSeen);
    var _ := registry.Update(copy);
  }

  method Mark(registry: StaticRegistry, copy: Entry, status: Status, lastSeen: int)
    requires registry.Valid() && copy !in registry.devices.Values
    modifies copy
    ensures registry.Valid() && registry.View() == old(registry.View())
    ensures copy.Value() == WriteBack(old(copy.Value()), status, lastSeen)
  {
    ghost var before := registry.View();
    copy.status, copy.lastSeen := status, lastSeen;
    assert registry.View() == before;
  }

  /** However the registry moved on since the copy was taken, writing it back neither resurrects nor
      drops an id, touches no configuration and no other device, and sets exactly the runtime state. */
  lemma StaleWriteBack(log: seq<Event>, since: seq<Event>, id: string, status: Status, lastSeen: int)
    requires id in Replay(log)
    ensures var copy := Replay(log)[id];
            var before := Replay(log + since);
            var after := Replay(log + since + [Updated(WriteBack(copy, status, lastSeen))]);
            && after.Keys == before.Keys
            && (forall k | k in before && k != id :: after[k] == before[k])
            && (id in before ==>
                  after[id] == before[id].(status := status, lastSeen := lastSeen,
                                           metadata := if copy.metadata.Some? then copy.metadata else before[id].metadata))
  {
    ReplayKeyed(log);
    var moved := log + since;
    var last := Updated(WriteBack(Replay(log)[id], status, lastSeen));
    assert (moved + [last])[..|moved|] == moved;
  }

  /** An update that says nothing new about a device just placed from the list: unknown, and last
      seen and described as listed. */
  predicate SaysNothingNew(update: Device, listed: Device) {
    && update.status == Unknown && update.lastSeen == listed.lastSeen
    && (update.metadata.None? || update.metadata == listed.metadata)
  }

  /** A reload and an update of one device commute exactly when the device was there before, or is
      not listed, or the update says nothing new about its last valid entry. */
  lemma ReloadUpdateCommute(m: Devices, list: seq<Device>, update: Device)
    requires Keyed(m)
    ensures var id := update.config.id;
            Apply(Apply(m, Reloaded(list)), Updated(update)) == Apply(Apply(m, Updated(update)), Reloaded(list)) <==>
            id in m || forall d :: LastValid(list, id, d) ==> SaysNothingNew(update, d)
  {
    var id := update.config.id;
    LoadedEntry(m, list, id);
    if id in m {
      PresentCommutes(m, list, update);
    } else if Lists(list, id) {
      var d :| LastValid(list, id, d);
      var loaded := Loaded(m, list);
      assert loaded[id] == d.(status := Unknown);
      NothingNew(update, d);
      LastValidOnce(list, id);
      if loaded[id := Refreshed(loaded[id], update)] == loaded {
        assert loaded[id := Refreshed(loaded[id], update)][id] == loaded[id];
      }
    }
  }

  lemma NothingNew(update: Device, d: Device)
    ensures Refreshed(d.(status := Unknown), update) == d.(status := Unknown) <==> SaysNothingNew(update, d)
  {
  }

  lemma LastValidOnce(list: seq<Device>, id: string)
    ensures forall c, d :: LastValid(list, id, c) && LastValid(list, id, d) ==> c == d
  {
  }

  lemma PresentCommutes(m: Devices, list: seq<Device>, update: Device)
    requires Keyed(m) && update.config.id in m
    ensures Apply(Loaded(m, list), Updated(update)) == Loaded(Apply(m, Updated(update)), list)
  {
    var left := Apply(Loaded(m, list), Updated(update));
    var right := Loaded(Apply(m, Updated(update)), list);
    forall k: string
      ensures k in left <==> k in right
      ensures k in left && k in right ==> left[k] == right[k]
    {
      CommuteAt(m, list, update, k);
    }
  }

  const NEWCOMER := Device(
    Config("p1", "Projector", "X", "V", "R1", "", "10.0.0.1", 4352, PJLINK, []), map[], Unknown, 0, None)

  /** The failing input: a device that only the list knows, and news of it. */
  lemma UpdateBeforeLoadIsLost()
    ensures var update := Updated(WriteBack(NEWCOMER, Online, 7));
            && Replay([Reloaded([NEWCOMER]), update]) == map["p1" := NEWCOMER.(status := Online, lastSeen := 7)]
            && Replay([update, Reloaded([NEWCOMER])]) == map["p1" := NEWCOMER]
  {
    var load, update := Reloaded([NEWCOMER]), Updated(WriteBack(NEWCOMER, Online, 7));
    assert [NEWCOMER][..0] == [] && NEWCOMER.config.id == "p1" && ValidDevice(NEWCOMER.config);
    assert Loaded(map[], [NEWCOMER]) == Placed(map[], Loaded(map[], []), NEWCOMER);
    assert Apply(map[], load) == map["p1" := NEWCOMER];
    ReplayStep([], load);
    ReplayStep([], update);
    ReplayStep([load], update);
    ReplayStep([update], load);
    assert [] + [load] == [load] && [] + [update] == [update];
    assert [load] + [update] == [load, update] && [update] + [load] == [update, load];
  }

  lemma CommuteAt(m: Devices, list: seq<Device>, update: Device, k: string)
    requires Keyed(m) && update.config.id in m
    ensures var left := Apply(Loaded(m, list), Updated(update));
            var right := Loaded(Apply(m, Updated(update)), list);
            (k in left <==> k in right) && (k in left && k in right ==> left[k] == right[k])
  {
    LoadedEntry(m, list, k);
    LoadedEntry(Apply(m, Updated(update)), list, k);
    if Lists(list, k) {
      var d :| LastValid(list, k, d);
    }
  }
}
