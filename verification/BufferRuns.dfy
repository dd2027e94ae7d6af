/** The drain buffer over whole runs: what is lost, what is delivered, and how often. */
module BufferRuns {
  import opened Buffer

  /** The committed transactions; a failed one changes nothing. A fetch scanned `k` rows of `order`. */
  datatype Event =
    | Added(timestamp: int, dataType: string, payload: string)
    | Fetched(order: seq<Row>, k: nat)
    | Expired(cutoff: int)

  /** The table, with everything that ever entered it and the two ways rows left it. */
  datatype History = History(table: Table, inserted: seq<Row>, delivered: seq<seq<Row>>, expired: set<Row>)

  ghost predicate Possible(h: History, e: Event) {
    e.Fetched? ==> IsScan(h.table.rows, e.order) && e.k <= |e.order|
  }

  ghost function Next(h: History, e: Event): History
    requires Possible(h, e)
  {
    var t := h.table;
    match e
    case Added(timestamp, dataType, payload) =>
      h.(table := Inserted(t, timestamp, dataType, payload),
         inserted := h.inserted + [Row(t.nextId, timestamp, dataType, payload)])
    case Fetched(order, k) =>
      h.(table := Drained(t, order, k), delivered := h.delivered + [order[..k]])
    case Expired(cutoff) =>
      h.(table := t.(rows := Remaining(t.rows, OlderThan(cutoff))),
         expired := h.expired + set r | r in t.rows && Deletes(OlderThan(cutoff), r))
  }

  ghost predicate Plausible(run: seq<Event>)
    decreases |run|, 0
  {
    run == [] || (Plausible(run[..|run| - 1]) && Possible(After(run[..|run| - 1]), run[|run| - 1]))
  }

  ghost function After(run: seq<Event>): History
    requires Plausible(run)
    decreases |run|, 1
  {
    if run == [] then History(EMPTY, [], [], {})
    else Next(After(run[..|run| - 1]), run[|run| - 1])
  }

  /** All rows fetched so far, in the order in which they were handed out. */
  function Flat(delivered: seq<seq<Row>>): seq<Row> {
    if delivered == [] then [] else Flat(delivered[..|delivered| - 1]) + delivered[|delivered| - 1]
  }

  lemma FlatAppend(delivered: seq<seq<Row>>, batch: seq<Row>)
    ensures Flat(delivered + [batch]) == Flat(delivered) + batch
  {
    assert (delivered + [batch])[..|delivered|] == delivered;
  }

  /** Ids number the insertions, and every row in the table or handed out was inserted. */
  ghost predicate Consistent(h: History) {
    && ValidTable(h.table)
    && h.table.nextId == |h.inserted| + 1
    && (forall i :: 0 <= i < |h.inserted| ==> h.inserted[i].id == i + 1)
    && (forall r | r in h.table.rows :: r in h.inserted)
    && (forall r | r in Flat(h.delivered) :: r in h.inserted)
  }

  lemma NextConsistent(h: History, e: Event)
    requires Consistent(h) && Possible(h, e)
    ensures Consistent(Next(h, e))
  {
    var t := h.table;
    match e
    case Added(_, _, _) =>
    case Fetched(order, k) =>
      ScanMembers(t.rows, order);
      FlatAppend(h.delivered, order[..k]);
      if k > 0 {
        RemainingMembers(t.rows, UpTo(order[k - 1].id));
        RemainingOrdered(t.rows, UpTo(order[k - 1].id));
      }
    case Expired(cutoff) =>
      RemainingMembers(t.rows, OlderThan(cutoff));
      RemainingOrdered(t.rows, OlderThan(cutoff));
  }

  lemma {:induction false} RunsAreConsistent(run: seq<Event>)
    requires Plausible(run)
    ensures Consistent(After(run))
  {
    if run != [] {
      RunsAreConsistent(run[..|run| - 1]);
      NextConsistent(After(run[..|run| - 1]), run[|run| - 1]);
    }
  }

  ghost predicate AccountedFor(h: History, r: Row) {
    r in h.table.rows || r in Flat(h.delivered) || r in h.expired
  }

  ghost predicate ScansComplete(run: seq<Event>) {
    forall i :: 0 <= i < |run| && run[i].Fetched? ==> run[i].k == |run[i].order|
  }

  // ---------- nothing is lost ----------

  /** When every committed fetch reads its whole snapshot, every inserted row is still there, or was
      handed out, or expired. */
  lemma {:induction false} NothingLost(run: seq<Event>)
    requires Plausible(run) && ScansComplete(run)
    ensures forall r | r in After(run).inserted :: AccountedFor(After(run), r)
  {
    if run != [] {
      var n := |run| - 1;
      var h := After(run[..n]);
      NothingLost(run[..n]);
      RunsAreConsistent(run[..n]);
      assert run[n].Fetched? ==> run[n].k == |run[n].order|;
      forall r | r in After(run).inserted
        ensures AccountedFor(After(run), r)
      {
        StaysAccountedFor(h, run[n], r);
      }
    }
  }

  lemma StaysAccountedFor(h: History, e: Event, r: Row)
    requires Consistent(h) && Possible(h, e) && (e.Fetched? ==> e.k == |e.order|)
    requires r in Next(h, e).inserted && (r in h.inserted ==> AccountedFor(h, r))
    ensures AccountedFor(Next(h, e), r)
  {
    var t := h.table;
    match e
    case Added(_, _, _) =>
    case Fetched(order, k) =>
      ScanMembers(t.rows, order);
      FlatAppend(h.delivered, order[..k]);
      assert order[..k] == order;
    case Expired(cutoff) =>
      RemainingMembers(t.rows, OlderThan(cutoff));
  }

  /** A row expires only below the cutoff of some clean-up of the run. */
  lemma {:induction false} ExpiredBelowCutoff(run: seq<Event>, r: Row) returns (i: nat)
    requires Plausible(run) && r in After(run).expired
    ensures i < |run| && run[i].Expired? && r.timestamp < run[i].cutoff
  {
    var n := |run| - 1;
    if r in After(run[..n]).expired {
      i := ExpiredBelowCutoff(run[..n], r);
    } else {
      i := n;
    }
  }

  /** A clean-up expires exactly the stored rows older than its cutoff, and leaves the others. */
  lemma ExpiresExactly(h: History, cutoff: int)
    ensures var after := Next(h, Expired(cutoff));
            && (forall r :: r in after.table.rows <==> r in h.table.rows && r.timestamp >= cutoff)
            && (forall r :: r in after.expired <==> r in h.expired || (r in h.table.rows && r.timestamp < cutoff))
  {
    CleanupExactly(h.table.rows, cutoff);
  }

  // ---------- exactly once, when clocks follow insertion ----------

  /** The rows that were handed out, then those still stored. */
  ghost function Timeline(h: History): seq<Row> {
    Flat(h.delivered) + h.table.rows
  }

  /** If timestamps strictly increase with the id, then however the fetches are cut: handed-out rows
      followed by stored rows keep the insertion order and repeat none, and every inserted row is
      among them or has expired. */
  lemma {:induction false} ExactlyOnce(run: seq<Event>)
    requires Plausible(run) && ClocksIncrease(After(run).inserted)
    ensures IdsIncrease(Timeline(After(run)))
    ensures forall r | r in Timeline(After(run)) :: r in After(run).inserted
    ensures forall r | r in After(run).inserted :: AccountedFor(After(run), r)
    ensures (forall i :: 0 <= i < |run| ==> !run[i].Expired?) ==> Timeline(After(run)) == After(run).inserted
  {
    RunsAreConsistent(run);
    if run != [] {
      var n := |run| - 1;
      var h := After(run[..n]);
      RunsAreConsistent(run[..n]);
      assert h.inserted <= After(run).inserted;
      assert ClocksIncrease(h.inserted) by {
        forall i, j | 0 <= i < j < |h.inserted|
          ensures h.inserted[i].timestamp < h.inserted[j].timestamp
        {
          assert h.inserted[i] == After(run).inserted[i] && h.inserted[j] == After(run).inserted[j];
        }
      }
      ExactlyOnce(run[..n]);
      TimelineStep(h, run[n]);
      forall r | r in After(run).inserted
        ensures AccountedFor(After(run), r)
      {
        OrderedStepKeeps(h, run[n], r);
      }
    }
  }

  lemma StoredClocksIncrease(h: History)
    requires Consistent(h) && ClocksIncrease(h.inserted)
    ensures ClocksIncrease(h.table.rows)
  {
    var rows := h.table.rows;
    forall i, j | 0 <= i < j < |rows|
      ensures rows[i].timestamp < rows[j].timestamp
    {
      assert rows[i] in rows && rows[j] in rows;
      var a :| 0 <= a < |h.inserted| && h.inserted[a] == rows[i];
      var b :| 0 <= b < |h.inserted| && h.inserted[b] == rows[j];
    }
  }

  lemma TimelineStep(h: History, e: Event)
    requires Consistent(h) && Possible(h, e) && ClocksIncrease(h.inserted)
    requires IdsIncrease(Timeline(h))
    ensures IdsIncrease(Timeline(Next(h, e)))
    ensures Timeline(h) == h.inserted && !e.Expired? ==> Timeline(Next(h, e)) == Next(h, e).inserted
  {
    match e
    case Added(timestamp, dataType, payload) =>
      AppendNewest(h, Row(h.table.nextId, timestamp, dataType, payload));
    case Fetched(order, k) =>
      FetchMovesSeam(h, order, k);
    case Expired(cutoff) =>
      ExpiryThins(h, cutoff);
  }

  /** In clock order a fetch reads the rows in insertion order and deletes exactly those it read. */
  lemma FetchInOrder(h: History, order: seq<Row>, k: nat)
    requires Consistent(h) && IsScan(h.table.rows, order) && k <= |order| && ClocksIncrease(h.inserted)
    ensures order == h.table.rows
    ensures Drained(h.table, order, k).rows == order[k..]
  {
    StoredClocksIncrease(h);
    ClockOrderScan(h.table.rows, order);
    InOrderCut(h.table, k);
  }

  /** A fetch, complete or cut, moves the seam of the timeline and nothing else. */
  lemma FetchMovesSeam(h: History, order: seq<Row>, k: nat)
    requires Consistent(h) && IsScan(h.table.rows, order) && k <= |order| && ClocksIncrease(h.inserted)
    ensures Timeline(Next(h, Fetched(order, k))) == Timeline(h)
    ensures k == |order| ==> Next(h, Fetched(order, k)).table.rows == []
  {
    FetchInOrder(h, order, k);
    FlatAppend(h.delivered, order[..k]);
    SplitBack(Flat(h.delivered), order, k);
  }

  lemma SplitBack(head: seq<Row>, rows: seq<Row>, k: nat)
    requires k <= |rows|
    ensures (head + rows[..k]) + rows[k..] == head + rows
  {
  }

  lemma ExpiryThins(h: History, cutoff: int)
    requires Consistent(h) && IdsIncrease(Timeline(h))
    ensures IdsIncrease(Timeline(Next(h, Expired(cutoff))))
  {
    RemainingMembers(h.table.rows, OlderThan(cutoff));
    RemainingOrdered(h.table.rows, OlderThan(cutoff));
    ThinTail(Flat(h.delivered), h.table.rows, Remaining(h.table.rows, OlderThan(cutoff)));
  }

  lemma AppendNewest(h: History, r: Row)
    requires Consistent(h) && IdsIncrease(Timeline(h)) && r.id == h.table.nextId
    ensures Flat(h.delivered) + (h.table.rows + [r]) == Timeline(h) + [r]
    ensures IdsIncrease(Timeline(h) + [r])
  {
    var line := Timeline(h);
    forall i | 0 <= i < |line|
      ensures line[i].id < r.id
    {
      assert line[i] in Flat(h.delivered) || line[i] in h.table.rows;
      var a :| 0 <= a < |h.inserted| && h.inserted[a] == line[i];
    }
  }

  lemma ThinTail(head: seq<Row>, tail: seq<Row>, kept: seq<Row>)
    requires IdsIncrease(head + tail) && IdsIncrease(kept) && forall r | r in kept :: r in tail
    ensures IdsIncrease(head + kept)
  {
    var all := head + tail;
    forall i, j | 0 <= i < j < |head + kept|
      ensures (head + kept)[i].id < (head + kept)[j].id
    {
      if j < |head| {
        assert all[i].id < all[j].id;
      } else if i < |head| {
        assert kept[j - |head|] in tail;
        var m :| 0 <= m < |tail| && tail[m] == kept[j - |head|];
        assert all[i].id < all[|head| + m].id;
      } else {
        assert kept[i - |head|].id < kept[j - |head|].id;
      }
    }
  }

  lemma EitherPart(rows: seq<Row>, k: nat, r: Row)
    requires k <= |rows|
    ensures r in rows <==> r in rows[..k] || r in rows[k..]
  {
    assert rows == rows[..k] + rows[k..];
  }

  lemma OrderedStepKeeps(h: History, e: Event, r: Row)
    requires Consistent(h) && Possible(h, e) && ClocksIncrease(h.inserted)
    requires r in Next(h, e).inserted && (r in h.inserted ==> AccountedFor(h, r))
    ensures AccountedFor(Next(h, e), r)
  {
    if e.Fetched? {
      FetchInOrder(h, e.order, e.k);
      var after := Next(h, e);
      assert after.delivered == h.delivered + [e.order[..e.k]] && after.table.rows == e.order[e.k..];
      FlatAppend(h.delivered, e.order[..e.k]);
      EitherPart(e.order, e.k, r);
    } else {
      StaysAccountedFor(h, e, r);
    }
  }

  // ---------- what went in comes out ----------

  /** The insertions of a run, in order. */
  function Adds(run: seq<Event>): seq<Event> {
    if run == [] then []
    else if run[|run| - 1].Added? then Adds(run[..|run| - 1]) + [run[|run| - 1]]
    else Adds(run[..|run| - 1])
  }

  /** The items the fetches returned, one fetch after the other. */
  function Handed(delivered: seq<seq<Row>>): seq<Item> {
    if delivered == [] then [] else Handed(delivered[..|delivered| - 1]) + Items(delivered[|delivered| - 1])
  }

  predicate Holds(e: Event, timestamp: int, dataType: string, payload: string) {
    e.Added? && e.timestamp == timestamp && e.dataType == dataType && e.payload == payload
  }

  lemma {:induction false} InsertedAsAdded(run: seq<Event>)
    requires Plausible(run)
    ensures |After(run).inserted| == |Adds(run)|
    ensures forall i :: 0 <= i < |Adds(run)| ==>
              var r := After(run).inserted[i]; Holds(Adds(run)[i], r.timestamp, r.dataType, r.payload)
  {
    if run != [] {
      InsertedAsAdded(run[..|run| - 1]);
    }
  }

  lemma {:induction false} HandedAsDelivered(delivered: seq<seq<Row>>)
    ensures |Handed(delivered)| == |Flat(delivered)|
    ensures forall i :: 0 <= i < |Flat(delivered)| ==>
              var item, r := Handed(delivered)[i], Flat(delivered)[i];
              item.timestamp == r.timestamp && item.dataType == r.dataType && item.payload == r.payload
  {
    if delivered != [] {
      HandedAsDelivered(delivered[..|delivered| - 1]);
    }
  }

  /** If timestamps strictly increase with the id and nothing expires, then however the fetches are
      cut: the items they returned, one after the other, hold field by field what was inserted, from
      the first insertion on and in that order; and after a complete fetch none of them is left out. */
  lemma ItemsAsAdded(run: seq<Event>)
    requires Plausible(run) && ClocksIncrease(After(run).inserted)
    requires forall i :: 0 <= i < |run| ==> !run[i].Expired?
    ensures var items := Handed(After(run).delivered);
            && |items| <= |Adds(run)|
            && (forall i :: 0 <= i < |items| ==>
                  Holds(Adds(run)[i], items[i].timestamp, items[i].dataType, items[i].payload))
            && |Adds(run)| == |items| + |After(run).table.rows|
  {
    ExactlyOnce(run);
    InsertedAsAdded(run);
    HandedAsDelivered(After(run).delivered);
    var h := After(run);
    assert forall i :: 0 <= i < |Flat(h.delivered)| ==> h.inserted[i] == Flat(h.delivered)[i];
  }

  // ---------- without clock order ----------

  /** The event leaves this stored row where it is: it is not a clean-up beyond the row's timestamp,
      nor a fetch whose last row read, if any, has the row's id or a later one. */
  predicate Spares(e: Event, r: Row) {
    match e
    case Added(_, _, _) => true
    case Expired(cutoff) => cutoff <= r.timestamp
    case Fetched(order, k) => 0 < k <= |order| ==> order[k - 1].id < r.id
  }

  /** A row that a complete fetch hands out but leaves behind is handed out again by the next complete
      fetch, unless an event in between removes it. */
  lemma LeftoverReturns(before: seq<Event>, first: Event, between: seq<Event>, second: Event, r: Row)
    requires Plausible(before + [first] + between + [second])
    requires first.Fetched? && first.k == |first.order| && first.k > 0
    requires second.Fetched? && second.k == |second.order|
    requires r in first.order && r.id > first.order[first.k - 1].id
    requires forall e | e in between :: Spares(e, r)
    ensures Plausible(before)
    ensures var i := |After(before).delivered|;
            var d := After(before + [first] + between + [second]).delivered;
            i < |d| - 1 && r in d[i] && r in d[|d| - 1]
  {
    var run := before + [first] + between;
    assert (run + [second])[..|run|] == run;
    StaysStored(before, first, between, r);
    ScanMembers(After(run).table.rows, second.order);
    assert second.order[..second.k] == second.order;
  }

  lemma {:induction false} StaysStored(before: seq<Event>, first: Event, between: seq<Event>, r: Row)
    requires Plausible(before + [first] + between)
    requires first.Fetched? && first.k == |first.order| && first.k > 0
    requires r in first.order && r.id > first.order[first.k - 1].id
    requires forall e | e in between :: Spares(e, r)
    ensures Plausible(before)
    ensures var i := |After(before).delivered|;
            var h := After(before + [first] + between);
            r in h.table.rows && i < |h.delivered| && r in h.delivered[i]
    decreases |between|
  {
    var run := before + [first] + between;
    if between == [] {
      assert run == before + [first] && run[..|run| - 1] == before;
      var rows := After(before).table.rows;
      ScanMembers(rows, first.order);
      RemainingMembers(rows, UpTo(first.order[first.k - 1].id));
      assert first.order[..first.k] == first.order;
    } else {
      var n := |between| - 1;
      assert run[..|run| - 1] == before + [first] + between[..n] && run[|run| - 1] == between[n];
      assert between[n] in between;
      StaysStored(before, first, between[..n], r);
      SparedStays(After(run[..|run| - 1]), between[n], r);
    }
  }

  lemma SparedStays(h: History, e: Event, r: Row)
    requires Possible(h, e) && r in h.table.rows && Spares(e, r)
    ensures r in Next(h, e).table.rows && h.delivered <= Next(h, e).delivered
  {
    match e
    case Added(_, _, _) =>
    case Fetched(order, k) =>
      if k > 0 {
        RemainingMembers(h.table.rows, UpTo(order[k - 1].id));
      }
    case Expired(cutoff) => RemainingMembers(h.table.rows, OlderThan(cutoff));
  }

  // ---------- exactly when nothing goes wrong ----------

  ghost predicate OnlyInserts(run: seq<Event>) {
    forall e | e in run :: e.Added?
  }

  lemma {:induction false} InsertsStay(adds: seq<Event>)
    requires OnlyInserts(adds)
    ensures Plausible(adds)
    ensures After(adds).table.rows == After(adds).inserted && After(adds).delivered == [] && After(adds).expired == {}
  {
    if adds != [] {
      assert adds[|adds| - 1] in adds;
      InsertsStay(adds[..|adds| - 1]);
    }
  }

  ghost predicate Complete(h: History) {
    forall r | r in h.inserted :: AccountedFor(h, r)
  }

  /** The plausible runs that insert these rows, with fetches, cut anywhere, and clean-ups among them. */
  ghost predicate Inserts(run: seq<Event>, rows: seq<Row>) {
    Plausible(run) && After(run).inserted == rows
  }

  /** One fetch after the insertions is enough to go wrong, in either way. */
  lemma UnorderedFails(adds: seq<Event>) returns (lossy: seq<Event>, disordered: seq<Event>)
    requires OnlyInserts(adds) && Plausible(adds) && !ClocksIncrease(After(adds).inserted)
    ensures Inserts(lossy, After(adds).inserted) && !Complete(After(lossy))
    ensures Inserts(disordered, After(adds).inserted) && !IdsIncrease(Timeline(After(disordered)))
  {
    InsertsStay(adds);
    RunsAreConsistent(adds);
    var h := After(adds);
    var order := OtherScan(h.table.rows);
    var k := UnsafeCut(h, order);
    RunStep(adds, Fetched(order, k));
    RunStep(adds, Fetched(order, |order|));
    Disorder(h, order);
    lossy, disordered := adds + [Fetched(order, k)], adds + [Fetched(order, |order|)];
  }

  lemma UnsafeCut(h: History, order: seq<Row>) returns (k: nat)
    requires Consistent(h) && h.delivered == [] && h.expired == {}
    requires IsScan(h.table.rows, order) && order != h.table.rows
    ensures k <= |order| && !Complete(Next(h, Fetched(order, k)))
  {
    CutScans(h.table, order);
    var r;
    k, r :| 0 <= k <= |order| && r in h.table.rows && r !in Drained(h.table, order, k).rows && r !in order[..k];
    FlatAppend([], order[..k]);
    assert Flat([]) + order[..k] == order[..k];
    assert !AccountedFor(Next(h, Fetched(order, k)), r);
  }

  lemma Disorder(h: History, order: seq<Row>)
    requires Consistent(h) && h.delivered == []
    requires IsScan(h.table.rows, order) && order != h.table.rows
    ensures !IdsIncrease(Timeline(Next(h, Fetched(order, |order|))))
  {
    FlatAppend([], order[..|order|]);
    assert order[..|order|] == order && Flat([order]) == order;
    HeadIncreases(order, Drained(h.table, order, |order|).rows);
    if IdsIncrease(order) {
      OneArrangement(h.table.rows, order, (r: Row) => r.id);
    }
  }

  lemma HeadIncreases(head: seq<Row>, tail: seq<Row>)
    ensures IdsIncrease(head + tail) ==> IdsIncrease(head)
  {
    assert forall i :: 0 <= i < |head| ==> (head + tail)[i] == head[i];
  }

  /** Take any insertions, and all the runs that interleave fetches and clean-ups with them. No such
      run loses a row exactly when the inserted timestamps strictly increase; and exactly then every
      such run hands rows out in insertion order and none twice. */
  lemma SafeExactly(adds: seq<Event>)
    requires OnlyInserts(adds)
    ensures Plausible(adds)
    ensures var rows := After(adds).inserted;
            && ((forall run :: Inserts(run, rows) ==> Complete(After(run))) <==> ClocksIncrease(rows))
            && ((forall run :: Inserts(run, rows) ==> IdsIncrease(Timeline(After(run)))) <==> ClocksIncrease(rows))
  {
    InsertsStay(adds);
    var rows := After(adds).inserted;
    if ClocksIncrease(rows) {
      forall run | Inserts(run, rows)
        ensures Complete(After(run)) && IdsIncrease(Timeline(After(run)))
      {
        ExactlyOnce(run);
      }
    } else {
      var lossy, disordered := UnorderedFails(adds);
      assert Inserts(lossy, rows) && Inserts(disordered, rows);
    }
  }

  // ---------- the smallest such runs ----------

  const EARLY := Row(2, 3, "telemetry", "b")
  const LATE := Row(1, 5, "telemetry", "a")

  /** Two writers whose clock readings and insertions cross. */
  const CROSSED := [Added(5, "telemetry", "a"), Added(3, "telemetry", "b")]

  lemma RunStep(run: seq<Event>, e: Event)
    requires Plausible(run) && Possible(After(run), e)
    ensures Plausible(run + [e]) && After(run + [e]) == Next(After(run), e)
  {
    var longer := run + [e];
    assert longer[..|longer| - 1] == run && longer[|longer| - 1] == e;
  }

  const BOTH := History(Table([LATE, EARLY], 3), [LATE, EARLY], [], {})

  lemma CrossedScan()
    ensures IsScan([LATE, EARLY], [EARLY, LATE])
  {
    assert multiset([LATE, EARLY]) == multiset{LATE, EARLY} == multiset([EARLY, LATE]);
  }

  lemma FirstWriter()
    ensures var run := [Added(5, "telemetry", "a")];
            Plausible(run) && After(run) == History(Table([LATE], 2), [LATE], [], {})
  {
    RunStep([], Added(5, "telemetry", "a"));
    assert [] + [Added(5, "telemetry", "a")] == [Added(5, "telemetry", "a")];
    assert [] + [LATE] == [LATE];
  }

  lemma CrossedWriters()
    ensures Plausible(CROSSED) && After(CROSSED) == BOTH
  {
    FirstWriter();
    RunStep([Added(5, "telemetry", "a")], Added(3, "telemetry", "b"));
    assert [Added(5, "telemetry", "a")] + [Added(3, "telemetry", "b")] == CROSSED;
    assert [LATE] + [EARLY] == [LATE, EARLY];
  }

  lemma CrossedLeft(maxId: nat)
    requires maxId == 1 || maxId == 2
    ensures Remaining([LATE, EARLY], UpTo(maxId)) == if maxId == 1 then [EARLY] else []
  {
    assert [LATE, EARLY][1..] == [EARLY] && [EARLY][1..] == [];
    assert Remaining([EARLY], UpTo(maxId)) == if maxId == 1 then [EARLY] else [];
  }

  /** Crossed writers make a complete fetch deliver a row twice. */
  lemma CrossedRowDeliveredTwice()
    ensures var run := CROSSED + [Fetched([EARLY, LATE], 2)] + [Fetched([EARLY], 1)];
            Plausible(run) && After(run).delivered == [[EARLY, LATE], [EARLY]]
  {
    CrossedWriters();
    CrossedScan();
    CrossedLeft(1);
    RunStep(CROSSED, Fetched([EARLY, LATE], 2));
    var one := CROSSED + [Fetched([EARLY, LATE], 2)];
    assert [EARLY, LATE][..2] == [EARLY, LATE] && [EARLY][..1] == [EARLY];
    assert After(one) == History(Table([EARLY], 3), [LATE, EARLY], [[EARLY, LATE]], {});
    RunStep(one, Fetched([EARLY], 1));
    assert [[EARLY, LATE]] + [[EARLY]] == [[EARLY, LATE], [EARLY]];
  }

  /** Crossed writers and a scan that stops early lose a row nobody read. */
  lemma CrossedRowLost()
    ensures var run := CROSSED + [Fetched([EARLY, LATE], 1)];
            Plausible(run) && LATE in After(run).inserted && !AccountedFor(After(run), LATE)
  {
    CrossedWriters();
    CrossedScan();
    CrossedLeft(2);
    RunStep(CROSSED, Fetched([EARLY, LATE], 1));
    assert [EARLY, LATE][..1] == [EARLY];
    var h := After(CROSSED + [Fetched([EARLY, LATE], 1)]);
    assert h == History(Table([], 3), [LATE, EARLY], [[EARLY]], {});
    FlatAppend([], [EARLY]);
    assert [] + [[EARLY]] == [[EARLY]] && Flat([[EARLY]]) == [EARLY];
  }
}
