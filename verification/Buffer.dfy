/** The drain buffer: a table of rows keyed by an ever-growing id, emptied by timestamp order. */
module Buffer {
  import opened Domain

  datatype Row = Row(id: nat, timestamp: int, dataType: string, payload: string)

  datatype Item = Item(timestamp: int, dataType: string, payload: string)

  /** The rows in insertion order, and the id the next insertion gets. */
  datatype Table = Table(rows: seq<Row>, nextId: nat)

  const EMPTY := Table([], 1)

  // ---------- the operations, as functions of the table ----------

  predicate IdsIncrease(rows: seq<Row>) {
    forall i, j :: 0 <= i < j < |rows| ==> rows[i].id < rows[j].id
  }

  predicate ClocksIncrease(rows: seq<Row>) {
    forall i, j :: 0 <= i < j < |rows| ==> rows[i].timestamp < rows[j].timestamp
  }

  predicate ValidTable(t: Table) {
    IdsIncrease(t.rows) && forall r | r in t.rows :: r.id < t.nextId
  }

  function Inserted(t: Table, timestamp: int, dataType: string, payload: string): Table {
    Table(t.rows + [Row(t.nextId, timestamp, dataType, payload)], t.nextId + 1)
  }

  /** The two DELETE statements: a fetch's, up to an id; a clean-up's, before a cutoff. */
  datatype Deletion = UpTo(id: nat) | OlderThan(cutoff: int)

  predicate Deletes(d: Deletion, r: Row) {
    match d
    case UpTo(id) => r.id <= id
    case OlderThan(cutoff) => r.timestamp < cutoff
  }

  function Remaining(rows: seq<Row>, d: Deletion): seq<Row> {
    if rows == [] then []
    else if Deletes(d, rows[0]) then Remaining(rows[1..], d)
    else [rows[0]] + Remaining(rows[1..], d)
  }

  predicate ByClock(rows: seq<Row>) {
    forall i, j :: 0 <= i < j < |rows| ==> rows[i].timestamp <= rows[j].timestamp
  }

  /** Some order in which the query may return the rows: by timestamp, ties in any order. */
  ghost predicate IsScan(rows: seq<Row>, order: seq<Row>) {
    multiset(order) == multiset(rows) && ByClock(order)
  }

  /** The table after a committed fetch whose scan ended after `k` rows of `order`. */
  function Drained(t: Table, order: seq<Row>, k: nat): Table
    requires k <= |order|
  {
    if k == 0 then t else t.(rows := Remaining(t.rows, UpTo(order[k - 1].id)))
  }

  function Items(rows: seq<Row>): seq<Item> {
    seq(|rows|, i requires 0 <= i < |rows| => Item(rows[i].timestamp, rows[i].dataType, rows[i].payload))
  }

  // ---------- the buffer object ----------

  /** What can go wrong in a fetch: each statement, a row's scan, or the scan ending early. */
  datatype Faults = Faults(
    begin: bool, query: bool, scanFailsAt: Option<nat>, scanEndsAfter: nat, delete: bool, commit: bool)

  class SQLiteBuffer {
    var rows: seq<Row>
    var nextId: nat

    ghost function View(): Table
      reads this
    {
      Table(rows, nextId)
    }

    constructor ()
      ensures View() == EMPTY
    {
      rows, nextId := [], 1;
    }

    /** A failed insertion, of whatever cause, leaves the table alone. */
    method AddData(timestamp: int, dataType: string, payload: string, fails: bool) returns (ok: bool)
      modifies this
      ensures ok == !fails
      ensures View() == if ok then Inserted(old(View()), timestamp, dataType, payload) else old(View())
    {
      if fails {
        return false;
      }
      rows := rows + [Row(nextId, timestamp, dataType, payload)];
      nextId := nextId + 1;
      ok := true;
    }

    /** A committed fetch returns the rows it scanned and deletes by the id of the last of them; any
        failure returns an error and rolls back. */
    method Fetch(order: seq<Row>, faults: Faults) returns (result: Option<seq<Item>>)
      requires IsScan(rows, order)
      modifies this
      ensures var k := if faults.scanEndsAfter < |order| then faults.scanEndsAfter else |order|;
              && (result.Some? <==>
                    && !faults.begin && !faults.query && !faults.commit && (k > 0 ==> !faults.delete)
                    && (faults.scanFailsAt.Some? ==> faults.scanFailsAt.value >= k))
              && (result.Some? ==> |result.value| == k && forall i :: 0 <= i < k ==>
                    && result.value[i].timestamp == order[i].timestamp
                    && result.value[i].dataType == order[i].dataType && result.value[i].payload == order[i].payload)
              && (result.Some? ==> result.value == Items(order[..k]) && View() == Drained(old(View()), order, k))
              && (result.None? ==> View() == old(View()))
    {
      if faults.begin || faults.query {
        return None;
      }
      var items: seq<Item> := [];
      var ids: seq<nat> := [];
      while |ids| < |order| && |ids| < faults.scanEndsAfter
        invariant |ids| <= |order| && |ids| <= faults.scanEndsAfter
        invariant items == Items(order[..|ids|])
        invariant forall i :: 0 <= i < |ids| ==> ids[i] == order[i].id
        invariant !(faults.scanFailsAt.Some? && faults.scanFailsAt.value < |ids|)
      {
        var row := order[|ids|];
        if faults.scanFailsAt == Some(|ids|) {
          return None;
        }
        assert order[..|ids| + 1] == order[..|ids|] + [row];
        items := items + [Item(row.timestamp, row.dataType, row.payload)];
        ids := ids + [row.id];
      }
      if |ids| > 0 {
        var maxId := ids[|ids| - 1];
        if faults.delete || faults.commit {
          return None;
        }
        rows := Remaining(rows, UpTo(maxId));
      } else if faults.commit {
        return None;
      }
      result := Some(items);
    }

    method DeleteExpired(cutoff: int, fails: bool)
      modifies this
      ensures View() == if fails then old(View()) else old(View()).(rows := Remaining(old(rows), OlderThan(cutoff)))
    {
      if !fails {
        rows := Remaining(rows, OlderThan(cutoff));
      }
    }
  }

  // ---------- rows and their order ----------

  lemma {:induction false} RemainingMembers(rows: seq<Row>, d: Deletion)
    ensures forall r :: r in Remaining(rows, d) <==> r in rows && !Deletes(d, r)
  {
    if rows != [] {
      RemainingMembers(rows[1..], d);
      assert rows == [rows[0]] + rows[1..];
    }
  }

  lemma {:induction false} RemainingOrdered(rows: seq<Row>, d: Deletion)
    ensures IdsIncrease(rows) ==> IdsIncrease(Remaining(rows, d))
    ensures ClocksIncrease(rows) ==> ClocksIncrease(Remaining(rows, d))
  {
    if rows != [] {
      var tail := Remaining(rows[1..], d);
      RemainingOrdered(rows[1..], d);
      RemainingMembers(rows[1..], d);
      if IdsIncrease(rows) && !Deletes(d, rows[0]) {
        forall r | r in tail
          ensures rows[0].id < r.id
        {
          var i :| 0 <= i < |rows[1..]| && rows[1..][i] == r;
          assert rows[i + 1] == r;
        }
        Prepend(rows[0], tail, (r: Row) => r.id);
      }
      if ClocksIncrease(rows) && !Deletes(d, rows[0]) {
        forall r | r in tail
          ensures rows[0].timestamp < r.timestamp
        {
          var i :| 0 <= i < |rows[1..]| && rows[1..][i] == r;
          assert rows[i + 1] == r;
        }
        Prepend(rows[0], tail, (r: Row) => r.timestamp);
      }
    }
  }

  lemma Prepend(first: Row, rows: seq<Row>, key: Row -> int)
    requires forall i, j :: 0 <= i < j < |rows| ==> key(rows[i]) < key(rows[j])
    requires forall r | r in rows :: key(first) < key(r)
    ensures forall i, j :: 0 <= i < j < |[first] + rows| ==> key(([first] + rows)[i]) < key(([first] + rows)[j])
  {
    forall i, j | 0 <= i < j < |[first] + rows|
      ensures key(([first] + rows)[i]) < key(([first] + rows)[j])
    {
      assert ([first] + rows)[j] == rows[j - 1];
      assert i > 0 ==> ([first] + rows)[i] == rows[i - 1];
    }
  }

  lemma ScanMembers(rows: seq<Row>, order: seq<Row>)
    requires multiset(rows) == multiset(order)
    ensures |order| == |rows| && forall r :: r in order <==> r in rows
  {
    assert |multiset(order)| == |multiset(rows)|;
    forall r: Row
      ensures r in order <==> r in rows
    {
      assert r in multiset(order) <==> r in multiset(rows);
    }
  }

  /** Rows strictly ordered by a key have no other arrangement that the key orders. */
  lemma {:induction false} OneArrangement(rows: seq<Row>, order: seq<Row>, key: Row -> int)
    requires multiset(rows) == multiset(order)
    requires forall i, j :: 0 <= i < j < |rows| ==> key(rows[i]) < key(rows[j])
    requires forall i, j :: 0 <= i < j < |order| ==> key(order[i]) <= key(order[j])
    ensures order == rows
  {
    if rows == [] {
      assert |multiset(order)| == 0;
    } else {
      SameHead(rows, order, key);
      TailMultiset(rows);
      TailMultiset(order);
      OneArrangement(rows[1..], order[1..], key);
      assert rows == [rows[0]] + rows[1..] && order == [order[0]] + order[1..];
    }
  }

  lemma SameHead(rows: seq<Row>, order: seq<Row>, key: Row -> int)
    requires multiset(rows) == multiset(order) && rows != []
    requires forall i, j :: 0 <= i < j < |rows| ==> key(rows[i]) < key(rows[j])
    requires forall i, j :: 0 <= i < j < |order| ==> key(order[i]) <= key(order[j])
    ensures order != [] && order[0] == rows[0]
  {
    ScanMembers(rows, order);
    assert rows[0] in order && order[0] in rows;
    var i :| 0 <= i < |rows| && rows[i] == order[0];
    var j :| 0 <= j < |order| && order[j] == rows[0];
  }

  lemma TailMultiset(rows: seq<Row>)
    requires rows != []
    ensures multiset(rows[1..]) == multiset(rows) - multiset{rows[0]}
  {
    assert rows == [rows[0]] + rows[1..];
  }

  /** A clean-up deletes exactly the rows older than its cutoff. */
  lemma CleanupExactly(rows: seq<Row>, cutoff: int)
    ensures forall r :: r in Remaining(rows, OlderThan(cutoff)) <==> r in rows && r.timestamp >= cutoff
  {
    RemainingMembers(rows, OlderThan(cutoff));
  }

  // ---------- one fetch ----------

  /** What a complete fetch leaves behind is exactly the rows with an id above that of the last row
      in timestamp order; so it empties the table exactly when that row is the newest. */
  lemma CompleteFetchLeaves(t: Table, order: seq<Row>)
    requires ValidTable(t) && IsScan(t.rows, order) && order != []
    ensures |order| == |t.rows|
    ensures var left := Drained(t, order, |order|).rows;
            && (forall r :: r in left <==> r in order && r.id > order[|order| - 1].id)
            && (left == [] <==> t.rows[|t.rows| - 1] == order[|order| - 1])
  {
    ScanMembers(t.rows, order);
    var last, newest := order[|order| - 1], t.rows[|t.rows| - 1];
    RemainingMembers(t.rows, UpTo(last.id));
    var left := Drained(t, order, |order|).rows;
    assert last in t.rows && newest in t.rows;
    var i :| 0 <= i < |t.rows| && t.rows[i] == last;
    if left == [] {
      assert newest !in left;
    } else {
      assert left[0] in left;
      var m :| 0 <= m < |t.rows| && t.rows[m] == left[0];
    }
  }

  /** Strictly increasing clocks leave only one possible scan, the insertion order. */
  lemma ClockOrderScan(rows: seq<Row>, order: seq<Row>)
    requires ClocksIncrease(rows) && IsScan(rows, order)
    ensures order == rows
  {
    OneArrangement(rows, order, (r: Row) => r.timestamp);
  }

  /** In insertion order, a scan of `k` rows deletes exactly the first `k`. */
  lemma {:induction false} UpToDrops(rows: seq<Row>, k: nat)
    requires IdsIncrease(rows) && 0 < k <= |rows|
    ensures Remaining(rows, UpTo(rows[k - 1].id)) == rows[k..]
  {
    var tail := rows[1..];
    if k == 1 {
      UpToNone(tail, rows[0].id);
    } else {
      UpToDrops(tail, k - 1);
      assert rows[k..] == tail[k - 1..];
    }
  }

  lemma {:induction false} UpToNone(rows: seq<Row>, maxId: nat)
    requires forall i :: 0 <= i < |rows| ==> rows[i].id > maxId
    ensures Remaining(rows, UpTo(maxId)) == rows
  {
    if rows != [] {
      UpToNone(rows[1..], maxId);
    }
  }

  /** A scan that ends after any number of rows deletes nothing it did not read. */
  ghost predicate EveryCutSafe(t: Table, order: seq<Row>) {
    forall k, r :: 0 <= k <= |order| && r in t.rows && r !in Drained(t, order, k).rows ==> r in order[..k]
  }

  /** An unread row can be lost exactly when the scan order is not the insertion order. */
  lemma CutScans(t: Table, order: seq<Row>)
    requires ValidTable(t) && IsScan(t.rows, order)
    ensures EveryCutSafe(t, order) <==> order == t.rows
  {
    if order == t.rows {
      forall k | 0 <= k <= |order|
        ensures forall r | r in t.rows && r !in Drained(t, order, k).rows :: r in order[..k]
      {
        InOrderCut(t, k);
        assert t.rows == t.rows[..k] + t.rows[k..];
      }
    } else if EveryCutSafe(t, order) {
      SafeCutsIncrease(t, order);
      OneArrangement(t.rows, order, (r: Row) => r.id);
    }
  }

  /** In insertion order a scan of `k` rows deletes exactly what it read and keeps every unread row. */
  lemma InOrderCut(t: Table, k: nat)
    requires ValidTable(t) && k <= |t.rows|
    ensures Drained(t, t.rows, k).rows == t.rows[k..]
  {
    if k > 0 {
      UpToDrops(t.rows, k);
    }
  }

  lemma SafeCutsIncrease(t: Table, order: seq<Row>)
    requires ValidTable(t) && IsScan(t.rows, order) && EveryCutSafe(t, order)
    ensures IdsIncrease(order)
  {
    ScanMembers(t.rows, order);
    forall i, j | 0 <= i < j < |order|
      ensures order[i].id < order[j].id
    {
      var r := order[j];
      ScanDistinct(t.rows, order, j);
      RemainingMembers(t.rows, UpTo(order[i].id));
      assert r in t.rows;
      assert r !in order[..i + 1] by {
        assert order[..i + 1] == order[..j][..i + 1];
      }
      assert r in Drained(t, order, i + 1).rows;
    }
  }

  /** A scan returns no row twice, since the table has none twice. */
  lemma ScanDistinct(rows: seq<Row>, order: seq<Row>, j: nat)
    requires IdsIncrease(rows) && multiset(rows) == multiset(order) && j < |order|
    ensures order[j] !in order[..j]
  {
    var r := order[j];
    ScanMembers(rows, order);
    assert order == order[..j] + [r] + order[j + 1..];
    assert multiset(order) == multiset(order[..j]) + multiset{r} + multiset(order[j + 1..]);
    assert r in order;
    var a :| 0 <= a < |rows| && rows[a] == r;
    assert rows == rows[..a] + [r] + rows[a + 1..];
    assert multiset(rows) == multiset(rows[..a]) + multiset{r} + multiset(rows[a + 1..]);
    assert r !in rows[..a] && r !in rows[a + 1..];
    assert multiset(rows)[r] == 1;
  }

  // ---------- what the stored timestamps decide ----------

  lemma {:induction false} InsertByClock(order: seq<Row>, r: Row) returns (longer: seq<Row>)
    requires ByClock(order)
    ensures IsScan(order + [r], longer)
  {
    if order == [] || order[|order| - 1].timestamp <= r.timestamp {
      longer := order + [r];
    } else {
      var head, last := order[..|order| - 1], order[|order| - 1];
      assert order == head + [last];
      var front := InsertByClock(head, r);
      longer := front + [last];
      LastByClock(head + [r], front, last);
      EndsCommute(head, r, last);
    }
  }

  lemma EndsCommute(rows: seq<Row>, r: Row, s: Row)
    ensures multiset(rows + [r] + [s]) == multiset(rows + [s] + [r])
  {
  }

  lemma LastByClock(rows: seq<Row>, order: seq<Row>, last: Row)
    requires IsScan(rows, order) && forall r | r in rows :: r.timestamp <= last.timestamp
    ensures IsScan(rows + [last], order + [last])
  {
    ScanMembers(rows, order);
    forall i | 0 <= i < |order|
      ensures order[i].timestamp <= last.timestamp
    {
      assert order[i] in rows;
    }
  }

  /** Every table has a scan. */
  lemma {:induction false} SomeScan(rows: seq<Row>) returns (order: seq<Row>)
    ensures IsScan(rows, order)
  {
    if rows == [] {
      order := [];
    } else {
      var n := |rows| - 1;
      var shorter := SomeScan(rows[..n]);
      order := InsertByClock(shorter, rows[n]);
      assert rows == rows[..n] + [rows[n]];
    }
  }

  /** Two rows with one timestamp can come in either order. */
  lemma SwapTied(rows: seq<Row>, order: seq<Row>, i: nat, j: nat) returns (swapped: seq<Row>)
    requires IsScan(rows, order) && i < j < |order| && order[i].timestamp == order[j].timestamp
    ensures swapped == order[i := order[j]][j := order[i]] && IsScan(rows, swapped)
  {
    swapped := order[i := order[j]][j := order[i]];
  }

  /** Unless timestamps strictly increase, some scan departs from the insertion order. */
  lemma OtherScan(rows: seq<Row>) returns (order: seq<Row>)
    requires IdsIncrease(rows) && !ClocksIncrease(rows)
    ensures IsScan(rows, order) && order != rows
  {
    order := SomeScan(rows);
    if order == rows {
      var i, j :| 0 <= i < j < |rows| && rows[i].timestamp >= rows[j].timestamp;
      order := SwapTied(rows, rows, i, j);
      assert order[i] == rows[j];
    }
  }

  /** Whatever order the query returns and wherever its scan ends, a fetch deletes nothing it did not
      read: exactly when the stored timestamps strictly increase with the id. */
  lemma CutsSafeExactly(t: Table)
    requires ValidTable(t)
    ensures (forall order :: IsScan(t.rows, order) ==> EveryCutSafe(t, order)) <==> ClocksIncrease(t.rows)
  {
    if ClocksIncrease(t.rows) {
      forall order | IsScan(t.rows, order)
        ensures EveryCutSafe(t, order)
      {
        ClockOrderScan(t.rows, order);
        CutScans(t, order);
      }
    } else {
      var order := OtherScan(t.rows);
      CutScans(t, order);
    }
  }

  /** Every row but the newest is strictly older than it. */
  predicate NewestIsLatest(rows: seq<Row>) {
    forall i :: 0 <= i < |rows| - 1 ==> rows[i].timestamp < rows[|rows| - 1].timestamp
  }

  ghost predicate Empties(t: Table, order: seq<Row>) {
    Drained(t, order, |order|).rows == []
  }

  /** Whatever order the query returns, a complete fetch empties the table: exactly when every other
      stored row is strictly older than the newest. */
  lemma EmptiesExactly(t: Table)
    requires ValidTable(t)
    ensures (forall order :: IsScan(t.rows, order) ==> Empties(t, order)) <==> NewestIsLatest(t.rows)
  {
    var n := |t.rows| - 1;
    if NewestIsLatest(t.rows) {
      forall order | IsScan(t.rows, order)
        ensures Empties(t, order)
      {
        ScanMembers(t.rows, order);
        if t.rows != [] {
          LatestScannedLast(t.rows, order);
          CompleteFetchLeaves(t, order);
        }
      }
    } else {
      var order := NewestNotLast(t.rows);
      CompleteFetchLeaves(t, order);
    }
  }

  lemma LatestScannedLast(rows: seq<Row>, order: seq<Row>)
    requires NewestIsLatest(rows) && IsScan(rows, order) && rows != []
    ensures order != [] && order[|order| - 1] == rows[|rows| - 1]
  {
    ScanMembers(rows, order);
    var newest := rows[|rows| - 1];
    assert newest in order && order[|order| - 1] in rows;
    var p :| 0 <= p < |order| && order[p] == newest;
    var q :| 0 <= q < |rows| && rows[q] == order[|order| - 1];
  }

  lemma NewestNotLast(rows: seq<Row>) returns (order: seq<Row>)
    requires IdsIncrease(rows) && !NewestIsLatest(rows)
    ensures IsScan(rows, order) && order != [] && order[|order| - 1] != rows[|rows| - 1]
  {
    order := SomeScan(rows);
    ScanMembers(rows, order);
    var z := |order| - 1;
    if order[z] == rows[z] {
      var i :| 0 <= i < z && rows[i].timestamp >= rows[z].timestamp;
      assert rows[i] in order;
      var p :| 0 <= p < |order| && order[p] == rows[i];
      order := SwapTied(rows, order, p, z);
    }
  }
}
