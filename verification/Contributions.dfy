/** The contributions table: one row per document, user and window, accumulated by an upsert. */
module Contributions {
  import opened Analytics

  datatype Row = Row(key: Key, window: int, edits: int, bytes: int)

  /** INSERT ... ON CONFLICT (doc_id, user_id, window_end) DO UPDATE. */
  function Upsert(rows: seq<Row>, key: Key, window: int, edits: int, bytes: int): seq<Row> {
    if rows == [] then [Row(key, window, edits, bytes)]
    else if rows[0].key == key && rows[0].window == window then
      [Row(key, window, rows[0].edits + edits, rows[0].bytes + bytes)] + rows[1..]
    else [rows[0]] + Upsert(rows[1..], key, window, edits, bytes)
  }

  /** A column summed over a user's windows in one document, as the history query does. */
  function Column(r: Row, f: Field): int { if f.Edits? then r.edits else if f.BytesAdded? then r.bytes else 0 }

  function History(rows: seq<Row>, k: Key, f: Field): int {
    if rows == [] then 0 else (if rows[0].key == k then Column(rows[0], f) else 0) + History(rows[1..], k, f)
  }

  /** The upsert leaves active_secs at its default, so nobody's time reaches the table. */
  lemma {:induction false} TableHasNoSeconds(rows: seq<Row>, k: Key)
    ensures History(rows, k, ActiveSecs) == 0
  {
    if rows != [] { TableHasNoSeconds(rows[1..], k); }
  }

  /** UNIQUE (doc_id, user_id, window_end) */
  predicate OneRowPerWindow(rows: seq<Row>) {
    forall i, j | 0 <= i < j < |rows| :: rows[i].key != rows[j].key || rows[i].window != rows[j].window
  }

  lemma {:induction false} UpsertAdds(rows: seq<Row>, key: Key, window: int, edits: int, bytes: int, k: Key, f: Field)
    ensures History(Upsert(rows, key, window, edits, bytes), k, f)
         == History(rows, k, f) + if k == key then Column(Row(key, window, edits, bytes), f) else 0
  {
    if rows != [] {
      UpsertAdds(rows[1..], key, window, edits, bytes, k, f);
      var head := [Row(key, window, rows[0].edits + edits, rows[0].bytes + bytes)];
      assert (head + rows[1..])[1..] == rows[1..];
      assert ([rows[0]] + Upsert(rows[1..], key, window, edits, bytes))[1..]
          == Upsert(rows[1..], key, window, edits, bytes);
    }
  }

  /** The same for one window. */
  function HistoryIn(rows: seq<Row>, k: Key, window: int, f: Field): int {
    if rows == [] then 0
    else
      var here := if rows[0].key == k && rows[0].window == window then Column(rows[0], f) else 0;
      here + HistoryIn(rows[1..], k, window, f)
  }

  lemma {:induction false} UpsertAddsIn(rows: seq<Row>, key: Key, at: int, edits: int, bytes: int, k: Key,
                                        window: int, f: Field)
    ensures HistoryIn(Upsert(rows, key, at, edits, bytes), k, window, f)
         == HistoryIn(rows, k, window, f)
            + if k == key && window == at then Column(Row(key, at, edits, bytes), f) else 0
  {
    if rows != [] {
      UpsertAddsIn(rows[1..], key, at, edits, bytes, k, window, f);
      var head := [Row(key, at, rows[0].edits + edits, rows[0].bytes + bytes)];
      assert (head + rows[1..])[1..] == rows[1..];
      assert ([rows[0]] + Upsert(rows[1..], key, at, edits, bytes))[1..] == Upsert(rows[1..], key, at, edits, bytes);
    }
  }

  /** The upsert changes the conflicting row, or appends one if there is none. */
  lemma {:induction false} UpsertAt(rows: seq<Row>, i: nat, key: Key, window: int, edits: int, bytes: int)
    requires i <= |rows| && forall j | 0 <= j < i :: !(rows[j].key == key && rows[j].window == window)
    requires i < |rows| ==> rows[i].key == key && rows[i].window == window
    ensures Upsert(rows, key, window, edits, bytes)
         == if i < |rows| then
              rows[..i] + [Row(key, window, rows[i].edits + edits, rows[i].bytes + bytes)] + rows[i + 1..]
            else rows + [Row(key, window, edits, bytes)]
  {
    if i > 0 {
      UpsertAt(rows[1..], i - 1, key, window, edits, bytes);
      assert rows == [rows[0]] + rows[1..];
    }
  }

  lemma {:induction false} UpsertUnique(rows: seq<Row>, key: Key, window: int, edits: int, bytes: int)
    requires OneRowPerWindow(rows)
    ensures OneRowPerWindow(Upsert(rows, key, window, edits, bytes))
    ensures forall r | r in Upsert(rows, key, window, edits, bytes) ::
              || (r.key == key && r.window == window)
              || exists i :: 0 <= i < |rows| && rows[i].key == r.key && rows[i].window == r.window
  {
    if rows != [] {
      UpsertUnique(rows[1..], key, window, edits, bytes);
      var tail := Upsert(rows[1..], key, window, edits, bytes);
      if rows[0].key != key || rows[0].window != window {
        forall j | 0 <= j < |tail| ensures rows[0].key != tail[j].key || rows[0].window != tail[j].window {
          assert tail[j] in tail;
        }
      }
      forall r | r in Upsert(rows, key, window, edits, bytes)
        ensures || (r.key == key && r.window == window)
                || exists i :: 0 <= i < |rows| && rows[i].key == r.key && rows[i].window == r.window
      {
        if r == rows[0] {
        } else if r in rows[1..] {
          var i :| 0 <= i < |rows[1..]| && rows[1..][i] == r;
          assert rows[i + 1] == r;
        } else if r in tail && !(r.key == key && r.window == window) {
          var i :| 0 <= i < |rows[1..]| && rows[1..][i].key == r.key && rows[1..][i].window == r.window;
          assert rows[i + 1].key == r.key;
        }
      }
    }
  }

  /** What SaveContribution binds for the two counters of an activity: the values meant, and the literals written
      today. */
  datatype Binding = Meant | Shipped

  function Bound(binding: Binding, a: Act): (int, int) {
    match binding
    case Meant => (a.edits, a.bytes)
    case Shipped => (0, 0)
  }

  /** The table after a sequence of saves. */
  function Table(binding: Binding, saves: seq<Save>): seq<Row> {
    if saves == [] then []
    else
      var last := saves[|saves| - 1];
      var (edits, bytes) := Bound(binding, last.act);
      Upsert(Table(binding, saves[..|saves| - 1]), last.key, last.window, edits, bytes)
  }

  /** Any sequence of saves, with repeated windows or not: each window has one row, and with the values meant a user's
      rows add up to what was saved. */
  lemma {:induction false} TableAccumulates(saves: seq<Save>, k: Key, f: Field)
    requires !f.ActiveSecs?
    ensures History(Table(Meant, saves), k, f) == SumSaved(saves, k, f)
    ensures OneRowPerWindow(Table(Meant, saves))
  {
    if saves != [] {
      var before, last := saves[..|saves| - 1], saves[|saves| - 1];
      TableAccumulates(before, k, f);
      UpsertAdds(Table(Meant, before), last.key, last.window, last.act.edits, last.act.bytes, k, f);
      UpsertUnique(Table(Meant, before), last.key, last.window, last.act.edits, last.act.bytes);
    }
  }

  /** What was saved for a user under one window end. */
  function SumSavedIn(saved: seq<Save>, k: Key, window: int, f: Field): int {
    if saved == [] then 0
    else
      var last := saved[|saved| - 1];
      SumSavedIn(saved[..|saved| - 1], k, window, f)
      + if last.key == k && last.window == window then Get(last.act, f) else 0
  }

  /** And so window by window: saves of one window accumulate in it, and none ends up in another. */
  lemma {:induction false} WindowsAccumulate(saves: seq<Save>, k: Key, window: int, f: Field)
    requires !f.ActiveSecs?
    ensures HistoryIn(Table(Meant, saves), k, window, f) == SumSavedIn(saves, k, window, f)
  {
    if saves != [] {
      var before, last := saves[..|saves| - 1], saves[|saves| - 1];
      WindowsAccumulate(before, k, window, f);
      UpsertAddsIn(Table(Meant, before), last.key, last.window, last.act.edits, last.act.bytes, k, window, f);
    }
  }

  lemma {:induction false} ShippedTableIsZero(saves: seq<Save>, k: Key, f: Field)
    ensures History(Table(Shipped, saves), k, f) == 0
  {
    if saves != [] {
      var before, last := saves[..|saves| - 1], saves[|saves| - 1];
      ShippedTableIsZero(before, k, f);
      UpsertAdds(Table(Shipped, before), last.key, last.window, 0, 0, k, f);
    }
  }

  lemma {:induction false} SavesHaveEdits(es: seq<StatEvent>)
    ensures forall i | 0 <= i < |StatRun(es).saved| :: StatRun(es).saved[i].act.edits > 0
  {
    if es != [] { SavesHaveEdits(es[..|es| - 1]); }
  }

  /** A user's saves sum to zero in a column exactly if each of them is zero in it. */
  lemma {:induction false} ZeroSum(saved: seq<Save>, k: Key, f: Field)
    requires !f.ActiveSecs?
    ensures SumSaved(saved, k, f) >= 0
    ensures SumSaved(saved, k, f) == 0 <==> forall i | 0 <= i < |saved| && saved[i].key == k ::
        Get(saved[i].act, f) == 0
  {
    if saved != [] { ZeroSum(saved[..|saved| - 1], k, f); }
  }

  /** As it is written, with zeros bound, a user's edits are right exactly when nothing of theirs was ever saved, and
      their bytes exactly when nothing with bytes was. */
  lemma {:induction false} ShippedHistoryIsRightOnlyIfEmpty(es: seq<StatEvent>, k: Key)
    ensures var saved := StatRun(es).saved;
            && (History(Table(Shipped, saved), k, Edits) == SumSaved(saved, k, Edits)
                <==> forall i | 0 <= i < |saved| :: saved[i].key != k)
            && (History(Table(Shipped, saved), k, BytesAdded) == SumSaved(saved, k, BytesAdded)
                <==> forall i | 0 <= i < |saved| && saved[i].key == k :: saved[i].act.bytes == 0)
  {
    ShippedTableIsZero(StatRun(es).saved, k, Edits);
    ShippedTableIsZero(StatRun(es).saved, k, BytesAdded);
    SavesHaveEdits(es);
    ZeroSum(StatRun(es).saved, k, Edits);
    ZeroSum(StatRun(es).saved, k, BytesAdded);
  }

  /** End to end: the history read first plus the RAM read later never exceeds what was recorded, with either binding,
      and with the values meant it misses only what was saved in between or is in flight. */
  lemma {:induction false} LiveReportNeverOvercounts(es: seq<StatEvent>, later: seq<StatEvent>, binding: Binding,
                                                     k: Key, f: Field)
    requires !f.ActiveSecs?
    ensures var now := StatRun(es + later);
            var reported := History(Table(binding, StatRun(es).saved), k, f) + Amount(now.buffer, k, f);
            && reported <= Amount(now.recorded, k, f)
            && (binding.Meant? ==>
                Amount(now.recorded, k, f) - reported
                    == SumSaved(SavedBetween(es, later), k, f) + SumFlight(now.inFlight, k, f))
  {
    ReportNeverOvercounts(es, later, k, f);
    TableAccumulates(StatRun(es).saved, k, f);
    ShippedTableIsZero(StatRun(es).saved, k, f);
    SavedNonnegative(StatRun(es).saved, k, f);
  }

  /** The table itself. */
  class ContributionTable {
    var rows: seq<Row>

    constructor ()
      ensures rows == []
    {
      rows := [];
    }

    /** The database's upsert: find the conflicting row and add to it, or insert. */
    method Add(key: Key, window: int, edits: int, bytes: int)
      modifies this
      ensures rows == Upsert(old(rows), key, window, edits, bytes)
    {
      var i := 0;
      ghost var tail := rows;
      while i < |rows| && !(rows[i].key == key && rows[i].window == window)
        invariant i <= |rows| && rows == old(rows)
        invariant forall j | 0 <= j < i :: !(rows[j].key == key && rows[j].window == window)
      {
        i := i + 1;
      }
      UpsertAt(rows, i, key, window, edits, bytes);
      if i < |rows| {
        rows := rows[..i] + [Row(key, window, rows[i].edits + edits, rows[i].bytes + bytes)] + rows[i + 1..];
      } else {
        rows := rows + [Row(key, window, edits, bytes)];
      }
    }

    /** SaveContribution as it is written: the activity is ignored and zeros are bound. */
    method SaveContribution(docID: string, userID: string, a: Act, windowEnd: int)
      modifies this
      ensures rows == Upsert(old(rows), Key(docID, userID), windowEnd, 0, 0)
    {
      Add(Key(docID, userID), windowEnd, 0, 0);
    }
  }
}
