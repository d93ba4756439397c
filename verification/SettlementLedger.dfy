/** The settlement ledger: a table of settle attempts updated in place. */
module SettlementLedgers {
  import opened Types

  /** A success-kind row as the confirmation poll reads it. */
  datatype SuccessKindRow = SuccessKindRow(id: PaymentId, transactionId: TxId, minedHeight: Option<u64>)

  /** Writing a confirmation keeps the previous height when none is supplied. */
  function Confirmed(e: LedgerEntry, count: u32, height: Option<u64>): LedgerEntry {
    e.(confirmations := Some(count), minedHeight := if height.Some? then height else e.minedHeight)
  }

  /** The regression a reorg applies to a mined row; an unmined row is untouched. */
  function Downgraded(e: LedgerEntry, at: i64): LedgerEntry {
    if e.Mined() then
      e.(minedHeight := None, confirmations := Some(0),
         reorgCount := SaturatingAdd32(e.reorgCount, 1), lastReorgedAt := Some(at))
    else e
  }

  predicate InRange(e: LedgerEntry, start: u64, end: u64) {
    e.Mined() && start <= e.minedHeight.value <= end
  }

  function WithConfirmation(m: Ledger, id: PaymentId, count: u32, height: Option<u64>): Ledger {
    if id in m then m[id := Confirmed(m[id], count, height)] else m
  }

  function WithDowngrade(m: Ledger, id: PaymentId, at: i64): Ledger {
    if id in m then m[id := Downgraded(m[id], at)] else m
  }

  function RangeDowngraded(e: LedgerEntry, start: u64, end: u64, at: i64): LedgerEntry {
    if InRange(e, start, end) then Downgraded(e, at) else e
  }

  function WithRangeDowngrade(m: Ledger, start: u64, end: u64, at: i64): Ledger {
    map id | id in m :: RangeDowngraded(m[id], start, end, at)
  }

  function RowOf(id: PaymentId, e: LedgerEntry): SuccessKindRow
    requires e.outcome.IsSuccess()
  {
    SuccessKindRow(id, e.outcome.transactionId, e.minedHeight)
  }

  function SuccessRows(m: Ledger): set<SuccessKindRow> {
    set id | id in m && m[id].outcome.IsSuccess() :: RowOf(id, m[id])
  }

  predicate DistinctIds(rows: seq<SuccessKindRow>) {
    forall i, j :: 0 <= i < j < |rows| ==> rows[i].id != rows[j].id
  }

  class SettlementLedger {
    var entries: Ledger

    constructor ()
      ensures entries == map[]
    {
      entries := map[];
    }

    method Record(id: PaymentId, entry: LedgerEntry)
      modifies this
      ensures entries == old(entries)[id := entry]
    {
      entries := entries[id := entry];
    }

    method Find(id: PaymentId) returns (found: Option<LedgerEntry>)
      ensures found.Some? <==> id in entries
      ensures found.Some? ==> found.value == entries[id]
    {
      found := if id in entries then Some(entries[id]) else None;
    }

    /** One row per success-kind entry, in no particular order. */
    method SuccessKindTransactions() returns (rows: seq<SuccessKindRow>)
      ensures DistinctIds(rows)
      ensures (set r | r in rows) == SuccessRows(entries)
    {
      rows := [];
      var todo := entries.Keys;
      while todo != {}
        invariant todo <= entries.Keys
        invariant DistinctIds(rows)
        invariant forall r :: r in rows <==>
                    r.id in entries.Keys - todo && entries[r.id].outcome.IsSuccess() && r == RowOf(r.id, entries[r.id])
      {
        var id :| id in todo;
        todo := todo - {id};
        if entries[id].outcome.IsSuccess() {
          rows := rows + [RowOf(id, entries[id])];
        }
      }
    }

    method RecordConfirmation(id: PaymentId, count: u32, height: Option<u64>) returns (updated: bool)
      modifies this
      ensures entries == WithConfirmation(old(entries), id, count, height)
      ensures updated <==> id in old(entries)
    {
      if id !in entries {
        return false;
      }
      var entry := entries[id].(confirmations := Some(count));
      if height.Some? {
        entry := entry.(minedHeight := height);
      }
      entries := entries[id := entry];
      updated := true;
    }

    method DowngradeOnReorg(id: PaymentId, at: i64) returns (downgraded: bool)
      modifies this
      ensures entries == WithDowngrade(old(entries), id, at)
      ensures downgraded <==> id in old(entries) && old(entries)[id].Mined()
    {
      if id !in entries || entries[id].minedHeight.None? {
        return false;
      }
      entries := entries[id := Regressed(entries[id], at)];
      downgraded := true;
    }

    static function Regressed(e: LedgerEntry, at: i64): LedgerEntry {
      LedgerEntry(e.outcome, e.settledAt, Some(0), None, SaturatingAdd32(e.reorgCount, 1), Some(at),
                  e.expiryHeight, e.payee, e.amountZat)
    }

    /** Visits every row once; reports exactly the rows it regressed, each once. */
    method DowngradeReorgedRange(start: u64, end: u64, at: i64) returns (downgraded: seq<PaymentId>)
      modifies this
      ensures entries == WithRangeDowngrade(old(entries), start, end, at)
      ensures forall id :: id in downgraded <==> id in old(entries) && InRange(old(entries)[id], start, end)
      ensures forall i, j :: 0 <= i < j < |downgraded| ==> downgraded[i] != downgraded[j]
    {
      downgraded := [];
      ghost var before := entries;
      var todo := entries.Keys;
      while todo != {}
        invariant todo <= entries.Keys == before.Keys
        invariant forall id :: id in before ==>
                    entries[id] == if id in todo then before[id] else RangeDowngraded(before[id], start, end, at)
        invariant forall id :: id in downgraded <==> id in before.Keys - todo && InRange(before[id], start, end)
        invariant forall i, j :: 0 <= i < j < |downgraded| ==> downgraded[i] != downgraded[j]
      {
        var id :| id in todo;
        todo := todo - {id};
        var entry := entries[id];
        if entry.minedHeight.Some? && start <= entry.minedHeight.value && entry.minedHeight.value <= end {
          entries := entries[id := Regressed(entry, at)];
          downgraded := downgraded + [id];
        }
      }
    }
  }
}
