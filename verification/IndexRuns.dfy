/**
 * What the index holds over whole runs (apps/registry/src/indexer.ts:6-57).
 *
 * A sink is Coherent when its log rows are exactly those of the blocks it lists. Ticks keep
 * that whatever the chain does, so every statement about rows is a statement about the block
 * table, and the block table is compared with the chain's own: Synced.
 */
module IndexRuns {
  import opened Chain
  import opened Indexer
  import opened Sink
  import opened Wrappers

  // -------------------------------------------------------------- chain tables

  function CountIndexed(entries: seq<Entry>): nat {
    if entries == [] then 0
    else CountIndexed(entries[..|entries| - 1]) + (if entries[|entries| - 1].event.Some? then 1 else 0)
  }

  ghost function IndexedOf(entries: seq<Entry>): set<nat> {
    set i: nat | i < |entries| && entries[i].event.Some?
  }

  /** The count is of the places whose event is one that is indexed. */
  lemma {:induction false} CountIsOfIndexed(entries: seq<Entry>)
    ensures CountIndexed(entries) == |IndexedOf(entries)|
  {
    if entries != [] {
      var last: nat := |entries| - 1;
      var rest := entries[..last];
      CountIsOfIndexed(rest);
      assert forall i: nat :: i < last ==> rest[i] == entries[i];
      if entries[last].event.Some? {
        assert IndexedOf(entries) == IndexedOf(rest) + {last};
      } else {
        assert IndexedOf(entries) == IndexedOf(rest);
      }
    }
  }

  function BodyOf(hash: Hash): Body
    requires hash.prefix != []
  {
    hash.prefix[|hash.prefix| - 1]
  }

  /** The row the block under this hash has in the block table. */
  predicate IsBlockRow(row: BlockRow, n: nat) {
    |row.blockHash.prefix| == n + 1 && row.blockNumber == n && row.logCount
        == CountIndexed(BodyOf(row.blockHash).entries) > 0
  }

  /** The log row is one of the indexed logs of the block it names. */
  predicate Genuine(row: EventLogRow) {
    |row.blockHash.prefix| == row.blockNumber + 1 &&
    Entry(row.logIndex, row.envelope, Some(row.event)) in BodyOf(row.blockHash).entries
  }

  /** The block table a full scan of [lo, hi] would produce. */
  function ChainBlocks(c: Chain, lo: nat, hi: int): map<nat, BlockRow> {
    map h | lo <= h <= hi && h < |c| && CountIndexed(c[h].entries) > 0 ::
        BlockRow(h, HashAt(c, h), CountIndexed(c[h].entries))
  }

  function Slice(blocks: map<nat, BlockRow>, lo: nat, hi: int): map<nat, BlockRow> {
    map n | n in blocks && lo <= n <= hi :: blocks[n]
  }

  ghost predicate Coherent(s: SinkState) {
    && Paired(s.tables)
    && (forall n :: n in s.blocks ==> IsBlockRow(s.blocks[n], n))
    && (forall k :: k in s.tables.logs ==> Stored(s, k))
    && (forall row: EventLogRow :: Genuine(row) && Listed(s, row) ==> KeyOf(row) in s.tables.logs)
  }

  /** What one stored row satisfies. */
  ghost predicate Stored(s: SinkState, k: Key)
    requires k in s.tables.logs
  {
    var row := s.tables.logs[k];
    k == KeyOf(row) && k in s.tables.typed && s.tables.typed[k] == row.event && Genuine(row) && Listed(s, row)
  }

  predicate Listed(s: SinkState, row: EventLogRow) {
    row.blockNumber in s.blocks && s.blocks[row.blockNumber].blockHash == row.blockHash
  }

  /** A key determines its row, whichever branch it came from. */
  lemma KeyDeterminesRow(a: EventLogRow, b: EventLogRow)
    requires Genuine(a) && Genuine(b) && KeyOf(a) == KeyOf(b)
    ensures a == b
  {
  }

  /** Coherent sinks with the same block table hold the same rows, typed rows included. */
  lemma BlocksDetermineRows(s: SinkState, s': SinkState)
    requires Coherent(s) && Coherent(s') && s.blocks == s'.blocks
    ensures s.tables == s'.tables
  {
    RowsIncluded(s, s');
    RowsIncluded(s', s);
    TypedFollowsLogs(s.tables, s'.tables);
  }

  lemma TypedFollowsLogs(t: Tables, t': Tables)
    requires Paired(t) && Paired(t')
    requires forall k :: k in t.logs ==> k in t'.logs && t'.logs[k] == t.logs[k] && t.typed[k] == t.logs[k].event
    requires forall k :: k in t'.logs ==> k in t.logs && t'.typed[k] == t'.logs[k].event
    ensures t == t'
  {
  }

  lemma RowsIncluded(s: SinkState, s': SinkState)
    requires Coherent(s) && Coherent(s') && s.blocks == s'.blocks
    ensures forall k :: k in s.tables.logs ==>
              k in s'.tables.logs && s'.tables.logs[k] == s.tables.logs[k]
                  && s.tables.typed[k] == s.tables.logs[k].event
  {
    forall k | k in s.tables.logs
      ensures k in s'.tables.logs && s'.tables.logs[k] == s.tables.logs[k]
          && s.tables.typed[k] == s.tables.logs[k].event
    {
      assert Stored(s, k);
      var row := s.tables.logs[k];
      assert Listed(s', row);
      assert Stored(s', k);
      KeyDeterminesRow(row, s'.tables.logs[k]);
    }
  }

  // ------------------------------------------------- what a range of logs gives

  lemma BlockMembers(c: Chain, h: nat, log: RawLog)
    requires h < |c|
    ensures log in BlockLogs(c, h) ==> log.blockNumber == h
  {
  }

  lemma InEither<T>(x: T, a: seq<T>, b: seq<T>)
    ensures x in a + b <==> x in a || x in b
  {
  }

  lemma LogsStep(c: Chain, lo: nat, hi: int, log: RawLog)
    requires lo <= hi
    ensures log in LogsBetween(c, lo, hi) <==>
              (lo < |c| && log in BlockLogs(c, lo)) || log in LogsBetween(c, lo + 1, hi)
  {
    if lo < |c| {
      InEither(log, BlockLogs(c, lo), LogsBetween(c, lo + 1, hi));
    }
  }

  lemma {:induction false} LogsMembers(c: Chain, lo: nat, hi: int, log: RawLog)
    ensures log in LogsBetween(c, lo, hi) <==>
              lo <= log.blockNumber <= hi && log.blockNumber < |c| && log in BlockLogs(c, log.blockNumber)
    decreases hi - lo + 1
  {
    if lo <= hi {
      LogsMembers(c, lo + 1, hi, log);
      LogsStep(c, lo, hi, log);
      if lo < |c| && log in BlockLogs(c, lo) {
        BlockMembers(c, lo, log);
      }
    }
  }

  lemma {:induction false} DecodedMembers(logs: seq<RawLog>, log: RawLog)
    ensures log in Decoded(logs) <==> log in logs && log.event.Some?
  {
    if logs != [] {
      var rest := logs[..|logs| - 1];
      DecodedMembers(rest, log);
      assert logs == rest + [logs[|logs| - 1]];
    }
  }

  lemma DecodedRange(c: Chain, lo: nat, hi: int, log: RawLog)
    ensures log in Decoded(LogsBetween(c, lo, hi)) <==>
              && lo <= log.blockNumber <= hi && log.blockNumber < |c| && log.event.Some?
              && log.blockHash == HashAt(c, log.blockNumber)
              && Entry(log.index, log.envelope, log.event) in c[log.blockNumber].entries
  {
    DecodedMembers(LogsBetween(c, lo, hi), log);
    LogsMembers(c, lo, hi, log);
    if log.blockNumber < |c| && Entry(log.index, log.envelope, log.event) in c[log.blockNumber].entries {
      var i :| 0 <= i < |c[log.blockNumber].entries| && c[log.blockNumber].entries[i]
          == Entry(log.index, log.envelope, log.event);
      if log.blockHash == HashAt(c, log.blockNumber) {
        assert BlockLogs(c, log.blockNumber)[i] == log;
      }
    }
  }

  /** How many of the logs are indexed logs of block n. */
  function CountAt(logs: seq<RawLog>, n: nat): nat {
    if logs == [] then 0
    else CountAt(logs[..|logs| - 1], n) +
         (if logs[|logs| - 1].event.Some? && logs[|logs| - 1].blockNumber == n then 1 else 0)
  }

  lemma {:induction false} CountAppend(a: seq<RawLog>, b: seq<RawLog>, n: nat)
    ensures CountAt(a + b, n) == CountAt(a, n) + CountAt(b, n)
  {
    if b == [] {
      assert a + b == a;
    } else {
      assert (a + b)[..|a + b| - 1] == a + b[..|b| - 1];
      CountAppend(a, b[..|b| - 1], n);
    }
  }

  lemma {:induction false} CountBlock(c: Chain, h: nat, take: nat, n: nat)
    requires h < |c| && take <= |c[h].entries|
    ensures CountAt(BlockLogs(c, h)[..take], n) == if h == n then CountIndexed(c[h].entries[..take]) else 0
  {
    if take > 0 {
      CountBlock(c, h, take - 1, n);
      assert BlockLogs(c, h)[..take][..take - 1] == BlockLogs(c, h)[..take - 1];
      assert c[h].entries[..take][..take - 1] == c[h].entries[..take - 1];
    }
  }

  lemma {:induction false} CountRange(c: Chain, lo: nat, hi: int, n: nat)
    ensures CountAt(LogsBetween(c, lo, hi), n) == if lo <= n <= hi && n < |c| then CountIndexed(c[n].entries) else 0
    decreases hi - lo + 1
  {
    if lo <= hi {
      CountRange(c, lo + 1, hi, n);
      var here: seq<RawLog> := if lo < |c| then BlockLogs(c, lo) else [];
      CountAppend(here, LogsBetween(c, lo + 1, hi), n);
      if lo < |c| {
        CountBlock(c, lo, |c[lo].entries|, n);
        assert BlockLogs(c, lo)[..|c[lo].entries|] == BlockLogs(c, lo);
        assert c[lo].entries[..|c[lo].entries|] == c[lo].entries;
      }
    }
  }

  /** The two tables the tick builds, in terms of the decoded logs. */
  lemma {:induction false} CountsOfLogs(logs: seq<RawLog>, n: nat)
    ensures Lookup(CountTable(Decoded(logs)), n) == CountAt(logs, n)
  {
    if logs != [] {
      CountsOfLogs(logs[..|logs| - 1], n);
      DecodedStep(logs);
    }
  }

  lemma DecodedStep(logs: seq<RawLog>)
    requires logs != []
    ensures
      var d, before, last := Decoded(logs), Decoded(logs[..|logs| - 1]), logs[|logs| - 1];
      if last.event.Some? then d != [] && d[..|d| - 1] == before && d[|d| - 1] == last else d == before
  {
  }

  lemma {:induction false} HashesOfLogs(logs: seq<RawLog>, n: nat)
    ensures n in HashTable(Decoded(logs)) <==> CountAt(logs, n) > 0
    ensures n in HashTable(Decoded(logs)) ==> FoundIn(Decoded(logs), n, HashTable(Decoded(logs))[n])
  {
    if logs != [] {
      HashesOfLogs(logs[..|logs| - 1], n);
      DecodedStep(logs);
      var d, before, last := Decoded(logs), Decoded(logs[..|logs| - 1]), logs[|logs| - 1];
      if last.event.Some? {
        if last.blockNumber == n {
          assert last in d;
        } else if n in HashTable(before) {
          FoundInMore(before, d, n, HashTable(before)[n]);
        }
      }
    }
  }

  ghost predicate FoundIn(decoded: seq<RawLog>, n: nat, hash: Hash) {
    exists log :: log in decoded && log.blockNumber == n && log.blockHash == hash
  }

  lemma FoundInMore(before: seq<RawLog>, d: seq<RawLog>, n: nat, hash: Hash)
    requires FoundIn(before, n, hash) && d != [] && d[..|d| - 1] == before
    ensures FoundIn(d, n, hash)
  {
  }

  function TableOf(hashes: map<nat, Hash>, counts: map<nat, nat>, lo: nat, hi: int): map<nat, BlockRow> {
    map n | n in hashes && lo <= n <= hi :: BlockRow(n, hashes[n], Lookup(counts, n))
  }

  lemma TableStep(hashes: map<nat, Hash>, counts: map<nat, nat>, lo: nat, n: nat)
    requires lo <= n
    ensures TableOf(hashes, counts, lo, n) ==
              if n in hashes then TableOf(hashes, counts, lo, n - 1)[n := BlockRow(n, hashes[n], Lookup(counts, n))]
              else TableOf(hashes, counts, lo, n - 1)
  {
  }

  lemma UpdateSum<K, V>(m: map<K, V>, t: map<K, V>, k: K, v: V)
    ensures m + t[k := v] == (m + t)[k := v]
  {
  }

  lemma {:induction false} InsertBlockRows(m: map<nat, BlockRow>, hashes: map<nat, Hash>, counts: map<nat, nat>,
      lo: nat, hi: int)
    ensures InsertBlocks(m, BlockRows(hashes, counts, lo, hi)) == m + TableOf(hashes, counts, lo, hi)
    decreases hi - lo + 1
  {
    if lo > hi {
      assert TableOf(hashes, counts, lo, hi) == map[];
    } else {
      var n: nat := hi;
      InsertBlockRows(m, hashes, counts, lo, hi - 1);
      TableStep(hashes, counts, lo, n);
      var rows := BlockRows(hashes, counts, lo, hi);
      if n in hashes {
        assert rows[..|rows| - 1] == BlockRows(hashes, counts, lo, hi - 1);
        UpdateSum(m, TableOf(hashes, counts, lo, hi - 1), n, BlockRow(n, hashes[n], Lookup(counts, n)));
      } else {
        assert rows == BlockRows(hashes, counts, lo, hi - 1);
      }
    }
  }

  /** Inserting the block rows of a range adds the chain's own block table of that range. */
  lemma InsertRange(m: map<nat, BlockRow>, c: Chain, lo: nat, hi: int)
    ensures
      var decoded := Decoded(LogsBetween(c, lo, hi));
      InsertBlocks(m, BlockRows(HashTable(decoded), CountTable(decoded), lo, hi)) == m + ChainBlocks(c, lo, hi)
  {
    var decoded := Decoded(LogsBetween(c, lo, hi));
    InsertBlockRows(m, HashTable(decoded), CountTable(decoded), lo, hi);
    RangeTable(c, lo, hi);
  }

  /** The blocks a range's decoded logs name, with their hashes and counts, are the chain's own table of it. */
  lemma RangeTable(c: Chain, lo: nat, hi: int)
    ensures
      var decoded := Decoded(LogsBetween(c, lo, hi));
      TableOf(HashTable(decoded), CountTable(decoded), lo, hi) == ChainBlocks(c, lo, hi)
  {
    var logs := LogsBetween(c, lo, hi);
    var hashes, counts := HashTable(Decoded(logs)), CountTable(Decoded(logs));
    var table := TableOf(hashes, counts, lo, hi);
    forall n: nat
      ensures n in table <==> n in ChainBlocks(c, lo, hi)
      ensures n in table ==> table[n] == ChainBlocks(c, lo, hi)[n]
    {
      CountsOfLogs(logs, n);
      HashesOfLogs(logs, n);
      CountRange(c, lo, hi, n);
      if n in hashes {
        var log :| log in Decoded(logs) && log.blockNumber == n && log.blockHash == hashes[n];
        DecodedRange(c, lo, hi, log);
      }
    }
    assert table == ChainBlocks(c, lo, hi);
  }

  lemma {:induction false} CountPositive(entries: seq<Entry>, e: Entry)
    requires e in entries && e.event.Some?
    ensures CountIndexed(entries) > 0
  {
    var rest := entries[..|entries| - 1];
    if e in rest {
      CountPositive(rest, e);
    } else {
      assert entries == rest + [entries[|entries| - 1]];
    }
  }

  // --------------------------------------------------------------- inserting rows

  ghost predicate AllGenuine(t: Tables) {
    forall k :: k in t.logs ==>
        k == KeyOf(t.logs[k]) && Genuine(t.logs[k]) && k in t.typed && t.typed[k] == t.logs[k].event
  }

  /** What inserting genuine rows over genuine rows leaves. */
  ghost predicate Merged(t: Tables, events: seq<EventLogRow>, t': Tables) {
    && Paired(t') && AllGenuine(t')
    && (forall k :: k in t.logs ==> k in t'.logs && t'.logs[k] == t.logs[k])
    && (forall row :: row in events ==> KeyOf(row) in t'.logs)
    && (forall k :: k in t'.logs ==> k in t.logs || t'.logs[k] in events)
  }

  lemma MergeNothing(t: Tables, events: seq<EventLogRow>, row: EventLogRow, before: Tables)
    requires Merged(t, events, before) && KeyOf(row) in before.logs
    ensures Merged(t, events + [row], before)
  {
  }

  lemma MergeOne(t: Tables, events: seq<EventLogRow>, row: EventLogRow, before: Tables)
    requires Merged(t, events, before) && Genuine(row) && KeyOf(row) !in before.logs
    ensures Merged(t, events + [row], Tables(before.logs[KeyOf(row) := row], before.typed[KeyOf(row) := row.event]))
  {
  }

  /** Genuine rows can be inserted in any order over genuine rows: none is lost or replaced. */
  lemma {:induction false} InsertGenuine(t: Tables, events: seq<EventLogRow>)
    requires Paired(t) && AllGenuine(t) && forall row :: row in events ==> Genuine(row)
    ensures Merged(t, events, InsertLogs(t, events))
  {
    if events != [] {
      var rest, row := events[..|events| - 1], events[|events| - 1];
      assert events == rest + [row];
      InsertGenuine(t, rest);
      if KeyOf(row) in InsertLogs(t, rest).logs {
        MergeNothing(t, rest, row, InsertLogs(t, rest));
      } else {
        MergeOne(t, rest, row, InsertLogs(t, rest));
      }
    }
  }

  lemma EventRows(c: Chain, lo: nat, hi: int, row: EventLogRow)
    ensures row in Rows(Decoded(LogsBetween(c, lo, hi))) <==>
              && lo <= row.blockNumber <= hi && row.blockNumber < |c|
              && row.blockHash == HashAt(c, row.blockNumber) && Genuine(row)
  {
    var decoded := Decoded(LogsBetween(c, lo, hi));
    var log := RawLog(row.blockNumber, row.blockHash, row.logIndex, row.envelope, Some(row.event));
    DecodedRange(c, lo, hi, log);
    if log in decoded {
      var i :| 0 <= i < |decoded| && decoded[i] == log;
      assert Rows(decoded)[i] == row;
    }
    if row in Rows(decoded) {
      var i :| 0 <= i < |decoded| && Rows(decoded)[i] == row;
      DecodedMembers(LogsBetween(c, lo, hi), decoded[i]);
      assert decoded[i] == log;
    }
  }

  // ------------------------------------------------------------- what a tick does

  /** The block table after a batch over [from, to] that deletes from deleteFrom on. */
  function Rewritten(blocks: map<nat, BlockRow>, c: Chain, deleteFrom: nat, from: nat, to: int): map<nat, BlockRow> {
    DropBlocks(blocks, deleteFrom, to) + ChainBlocks(c, from, to)
  }

  lemma BatchTables(s: SinkState, c: Chain, o: Options, deep: Option<nat>, from: nat, to: int)
    requires Coherent(s)
    ensures Merged(DropLogs(s.tables, DeleteFrom(deep, from), to), Rows(Decoded(LogsBetween(c, from, to))),
                   Applied(s, BatchOf(s, c, o, deep, from, to)).tables)
  {
    var kept := DropLogs(s.tables, DeleteFrom(deep, from), to);
    forall k | k in kept.logs
      ensures k == KeyOf(kept.logs[k]) && Genuine(kept.logs[k]) && k in kept.typed
          && kept.typed[k] == kept.logs[k].event
    {
      assert Stored(s, k);
    }
    forall row | row in Rows(Decoded(LogsBetween(c, from, to)))
      ensures Genuine(row)
    {
      EventRows(c, from, to, row);
    }
    InsertGenuine(kept, Rows(Decoded(LogsBetween(c, from, to))));
  }

  /** Where one row of the result came from. */
  lemma BatchRow(s: SinkState, c: Chain, o: Options, deep: Option<nat>, from: nat, to: int, k: Key)
    requires Coherent(s) && k in Applied(s, BatchOf(s, c, o, deep, from, to)).tables.logs
    ensures
      var t := Applied(s, BatchOf(s, c, o, deep, from, to)).tables;
      var row := t.logs[k];
      && k == KeyOf(row) && k in t.typed && t.typed[k] == row.event && Genuine(row)
      && (row in Rows(Decoded(LogsBetween(c, from, to))) ||
          (k in s.tables.logs && row == s.tables.logs[k] && !InRange(row.blockNumber, DeleteFrom(deep, from), to)))
  {
    BatchTables(s, c, o, deep, from, to);
  }

  lemma ChainBlockRows(c: Chain, lo: nat, hi: int)
    ensures forall n :: n in ChainBlocks(c, lo, hi) ==> IsBlockRow(ChainBlocks(c, lo, hi)[n], n)
  {
  }

  /** A batch keeps the sink coherent and rewrites the block table of its range. */
  lemma BatchKeepsCoherent(s: SinkState, c: Chain, o: Options, deep: Option<nat>, from: nat, to: int)
    requires Coherent(s)
    ensures
      var s' := Applied(s, BatchOf(s, c, o, deep, from, to));
      Coherent(s') && s'.blocks == Rewritten(s.blocks, c, DeleteFrom(deep, from), from, to)
  {
    var s' := Applied(s, BatchOf(s, c, o, deep, from, to));
    InsertRange(DropBlocks(s.blocks, DeleteFrom(deep, from), to), c, from, to);
    ChainBlockRows(c, from, to);
    assert Paired(s'.tables) by {
      BatchTables(s, c, o, deep, from, to);
    }
    forall k | k in s'.tables.logs
      ensures Stored(s', k)
    {
      StoredAfterBatch(s, c, o, deep, from, to, k);
    }
    forall row: EventLogRow | Genuine(row) && Listed(s', row)
      ensures KeyOf(row) in s'.tables.logs
    {
      KeptAfterBatch(s, c, o, deep, from, to, row);
    }
  }

  lemma StoredAfterBatch(s: SinkState, c: Chain, o: Options, deep: Option<nat>, from: nat, to: int, k: Key)
    requires Coherent(s)
    requires
      var s' := Applied(s, BatchOf(s, c, o, deep, from, to));
      s'.blocks == Rewritten(s.blocks, c, DeleteFrom(deep, from), from, to) && k in s'.tables.logs
    ensures Stored(Applied(s, BatchOf(s, c, o, deep, from, to)), k)
  {
    var s' := Applied(s, BatchOf(s, c, o, deep, from, to));
    BatchRow(s, c, o, deep, from, to, k);
    var row := s'.tables.logs[k];
    if row in Rows(Decoded(LogsBetween(c, from, to))) {
      EventRows(c, from, to, row);
      assert BodyOf(HashAt(c, row.blockNumber)) == c[row.blockNumber];
      CountPositive(c[row.blockNumber].entries, Entry(row.logIndex, row.envelope, Some(row.event)));
      assert row.blockNumber in ChainBlocks(c, from, to);
    } else {
      assert Stored(s, k);
      assert row.blockNumber !in ChainBlocks(c, from, to);
    }
  }

  lemma KeptAfterBatch(s: SinkState, c: Chain, o: Options, deep: Option<nat>, from: nat, to: int, row: EventLogRow)
    requires Coherent(s) && Genuine(row)
    requires
      var s' := Applied(s, BatchOf(s, c, o, deep, from, to));
      s'.blocks == Rewritten(s.blocks, c, DeleteFrom(deep, from), from, to) && Listed(s', row)
    ensures KeyOf(row) in Applied(s, BatchOf(s, c, o, deep, from, to)).tables.logs
  {
    BatchTables(s, c, o, deep, from, to);
    if row.blockNumber in ChainBlocks(c, from, to) {
      EventRows(c, from, to, row);
    } else {
      assert Listed(s, row);
      assert Stored(s, KeyOf(row));
      KeyDeterminesRow(row, s.tables.logs[KeyOf(row)]);
    }
  }

  /** A tick, as a step on the block table. */
  lemma TickStep(s: SinkState, c: Chain, o: Options, offer: Option<nat>)
    requires Coherent(s)
    ensures
      var s' := TickState(s, c, o, offer);
      && Coherent(s')
      && (Idle(s, c, o, offer) ==> s' == s)
      && (!Idle(s, c, o, offer) ==>
            && CursorOf(s', o).lastBlock == ToBlock(s, c, o, offer)
            && s'.blocks == Rewritten(s.blocks, c, DeleteFrom(Deep(s, c, o), FromBlock(s, c, o)), FromBlock(s, c, o),
               ToBlock(s, c, o, offer)))
  {
    BatchKeepsCoherent(s, c, o, Deep(s, c, o), FromBlock(s, c, o), ToBlock(s, c, o, offer));
  }

  // ---------------------------------------------------------------- the cursor

  lemma {:induction false} LastBlockRow(hashes: map<nat, Hash>, counts: map<nat, nat>, lo: nat, hi: int)
    ensures
      var rows := BlockRows(hashes, counts, lo, hi);
      if rows == [] then forall n :: n in hashes ==> !(lo <= n <= hi)
      else
        var last := rows[|rows| - 1];
        && lo <= last.blockNumber <= hi && last.blockNumber in hashes && last.blockHash == hashes[last.blockNumber]
        && forall n :: n in hashes && lo <= n <= hi ==> n <= last.blockNumber
    decreases hi - lo + 1
  {
    if lo <= hi {
      LastBlockRow(hashes, counts, lo, hi - 1);
    }
  }

  /** A stored block of the range that the chain no longer has as it was indexed. */
  ghost predicate ChangedInRange(s: SinkState, c: Chain, from: nat, last: int) {
    exists n: nat ::
        n in s.blocks && from <= n <= last
            && !(n in ChainBlocks(c, from, last) && ChainBlocks(c, from, last)[n].blockHash == s.blocks[n].blockHash)
  }

  /** The cursor's hash is that of the highest indexed block of the range, and stays where there is none. */
  ghost predicate CursorHash(before: CursorState, after: CursorState, table: map<nat, BlockRow>) {
    if table == map[] then after.lastBlockHash == before.lastBlockHash
    else exists h: nat ::
        h in table && (forall n :: n in table ==> n <= h) && after.lastBlockHash == Some(table[h].blockHash)
  }

  /**
   * What a tick does to the cursor: it names the height read to, the hash of the highest indexed
   * block read, and one reorganisation more exactly when the anchor walk diverged or a stored block
   * of the range is no longer the chain's.
   */
  lemma CursorStep(s: SinkState, c: Chain, o: Options, offer: Option<nat>)
    requires !Idle(s, c, o, offer) && forall n :: n in s.blocks ==> s.blocks[n].blockNumber == n
    ensures
      var before, after := CursorOf(s, o), CursorOf(TickState(s, c, o, offer), o);
      var from, last := FromBlock(s, c, o), ToBlock(s, c, o, offer);
      && after.lastBlock == last
      && CursorHash(before, after, ChainBlocks(c, from, last))
      && after.reorgCount == before.reorgCount
         + (if Deep(s, c, o).Some? || ChangedInRange(s, c, from, last) then 1 else 0)
  {
    var from, last := FromBlock(s, c, o), ToBlock(s, c, o, offer);
    var decoded := Decoded(LogsBetween(c, from, last));
    var hashes, counts, table := HashTable(decoded), CountTable(decoded), ChainBlocks(c, from, last);
    RangeTable(c, from, last);
    CursorHashIs(CursorOf(s, o), hashes, counts, from, last, table, Deep(s, c, o).Some?
        || Changed(KnownHashes(s.blocks, from, last), hashes) != {});
    ChangedIs(s, c, from, last, hashes, counts);
  }

  lemma CursorHashIs(before: CursorState, hashes: map<nat, Hash>, counts: map<nat, nat>, from: nat, last: int,
      table: map<nat, BlockRow>, reorg: bool)
    requires table == TableOf(hashes, counts, from, last)
    ensures CursorHash(before, NextCursor(before, last, BlockRows(hashes, counts, from, last), reorg), table)
  {
    var rows := BlockRows(hashes, counts, from, last);
    LastBlockRow(hashes, counts, from, last);
    if rows != [] {
      var h := rows[|rows| - 1].blockNumber;
      assert h in table && table[h].blockHash == hashes[h];
      assert forall n :: n in table ==> n <= h;
    } else {
      assert forall n :: n !in table;
    }
  }

  /** Changed are the stored blocks of the range that the chain now has under another hash or with nothing indexed. */
  lemma ChangedAre(s: SinkState, c: Chain, from: nat, last: int, hashes: map<nat, Hash>, counts: map<nat, nat>, n: nat)
    requires TableOf(hashes, counts, from, last) == ChainBlocks(c, from, last)
    ensures
      var table := ChainBlocks(c, from, last);
      n in Changed(KnownHashes(s.blocks, from, last), hashes) <==>
        n in s.blocks && from <= n <= last && !(n in table && table[n].blockHash == s.blocks[n].blockHash)
  {
    assert from <= n <= last ==> (n in ChainBlocks(c, from, last) <==> n in TableOf(hashes, counts, from, last));
  }

  lemma ChangedIs(s: SinkState, c: Chain, from: nat, last: int, hashes: map<nat, Hash>, counts: map<nat, nat>)
    requires TableOf(hashes, counts, from, last) == ChainBlocks(c, from, last)
    ensures Changed(KnownHashes(s.blocks, from, last), hashes) != {} <==> ChangedInRange(s, c, from, last)
  {
    forall n: nat
      ensures n in Changed(KnownHashes(s.blocks, from, last), hashes) <==>
                && n in s.blocks && from <= n <= last
                && !(n in ChainBlocks(c, from, last)
                     && ChainBlocks(c, from, last)[n].blockHash == s.blocks[n].blockHash)
    {
      ChangedAre(s, c, from, last, hashes, counts, n);
    }
  }

  /** What a tick's report says of the chain: the blocks touched are those of the range with something indexed. */
  lemma {:induction false} TouchedAre(hashes: map<nat, Hash>, counts: map<nat, nat>, lo: nat, hi: int)
    ensures |BlockRows(hashes, counts, lo, hi)| == |TableOf(hashes, counts, lo, hi)|
    decreases hi - lo + 1
  {
    if lo <= hi {
      TouchedAre(hashes, counts, lo, hi - 1);
      TableStep(hashes, counts, lo, hi);
    }
  }

  lemma BlocksTouched(s: SinkState, c: Chain, o: Options, offer: Option<nat>)
    ensures |TickBatch(s, c, o, offer).blocks| == |ChainBlocks(c, FromBlock(s, c, o), ToBlock(s, c, o, offer))|
  {
    var from, last := FromBlock(s, c, o), ToBlock(s, c, o, offer);
    var decoded := Decoded(LogsBetween(c, from, last));
    RangeTable(c, from, last);
    TouchedAre(HashTable(decoded), CountTable(decoded), from, last);
  }
}
