/**
 * The write surface of the index (apps/registry/src/sink.ts). MemorySink deletes a range of
 * block numbers and inserts what a batch carries, row by row; Applied says what that leaves.
 */
module Sink {
  import opened Chain
  import opened Wrappers

  datatype CursorState = CursorState(lastBlock: int, lastBlockHash: Option<Hash>, reorgCount: nat)

  /** A stored block; blocks with nothing to index have no row. */
  datatype BlockRow = BlockRow(blockNumber: nat, blockHash: Hash, logCount: nat)

  datatype EventLogRow = EventLogRow(blockNumber: nat, blockHash: Hash, logIndex: nat, envelope: string, event: string)

  /** The primary key of a log row. */
  datatype Key = Key(blockHash: Hash, logIndex: nat)

  function KeyOf(row: EventLogRow): Key {
    Key(row.blockHash, row.logIndex)
  }

  datatype WriteBatch = WriteBatch(deleteFrom: nat, deleteTo: int, blocks: seq<BlockRow>, events: seq<EventLogRow>,
      cursor: CursorState)

  /** Envelopes and typed rows, kept under the same keys. */
  datatype Tables = Tables(logs: map<Key, EventLogRow>, typed: map<Key, string>)

  datatype SinkState = SinkState(cursor: Option<CursorState>, blocks: map<nat, BlockRow>, tables: Tables)

  const EMPTY_SINK := SinkState(None, map[], Tables(map[], map[]))

  // ---------------------------------------------------------------- reference

  predicate InRange(n: nat, lo: nat, hi: int) {
    lo <= n <= hi
  }

  function DropLogs(t: Tables, lo: nat, hi: int): Tables {
    Tables(map k | k in t.logs && !InRange(t.logs[k].blockNumber, lo, hi) :: t.logs[k],
           map k | k in t.typed && !(k in t.logs && InRange(t.logs[k].blockNumber, lo, hi)) :: t.typed[k])
  }

  function DropBlocks(blocks: map<nat, BlockRow>, lo: nat, hi: int): map<nat, BlockRow> {
    map n | n in blocks && !InRange(n, lo, hi) :: blocks[n]
  }

  /** Inserts in order; a key already present keeps the row it has. */
  function InsertLogs(t: Tables, events: seq<EventLogRow>): Tables {
    if events == [] then t
    else
      var before, row := InsertLogs(t, events[..|events| - 1]), events[|events| - 1];
      if KeyOf(row) in before.logs then before
      else Tables(before.logs[KeyOf(row) := row], before.typed[KeyOf(row) := row.event])
  }

  function InsertBlocks(m: map<nat, BlockRow>, blocks: seq<BlockRow>): map<nat, BlockRow> {
    if blocks == [] then m
    else
      var row := blocks[|blocks| - 1];
      InsertBlocks(m, blocks[..|blocks| - 1])[row.blockNumber := row]
  }

  function Applied(s: SinkState, b: WriteBatch): SinkState {
    SinkState(Some(b.cursor),
              InsertBlocks(DropBlocks(s.blocks, b.deleteFrom, b.deleteTo), b.blocks),
              InsertLogs(DropLogs(s.tables, b.deleteFrom, b.deleteTo), b.events))
  }

  /** Up to `limit` stored blocks under a height, from the top down. */
  function RecentBlocks(blocks: map<nat, BlockRow>, before: nat, limit: nat): seq<BlockRow>
    decreases before
  {
    if before == 0 || limit == 0 then []
    else if before - 1 in blocks then [blocks[before - 1]] + RecentBlocks(blocks, before - 1, limit - 1)
    else RecentBlocks(blocks, before - 1, limit)
  }

  // --------------------------------------------------------------------- code

  class MemorySink {
    var cursor: Option<CursorState>
    var blocks: map<nat, BlockRow>
    var logs: map<Key, EventLogRow>
    var typed: map<Key, string>
    var batches: nat

    function State(): SinkState
      reads this
    {
      SinkState(cursor, blocks, Tables(logs, typed))
    }

    constructor ()
      ensures State() == EMPTY_SINK && batches == 0
    {
      cursor, blocks, logs, typed, batches := None, map[], map[], map[], 0;
    }

    method ReadBlockHashes(from: nat, to: int) returns (hashes: map<nat, Hash>)
      ensures hashes == map n | n in blocks && InRange(n, from, to) :: blocks[n].blockHash
    {
      hashes := map[];
      var todo := blocks.Keys;
      while todo != {}
        invariant todo <= blocks.Keys
        invariant hashes == map n | n in blocks && n !in todo && InRange(n, from, to) :: blocks[n].blockHash
        decreases todo
      {
        var n :| n in todo;
        todo := todo - {n};
        if n >= from && n <= to {
          hashes := hashes[n := blocks[n].blockHash];
        }
      }
    }

    /** Deletes the log rows, typed rows with them, of a range of block numbers. */
    method DeleteLogs(lo: nat, hi: int)
      modifies this
      ensures Tables(logs, typed) == DropLogs(old(Tables(logs, typed)), lo, hi)
      ensures cursor == old(cursor) && blocks == old(blocks) && batches == old(batches)
    {
      ghost var logs0, typed0 := logs, typed;
      var todo := logs.Keys;
      ghost var gone: set<Key> := {};
      while todo != {}
        invariant todo <= logs0.Keys
        invariant gone == set k | k in logs0 && k !in todo && InRange(logs0[k].blockNumber, lo, hi)
        invariant logs == logs0 - gone && typed == typed0 - gone
        invariant cursor == old(cursor) && blocks == old(blocks) && batches == old(batches)
        decreases todo
      {
        var k :| k in todo;
        todo := todo - {k};
        if logs[k].blockNumber >= lo && logs[k].blockNumber <= hi {
          logs := logs - {k};
          typed := typed - {k};
          gone := gone + {k};
        }
      }
    }

    method DeleteBlocks(lo: nat, hi: int)
      modifies this
      ensures blocks == DropBlocks(old(blocks), lo, hi)
      ensures cursor == old(cursor) && logs == old(logs) && typed == old(typed) && batches == old(batches)
    {
      ghost var blocks0 := blocks;
      var todo := blocks.Keys;
      while todo != {}
        invariant todo <= blocks0.Keys
        invariant blocks == map n | n in blocks0 && (n in todo || !InRange(n, lo, hi)) :: blocks0[n]
        invariant cursor == old(cursor) && logs == old(logs) && typed == old(typed) && batches == old(batches)
        decreases todo
      {
        var n :| n in todo;
        todo := todo - {n};
        if n >= lo && n <= hi {
          blocks := blocks - {n};
        }
      }
    }

    method ApplyBatch(b: WriteBatch)
      modifies this
      ensures State() == Applied(old(State()), b)
      ensures batches == old(batches) + 1
    {
      DeleteLogs(b.deleteFrom, b.deleteTo);
      DeleteBlocks(b.deleteFrom, b.deleteTo);
      ghost var dropped := State();
      for i := 0 to |b.blocks|
        invariant blocks == InsertBlocks(dropped.blocks, b.blocks[..i])
        invariant cursor == old(cursor) && Tables(logs, typed) == dropped.tables && batches == old(batches)
      {
        assert b.blocks[..i + 1][..i] == b.blocks[..i];
        blocks := blocks[b.blocks[i].blockNumber := b.blocks[i]];
      }
      assert b.blocks[..|b.blocks|] == b.blocks;
      for i := 0 to |b.events|
        invariant Tables(logs, typed) == InsertLogs(dropped.tables, b.events[..i])
        invariant blocks == InsertBlocks(dropped.blocks, b.blocks) && batches == old(batches)
      {
        assert b.events[..i + 1][..i] == b.events[..i];
        var key := KeyOf(b.events[i]);
        if key in logs {
          continue;
        }
        logs := logs[key := b.events[i]];
        typed := typed[key := b.events[i].event];
      }
      assert b.events[..|b.events|] == b.events;
      cursor := Some(b.cursor);
      batches := batches + 1;
    }
  }

  // ---------------------------------------------------------- what a batch leaves

  ghost predicate FirstWithKey(events: seq<EventLogRow>, i: nat, k: Key) {
    i < |events| && KeyOf(events[i]) == k && forall j :: 0 <= j < i ==> KeyOf(events[j]) != k
  }

  ghost predicate LastOfBlock(blocks: seq<BlockRow>, i: nat, n: nat) {
    i < |blocks| && blocks[i].blockNumber == n && forall j :: i < j < |blocks| ==> blocks[j].blockNumber != n
  }

  /** Under each key is the row that was there, or else the first of the events that has the key. */
  lemma {:induction false} FirstRowStays(t: Tables, events: seq<EventLogRow>, k: Key)
    requires Paired(t)
    ensures
      var t' := InsertLogs(t, events);
      && (k in t'.logs <==> k in t'.typed)
      && (k in t'.logs <==> k in t.logs || exists i: nat :: FirstWithKey(events, i, k))
      && (k in t.logs ==> t'.logs[k] == t.logs[k] && t'.typed[k] == t.typed[k])
      && (forall i: nat :: k !in t.logs && FirstWithKey(events, i, k) ==>
            t'.logs[k] == events[i] && t'.typed[k] == events[i].event)
  {
    if events != [] {
      var last: nat := |events| - 1;
      var rest := events[..last];
      FirstRowStays(t, rest, k);
      FirstOfMore(events, k);
    }
  }

  lemma FirstOfMore(events: seq<EventLogRow>, k: Key)
    requires events != []
    ensures
      var last: nat := |events| - 1;
      var known := exists i: nat :: FirstWithKey(events[..last], i, k);
      && (forall i: nat :: i < last ==> (FirstWithKey(events, i, k) <==> FirstWithKey(events[..last], i, k)))
      && (FirstWithKey(events, last, k) ==> !known)
      && (KeyOf(events[last]) == k && !known ==> FirstWithKey(events, last, k))
  {
    var last: nat := |events| - 1;
    if KeyOf(events[last]) == k && !FirstWithKey(events, last, k) {
      SomeFirst(events[..last], k);
    }
  }

  lemma {:induction false} SomeFirst(events: seq<EventLogRow>, k: Key)
    requires exists j :: 0 <= j < |events| && KeyOf(events[j]) == k
    ensures exists i: nat :: FirstWithKey(events, i, k)
  {
    var j: nat :| j < |events| && KeyOf(events[j]) == k;
    if !FirstWithKey(events, j, k) {
      SomeFirst(events[..j], k);
      var i: nat :| FirstWithKey(events[..j], i, k);
      assert FirstWithKey(events, i, k);
    }
  }

  /** Under each height is the last block row given for it, or else what was there. */
  lemma {:induction false} LastBlockStays(m: map<nat, BlockRow>, blocks: seq<BlockRow>, n: nat)
    ensures
      var m' := InsertBlocks(m, blocks);
      && (n in m' <==> n in m || exists i :: 0 <= i < |blocks| && blocks[i].blockNumber == n)
      && (n in m && (forall i :: 0 <= i < |blocks| ==> blocks[i].blockNumber != n) ==> m'[n] == m[n])
      && forall i: nat :: LastOfBlock(blocks, i, n) ==> m'[n] == blocks[i]
  {
    if blocks != [] {
      var last: nat := |blocks| - 1;
      var rest := blocks[..last];
      LastBlockStays(m, rest, n);
      forall i: nat | LastOfBlock(blocks, i, n) && i != last
        ensures LastOfBlock(rest, i, n)
      {
      }
    }
  }

  // -------------------------------------------------------------- idempotence

  /** The delete of a batch covers every row the batch inserts. */
  ghost predicate Covers(b: WriteBatch) {
    && (forall i :: 0 <= i < |b.blocks| ==> InRange(b.blocks[i].blockNumber, b.deleteFrom, b.deleteTo))
    && (forall i :: 0 <= i < |b.events| ==> InRange(b.events[i].blockNumber, b.deleteFrom, b.deleteTo))
  }

  lemma {:induction false} DropUndoesBlocks(m: map<nat, BlockRow>, blocks: seq<BlockRow>, lo: nat, hi: int)
    requires forall i :: 0 <= i < |blocks| ==> InRange(blocks[i].blockNumber, lo, hi)
    ensures DropBlocks(InsertBlocks(m, blocks), lo, hi) == DropBlocks(m, lo, hi)
  {
    if blocks != [] {
      DropUndoesBlocks(m, blocks[..|blocks| - 1], lo, hi);
      var before, row := InsertBlocks(m, blocks[..|blocks| - 1]), blocks[|blocks| - 1];
      assert DropBlocks(before[row.blockNumber := row], lo, hi) == DropBlocks(before, lo, hi);
    }
  }

  /** Every typed row has its envelope. */
  ghost predicate Paired(t: Tables) {
    t.logs.Keys == t.typed.Keys
  }

  lemma {:induction false} DropUndoesLogs(t: Tables, events: seq<EventLogRow>, lo: nat, hi: int)
    requires Paired(t) && t == DropLogs(t, lo, hi)
    requires forall i :: 0 <= i < |events| ==> InRange(events[i].blockNumber, lo, hi)
    ensures Paired(InsertLogs(t, events))
    ensures DropLogs(InsertLogs(t, events), lo, hi) == t
  {
    if events != [] {
      DropUndoesLogs(t, events[..|events| - 1], lo, hi);
      var before, row := InsertLogs(t, events[..|events| - 1]), events[|events| - 1];
      if KeyOf(row) !in before.logs {
        var after := Tables(before.logs[KeyOf(row) := row], before.typed[KeyOf(row) := row.event]);
        assert DropLogs(after, lo, hi).logs == DropLogs(before, lo, hi).logs;
        assert DropLogs(after, lo, hi).typed == DropLogs(before, lo, hi).typed;
      }
    }
  }

  /** A covering batch is idempotent. */
  lemma ApplyIsIdempotent(s: SinkState, b: WriteBatch)
    requires Covers(b) && Paired(s.tables)
    ensures Applied(Applied(s, b), b) == Applied(s, b)
  {
    var dropped := DropLogs(s.tables, b.deleteFrom, b.deleteTo);
    assert Paired(dropped);
    assert DropLogs(dropped, b.deleteFrom, b.deleteTo) == dropped;
    DropUndoesLogs(dropped, b.events, b.deleteFrom, b.deleteTo);
    var kept := DropBlocks(s.blocks, b.deleteFrom, b.deleteTo);
    assert DropBlocks(kept, b.deleteFrom, b.deleteTo) == kept;
    DropUndoesBlocks(kept, b.blocks, b.deleteFrom, b.deleteTo);
  }
}
