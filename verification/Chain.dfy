/**
 * One view of the chain, as the indexer sees it through a log source
 * (apps/registry/src/indexer.ts:72-97, apps/registry/src/events.ts).
 *
 * A block's hash binds its parent, so it binds every block below it. That is modelled by an
 * injective constructor: the hash of the block at height h is the chain up to h. Equal hashes
 * at a height therefore mean equal blocks at and below it, and nothing else has to be assumed.
 */
module Chain {
  import opened Wrappers

  /** A log of a watched contract. event is None when its signature is not one that is indexed. */
  datatype Entry = Entry(index: nat, envelope: string, event: Option<string>)

  datatype RawBody = RawBody(salt: nat, entries: seq<Entry>)

  predicate IncreasingIndices(entries: seq<Entry>) {
    forall i, j :: 0 <= i < j < |entries| ==> entries[i].index < entries[j].index
  }

  /** A block without its parent link: log ordinals are unique within a block. */
  type Body = b: RawBody | IncreasingIndices(b.entries) witness RawBody(0, [])

  /** The blocks from height 0 to the head. */
  type Chain = seq<Body>

  datatype Hash = HashOf(prefix: Chain)

  function HashAt(c: Chain, h: nat): Hash
    requires h < |c|
  {
    HashOf(c[..h + 1])
  }

  datatype RawLog = RawLog(blockNumber: nat, blockHash: Hash, index: nat, envelope: string, event: Option<string>)

  function LogOf(h: nat, hash: Hash, e: Entry): RawLog {
    RawLog(h, hash, e.index, e.envelope, e.event)
  }

  function BlockLogs(c: Chain, h: nat): (logs: seq<RawLog>)
    requires h < |c|
    ensures |logs| == |c[h].entries|
  {
    seq(|c[h].entries|, i requires 0 <= i < |c[h].entries| => LogOf(h, HashAt(c, h), c[h].entries[i]))
  }

  /** What eth_getLogs answers over [lo, hi]: every log, in (block, index) order. */
  function LogsBetween(c: Chain, lo: nat, hi: int): seq<RawLog>
    decreases hi - lo + 1
  {
    if lo > hi then [] else (if lo < |c| then BlockLogs(c, lo) else []) + LogsBetween(c, lo + 1, hi)
  }

  function BlockAt(c: Chain, h: nat): Option<Body> {
    if h < |c| then Some(c[h]) else None
  }

  /** The two chains carry the same blocks at every height below w. */
  ghost predicate UnchangedBelow(c: Chain, c': Chain, w: nat) {
    forall h :: 0 <= h < w ==> BlockAt(c, h) == BlockAt(c', h)
  }

  lemma SameHashBelow(c: Chain, c': Chain, w: nat, h: nat)
    requires UnchangedBelow(c, c', w) && h < w && h < |c|
    ensures h < |c'| && HashAt(c, h) == HashAt(c', h)
  {
    assert BlockAt(c, h) == BlockAt(c', h);
    forall g | 0 <= g < h + 1
      ensures c[g] == c'[g]
    {
      assert BlockAt(c, g) == BlockAt(c', g);
    }
    assert c[..h + 1] == c'[..h + 1];
  }

  /** A canonical hash makes everything below it canonical. */
  lemma HashBindsBelow(c: Chain, c': Chain, h: nat)
    requires h < |c| && h < |c'| && HashAt(c, h) == HashAt(c', h)
    ensures UnchangedBelow(c, c', h + 1)
  {
  }

  lemma {:induction false} SplitLogs(c: Chain, lo: nat, mid: int, hi: int)
    requires lo - 1 <= mid <= hi
    ensures LogsBetween(c, lo, hi) == LogsBetween(c, lo, mid) + LogsBetween(c, mid + 1, hi)
    decreases mid - lo + 1
  {
    if lo <= mid {
      SplitLogs(c, lo + 1, mid, hi);
    }
  }
}
