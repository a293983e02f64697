/**
 * The history a gateway holds between calls (apps/gateway/src/history.ts:137-274).
 *
 * The world is an append-only log: the records that ever land, by block. A call sees it up to
 * one head, its commitment read and head read being one view. The registry's answer is not
 * trusted by the code; the theorem about it assumes a copy complete to its own horizon, older
 * or newer than the call.
 */
module History {
  import opened LogScan
  import opened Records
  import opened Sums
  import opened Wrappers

  const MAX_CATCH_UP_BLOCKS := 2_000

  /** The contract numbers its records; count is that number. */
  datatype CountedRecord = CountedRecord(count: nat, record: SettlementRecord)

  /** What is kept of one history: a list by count, and the height up to which it misses nothing. */
  datatype HeldHistory = HeldHistory(records: seq<CountedRecord>, completeTo: nat)

  /** What the registry answers: its horizon, the count it states, and the records it lists. */
  datatype RegistryBody = RegistryBody(lastBlock: int, count: int, history: seq<SettlementRecord>)

  type Table = seq<seq<CountedRecord>>

  // ---------------------------------------------------------------- reference

  function Number(history: seq<SettlementRecord>): seq<CountedRecord> {
    seq(|history|, i requires 0 <= i < |history| => CountedRecord(i + 1, history[i]))
  }

  /** The registry's copy, or nothing where it does not answer or contradicts itself. */
  function FromRegistry(answer: Option<RegistryBody>): Option<HeldHistory> {
    if answer.None? || answer.value.lastBlock < 0 || answer.value.count != |answer.value.history| then None
    else Some(HeldHistory(Number(answer.value.history), answer.value.lastBlock))
  }

  /** What a call starts from: what is held, or the registry's copy where that is newer and needed. */
  function BaseOf(have: Option<HeldHistory>, head: nat, copy: Option<HeldHistory>): Option<HeldHistory> {
    if (have.None? || head - have.value.completeTo > MAX_CATCH_UP_BLOCKS)
       && copy.Some? && (have.None? || copy.value.completeTo > have.value.completeTo)
    then copy else have
  }

  /** What is held serves while it is at most 2,000 blocks behind; past that, the newer of it and the copy. */
  lemma BaseIsNear(have: Option<HeldHistory>, head: nat, copy: Option<HeldHistory>)
    ensures BaseOf(have, head, copy) == have || BaseOf(have, head, copy) == copy
    ensures BaseOf(have, head, copy).None? <==> have.None? && copy.None?
    ensures have.Some? && head - have.value.completeTo <= 2_000 ==> BaseOf(have, head, copy) == have
    ensures have.Some? && head - have.value.completeTo > 2_000 ==>
              BaseOf(have, head, copy).value.completeTo
              == Max(have.value.completeTo, if copy.Some? then copy.value.completeTo else 0)
    ensures have.Some? && copy.Some? && copy.value.completeTo <= have.value.completeTo ==>
          BaseOf(have, head, copy) == have
  {
  }

  predicate HasCount(records: seq<CountedRecord>, count: nat) {
    exists i :: 0 <= i < |records| && records[i].count == count
  }

  /** Appends the records whose count is not there yet. */
  function Merge(records: seq<CountedRecord>, logs: seq<CountedRecord>): seq<CountedRecord>
    decreases |logs|
  {
    if logs == [] then records
    else Merge(if HasCount(records, logs[0].count) then records else records + [logs[0]], logs[1..])
  }

  function InsertByCount(r: CountedRecord, s: seq<CountedRecord>): seq<CountedRecord> {
    if s == [] || r.count <= s[0].count then [r] + s else [s[0]] + InsertByCount(r, s[1..])
  }

  /** The stable sort by count. */
  function SortByCount(s: seq<CountedRecord>): seq<CountedRecord> {
    if s == [] then [] else InsertByCount(s[0], SortByCount(s[1..]))
  }

  function ScanFrom(base: Option<HeldHistory>, deployed: nat): nat {
    if base.None? then deployed else base.value.completeTo + 1
  }

  function RecordsOf(base: Option<HeldHistory>): seq<CountedRecord> {
    if base.None? then [] else base.value.records
  }

  function CompleteBelow(base: Option<HeldHistory>, deployed: nat): int {
    if base.None? then deployed - 1 else base.value.completeTo
  }

  /** A base scanned forward to a block. */
  function Scanned(base: Option<HeldHistory>, table: Table, deployed: nat, to: nat): HeldHistory {
    HeldHistory(SortByCount(Merge(RecordsOf(base), Between(table, ScanFrom(base, deployed), to))),
                Max(to, CompleteBelow(base, deployed)))
  }

  /** A scan is carried to its end, or there is nothing to scan. */
  predicate ScanCarried(endpoint: Endpoint, from: nat, to: int) {
    from > to || Carried(endpoint, from, to)
  }

  /** Whether a call can answer: from the count alone, from what is held, from a copy, or by a scan. */
  predicate Answers(have: Option<HeldHistory>, table: Table, deployed: nat, head: nat, copy: Option<HeldHistory>,
                    commitmentOk: bool, headOk: bool, endpoint: Endpoint)
  {
    var count, base := |Seen(table, head)|, BaseOf(have, head, copy);
    && commitmentOk
    && (count > 0 && (have.None? || |have.value.records| != count) ==>
          && headOk
          && (base.None? || |base.value.records| != count ==> ScanCarried(endpoint, ScanFrom(base, deployed), head)))
  }

  /** What a call that does not fail answers, and what it holds afterwards when that changes. */
  function Answer(have: Option<HeldHistory>, table: Table, deployed: nat, head: nat, copy: Option<HeldHistory>):
    (seq<CountedRecord>, Option<HeldHistory>)
  {
    var count, base := |Seen(table, head)|, BaseOf(have, head, copy);
    if count == 0 then ([], None)
    else if have.Some? && |have.value.records| == count then (have.value.records, None)
    else if base.Some? && |base.value.records| == count then
      (base.value.records, Some(HeldHistory(base.value.records, Max(base.value.completeTo, head))))
    else (Scanned(base, table, deployed, head).records, Some(Scanned(base, table, deployed, head)))
  }

  // ---------------------------------------------------------------- the world

  /** The contract's history at a head: what a scan from the first block to it finds. */
  function Seen(table: Table, head: int): seq<CountedRecord> {
    Between(table, 0, head)
  }

  /** Every record that ever lands. */
  function All(table: Table): seq<CountedRecord> {
    Seen(table, |table|)
  }

  /** The contract counts its records up from 1, and logs nothing before it is deployed. */
  ghost predicate World(table: Table, deployed: nat) {
    && (forall i :: 0 <= i < |All(table)| ==> All(table)[i].count == i + 1)
    && (forall h: nat :: h < deployed ==> LoggedAt(table, h) == [])
  }

  /** A held history is the first records of the log, every one at or below completeTo among them. */
  ghost predicate Holds(h: HeldHistory, table: Table) {
    h.records <= All(table) && |Seen(table, h.completeTo)| <= |h.records|
  }

  lemma {:induction false} NothingLater(table: Table, lo: nat, hi: int)
    requires lo >= |table|
    ensures Between(table, lo, hi) == []
    decreases hi - lo + 1
  {
    if lo <= hi {
      NothingLater(table, lo + 1, hi);
    }
  }

  lemma {:induction false} NothingBefore(table: Table, lo: nat, deployed: nat, hi: int)
    requires World(table, deployed) && lo <= deployed
    ensures Between(table, lo, hi) == Between(table, deployed, hi)
    decreases deployed - lo
  {
    if lo < deployed {
      NothingBefore(table, lo + 1, deployed, hi);
    }
  }

  /** A scan to any head is the first records of the log. */
  lemma SeenIsPrefix(table: Table, head: int)
    ensures Seen(table, head) <= All(table)
  {
    if head <= |table| {
      BetweenGrows(table, 0, head, |table|);
    } else {
      SplitBetween(table, 0, |table|, head);
      NothingLater(table, |table| + 1, head);
    }
  }

  // ------------------------------------------------------------------- merging

  /** A merge keeps the base as it is and gives every count of the logs one place. */
  lemma {:induction false} MergeFacts(records: seq<CountedRecord>, logs: seq<CountedRecord>, n: nat)
    ensures records <= Merge(records, logs)
    ensures HasCount(Merge(records, logs), n) <==> HasCount(records, n) || HasCount(logs, n)
    ensures forall r :: r in Merge(records, logs) ==> r in records || r in logs
    ensures DistinctCounts(records) ==> DistinctCounts(Merge(records, logs))
    decreases |logs|
  {
    if logs != [] {
      var next := if HasCount(records, logs[0].count) then records else records + [logs[0]];
      MergeFacts(next, logs[1..], n);
      FirstOrLater(logs, n);
      HasMore(records, logs[0], n);
      assert forall r :: r in next ==> r in records || r == logs[0];
    }
  }

  ghost predicate DistinctCounts(records: seq<CountedRecord>) {
    forall i, j :: 0 <= i < j < |records| ==> records[i].count != records[j].count
  }

  lemma FirstOrLater(logs: seq<CountedRecord>, n: nat)
    requires logs != []
    ensures HasCount(logs, n) <==> logs[0].count == n || HasCount(logs[1..], n)
  {
    if HasCount(logs[1..], n) {
      var i :| 0 <= i < |logs[1..]| && logs[1..][i].count == n;
      assert logs[i + 1].count == n;
    }
    if HasCount(logs, n) && logs[0].count != n {
      var i :| 0 <= i < |logs| && logs[i].count == n;
      assert logs[1..][i - 1].count == n;
    }
  }

  lemma HasMore(records: seq<CountedRecord>, one: CountedRecord, n: nat)
    ensures HasCount(records + [one], n) <==> one.count == n || HasCount(records, n)
  {
    assert (records + [one])[|records|] == one;
    if HasCount(records, n) {
      var i :| 0 <= i < |records| && records[i].count == n;
      assert (records + [one])[i].count == n;
    }
  }

  // -------------------------------------------------------------- correctness

  lemma {:induction false} SortedStays(s: seq<CountedRecord>)
    requires forall i, j :: 0 <= i < j < |s| ==> s[i].count <= s[j].count
    ensures SortByCount(s) == s
  {
    if s != [] {
      SortedStays(s[1..]);
      assert s == [s[0]] + s[1..];
    }
  }

  /** Merging part of the log into the first m records gives the first records, up to the longer end. */
  lemma {:induction false} MergeExtends(all: seq<CountedRecord>, m: nat, a: nat, b: nat)
    requires a <= m <= |all| && a <= b <= |all| && forall i :: 0 <= i < |all| ==> all[i].count == i + 1
    ensures Merge(all[..m], all[a..b]) == all[..Max(m, b)]
    decreases b - a
  {
    if a < b {
      assert all[a..b][0] == all[a] && all[a..b][1..] == all[a + 1..b];
      assert forall i :: 0 <= i < m ==> all[..m][i].count == i + 1;
      if a < m {
        assert all[..m][a].count == all[a].count;
        MergeExtends(all, m, a + 1, b);
      } else {
        assert all[..m] + [all[a]] == all[..m + 1];
        MergeExtends(all, m + 1, a + 1, b);
      }
    }
  }

  lemma SliceOfPrefix<T>(s: seq<T>, all: seq<T>, head: seq<T>, tail: seq<T>)
    requires s <= all && s == head + tail
    ensures |head| <= |s| <= |all| && tail == all[|head|..|s|]
  {
  }

  /** The records past a base are a stretch of the log that starts inside the base. */
  lemma StretchOf(base: Option<HeldHistory>, table: Table, deployed: nat, to: nat) returns (a: nat)
    requires World(table, deployed) && (base.Some? ==> Holds(base.value, table))
    ensures a <= |RecordsOf(base)| && a <= |Seen(table, to)| <= |All(table)|
    ensures Between(table, ScanFrom(base, deployed), to) == All(table)[a..|Seen(table, to)|]
  {
    SeenIsPrefix(table, to);
    if base.None? {
      NothingBefore(table, 0, deployed, to);
      SliceOfPrefix(Seen(table, to), All(table), [], Between(table, deployed, to));
      a := 0;
    } else {
      a := StretchAfter(base.value.completeTo, table, to);
    }
  }

  lemma StretchAfter(completeTo: nat, table: Table, to: nat) returns (a: nat)
    requires Seen(table, to) <= All(table)
    ensures a <= |Seen(table, completeTo)| && a <= |Seen(table, to)|
    ensures Between(table, completeTo + 1, to) == All(table)[a..|Seen(table, to)|]
  {
    if completeTo < to {
      a := |Seen(table, completeTo)|;
      SplitBetween(table, 0, completeTo, to);
      SliceOfPrefix(Seen(table, to), All(table), Seen(table, completeTo), Between(table, completeTo + 1, to));
    } else {
      a := |Seen(table, to)|;
      BetweenGrows(table, 0, to, completeTo);
    }
  }

  /** What a good base merges to: the first records of the log, up to the longer end. */
  lemma MergedIs(base: Option<HeldHistory>, table: Table, deployed: nat, to: nat)
    requires World(table, deployed) && (base.Some? ==> Holds(base.value, table))
    ensures |Seen(table, to)| <= |All(table)|
    ensures Merge(RecordsOf(base), Between(table, ScanFrom(base, deployed), to)) ==
              All(table)[..Max(|RecordsOf(base)|, |Seen(table, to)|)]
  {
    var a := StretchOf(base, table, deployed, to);
    assert RecordsOf(base) == All(table)[..|RecordsOf(base)|];
    MergeExtends(All(table), |RecordsOf(base)|, a, |Seen(table, to)|);
  }

  /** Scanning a good base forward gives a good history: the longer of the base and the view. */
  lemma ScannedExtends(base: Option<HeldHistory>, table: Table, deployed: nat, to: nat)
    requires World(table, deployed) && (base.Some? ==> Holds(base.value, table))
    ensures Holds(Scanned(base, table, deployed, to), table)
    ensures Scanned(base, table, deployed, to).records ==
              if |RecordsOf(base)| > |Seen(table, to)| then RecordsOf(base) else Seen(table, to)
  {
    SeenIsPrefix(table, to);
    MergedIs(base, table, deployed, to);
    SortedStays(All(table)[..Max(|RecordsOf(base)|, |Seen(table, to)|)]);
    CompleteEnough(base, table, deployed, to);
  }

  lemma CompleteEnough(base: Option<HeldHistory>, table: Table, deployed: nat, to: nat)
    requires World(table, deployed) && (base.Some? ==> Holds(base.value, table))
    ensures |Seen(table, Scanned(base, table, deployed, to).completeTo)| <= Max(|RecordsOf(base)|, |Seen(table, to)|)
  {
    if base.None? && to < deployed - 1 {
      NothingBefore(table, 0, deployed, deployed - 1);
    }
  }

  /** No copy the call would use knows more records than the view: it has none, or it is not asked. */
  predicate NoneAhead(have: Option<HeldHistory>, table: Table, head: nat, copy: Option<HeldHistory>) {
    var count := |Seen(table, head)|;
    || count == 0
    || (have.Some? && |have.value.records| == count)
    || |RecordsOf(BaseOf(have, head, copy))| <= count
  }

  /**
   * One call from good copies: what it answers is the first records of the log and misses none
   * of the view's, it is the view's own full scan exactly when no copy it uses is ahead of the
   * view, and what is held afterwards is good again: the answer, complete to the head and to where
   * what it started from was, unless that was already the answer.
   */
  lemma AnswerIsRight(have: Option<HeldHistory>, table: Table, deployed: nat, head: nat, copy: Option<HeldHistory>)
    requires World(table, deployed)
    requires (have.Some? ==> Holds(have.value, table)) && (copy.Some? ==> Holds(copy.value, table))
    ensures
      var (records, hold), seen := Answer(have, table, deployed, head, copy), Seen(table, head);
      && seen <= records <= All(table)
      && (hold.Some? ==> Holds(hold.value, table) && hold.value.records == records)
      && (hold.None? <==> seen == [] || (have.Some? && |have.value.records| == |seen|))
      && (hold.Some? ==> hold.value.completeTo == Max(head, CompleteBelow(BaseOf(have, head, copy), deployed)))
      && (records == seen <==> NoneAhead(have, table, head, copy))
  {
    var base, seen := BaseOf(have, head, copy), Seen(table, head);
    SeenIsPrefix(table, head);
    if |seen| != 0 && !(have.Some? && |have.value.records| == |seen|) {
      if base.Some? && |base.value.records| == |seen| {
        if head > base.value.completeTo {
          assert Holds(HeldHistory(base.value.records, head), table);
        }
      } else {
        ScannedExtends(base, table, deployed, head);
      }
    }
  }

  /**
   * When a call fails. Without the contract's count it does. With it, a count of zero and a held
   * history of that length need nothing more; otherwise the head is needed, and the chain's logs
   * only past what the call starts from. An endpoint that answers never makes one fail.
   */
  lemma FailsWhen(have: Option<HeldHistory>, table: Table, deployed: nat, head: nat, copy: Option<HeldHistory>,
      commitmentOk: bool, headOk: bool, endpoint: Endpoint)
    ensures
      var count, base := |Seen(table, head)|, BaseOf(have, head, copy);
      var answers := Answers(have, table, deployed, head, copy, commitmentOk, headOk, endpoint);
      && (!commitmentOk ==> !answers)
      && (commitmentOk && (count == 0 || (have.Some? && |have.value.records| == count)) ==> answers)
      && (count > 0 && (have.None? || |have.value.records| != count) && !headOk ==> !answers)
      && (commitmentOk && headOk && base.Some? && (|base.value.records| == count || head <= base.value.completeTo) ==>
            answers)
      && (commitmentOk && headOk && (forall i :: 0 <= i ==> endpoint(i) == Answered) ==> answers)
  {
    var from := ScanFrom(BaseOf(have, head, copy), deployed);
    if (forall i :: 0 <= i ==> endpoint(i) == Answered) && from <= head {
      CourseOfAnswers(endpoint, 0, from, head);
    }
  }

  /** Once an answer is the view's own full scan, the next call of that count needs only the count. */
  lemma HeldServes(have: Option<HeldHistory>, table: Table, deployed: nat, head: nat, copy: Option<HeldHistory>,
      later: nat, copy': Option<HeldHistory>, endpoint: Endpoint)
    requires World(table, deployed)
    requires (have.Some? ==> Holds(have.value, table)) && (copy.Some? ==> Holds(copy.value, table))
    requires NoneAhead(have, table, head, copy) && |Seen(table, later)| == |Seen(table, head)|
    ensures
      var hold := Answer(have, table, deployed, head, copy).1;
      var held := if hold.None? then have else hold;
      && Answers(held, table, deployed, later, copy', true, false, endpoint)
      && Answer(held, table, deployed, later, copy').0 == Seen(table, later)
      && Answer(held, table, deployed, later, copy').1 == None
  {
    AnswerIsRight(have, table, deployed, head, copy);
    SeenIsPrefix(table, head);
    SeenIsPrefix(table, later);
  }

  /**
   * A registry that has read one block further than the call sees. Its copy is true, and the
   * answer has a record the view's own scan does not.
   */
  lemma RegistryAhead(first: SettlementRecord, second: SettlementRecord) returns (table: Table, copy: HeldHistory)
    ensures World(table, 0) && Holds(copy, table)
    ensures Answer(None, table, 0, 0, Some(copy)).0 == copy.records != Seen(table, 0)
  {
    var one, two := CountedRecord(1, first), CountedRecord(2, second);
    table, copy := [[one], [two]], HeldHistory([one, two], 1);
    TwoBlocks(table, one, two);
    AnswerIsRight(None, table, 0, 0, Some(copy));
  }

  lemma TwoBlocks(table: Table, one: CountedRecord, two: CountedRecord)
    requires table == [[one], [two]]
    ensures Seen(table, 0) == [one] && Seen(table, 1) == [one, two] && All(table) == [one, two]
  {
    assert Between(table, 1, 0) == [] && Between(table, 2, 1) == [] && Between(table, 3, 2) == [];
    assert Between(table, 2, 2) == [];
    assert Between(table, 1, 1) == [two] && Between(table, 1, 2) == [two];
  }

  /** A call that did not fail: the head of its view, and what the registry answered. */
  datatype Call = Call(head: nat, registry: Option<RegistryBody>)

  /** What is held for one Agent and Asset after a run of calls. */
  function HeldAfter(calls: seq<Call>, table: Table, deployed: nat): Option<HeldHistory> {
    if calls == [] then None
    else
      var before, call := HeldAfter(calls[..|calls| - 1], table, deployed), calls[|calls| - 1];
      var hold := Answer(before, table, deployed, call.head, FromRegistry(call.registry)).1;
      if hold.None? then before else hold
  }

  /**
   * A registry that tells the truth as of its own horizon: what it lists is the first of the
   * contract's records, and misses none landed at or below it. One that names no horizon, or a
   * count that is not that of its list, is not believed and may say anything.
   */
  ghost predicate TrueBody(body: RegistryBody, table: Table) {
    body.lastBlock >= 0 && body.count == |body.history| ==>
      && |Seen(table, body.lastBlock)| <= |body.history| <= |All(table)|
      && forall i :: 0 <= i < |body.history| ==> body.history[i] == All(table)[i].record
  }

  ghost predicate TrueAnswer(answer: Option<RegistryBody>, table: Table) {
    answer.Some? ==> TrueBody(answer.value, table)
  }

  /** What an answer is worth: nothing where it contradicts itself, and otherwise its list up to its own horizon. */
  lemma CopyOf(answer: Option<RegistryBody>, table: Table, deployed: nat)
    requires World(table, deployed)
    ensures FromRegistry(answer).Some? <==>
          answer.Some? && answer.value.lastBlock >= 0 && answer.value.count == |answer.value.history|
    ensures FromRegistry(answer).Some? ==>
              && FromRegistry(answer).value.completeTo == answer.value.lastBlock
              && |FromRegistry(answer).value.records| == |answer.value.history|
    ensures TrueAnswer(answer, table) && FromRegistry(answer).Some? ==> Holds(FromRegistry(answer).value, table)
  {
    if TrueAnswer(answer, table) && FromRegistry(answer).Some? {
      NumberedAre(answer.value.history, All(table));
    }
  }

  lemma NumberedAre(history: seq<SettlementRecord>, all: seq<CountedRecord>)
    requires |history| <= |all| && forall i :: 0 <= i < |history| ==> history[i] == all[i].record
    requires forall i :: 0 <= i < |all| ==> all[i].count == i + 1
    ensures Number(history) <= all
  {
    forall i | 0 <= i < |history|
      ensures Number(history)[i] == all[i]
    {
      assert Number(history)[i].count == all[i].count && Number(history)[i].record == all[i].record;
    }
  }

  /** In every run over copies complete to their own horizons, what is held is good throughout. */
  lemma {:induction false} EveryRunHolds(calls: seq<Call>, table: Table, deployed: nat)
    requires World(table, deployed)
    requires forall i :: 0 <= i < |calls| ==> TrueAnswer(calls[i].registry, table)
    ensures HeldAfter(calls, table, deployed).Some? ==> Holds(HeldAfter(calls, table, deployed).value, table)
  {
    if calls != [] {
      var before, call := calls[..|calls| - 1], calls[|calls| - 1];
      EveryRunHolds(before, table, deployed);
      CopyOf(call.registry, table, deployed);
      AnswerIsRight(HeldAfter(before, table, deployed), table, deployed, call.head, FromRegistry(call.registry));
    }
  }

  /**
   * In every run whose heads only move forward, over copies never ahead of the view they are
   * read in, every answer is the full scan of its own view.
   */
  lemma {:induction false} EveryAnswerIsAFullScan(calls: seq<Call>, table: Table, deployed: nat)
    requires calls != [] && World(table, deployed)
    requires forall i, j :: 0 <= i < j < |calls| ==> calls[i].head <= calls[j].head
    requires forall i :: 0 <= i < |calls| ==>
               && TrueAnswer(calls[i].registry, table)
               && (calls[i].registry.Some? ==> |calls[i].registry.value.history| <= |Seen(table, calls[i].head)|)
    ensures
      var last := calls[|calls| - 1];
      && Answer(HeldAfter(calls[..|calls| - 1], table, deployed), table, deployed, last.head,
         FromRegistry(last.registry)).0 == Seen(table, last.head)
      && |RecordsOf(HeldAfter(calls, table, deployed))| <= |Seen(table, last.head)|
  {
    var before, last := calls[..|calls| - 1], calls[|calls| - 1];
    EveryRunHolds(before, table, deployed);
    if before != [] {
      EveryAnswerIsAFullScan(before, table, deployed);
      BetweenGrows(table, 0, before[|before| - 1].head, last.head);
    }
    CopyOf(last.registry, table, deployed);
    AnswerIsRight(HeldAfter(before, table, deployed), table, deployed, last.head, FromRegistry(last.registry));
  }

  // --------------------------------------------------------------------- code

  lemma GoodAnswer(have: Option<HeldHistory>, table: Table, deployed: nat, head: nat, registry: Option<RegistryBody>)
    ensures World(table, deployed) && (have.Some? ==> Holds(have.value, table)) && TrueAnswer(registry, table) ==>
              var (records, hold) := Answer(have, table, deployed, head, FromRegistry(registry));
              (hold.Some? ==> Holds(hold.value, table)) && Seen(table, head) <= records <= All(table)
  {
    if World(table, deployed) && (have.Some? ==> Holds(have.value, table)) && TrueAnswer(registry, table) {
      CopyOf(registry, table, deployed);
      AnswerIsRight(have, table, deployed, head, FromRegistry(registry));
    }
  }

  type Key = string

  class HistorySource {
    const deployed: nat
    var held: map<Key, HeldHistory>

    constructor (deployed: nat)
      ensures held == map[] && this.deployed == deployed
    {
      this.deployed := deployed;
      held := map[];
    }

    function Have(key: Key): Option<HeldHistory>
      reads this
    {
      if key in held then Some(held[key]) else None
    }

    /** The records past a base, decoded, skipping by count what the base already has. */
    method ScanSince(table: Table, base: Option<HeldHistory>, to: nat, endpoint: Endpoint)
        returns (r: Result<HeldHistory, ScanError>)
      ensures r.Ok? <==> ScanCarried(endpoint, ScanFrom(base, deployed), to)
      ensures r.Ok? ==> r.value == Scanned(base, table, deployed, to)
    {
      var from: nat := if base.None? then deployed else base.value.completeTo + 1;
      var records := if base.None? then [] else base.value.records;
      if from <= to {
        var logs, _ := HistoryLogs(table, endpoint, from, to);
        if logs.Err? {
          return Err(logs.error);
        }
        records := MergeLogs(records, logs.value);
      }
      var completeTo := if base.None? then Max(to, deployed - 1) else Max(to, base.value.completeTo);
      return Ok(HeldHistory(SortByCount(records), completeTo));
    }

    method MergeLogs(base: seq<CountedRecord>, logs: seq<CountedRecord>) returns (records: seq<CountedRecord>)
      ensures records == Merge(base, logs)
    {
      records := base;
      var counts := set i | 0 <= i < |records| :: records[i].count;
      for i := 0 to |logs|
        invariant Merge(records, logs[i..]) == Merge(base, logs)
        invariant forall n: nat :: n in counts <==> HasCount(records, n)
      {
        assert logs[i..][0] == logs[i] && logs[i..][1..] == logs[i + 1..];
        if logs[i].count in counts {
          continue;
        }
        counts := counts + {logs[i].count};
        forall n: nat {
          HasMore(records, logs[i], n);
        }
        records := records + [logs[i]];
      }
    }

    /**
     * One call, over one view of the chain. A call that fails leaves what is held as it was;
     * one that does not fail answers, and holds, what Answer says. From good copies that is
     * right, and stays so: this is the invariant of every run.
     */
    method HistoryRecords(key: Key, table: Table, head: nat, commitmentOk: bool, headOk: bool,
                          registry: Option<RegistryBody>, endpoint: Endpoint)
      returns (r: Result<seq<CountedRecord>, Option<ScanError>>)
      modifies this
      ensures r.Ok? <==>
            Answers(old(Have(key)), table, deployed, head, FromRegistry(registry), commitmentOk, headOk, endpoint)
      ensures r.Err? ==> held == old(held)
      ensures r.Ok? ==>
                var (records, hold) := Answer(old(Have(key)), table, deployed, head, FromRegistry(registry));
                r.value == records && held == if hold.None? then old(held) else old(held)[key := hold.value]
      ensures World(table, deployed) && (key in old(held) ==> Holds(old(held)[key], table))
              && TrueAnswer(registry, table) ==>
                && (key in held ==> Holds(held[key], table))
                && (r.Ok? ==> Seen(table, head) <= r.value <= All(table))
    {
      GoodAnswer(Have(key), table, deployed, head, registry);
      if !commitmentOk {
        return Err(None);
      }
      var count := |Seen(table, head)|;
      if count == 0 {
        return Ok([]);
      }
      if key in held && |held[key].records| == count {
        return Ok(held[key].records);
      }
      if !headOk {
        return Err(None);
      }
      var base := Have(key);
      if base.None? || head - base.value.completeTo > MAX_CATCH_UP_BLOCKS {
        var newer := FromRegistry(registry);
        if newer.Some? && (base.None? || newer.value.completeTo > base.value.completeTo) {
          base := newer;
        }
      }
      if base.Some? && |base.value.records| == count {
        var complete := HeldHistory(base.value.records, Max(base.value.completeTo, head));
        held := held[key := complete];
        return Ok(complete.records);
      }
      var scanned := ScanSince(table, base, head, endpoint);
      if scanned.Err? {
        return Err(Some(scanned.error));
      }
      held := held[key := scanned.value];
      return Ok(scanned.value.records);
    }
  }
}
