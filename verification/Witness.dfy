/**
 * The witness, rebuilt and proved against the contract's commitment
 * (apps/gateway/src/witness.ts:188-249, 561-663).
 *
 * The rolling hash is an injective constructor. Whatever the reader hands over, the only thing
 * assumed is that the commitment read is the contract's.
 */
module Witness {
  import opened CreditLimit
  import opened History
  import opened Records
  import Sums
  import opened Wrappers

  // ----------------------------------------------------------- the commitment

  datatype Root = ZeroRoot | FoldRoot(previous: Root, record: SettlementRecord)

  datatype Commitment = Commitment(root: Root, count: nat)

  function RootOf(history: seq<SettlementRecord>): Root {
    if history == [] then ZeroRoot else FoldRoot(RootOf(history[..|history| - 1]), history[|history| - 1])
  }

  /** What TabBook holds for an Agent whose committed history this is. */
  function Committed(history: seq<SettlementRecord>): Commitment {
    Commitment(RootOf(history), |history|)
  }

  lemma {:induction false} RootBindsHistory(a: seq<SettlementRecord>, b: seq<SettlementRecord>)
    requires RootOf(a) == RootOf(b)
    ensures a == b
  {
    if a != [] && b != [] {
      RootBindsHistory(a[..|a| - 1], b[..|b| - 1]);
      assert a == a[..|a| - 1] + [a[|a| - 1]];
      assert b == b[..|b| - 1] + [b[|b| - 1]];
    }
  }

  method CommitmentOf(history: seq<SettlementRecord>) returns (c: Commitment)
    ensures c == Committed(history)
  {
    var root := ZeroRoot;
    for i := 0 to |history|
      invariant root == RootOf(history[..i])
    {
      assert history[..i + 1][..i] == history[..i];
      root := FoldRoot(root, history[i]);
    }
    assert history[..|history|] == history;
    c := Commitment(root, |history|);
  }

  // ---------------------------------------------------------- counterparties

  /** The services of the history's records in the Asset, then the authorised ones. */
  function Named(history: seq<SettlementRecord>, asset: Id, authorised: seq<Id>): seq<Id> {
    if history == [] then authorised
    else (if history[0].asset == asset then [history[0].serviceId] else []) + Named(history[1..], asset, authorised)
  }

  /** The elements of a list at their first appearance. */
  function FirstSeen(s: seq<Id>): seq<Id> {
    if s == [] then []
    else
      var before := FirstSeen(s[..|s| - 1]);
      if s[|s| - 1] in before then before else before + [s[|s| - 1]]
  }

  ghost predicate Distinct(s: seq<Id>) {
    forall i, j :: 0 <= i < j < |s| ==> s[i] != s[j]
  }

  function FirstIndex(s: seq<Id>, x: Id): nat {
    if s == [] || s[0] == x then 0 else 1 + FirstIndex(s[1..], x)
  }

  lemma {:induction false} FirstIndexFacts(s: seq<Id>, x: Id)
    ensures FirstIndex(s, x) <= |s|
    ensures x in s <==> FirstIndex(s, x) < |s|
    ensures FirstIndex(s, x) < |s| ==> s[FirstIndex(s, x)] == x
    ensures x !in s[..FirstIndex(s, x)]
  {
    if s != [] && s[0] != x {
      FirstIndexFacts(s[1..], x);
      assert s[..FirstIndex(s, x)] == [s[0]] + s[1..][..FirstIndex(s[1..], x)];
    }
  }

  lemma {:induction false} FirstIndexAppend(s: seq<Id>, y: Id, x: Id)
    ensures x in s ==> FirstIndex(s + [y], x) == FirstIndex(s, x)
    ensures x !in s && x == y ==> FirstIndex(s + [y], x) == |s|
  {
    if s != [] && s[0] != x {
      assert (s + [y])[1..] == s[1..] + [y];
      FirstIndexAppend(s[1..], y, x);
    }
  }

  /** Every element once, in the order in which each first appears. */
  lemma {:induction false} FirstSeenFacts(s: seq<Id>)
    ensures Distinct(FirstSeen(s))
    ensures forall x :: x in FirstSeen(s) <==> x in s
    ensures forall i, j :: 0 <= i < j < |FirstSeen(s)| ==>
          FirstIndex(s, FirstSeen(s)[i]) < FirstIndex(s, FirstSeen(s)[j])
  {
    if s != [] {
      var rest, y := s[..|s| - 1], s[|s| - 1];
      assert s == rest + [y];
      FirstSeenFacts(rest);
      forall x
        ensures x in rest ==> FirstIndex(s, x) == FirstIndex(rest, x) < |rest|
        ensures x !in rest && x == y ==> FirstIndex(s, x) == |rest|
      {
        FirstIndexAppend(rest, y, x);
        FirstIndexFacts(rest, x);
      }
      forall i | 0 <= i < |FirstSeen(rest)|
        ensures FirstSeen(rest)[i] in rest
      {
        assert FirstSeen(rest)[i] in FirstSeen(rest);
      }
    }
  }

  /** The inner `add`: appends an id the first time it is seen. */
  method AddId(id: Id, seen: set<Id>, out: seq<Id>, ghost done: seq<Id>) returns (seen': set<Id>, out': seq<Id>)
    requires out == FirstSeen(done) && forall x :: x in seen <==> x in out
    ensures out' == FirstSeen(done + [id]) && forall x :: x in seen' <==> x in out'
  {
    assert (done + [id])[..|done|] == done;
    if id in seen {
      return seen, out;
    }
    return seen + {id}, out + [id];
  }

  lemma NamedNext(done: seq<Id>, history: seq<SettlementRecord>, i: nat, asset: Id, authorised: seq<Id>)
    requires i < |history|
    ensures
      done + Named(history[i..], asset, authorised)
      == (if history[i].asset == asset then done + [history[i].serviceId] else done)
          + Named(history[i + 1..], asset, authorised)
  {
    assert history[i..][1..] == history[i + 1..] && history[i..][0] == history[i];
  }

  /** Some record of the history in the Asset is with this service. */
  ghost predicate DealtWith(history: seq<SettlementRecord>, asset: Id, id: Id) {
    exists r :: r in history && r.asset == asset && r.serviceId == id
  }

  /** Where the history first deals with a service in the Asset; past its end if it never does. */
  function FirstDeal(history: seq<SettlementRecord>, asset: Id, id: Id): nat {
    if history == [] || (history[0].asset == asset && history[0].serviceId == id) then 0
    else 1 + FirstDeal(history[1..], asset, id)
  }

  /** The history's services in the Asset come first, as the history first deals with them; then the others as given. */
  ghost predicate InOrder(history: seq<SettlementRecord>, asset: Id, authorised: seq<Id>, a: Id, b: Id) {
    || FirstDeal(history, asset, a) < FirstDeal(history, asset, b)
    || (FirstDeal(history, asset, a) == FirstDeal(history, asset, b) == |history|
       && FirstIndex(authorised, a) < FirstIndex(authorised, b))
  }

  lemma {:induction false} NamedHas(history: seq<SettlementRecord>, asset: Id, authorised: seq<Id>, id: Id)
    ensures id in Named(history, asset, authorised) <==> DealtWith(history, asset, id) || id in authorised
  {
    if history != [] {
      NamedHas(history[1..], asset, authorised, id);
      assert history == [history[0]] + history[1..];
      assert DealtWith(history, asset, id) <==>
        (history[0].asset == asset && history[0].serviceId == id) || DealtWith(history[1..], asset, id);
    }
  }

  lemma {:induction false} FirstDealFacts(history: seq<SettlementRecord>, asset: Id, id: Id)
    ensures FirstDeal(history, asset, id) <= |history|
    ensures DealtWith(history, asset, id) <==> FirstDeal(history, asset, id) < |history|
    ensures FirstDeal(history, asset, id) < |history| ==>
              var r := history[FirstDeal(history, asset, id)]; r.asset == asset && r.serviceId == id
    ensures !DealtWith(history[..FirstDeal(history, asset, id)], asset, id)
  {
    if history != [] && !(history[0].asset == asset && history[0].serviceId == id) {
      FirstDealFacts(history[1..], asset, id);
      assert history == [history[0]] + history[1..];
      assert history[..FirstDeal(history, asset, id)]
          == [history[0]] + history[1..][..FirstDeal(history[1..], asset, id)];
    } else if history != [] {
      assert history[0] in history;
    }
  }

  /** In the list of names, where two first appear is decided by the history, and past it by the authorised. */
  lemma {:induction false} NamedOrder(history: seq<SettlementRecord>, asset: Id, authorised: seq<Id>, a: Id, b: Id)
    requires FirstIndex(Named(history, asset, authorised), a) < FirstIndex(Named(history, asset, authorised), b)
    ensures InOrder(history, asset, authorised, a, b)
  {
    if history != [] {
      var first, rest := history[0], Named(history[1..], asset, authorised);
      FirstDealFacts(history[1..], asset, b);
      if first.asset == asset {
        assert Named(history, asset, authorised) == [first.serviceId] + rest;
        assert ([first.serviceId] + rest)[1..] == rest;
      } else {
        assert Named(history, asset, authorised) == [] + rest == rest;
      }
      if !(first.asset == asset && (first.serviceId == a || first.serviceId == b)) {
        NamedOrder(history[1..], asset, authorised, a, b);
      }
    }
  }

  /**
   * The counterparties of a history: the services it deals with in the Asset and the authorised
   * ones, none twice, the history's first, each group in its own order of first appearance.
   */
  lemma CounterpartiesAre(history: seq<SettlementRecord>, asset: Id, authorised: seq<Id>)
    ensures
      var services := FirstSeen(Named(history, asset, authorised));
      && Distinct(services)
      && (forall id :: id in services <==> DealtWith(history, asset, id) || id in authorised)
      && (forall i, j :: 0 <= i < j < |services| ==> InOrder(history, asset, authorised, services[i], services[j]))
  {
    var named := Named(history, asset, authorised);
    var services := FirstSeen(named);
    FirstSeenFacts(named);
    forall id
      ensures id in services <==> DealtWith(history, asset, id) || id in authorised
    {
      NamedHas(history, asset, authorised, id);
    }
    forall i, j | 0 <= i < j < |services|
      ensures InOrder(history, asset, authorised, services[i], services[j])
    {
      NamedOrder(history, asset, authorised, services[i], services[j]);
    }
  }

  method CounterpartiesOf(history: seq<SettlementRecord>, asset: Id, authorised: seq<Id>) returns (out: seq<Id>)
    ensures out == FirstSeen(Named(history, asset, authorised))
    ensures Distinct(out) && forall id :: id in out <==> DealtWith(history, asset, id) || id in authorised
    ensures forall i, j :: 0 <= i < j < |out| ==> InOrder(history, asset, authorised, out[i], out[j])
  {
    CounterpartiesAre(history, asset, authorised);
    var seen: set<Id> := {};
    out := [];
    ghost var done: seq<Id> := [];
    ghost var all := Named(history, asset, authorised);
    assert history[0..] == history;
    for i := 0 to |history|
      invariant out == FirstSeen(done) && forall x :: x in seen <==> x in out
      invariant done + Named(history[i..], asset, authorised) == all
    {
      NamedNext(done, history, i, asset, authorised);
      if history[i].asset == asset {
        seen, out := AddId(history[i].serviceId, seen, out, done);
        done := done + [history[i].serviceId];
      }
    }
    assert Named(history[|history|..], asset, authorised) == authorised;
    out := AddAuthorised(authorised, seen, out, done);
  }

  method AddAuthorised(authorised: seq<Id>, before: set<Id>, outBefore: seq<Id>, ghost done: seq<Id>)
      returns (out: seq<Id>)
    requires outBefore == FirstSeen(done) && forall x :: x in before <==> x in outBefore
    ensures out == FirstSeen(done + authorised)
  {
    var seen := before;
    out := outBefore;
    assert done + authorised[..0] == done;
    for i := 0 to |authorised|
      invariant out == FirstSeen(done + authorised[..i]) && forall x :: x in seen <==> x in out
    {
      assert done + authorised[..i + 1] == done + authorised[..i] + [authorised[i]];
      seen, out := AddId(authorised[i], seen, out, done + authorised[..i]);
    }
    assert authorised[..|authorised|] == authorised;
  }

  // ------------------------------------------------------------ the count run

  /** How many of the records carry a count. */
  function Times(s: seq<CountedRecord>, n: nat): nat {
    if s == [] then 0 else (if s[0].count == n then 1 else 0) + Times(s[1..], n)
  }

  lemma {:induction false} TimesOfBoth(a: seq<CountedRecord>, b: seq<CountedRecord>, n: nat)
    ensures Times(a + b, n) == Times(a, n) + Times(b, n)
    ensures |a| == 1 ==> Times(a, n) == if a[0].count == n then 1 else 0
  {
    if a == [] {
      assert a + b == b;
    } else {
      TimesOfBoth(a[1..], b, n);
      assert (a + b)[1..] == a[1..] + b;
    }
  }

  ghost predicate CountsAscend(s: seq<CountedRecord>) {
    forall i, j :: 0 <= i < j < |s| ==> s[i].count <= s[j].count
  }

  lemma {:induction false} InsertByCountAscends(r: CountedRecord, s: seq<CountedRecord>)
    requires CountsAscend(s)
    ensures CountsAscend(InsertByCount(r, s))
    ensures forall x :: x in InsertByCount(r, s) ==> x == r || x in s
  {
    if s != [] && r.count > s[0].count {
      InsertByCountAscends(r, s[1..]);
      var t := InsertByCount(r, s[1..]);
      forall i | 0 <= i < |t|
        ensures s[0].count <= t[i].count
      {
        assert t[i] == r || t[i] in s[1..];
      }
    }
  }

  lemma {:induction false} InsertByCountPermutes(r: CountedRecord, s: seq<CountedRecord>)
    ensures multiset(InsertByCount(r, s)) == multiset(s) + multiset{r}
  {
    if s != [] && r.count > s[0].count {
      InsertByCountPermutes(r, s[1..]);
      assert s == [s[0]] + s[1..];
    }
  }

  lemma {:induction false} InsertByCountTimes(r: CountedRecord, s: seq<CountedRecord>, n: nat)
    ensures Times(InsertByCount(r, s), n) == (if r.count == n then 1 else 0) + Times(s, n)
  {
    if s == [] || r.count <= s[0].count {
      assert ([r] + s)[1..] == s;
    } else {
      InsertByCountTimes(r, s[1..], n);
      var t := InsertByCount(r, s[1..]);
      assert ([s[0]] + t)[1..] == t;
    }
  }

  lemma {:induction false} SortByCountFacts(s: seq<CountedRecord>)
    ensures CountsAscend(SortByCount(s)) && multiset(SortByCount(s)) == multiset(s)
  {
    if s != [] {
      SortByCountFacts(s[1..]);
      InsertByCountAscends(s[0], SortByCount(s[1..]));
      InsertByCountPermutes(s[0], SortByCount(s[1..]));
      assert s == [s[0]] + s[1..];
    }
  }

  lemma {:induction false} SortByCountTimes(s: seq<CountedRecord>, n: nat)
    ensures Times(SortByCount(s), n) == Times(s, n)
  {
    if s != [] {
      SortByCountTimes(s[1..], n);
      InsertByCountTimes(s[0], SortByCount(s[1..]), n);
    }
  }

  lemma {:induction false} TimesNone(s: seq<CountedRecord>, n: nat)
    requires forall i :: 0 <= i < |s| ==> s[i].count != n
    ensures Times(s, n) == 0
  {
    if s != [] {
      TimesNone(s[1..], n);
    }
  }

  lemma {:induction false} TimesTwice(s: seq<CountedRecord>, n: nat, i: nat)
    requires i + 1 < |s| && s[i].count == n && s[i + 1].count == n
    ensures Times(s, n) >= 2
  {
    if i > 0 {
      TimesTwice(s[1..], n, i - 1);
    } else {
      assert s[1..][0] == s[1];
    }
  }

  datatype WitnessError =
    | ReaderFailed
    | RecordDuplicated(expected: nat, received: nat)
    | RecordMissing(expected: nat, received: nat)
    | HistoryTooLong(length: nat)
    | CommitmentMismatch
    | TooManyCounterparties(count: nat)

  /** What a broken run is reported as, and what that says about the records that were handed over. */
  ghost predicate TrueReport(e: WitnessError, decoded: seq<CountedRecord>) {
    && (e.RecordMissing? ==>
          Times(decoded, e.expected) == 0 && (forall n :: 1 <= n < e.expected ==> Times(decoded, n) >= 1))
    && (e.RecordDuplicated? ==> e.received == e.expected - 1 && Times(decoded, e.received) >= 2)
  }

  lemma {:induction false} TimesAt(s: seq<CountedRecord>, i: nat)
    requires i < |s|
    ensures Times(s, s[i].count) >= 1
  {
    if i > 0 {
      TimesAt(s[1..], i - 1);
    }
  }

  lemma MissingReport(decoded: seq<CountedRecord>, sorted: seq<CountedRecord>, position: nat)
    requires sorted == SortByCount(decoded) && position < |sorted| && sorted[position].count > position + 1
    requires forall i :: 0 <= i < position ==> sorted[i].count == i + 1
    ensures TrueReport(RecordMissing(position + 1, sorted[position].count), decoded)
  {
    SortByCountFacts(decoded);
    SortByCountTimes(decoded, position + 1);
    TimesNone(sorted, position + 1);
    forall n | 1 <= n < position + 1
      ensures Times(decoded, n) >= 1
    {
      assert sorted[n - 1].count == n;
      TimesAt(sorted, n - 1);
      SortByCountTimes(decoded, n);
    }
  }

  /**
   * A run that breaks on a count too small: what is reported is true unless exactly one record
   * carries the count 0. A count the contract does give is then really there twice.
   */
  lemma DuplicateReport(decoded: seq<CountedRecord>, sorted: seq<CountedRecord>, position: nat)
    requires sorted == SortByCount(decoded) && position < |sorted| && sorted[position].count < position + 1
    requires forall i :: 0 <= i < position ==> sorted[i].count == i + 1
    ensures TrueReport(RecordDuplicated(position + 1, sorted[position].count), decoded) <==> Times(decoded, 0) != 1
  {
    SortByCountFacts(decoded);
    if position == 0 {
      assert sorted[0].count == 0;
      SortByCountTimes(decoded, 0);
      TimesAt(sorted, 0);
    } else {
      assert sorted[position - 1].count == position;
      assert sorted[0].count == 1;
      SortByCountTimes(decoded, 0);
      TimesNone(sorted, 0);
      SortByCountTimes(decoded, position);
      TimesTwice(sorted, position, position - 1);
    }
  }

  /** Walks the sorted records; the first position whose count is not its own ends the walk. */
  method CheckRun(decoded: seq<CountedRecord>, sorted: seq<CountedRecord>) returns (broken: Option<WitnessError>)
    requires sorted == SortByCount(decoded)
    ensures broken.None? <==> forall i :: 0 <= i < |sorted| ==> sorted[i].count == i + 1
    ensures broken.Some? ==> broken.value.RecordDuplicated? || broken.value.RecordMissing?
    ensures broken.Some? && broken.value.RecordMissing? ==> TrueReport(broken.value, decoded)
    ensures broken.Some? && broken.value.RecordDuplicated? ==>
          (TrueReport(broken.value, decoded) <==> Times(decoded, 0) != 1)
  {
    for position := 0 to |sorted|
      invariant forall i :: 0 <= i < position ==> sorted[i].count == i + 1
    {
      var entry, expected := sorted[position], position + 1;
      if entry.count == expected {
        continue;
      }
      if entry.count > expected {
        MissingReport(decoded, sorted, position);
      } else {
        DuplicateReport(decoded, sorted, position);
      }
      return Some(if entry.count < expected then RecordDuplicated(expected, entry.count)
          else RecordMissing(expected, entry.count));
    }
    broken := None;
  }

  /** Where a record does carry the count 0, the report of a duplicate is wrong. */
  lemma CountZeroMisreported(record: SettlementRecord)
    ensures
      var decoded := [CountedRecord(0, record)];
      && SortByCount(decoded)[0].count < 1
      && !TrueReport(RecordDuplicated(1, SortByCount(decoded)[0].count), decoded)
  {
    var decoded := [CountedRecord(0, record)];
    assert decoded[1..] == [];
    assert Times(decoded, 0) == 1;
  }

  // -------------------------------------------------------------- the witness

  datatype BuiltWitness = BuiltWitness(history: seq<SettlementRecord>, bonds: seq<BondEntry>, rebuilt: Commitment,
      onChain: Commitment)

  function RecordsIn(counted: seq<CountedRecord>): (history: seq<SettlementRecord>)
    ensures |history| == |counted|
  {
    seq(|counted|, i requires 0 <= i < |counted| => counted[i].record)
  }

  /** One bond entry per counterparty, in order, each with the stake that was read. */
  ghost predicate BondsOf(bonds: seq<BondEntry>, services: seq<Id>, asset: Id, staked: Id -> Option<nat>) {
    |bonds| == |services| &&
    forall i :: 0 <= i < |bonds| ==>
        staked(services[i]).Some? && bonds[i] == BondEntry(services[i], asset, staked(services[i]).value)
  }

  method ReadBonds(services: seq<Id>, asset: Id, staked: Id -> Option<nat>) returns (bonds: Option<seq<BondEntry>>)
    ensures bonds.Some? ==> BondsOf(bonds.value, services, asset, staked)
    ensures bonds.None? <==> exists i :: 0 <= i < |services| && staked(services[i]).None?
  {
    var read: seq<BondEntry> := [];
    for i := 0 to |services|
      invariant BondsOf(read, services[..i], asset, staked)
      invariant forall j :: 0 <= j < i ==> staked(services[j]).Some?
    {
      var amount := staked(services[i]);
      if amount.None? {
        return None;
      }
      read := read + [BondEntry(services[i], asset, amount.value)];
    }
    assert services[..|services|] == services;
    bonds := Some(read);
  }

  /** The records, in any order, are exactly the contract's numbered history. */
  ghost predicate Complete(decoded: seq<CountedRecord>, contract: seq<SettlementRecord>) {
    multiset(decoded) == multiset(Number(contract))
  }

  /** Everything but the history read that the build needs to go well. */
  ghost predicate Buildable(contract: seq<SettlementRecord>, asset: Id, authorised: seq<Id>,
      staked: Id -> Option<nat>) {
    var services := FirstSeen(Named(contract, asset, authorised));
    |contract| <= 512 && |services| <= 32 && forall i :: 0 <= i < |services| ==> staked(services[i]).Some?
  }

  /** What each error but a duplicate says about what was read and the contract. */
  ghost predicate TrueError(
    e: WitnessError, records: Option<seq<CountedRecord>>, commitment: Option<Commitment>, staked: Id -> Option<nat>,
    asset: Id, authorised: seq<Id>, contract: seq<SettlementRecord>)
  {
    var services := FirstSeen(Named(contract, asset, authorised));
    match e
    case ReaderFailed =>
      || records.None? || commitment.None?
      || (Complete(records.value, contract) && exists i :: 0 <= i < |services| && staked(services[i]).None?)
    case HistoryTooLong(length) => records.Some? && length == |records.value| > 512
    case CommitmentMismatch => records.Some? && commitment.Some? && !Complete(records.value, contract)
    case TooManyCounterparties(count) => records.Some? && Complete(records.value, contract)
        && count == |services| > 32
    case _ => records.Some? && TrueReport(e, records.value)
  }

  lemma SortKeepsLength(decoded: seq<CountedRecord>)
    ensures |SortByCount(decoded)| == |decoded|
  {
    SortByCountFacts(decoded);
    assert |multiset(SortByCount(decoded))| == |SortByCount(decoded)| && |multiset(decoded)| == |decoded|;
  }

  lemma SortedRunIsNumbered(decoded: seq<CountedRecord>, sorted: seq<CountedRecord>)
    requires sorted == SortByCount(decoded) && forall i :: 0 <= i < |sorted| ==> sorted[i].count == i + 1
    ensures sorted == Number(RecordsIn(sorted)) && Complete(decoded, RecordsIn(sorted))
  {
    SortByCountFacts(decoded);
  }

  /** A complete reading sorts to the numbered history itself. */
  lemma CompleteSorts(decoded: seq<CountedRecord>, contract: seq<SettlementRecord>)
    requires Complete(decoded, contract)
    ensures SortByCount(decoded) == Number(contract)
  {
    SortByCountFacts(decoded);
    AscendingIsUnique(SortByCount(decoded), Number(contract));
  }

  lemma {:induction false} AscendingIsUnique(s: seq<CountedRecord>, t: seq<CountedRecord>)
    requires CountsAscend(s) && multiset(s) == multiset(t)
    requires forall i, j :: 0 <= i < j < |t| ==> t[i].count < t[j].count
    ensures s == t
  {
    if s == [] {
      Sums.EmptyMatch(s, t);
    } else {
      SameFirst(s, t);
      AscendingIsUnique(s[1..], t[1..]);
      assert s == [s[0]] + s[1..] && t == [t[0]] + t[1..];
    }
  }

  lemma SameFirst(s: seq<CountedRecord>, t: seq<CountedRecord>)
    requires s != [] && CountsAscend(s) && multiset(s) == multiset(t)
    requires forall i, j :: 0 <= i < j < |t| ==> t[i].count < t[j].count
    ensures t != [] && s[0] == t[0] && multiset(s[1..]) == multiset(t[1..])
  {
    var j := Sums.MatchFirst(s, t);
    assert t[0] in multiset(t) && t[0] in multiset(s);
    var i :| 0 <= i < |s| && s[i] == t[0];
    assert s[0].count <= s[i].count;
    assert j == 0;
    assert t[..0] + t[1..] == t[1..];
  }

  /**
   * Builds the witness. With a truthful commitment read it succeeds exactly when the records
   * handed over are, in any order, the contract's whole history, the bounds hold and the stakes
   * can be read; and what it then returns is that history in the contract's order, with one
   * bond entry per distinct counterparty. However wrong the cache or the registry behind the
   * reader, nothing else can come out.
   */
  method BuildWitness(
    records: Option<seq<CountedRecord>>, commitment: Option<Commitment>, staked: Id -> Option<nat>,
    asset: Id, authorised: seq<Id>, ghost contract: seq<SettlementRecord>)
    returns (r: Result<BuiltWitness, WitnessError>)
    requires commitment.Some? ==> commitment.value == Committed(contract)
    ensures r.Ok? <==>
              records.Some? && commitment.Some? && Complete(records.value, contract)
                  && Buildable(contract, asset, authorised, staked)
    ensures r.Ok? ==>
              && r.value.history == contract && r.value.rebuilt == r.value.onChain == Committed(contract)
              && BondsOf(r.value.bonds, FirstSeen(Named(contract, asset, authorised)), asset, staked)
    ensures r.Err? && !r.error.RecordDuplicated? ==>
              TrueError(r.error, records, commitment, staked, asset, authorised, contract)
    ensures r.Err? && r.error.RecordDuplicated? ==>
              records.Some? && (TrueReport(r.error, records.value) <==> Times(records.value, 0) != 1)
  {
    if records.None? {
      return Err(ReaderFailed);
    }
    var decoded := SortByCount(records.value);
    if Complete(records.value, contract) {
      CompleteSorts(records.value, contract);
    }
    var broken := CheckRun(records.value, decoded);
    if broken.Some? {
      return Err(broken.value);
    }
    SortedRunIsNumbered(records.value, decoded);
    SortKeepsLength(records.value);
    var history := RecordsIn(decoded);
    assert Complete(records.value, contract) ==> history == contract;
    if |history| > MAX_HISTORY {
      return Err(WitnessError.HistoryTooLong(|history|));
    }
    if commitment.None? {
      return Err(ReaderFailed);
    }
    var rebuilt := CommitmentOf(history);
    if rebuilt != commitment.value {
      return Err(CommitmentMismatch);
    }
    RootBindsHistory(history, contract);
    var counterparties := CounterpartiesOf(history, asset, authorised);
    if |counterparties| > MAX_COUNTERPARTIES {
      return Err(WitnessError.TooManyCounterparties(|counterparties|));
    }
    var bonds := ReadBonds(counterparties, asset, staked);
    if bonds.None? {
      return Err(ReaderFailed);
    }
    r := Ok(BuiltWitness(history, bonds.value, rebuilt, commitment.value));
  }

  lemma {:induction false} NamedHasCounterparty(history: seq<SettlementRecord>, asset: Id, authorised: seq<Id>,
      s: SettlementRecord)
    requires s in history && s.asset == asset
    ensures s.serviceId in Named(history, asset, authorised)
  {
    if s != history[0] {
      NamedHasCounterparty(history[1..], asset, authorised, s);
    }
  }

  /** A witness that was built is one the Credit Limit can always be computed over. */
  lemma BuiltWitnessIsComputable(contract: seq<SettlementRecord>, asset: Id, authorised: seq<Id>,
      staked: Id -> Option<nat>, bonds: seq<BondEntry>, p: Params)
    requires Buildable(contract, asset, authorised, staked) && p.asset == asset
    ensures Limit(contract, bonds, p).Ok?
  {
    var services := FirstSeen(Named(contract, asset, authorised));
    FirstSeenFacts(Named(contract, asset, authorised));
    DistinctCount(services);
    forall id | id in Counterparties(contract, p)
      ensures id in services
    {
      var s :| s in contract && Weight(s, p) > 0 && s.serviceId == id;
      NamedHasCounterparty(contract, asset, authorised, s);
    }
    SubsetCount(Counterparties(contract, p), set id | id in services);
  }
}
