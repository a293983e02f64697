/**
 * The two adaptive scans: the gateway's (apps/gateway/src/witness.ts:123-127, 397-467), which
 * halves its window on a refusal and doubles it after a clean pass, and the keeper's
 * (apps/keeper/src/chain.ts:282-344), which halves and stays narrow.
 *
 * An endpoint answers a request truthfully or not at all. Which requests it refuses is any
 * function of the request number.
 */
module LogScan {
  import opened Sums
  import opened Wrappers

  // ------------------------------------------------------------------- ranges

  /** What the chain logged at each height; nothing past its end. */
  function LoggedAt<T>(table: seq<seq<T>>, h: nat): seq<T> {
    if h < |table| then table[h] else []
  }

  /** Every log of [lo, hi], once, in block order. */
  function Between<T>(table: seq<seq<T>>, lo: nat, hi: int): seq<T>
    decreases hi - lo + 1
  {
    if lo > hi then [] else LoggedAt(table, lo) + Between(table, lo + 1, hi)
  }

  /** One height gives what was logged at it; with SplitBetween, a range gives that of each height in turn. */
  lemma BetweenOfOne<T>(table: seq<seq<T>>, h: nat)
    ensures Between(table, h, h) == if h < |table| then table[h] else []
    ensures Between(table, h, h - 1) == []
  {
    assert Between(table, h + 1, h) == [];
  }

  /** Everything from one height on, as a longer and longer list. */
  lemma BetweenGrows<T>(table: seq<seq<T>>, lo: nat, mid: int, hi: int)
    requires mid <= hi
    ensures Between(table, lo, mid) <= Between(table, lo, hi)
  {
    if lo <= mid {
      SplitBetween(table, lo, mid, hi);
    }
  }

  lemma BetweenStep<T>(table: seq<seq<T>>, lo: nat, hi: int)
    requires lo <= hi
    ensures Between(table, lo, hi) == LoggedAt(table, lo) + Between(table, lo + 1, hi)
  {
  }

  lemma JoinThreeWays<T>(a: seq<T>, b: seq<T>, c: seq<T>)
    ensures a + (b + c) == a + b + c
  {
  }

  lemma {:induction false} SplitBetween<T>(table: seq<seq<T>>, lo: nat, mid: int, hi: int)
    requires lo - 1 <= mid <= hi
    ensures Between(table, lo, hi) == Between(table, lo, mid) + Between(table, mid + 1, hi)
    decreases mid - lo + 1
  {
    if lo <= mid {
      SplitBetween(table, lo + 1, mid, hi);
      BetweenStep(table, lo, mid);
      BetweenStep(table, lo, hi);
      JoinThreeWays(LoggedAt(table, lo), Between(table, lo + 1, mid), Between(table, mid + 1, hi));
    }
  }

  // ------------------------------------------------------------------ windows

  const HISTORY_CHUNK_MAX := 100
  const HISTORY_CHUNK_MIN := 1

  function ShrinkWindow(size: nat, min: nat): nat {
    Max(min, size / 2)
  }

  function GrowWindow(size: nat, max: nat): nat {
    Min(max, size * 2)
  }

  /** How many halvings take a window down to one block. */
  function Halvings(n: nat): nat {
    if n <= 1 then 0 else 1 + Halvings(n / 2)
  }

  lemma {:induction false} HalvingsMonotone(a: nat, b: nat)
    requires a <= b
    ensures Halvings(a) <= Halvings(b)
  {
    if a > 1 {
      HalvingsMonotone(a / 2, b / 2);
    }
  }

  /** A refusal costs one halving; a clean pass gives back at most one. */
  lemma WindowPotential(size: nat)
    requires 1 <= size <= HISTORY_CHUNK_MAX
    ensures size > HISTORY_CHUNK_MIN ==> Halvings(ShrinkWindow(size, HISTORY_CHUNK_MIN)) == Halvings(size) - 1
    ensures Halvings(GrowWindow(size, HISTORY_CHUNK_MAX)) <= Halvings(size) + 1
    ensures size > 1 ==>
          2 * ShrinkWindow(size, HISTORY_CHUNK_MIN) <= size < 2 * ShrinkWindow(size, HISTORY_CHUNK_MIN) + 2
    ensures size < 100 ==> size < GrowWindow(size, HISTORY_CHUNK_MAX) <= 100
    ensures 2 * size <= 100 ==> GrowWindow(size, HISTORY_CHUNK_MAX) == 2 * size
    ensures 2 * size >= 100 ==> GrowWindow(size, HISTORY_CHUNK_MAX) == 100
  {
    HalvingsMonotone(GrowWindow(size, HISTORY_CHUNK_MAX), size * 2);
    assert size * 2 / 2 == size;
  }

  lemma NextPage<T>(table: seq<seq<T>>, first: nat, from: nat, last: int, collected: seq<T>, logs: seq<T>)
    requires first <= from <= last + 1 && collected == Between(table, first, from - 1)
        && logs == Between(table, from, last)
    ensures collected + logs == Between(table, first, last)
  {
    SplitBetween(table, first, from - 1, last);
  }

  /** Requests made, against the blocks already read: two for each, and the halvings left. */
  ghost predicate Budget(requests: nat, size: nat, blocks: int) {
    blocks >= 0 && requests + Halvings(size) <= 6 + 2 * blocks
  }

  lemma FullBudget()
    ensures Budget(0, HISTORY_CHUNK_MAX, 0)
  {
    assert Halvings(100) == 6;
  }

  lemma BudgetStep(requests: nat, size: nat, blocks: int, more: int)
    requires Budget(requests, size, blocks) && 1 <= size <= HISTORY_CHUNK_MAX && more >= 1
    ensures requests + 1 <= 2 * blocks + 7
    ensures size > HISTORY_CHUNK_MIN ==> Budget(requests + 1, ShrinkWindow(size, HISTORY_CHUNK_MIN), blocks)
    ensures Budget(requests + 1, GrowWindow(size, HISTORY_CHUNK_MAX), blocks + more)
  {
    WindowPotential(size);
  }

  // ------------------------------------------------------------ the gateway scan

  /** Refused is a refusal narrowing may cure; Failed is any other error. */
  datatype Reply = Answered | Refused | Failed | NotAnArray

  type Endpoint = nat -> Reply

  datatype ScanError = ReadFailed(fromBlock: int, toBlock: int, window: int) | Malformed

  /** The replies a scan of the first n requests survives. */
  predicate Survived(endpoint: Endpoint, n: nat) {
    forall i :: 0 <= i < n ==> endpoint(i) == Answered || endpoint(i) == Refused
  }

  /** How a scan ends, after how many requests in all. */
  datatype ScanEnd = Done(requests: nat) | Stopped(error: ScanError, requests: nat)

  /** The course of a scan, as the replies decide it. */
  function Course(endpoint: Endpoint, request: nat, from: nat, size: nat, head: int): ScanEnd
    requires size >= 1
    decreases if from > head then 0 else head - from + 1, size
  {
    if from > head then Done(request)
    else
      var to := Min(head, from + size - 1);
      match endpoint(request)
      case Answered => Course(endpoint, request + 1, to + 1, GrowWindow(size, HISTORY_CHUNK_MAX), head)
      case NotAnArray => Stopped(Malformed, request + 1)
      case Failed => Stopped(ReadFailed(from, to, size), request + 1)
      case Refused =>
        if size > HISTORY_CHUNK_MIN then Course(endpoint, request + 1, from, ShrinkWindow(size, HISTORY_CHUNK_MIN),
            head)
        else Stopped(ReadFailed(from, to, size), request + 1)
  }

  function WholeCourse(endpoint: Endpoint, from: nat, head: int): ScanEnd {
    Course(endpoint, 0, from, HISTORY_CHUNK_MAX, head)
  }

  /** Whether the replies carry a scan to its end: each page is answered, or refused while it can be halved. */
  predicate Carried(endpoint: Endpoint, from: nat, head: int) {
    WholeCourse(endpoint, from, head).Done?
  }

  /** Why a scan that stopped did, and that nothing before was worse than a refusal. */
  ghost predicate EndedFor(end: ScanEnd, endpoint: Endpoint) {
    && (end.Done? ==> Survived(endpoint, end.requests))
    && (end.Stopped? ==> 0 < end.requests && Survived(endpoint, end.requests - 1))
    && (end.Stopped? && end.error.Malformed? ==> endpoint(end.requests - 1) == NotAnArray)
    && (end.Stopped? && end.error.ReadFailed? ==>
          || endpoint(end.requests - 1) == Failed
          || (endpoint(end.requests - 1) == Refused && end.error.window == HISTORY_CHUNK_MIN
             && end.error.fromBlock == end.error.toBlock))
  }

  lemma {:induction false} CourseFacts(endpoint: Endpoint, request: nat, from: nat, size: nat, head: int, first: nat)
    requires 1 <= size <= HISTORY_CHUNK_MAX && Survived(endpoint, request)
    requires first <= from && (from <= head + 1 || from == first) && Budget(request, size, from - first)
    ensures EndedFor(Course(endpoint, request, from, size, head), endpoint)
    ensures Course(endpoint, request, from, size, head).requests <= 2 * Max(0, head - first + 1) + 7
    decreases if from > head then 0 else head - from + 1, size
  {
    if from <= head {
      var to := Min(head, from + size - 1);
      BudgetStep(request, size, from - first, to + 1 - from);
      if endpoint(request) == Answered {
        CourseFacts(endpoint, request + 1, to + 1, GrowWindow(size, HISTORY_CHUNK_MAX), head, first);
      } else if endpoint(request) == Refused && size > HISTORY_CHUNK_MIN {
        CourseFacts(endpoint, request + 1, from, ShrinkWindow(size, HISTORY_CHUNK_MIN), head, first);
      }
    }
  }

  function PowerOfTwo(k: nat): nat {
    if k == 0 then 1 else 2 * PowerOfTwo(k - 1)
  }

  ghost predicate Replies(endpoint: Endpoint, request: nat, k: nat, reply: Reply) {
    forall i :: request <= i < request + k ==> endpoint(i) == reply
  }

  lemma HalfOfPower(size: nat, k: nat)
    requires k > 0
    ensures PowerOfTwo(k) > 0 && size / PowerOfTwo(k) == size / 2 / PowerOfTwo(k - 1)
  {
    PowerIsPositive(k - 1);
    DivideTwice(size, PowerOfTwo(k - 1));
  }

  lemma {:induction false} PowerIsPositive(k: nat)
    ensures PowerOfTwo(k) > 0
  {
    if k > 0 {
      PowerIsPositive(k - 1);
    }
  }

  lemma DivideTwice(size: nat, d: nat)
    requires d > 0
    ensures size / (2 * d) == size / 2 / d
  {
    var q, r := size / 2 / d, size / 2 % d;
    assert size / 2 == q * d + r;
    assert size == 2 * (q * d + r) + size % 2;
    assert size == q * (2 * d) + (2 * r + size % 2);
    QuotientOf(size, 2 * d, q, 2 * r + size % 2);
  }

  lemma QuotientOf(n: nat, d: nat, q: nat, r: nat)
    requires d > 0 && n == q * d + r && r < d
    ensures n / d == q
  {
    var q', r' := n / d, n % d;
    SameMultiple(q', r', q, r, d);
  }

  lemma SameMultiple(q': int, r': int, q: int, r: int, d: int)
    requires q' * d + r' == q * d + r && 0 <= r < d && 0 <= r' < d
    ensures q' == q
  {
    LaterMultiple(q, q', d);
    LaterMultiple(q', q, d);
  }

  lemma LaterMultiple(p: int, q: int, d: int)
    requires d > 0
    ensures p < q ==> q * d >= p * d + d
  {
    if p < q {
      var more := q - p - 1;
      assert more * d >= 0;
      assert q == p + 1 + more;
    }
  }

  /** The halvings of a window are the fewest that leave one block. */
  lemma {:induction false} HalvingsAre(n: nat)
    requires n >= 1
    ensures PowerOfTwo(Halvings(n)) <= n < 2 * PowerOfTwo(Halvings(n))
  {
    if n > 1 {
      HalvingsAre(n / 2);
    }
  }

  /** Any number of refusals in a row leave the window halved as often; past one block the scan gives up. */
  lemma {:induction false} CourseRefused(endpoint: Endpoint, request: nat, k: nat, from: nat, size: nat, head: int)
    requires from <= head && size >= 1 && Replies(endpoint, request, k, Refused)
    ensures PowerOfTwo(k) > 0
    ensures k <= Halvings(size) ==>
              && size / PowerOfTwo(k) >= 1
              && Course(endpoint, request, from, size, head)
                 == Course(endpoint, request + k, from, size / PowerOfTwo(k), head)
    ensures k > Halvings(size) ==>
              Course(endpoint, request, from, size, head)
              == Stopped(ReadFailed(from, from, 1), request + Halvings(size) + 1)
    decreases k
  {
    PowerIsPositive(k);
    if k > 0 && size > 1 {
      assert endpoint(request) == Refused;
      CourseRefused(endpoint, request + 1, k - 1, from, size / 2, head);
      HalfOfPower(size, k);
    }
  }

  lemma TwiceTimes(size: nat, power: nat)
    requires power > 0
    ensures size * (2 * power) == 2 * size * power >= 2 * size
  {
    assert size * power >= size;
  }

  lemma FirstAnswered(endpoint: Endpoint, request: nat, from: nat, size: nat, head: int)
    requires 1 <= size <= 50 && from + size - 1 <= head && endpoint(request) == Answered
    ensures Course(endpoint, request, from, size, head) == Course(endpoint, request + 1, from + size, 2 * size, head)
  {
  }

  /** Any number of answers in a row leave it doubled as often, up to a hundred blocks. */
  lemma {:induction false} CourseAnswered(endpoint: Endpoint, request: nat, k: nat, from: nat, size: nat, head: int)
    requires size >= 1 && Replies(endpoint, request, k, Answered)
    requires size * PowerOfTwo(k) <= 100 && from + size * PowerOfTwo(k) - size <= head
    ensures size * PowerOfTwo(k) >= size
    ensures Course(endpoint, request, from, size, head)
         == Course(endpoint, request + k, from + size * PowerOfTwo(k) - size, size * PowerOfTwo(k), head)
    decreases k
  {
    PowerIsPositive(k);
    if k > 0 {
      PowerIsPositive(k - 1);
      TwiceTimes(size, PowerOfTwo(k - 1));
      assert endpoint(request) == Answered;
      CourseAnswered(endpoint, request + 1, k - 1, from + size, 2 * size, head);
      FirstAnswered(endpoint, request, from, size, head);
    }
  }

  /** A full window reads a hundred blocks a request, to the end of the range. */
  lemma {:induction false} CourseOfAnswers(endpoint: Endpoint, request: nat, from: nat, head: int)
    requires from <= head + 1 && forall i :: request <= i ==> endpoint(i) == Answered
    ensures Course(endpoint, request, from, 100, head) == Done(request + (head + 1 - from + 99) / 100)
    decreases head + 1 - from
  {
    if from <= head {
      assert endpoint(request) == Answered;
      CourseOfAnswers(endpoint, request + 1, Min(head, from + 99) + 1, head);
    }
  }

  /** Where a failed scan stopped: at a window of at most a hundred blocks, cut at the end of the range. */
  lemma {:induction false} CourseStopsAt(endpoint: Endpoint, request: nat, from: nat, size: nat, head: int)
    requires 1 <= size <= 100
    ensures
      var end := Course(endpoint, request, from, size, head);
      end.Stopped? && end.error.ReadFailed? ==>
        && from <= end.error.fromBlock <= head && 1 <= end.error.window <= 100
        && end.error.toBlock == Min(head, end.error.fromBlock + end.error.window - 1)
    decreases if from > head then 0 else head - from + 1, size
  {
    if from <= head {
      match endpoint(request)
      case Answered =>
        CourseStopsAt(endpoint, request + 1, Min(head, from + size - 1) + 1, GrowWindow(size, 100), head);
      case Refused =>
        if size > 1 {
          CourseStopsAt(endpoint, request + 1, from, ShrinkWindow(size, 1), head);
        }
      case Failed =>
      case NotAnArray =>
    }
  }

  /** Where the scan stands between two pages: what is read, and that the rest of the course is its own. */
  ghost predicate Reading<T>(table: seq<seq<T>>, endpoint: Endpoint, first: nat, head: int, from: int, size: nat,
      collected: seq<T>, requests: nat) {
    && first <= from && (from <= head + 1 || from == first) && size >= 1
    && collected == Between(table, first, from - 1)
    && Course(endpoint, requests, from, size, head) == WholeCourse(endpoint, first, head)
  }

  /** What the scan has when its course ends here. */
  lemma EndsHere<T>(table: seq<seq<T>>, endpoint: Endpoint, first: nat, head: int, from: nat, size: nat,
      collected: seq<T>, requests: nat, end: ScanEnd)
    requires Reading(table, endpoint, first, head, from, size, collected, requests)
    requires end == Course(endpoint, requests, from, size, head)
    ensures end == WholeCourse(endpoint, first, head) && EndedFor(end, endpoint)
    ensures end.requests <= 2 * Max(0, head - first + 1) + 7
    ensures from > head ==> collected == Between(table, first, head)
  {
    FullBudget();
    CourseFacts(endpoint, 0, first, HISTORY_CHUNK_MAX, head, first);
  }

  /** An answered page is read whole, and the scan goes on from the block after it. */
  lemma PageAnswered<T>(table: seq<seq<T>>, endpoint: Endpoint, first: nat, head: int, from: nat, size: nat,
      collected: seq<T>, requests: nat)
    requires Reading(table, endpoint, first, head, from, size, collected, requests) && from <= head
    requires endpoint(requests) == Answered
    ensures var to := Min(head, from + size - 1);
      Reading(table, endpoint, first, head, to + 1, GrowWindow(size, HISTORY_CHUNK_MAX),
          collected + Between(table, from, to), requests + 1)
  {
    var to := Min(head, from + size - 1);
    NextPage(table, first, from, to, collected, Between(table, from, to));
  }

  /**
   * Every log of the range, once and in range order, exactly when the replies carry the scan to
   * its end; it gives up only on an error narrowing cannot fix or on a one-block refusal. It
   * always ends, after at most two requests per block and seven more.
   */
  method HistoryLogs<T>(table: seq<seq<T>>, endpoint: Endpoint, fromBlock: nat, head: int)
    returns (r: Result<seq<T>, ScanError>, requests: nat)
    ensures r.Ok? <==> Carried(endpoint, fromBlock, head)
    ensures r.Ok? ==> r.value == Between(table, fromBlock, head)
    ensures WholeCourse(endpoint, fromBlock, head) == if r.Ok? then Done(requests) else Stopped(r.error, requests)
    ensures EndedFor(WholeCourse(endpoint, fromBlock, head), endpoint)
    ensures requests <= 2 * Max(0, head - fromBlock + 1) + 7
  {
    var collected: seq<T> := [];
    var size: nat := HISTORY_CHUNK_MAX;
    var from: nat := fromBlock;
    requests := 0;
    while from <= head
      invariant Reading(table, endpoint, fromBlock, head, from, size, collected, requests)
      decreases head - from + 1, size
    {
      var to := Min(head, from + size - 1);
      var reply := endpoint(requests);
      EndsHere(table, endpoint, fromBlock, head, from, size, collected, requests,
          Course(endpoint, requests, from, size, head));
      requests := requests + 1;
      if reply == Failed || reply == Refused {
        if reply == Refused && size > HISTORY_CHUNK_MIN {
          size := ShrinkWindow(size, HISTORY_CHUNK_MIN);
          continue;
        }
        return Err(ReadFailed(from, to, size)), requests;
      }
      if reply == NotAnArray {
        return Err(Malformed), requests;
      }
      PageAnswered(table, endpoint, fromBlock, head, from, size, collected, requests - 1);
      collected := collected + Between(table, from, to);
      from := to + 1;
      size := GrowWindow(size, HISTORY_CHUNK_MAX);
    }
    EndsHere(table, endpoint, fromBlock, head, from, size, collected, requests, Done(requests));
    return Ok(collected), requests;
  }

  // ------------------------------------------------------------- the keeper scan

  const MIN_LOG_WINDOW := 10

  /** How many refusals take a width down to the floor. */
  function Narrowings(width: nat): nat
    decreases width
  {
    if width <= MIN_LOG_WINDOW then 0 else 1 + Narrowings(Max(MIN_LOG_WINDOW, width / 2))
  }

  lemma {:induction false} NarrowingsMonotone(a: nat, b: nat)
    requires a <= b
    ensures Narrowings(a) <= Narrowings(b)
    decreases b
  {
    if a > MIN_LOG_WINDOW {
      NarrowingsMonotone(Max(MIN_LOG_WINDOW, a / 2), Max(MIN_LOG_WINDOW, b / 2));
    }
  }

  /** A reply the keeper narrows on: it does not tell a refusal from any other error. */
  predicate Bad(reply: Reply) {
    reply == Failed || reply == Refused
  }

  /** How one window comes out: its last reply, its width then, and the requests made by then. */
  datatype Narrowed = Narrowed(reply: Reply, span: int, requests: nat)

  function Narrow(endpoint: Endpoint, request: nat, span: int): (r: Narrowed)
    ensures request < r.requests && (span >= 1 ==> 1 <= r.span <= span)
    decreases span
  {
    if Bad(endpoint(request)) && span > MIN_LOG_WINDOW then Narrow(endpoint, request + 1, Max(MIN_LOG_WINDOW, span / 2))
    else Narrowed(endpoint(request), span, request + 1)
  }

  /**
   * A window is halved on every bad reply while it is above ten blocks. A bad reply is handed back
   * only at ten blocks or fewer, and every halving is paid for by one request.
   */
  lemma {:induction false} NarrowFacts(endpoint: Endpoint, request: nat, span: int)
    ensures
      var n := Narrow(endpoint, request, span);
      && n.reply == endpoint(n.requests - 1)
      && (forall i :: request <= i < n.requests - 1 ==> Bad(endpoint(i)))
      && (Bad(n.reply) ==> n.span <= MIN_LOG_WINDOW)
      && (span <= MIN_LOG_WINDOW ==> n.span == span && n.requests == request + 1)
      && (span >= 1 ==> n.requests - request - 1 + Narrowings(n.span) == Narrowings(span))
    decreases span
  {
    if Bad(endpoint(request)) && span > MIN_LOG_WINDOW {
      NarrowFacts(endpoint, request + 1, Max(MIN_LOG_WINDOW, span / 2));
    }
  }

  /** They are the fewest that do. */
  lemma {:induction false} NarrowingsAre(width: nat)
    ensures PowerOfTwo(Narrowings(width)) > 0 && width / PowerOfTwo(Narrowings(width)) <= 10
    ensures forall k: nat :: k < Narrowings(width) ==> PowerOfTwo(k) > 0 && width / PowerOfTwo(k) > 10
    decreases width
  {
    var n := Narrowings(width);
    PowerIsPositive(n);
    if width > MIN_LOG_WINDOW {
      NarrowingsAre(Max(MIN_LOG_WINDOW, width / 2));
      if width / 2 > 10 {
        HalfOfPower(width, n);
      } else {
        assert PowerOfTwo(1) == 2;
      }
      forall k: nat | k < n
        ensures PowerOfTwo(k) > 0 && width / PowerOfTwo(k) > 10
      {
        if k > 0 {
          HalfOfPower(width, k);
        }
      }
    }
  }

  /** The span a window is answered at is the one offered, halved once a request and never below ten blocks. */
  lemma {:induction false} NarrowSpan(endpoint: Endpoint, request: nat, span: int)
    requires span >= 1
    ensures
      var n := Narrow(endpoint, request, span);
      && PowerOfTwo(n.requests - request - 1) > 0
      && n.span == if span <= 10 then span else Max(10, span / PowerOfTwo(n.requests - request - 1))
    decreases span
  {
    var n := Narrow(endpoint, request, span);
    PowerIsPositive(n.requests - request - 1);
    if Bad(endpoint(request)) && span > MIN_LOG_WINDOW {
      NarrowSpan(endpoint, request + 1, Max(MIN_LOG_WINDOW, span / 2));
      HalfOfPower(span, n.requests - request - 1);
      if span / 2 <= 10 {
        SmallerQuotient(span / 2, PowerOfTwo(n.requests - request - 2));
      }
    }
  }

  lemma SmallerQuotient(n: nat, d: nat)
    requires d > 0
    ensures n / d <= n
  {
    AtLeastItself(n / d, n % d, d, n);
  }

  lemma AtLeastItself(q: nat, r: nat, d: nat, n: nat)
    requires d > 0 && n == q * d + r
    ensures q <= n
  {
    assert q * d >= q;
  }

  /** The course of the keeper's scan: each window asked for until answered, and kept as narrow as it came out. */
  function KeeperCourse(endpoint: Endpoint, request: nat, from: int, width: int, last: int): ScanEnd
    requires width >= 1
    decreases last - from + 1
  {
    if from > last then Done(request)
    else
      var offered := Min(width, last - from + 1);
      var n := Narrow(endpoint, request, offered);
      match n.reply
      case Answered =>
        KeeperCourse(endpoint, n.requests, from + n.span, if n.span < offered then n.span else width, last)
      case NotAnArray => Stopped(Malformed, n.requests)
      case Failed => Stopped(ReadFailed(from, from + n.span - 1, n.span), n.requests)
      case Refused => Stopped(ReadFailed(from, from + n.span - 1, n.span), n.requests)
  }

  function WholeKeeperCourse(endpoint: Endpoint, first: nat, window: int, last: int): ScanEnd
    requires window >= 1
  {
    KeeperCourse(endpoint, 0, first, window, last)
  }

  /** Whether the replies carry the keeper's scan to its end: each window is answered once it is narrow enough. */
  predicate KeeperCarried(endpoint: Endpoint, first: nat, window: int, last: int)
    requires window >= 1
  {
    WholeKeeperCourse(endpoint, first, window, last).Done?
  }

  /** From where the endpoint answers, every window is as wide as the last one was left. */
  lemma {:induction false} KeeperOfAnswers(endpoint: Endpoint, request: nat, from: int, width: int, last: int)
    requires width >= 1 && from <= last + 1 && forall i :: request <= i ==> endpoint(i) == Answered
    ensures KeeperCourse(endpoint, request, from, width, last)
         == Done(request + (last + 1 - from + width - 1) / width)
    decreases last - from + 1
  {
    if from <= last {
      var offered := Min(width, last - from + 1);
      assert endpoint(request) == Answered;
      KeeperOfAnswers(endpoint, request + 1, from + offered, width, last);
      OneMoreWindow(last + 1 - from, width);
    } else {
      QuotientOf(width - 1, width, 0, width - 1);
    }
  }

  lemma OneMoreWindow(blocks: int, width: int)
    requires blocks >= 1 && width >= 1
    ensures (blocks + width - 1) / width == 1 + (blocks - Min(width, blocks) + width - 1) / width
  {
    if blocks <= width {
      QuotientOf(blocks + width - 1, width, 1, blocks - 1);
      QuotientOf(width - 1, width, 0, width - 1);
    } else {
      var n := blocks - 1;
      assert n == n / width * width + n % width;
      assert blocks + width - 1 == (n / width + 1) * width + n % width;
      QuotientOf(blocks + width - 1, width, n / width + 1, n % width);
    }
  }

  /** Bad replies at the start of a window cost one request each, and it and all after it are narrowed by them. */
  lemma KeeperRecovers(endpoint: Endpoint, request: nat, k: nat, from: int, width: int, last: int)
    requires width >= 1 && last - from + 1 >= width && 0 < k <= Narrowings(width)
    requires forall i :: request <= i < request + k ==> Bad(endpoint(i))
    requires forall i :: request + k <= i ==> endpoint(i) == Answered
    ensures PowerOfTwo(k) > 0
    ensures
      var span := Max(10, width / PowerOfTwo(k));
      KeeperCourse(endpoint, request, from, width, last)
      == Done(request + k + (last + 1 - from + span - 1) / span)
  {
    NarrowedBy(endpoint, request, k, width);
    NarrowSpan(endpoint, request, width);
    var n := Narrow(endpoint, request, width);
    PowerIsPositive(k);
    NarrowFacts(endpoint, request, width);
    KeeperOfAnswers(endpoint, n.requests, from + n.span, n.span, last);
    OneMoreWindow(last + 1 - from, n.span);
  }

  lemma {:induction false} NarrowedBy(endpoint: Endpoint, request: nat, k: nat, width: int)
    requires width >= 1 && k <= Narrowings(width)
    requires forall i :: request <= i < request + k ==> Bad(endpoint(i))
    requires endpoint(request + k) == Answered
    ensures Narrow(endpoint, request, width).requests == request + k + 1
    ensures Narrow(endpoint, request, width).reply == Answered
    ensures k > 0 ==> width > 10 && Narrow(endpoint, request, width).span < width
    decreases k
  {
    if k > 0 {
      assert Bad(endpoint(request));
      NarrowedBy(endpoint, request + 1, k - 1, Max(MIN_LOG_WINDOW, width / 2));
    }
  }

  /** One window of the keeper's scan: asked for again, half as wide, until it is answered or narrow. */
  method KeeperWindow(endpoint: Endpoint, offered: int, before: nat) returns (reply: Reply, span: int, requests: nat)
    ensures Narrowed(reply, span, requests) == Narrow(endpoint, before, offered)
  {
    span := offered;
    reply := endpoint(before);
    requests := before + 1;
    while Bad(reply) && span > MIN_LOG_WINDOW
      invariant 0 < requests && reply == endpoint(requests - 1)
      invariant Narrow(endpoint, requests - 1, span) == Narrow(endpoint, before, offered)
      decreases span
    {
      span := Max(MIN_LOG_WINDOW, span / 2);
      reply := endpoint(requests);
      requests := requests + 1;
    }
  }

  /** Where a scan with a real window stands between two windows. */
  ghost predicate Scanning<T>(
    table: seq<seq<T>>, endpoint: Endpoint, first: nat, window: int, last: int, from: int, width: int,
        collected: seq<T>, requests: nat)
  {
    && 1 <= width <= window && first <= from && (from <= last + 1 || from == first)
    && collected == Between(table, first, from - 1)
    && requests + Narrowings(width) <= from - first + Narrowings(window)
    && KeeperCourse(endpoint, requests, from, width, last) == WholeKeeperCourse(endpoint, first, window, last)
  }

  /** Whatever comes of a window, its requests are paid for, and only an answer carries the scan on. */
  lemma WindowCost<T>(
    table: seq<seq<T>>, endpoint: Endpoint, first: nat, window: int, last: int, from: int, width: int,
        collected: seq<T>, requests: nat, n: Narrowed)
    requires from <= last && Scanning(table, endpoint, first, window, last, from, width, collected, requests)
    requires n == Narrow(endpoint, requests, Min(width, last - from + 1))
    ensures n.requests <= Max(0, last - first + 1) + Narrowings(window)
    ensures Bad(n.reply) ==>
              WholeKeeperCourse(endpoint, first, window, last)
              == Stopped(ReadFailed(from, from + n.span - 1, n.span), n.requests)
    ensures n.reply == NotAnArray ==> WholeKeeperCourse(endpoint, first, window, last) == Stopped(Malformed, n.requests)
  {
    NarrowFacts(endpoint, requests, Min(width, last - from + 1));
    NarrowingsMonotone(Min(width, last - from + 1), width);
  }

  /** An answered window is read whole; the width is what is left of it only when it was narrowed. */
  lemma WindowRead<T>(
    table: seq<seq<T>>, endpoint: Endpoint, first: nat, window: int, last: int, from: int, width: int,
        collected: seq<T>, requests: nat, n: Narrowed, to: int, width': int, logs: seq<T>)
    requires from <= last && Scanning(table, endpoint, first, window, last, from, width, collected, requests)
    requires n == Narrow(endpoint, requests, Min(width, last - from + 1)) && n.reply == Answered
    requires to == from + n.span - 1 && logs == Between(table, from, to)
    requires width' == if n.span < Min(width, last - from + 1) then n.span else width
    ensures Scanning(table, endpoint, first, window, last, to + 1, width', collected + logs, n.requests)
  {
    NextPage(table, first, from, to, collected, logs);
    WindowPaid(endpoint, requests, Min(width, last - from + 1), width, n);
    AnsweredWindow(endpoint, requests, from, width, last, n);
  }

  lemma WindowPaid(endpoint: Endpoint, requests: nat, offered: int, width: int, n: Narrowed)
    requires 1 <= offered <= width && n == Narrow(endpoint, requests, offered)
    ensures n.requests + Narrowings(if n.span < offered then n.span else width) <= requests + 1 + Narrowings(width)
  {
    NarrowFacts(endpoint, requests, offered);
    NarrowingsMonotone(offered, width);
  }

  lemma AnsweredWindow(endpoint: Endpoint, requests: nat, from: int, width: int, last: int, n: Narrowed)
    requires width >= 1 && from <= last && n == Narrow(endpoint, requests, Min(width, last - from + 1))
    requires n.reply == Answered
    ensures
      var width' := if n.span < Min(width, last - from + 1) then n.span else width;
      KeeperCourse(endpoint, requests, from, width, last)
      == KeeperCourse(endpoint, n.requests, from + n.span, width', last)
  {
  }

  /** Where the scan stands for any window: with none it has only been answered, and has read nothing. */
  ghost predicate KeeperAt<T>(
    table: seq<seq<T>>, endpoint: Endpoint, first: nat, window: int, last: int, watched: nat, from: int, width: int,
        collected: seq<T>, requests: nat)
  {
    if window >= 1 then Scanning(table, endpoint, first, window, last, from, width, collected, requests)
    else
      && width == window && from <= first && collected == [] && requests <= watched
      && forall i :: 0 <= i < requests ==> endpoint(i) == Answered
  }

  lemma KeeperNext<T>(
    table: seq<seq<T>>, endpoint: Endpoint, first: nat, window: int, last: int, watched: nat, from: int, width: int,
        collected: seq<T>, requests: nat,
    n: Narrowed, to: int, from': int, width': int, collected': seq<T>)
    requires from <= last && KeeperAt(table, endpoint, first, window, last, watched, from, width, collected, requests)
    requires n == Narrow(endpoint, requests, Min(width, last - from + 1)) && n.reply == Answered
    requires window >= 1 || requests < watched
    requires to == from + n.span - 1 && from' == to + 1
    requires collected' == collected + if from <= to then Between(table, from, to) else []
    requires width' == if n.span < Min(width, last - from + 1) then n.span else width
    ensures window >= 1 ==> n.span >= 1
    ensures KeeperAt(table, endpoint, first, window, last, watched, from', width', collected', n.requests)
  {
    var logs := if from <= to then Between(table, from, to) else [];
    if window >= 1 {
      WindowRead(table, endpoint, first, window, last, from, width, collected, requests, n, to, width', logs);
    } else {
      NarrowFacts(endpoint, requests, width);
    }
  }

  /**
   * How the keeper's scan ends. With a window of at least one block it is read whole exactly when
   * the replies carry it, and an error is the last reply, at ten blocks or fewer; its requests are
   * bounded. With less, it ends only on an error, and otherwise is still going when last watched.
   */
  ghost predicate KeeperEnds<T>(
    table: seq<seq<T>>, endpoint: Endpoint, window: int, first: nat, last: int, watched: nat,
        r: Option<Result<seq<T>, ScanError>>, requests: nat)
  {
    && (window >= 1 ==> r.Some? && requests <= Max(0, last - first + 1) + Narrowings(window))
    && (window >= 1 ==> (r.value.Ok? <==> KeeperCarried(endpoint, first, window, last)))
    && (window >= 1 ==>
          WholeKeeperCourse(endpoint, first, window, last)
          == if r.value.Ok? then Done(requests) else Stopped(r.value.error, requests))
    && (r.Some? && r.value.Ok? ==> r.value.value == Between(table, first, last))
    && (r.Some? && r.value.Err? && r.value.error.Malformed? ==> 0 < requests && endpoint(requests - 1) == NotAnArray)
    && (r.Some? && r.value.Err? && r.value.error.ReadFailed? ==>
          0 < requests && Bad(endpoint(requests - 1)) && r.value.error.window <= MIN_LOG_WINDOW)
    && (window < 1 && r.Some? && r.value.Ok? ==> first > last)
    && (r.None? ==> window < 1 && requests == watched && forall i :: 0 <= i < watched ==> endpoint(i) == Answered)
  }

  lemma KeeperDone<T>(
    table: seq<seq<T>>, endpoint: Endpoint, first: nat, window: int, last: int, watched: nat, from: int, width: int,
        collected: seq<T>, requests: nat)
    requires from > last && KeeperAt(table, endpoint, first, window, last, watched, from, width, collected, requests)
    ensures KeeperEnds(table, endpoint, window, first, last, watched, Some(Ok(collected)), requests)
  {
  }

  lemma KeeperGoesOn<T>(
    table: seq<seq<T>>, endpoint: Endpoint, first: nat, window: int, last: int, watched: nat, from: int, width: int,
        collected: seq<T>, requests: nat)
    requires window < 1 && requests == watched
    requires KeeperAt(table, endpoint, first, window, last, watched, from, width, collected, requests)
    ensures KeeperEnds(table, endpoint, window, first, last, watched, None, requests)
  {
  }

  lemma KeeperFails<T>(
    table: seq<seq<T>>, endpoint: Endpoint, first: nat, window: int, last: int, watched: nat, from: int, width: int,
        collected: seq<T>, requests: nat,
    n: Narrowed, error: ScanError)
    requires from <= last && KeeperAt(table, endpoint, first, window, last, watched, from, width, collected, requests)
    requires n == Narrow(endpoint, requests, Min(width, last - from + 1))
    requires if error.Malformed? then n.reply == NotAnArray
             else Bad(n.reply) && error == ReadFailed(from, from + n.span - 1, n.span)
    ensures KeeperEnds(table, endpoint, window, first, last, watched, Some(Err(error)), n.requests)
  {
    NarrowFacts(endpoint, requests, Min(width, last - from + 1));
    if window >= 1 {
      WindowCost(table, endpoint, first, window, last, from, width, collected, requests, n);
    }
  }

  /**
   * The keeper's scan, watched for a number of requests. Bad replies narrow it down to ten
   * blocks and the width is kept, so a whole scan loses no more than Narrowings(window) requests
   * to replies it survives. The window is whatever was configured: below one block the scan
   * stands still or moves back, and while it is answered it does not end.
   */
  method KeeperLogs<T>(table: seq<seq<T>>, endpoint: Endpoint, window: int, fromBlock: nat, toBlock: int, watched: nat)
    returns (r: Option<Result<seq<T>, ScanError>>, requests: nat)
    ensures KeeperEnds(table, endpoint, window, fromBlock, toBlock, watched, r, requests)
  {
    var collected: seq<T> := [];
    var width := window;
    var from: int := fromBlock;
    requests := 0;
    while from <= toBlock
      invariant KeeperAt(table, endpoint, fromBlock, window, toBlock, watched, from, width, collected, requests)
      decreases if window >= 1 then toBlock - from + 1 else watched - requests
    {
      if window < 1 && requests == watched {
        KeeperGoesOn(table, endpoint, fromBlock, window, toBlock, watched, from, width, collected, requests);
        return None, requests;
      }
      var offered := Min(width, toBlock - from + 1);
      ghost var before := requests;
      var reply, span;
      reply, span, requests := KeeperWindow(endpoint, offered, requests);
      ghost var n := Narrowed(reply, span, requests);
      if Bad(reply) {
        KeeperFails(table, endpoint, fromBlock, window, toBlock, watched, from, width, collected, before, n,
            ReadFailed(from, from + span - 1, span));
        return Some(Err(ReadFailed(from, from + span - 1, span))), requests;
      }
      var to := from + span - 1;
      if reply == NotAnArray {
        KeeperFails(table, endpoint, fromBlock, window, toBlock, watched, from, width, collected, before, n, Malformed);
        return Some(Err(Malformed)), requests;
      }
      var logs := if from <= to then Between(table, from, to) else [];
      ghost var from0, width0, collected0 := from, width, collected;
      if span < offered {
        width := span;
      }
      collected := collected + logs;
      from := to + 1;
      KeeperNext(table, endpoint, fromBlock, window, toBlock, watched, from0, width0, collected0, before, n,
          to, from, width, collected);
    }
    KeeperDone(table, endpoint, fromBlock, window, toBlock, watched, from, width, collected, requests);
    return Some(Ok(collected)), requests;
  }
}
