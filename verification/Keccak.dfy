/**
 * Keccak-f[1600], twice: as the step mappings of section 3.2 of FIPS 202, bit by bit, and as it
 * is run, in place over 25 lanes (packages/shared/src/keccak256.ts:57-110). Lane (x, y) of the
 * state is at 5y + x.
 */
module Keccak {
  import opened Bits

  type State = s: seq<Lane> | |s| == 25 witness seq(25, i => Zero())

  // ------------------------------------------------------------- the step mappings

  /** C[x, z], the parity of a column (section 3.2.1). */
  function Parity(a: State, x: nat, z: nat): bool
    requires x < 5 && z < 64
  {
    a[x][z] != (a[x + 5][z] != (a[x + 10][z] != (a[x + 15][z] != a[x + 20][z])))
  }

  /** x + 1, x + 2 and x - 1, modulo 5. */
  function Right(x: nat): nat
    requires x < 5
  {
    if x == 4 then 0 else x + 1
  }

  function RightTwo(x: nat): nat
    requires x < 5
  {
    Right(Right(x))
  }

  function Left(x: nat): nat
    requires x < 5
  {
    if x == 0 then 4 else x - 1
  }

  /** A'[x, y, z] = A[x, y, z] ^ C[x - 1, z] ^ C[x + 1, z - 1]. */
  function Theta(a: State): State {
    seq(25, i requires 0 <= i < 25 => ThetaLane(a, i, i % 5))
  }

  function ThetaLane(a: State, i: nat, x: nat): Lane
    requires i < 25 && x < 5
  {
    seq(64, z requires 0 <= z < 64 => a[i][z] != (Parity(a, Left(x), z) != Parity(a, Right(x), (z - 1) % 64)))
  }

  /** Where rho's walk stands at step t: from (1, 0), each (x, y) goes to (y, 2x + 3y). */
  function Walk(t: nat): (r: (nat, nat))
    ensures r.0 < 5 && r.1 < 5
  {
    if t == 0 then (1, 0)
    else
      var (x, y) := Walk(t - 1);
      (y, (2 * x + 3 * y) % 5)
  }

  /** The lane the walk is on. */
  function Place(t: nat): nat {
    5 * Walk(t).1 + Walk(t).0
  }

  /** (t + 1)(t + 2) / 2. */
  function Triangle(t: nat): nat {
    if t == 0 then 1 else Triangle(t - 1) + t + 1
  }

  /** Rho after its first t steps (Algorithm 2, section 3.2.2). */
  function RhoSteps(a: State, t: nat): State {
    if t == 0 then a
    else RhoSteps(a, t - 1)[Place(t - 1) := Rotated(a[Place(t - 1)], Triangle(t - 1))]
  }

  function Rho(a: State): State {
    RhoSteps(a, 24)
  }

  /** A'[x, y, z] = A[x + 3y, x, z] (section 3.2.3). */
  function Pi(a: State): State {
    seq(25, i requires 0 <= i < 25 => a[5 * (i % 5) + (i % 5 + 3 * (i / 5)) % 5])
  }

  /** A'[x, y, z] = A[x, y, z] ^ (~A[x + 1, y, z] & A[x + 2, y, z]) (section 3.2.4). */
  function Chi(a: State): State {
    seq(25, i requires 0 <= i < 25 => ChiAt(a, i % 5, i / 5))
  }

  function ChiAt(a: State, x: nat, y: nat): Lane
    requires x < 5 && y < 5
  {
    ChiLane(a[5 * y + x], a[5 * y + Right(x)], a[5 * y + RightTwo(x)])
  }

  function ChiLane(a: Lane, b: Lane, c: Lane): Lane {
    seq(64, z requires 0 <= z < 64 => a[z] != (!b[z] && c[z]))
  }

  /** A'[0, 0] = A[0, 0] ^ RC[round] (section 3.2.5). */
  function Iota(a: State, constant: Lane): State {
    a[0 := seq(64, z requires 0 <= z < 64 => a[0][z] != constant[z])]
  }

  // ------------------------------------------------------------- theta in place

  function ParityLane(a: State, x: nat): Lane
    requires x < 5
  {
    Xor(Xor(Xor(Xor(a[x], a[x + 5]), a[x + 10]), a[x + 15]), a[x + 20])
  }

  function SpreadLane(a: State, x: nat): Lane
    requires x < 5
  {
    Xor(ParityLane(a, Left(x)), Rotl(ParityLane(a, Right(x)), 1))
  }

  lemma ParityBits(a: State, x: nat, z: nat)
    requires x < 5 && z < 64
    ensures ParityLane(a, x)[z] == Parity(a, x, z)
  {
  }

  lemma SpreadBits(a: State, x: nat, z: nat)
    requires x < 5 && z < 64
    ensures SpreadLane(a, x)[z] == (Parity(a, Left(x), z) != Parity(a, Right(x), (z - 1) % 64))
  {
    ParityBits(a, Left(x), z);
    ParityBits(a, Right(x), (z - 1) % 64);
    RotlRotates(ParityLane(a, Right(x)), 1);
  }

  lemma ThetaByLanes(a: State, i: nat, x: nat)
    requires i < 25 && x < 5
    ensures Xor(a[i], SpreadLane(a, x)) == ThetaLane(a, i, x)
  {
    forall z | 0 <= z < 64
      ensures Xor(a[i], SpreadLane(a, x))[z] == ThetaLane(a, i, x)[z]
    {
      SpreadBits(a, x, z);
    }
  }

  method Columns(state: array<Lane>, column: array<Lane>)
    requires state.Length == 25 && column.Length == 5 && state != column
    modifies column
    ensures forall x: nat :: x < 5 ==> column[x] == ParityLane(state[..], x)
  {
    for x := 0 to 5
      invariant forall k: nat :: k < x ==> column[k] == ParityLane(state[..], k)
    {
      column[x] := Xor(Xor(Xor(Xor(state[x], state[x + 5]), state[x + 10]), state[x + 15]), state[x + 20]);
    }
  }

  method XorColumn(state: array<Lane>, x: nat, parity: Lane)
    requires state.Length == 25 && x < 5
    modifies state
    ensures forall i: nat :: i < 25 ==> state[i] == if i % 5 == x then Xor(old(state[i]), parity) else old(state[i])
  {
    var y := 0;
    while y < 25
      invariant 0 <= y <= 25 && y % 5 == 0
      invariant forall i: nat :: i < 25 ==>
            state[i] == if i % 5 == x && i < y then Xor(old(state[i]), parity) else old(state[i])
    {
      state[y + x] := Xor(state[y + x], parity);
      y := y + 5;
    }
  }

  method ThetaColumn(state: array<Lane>, x: nat, column: array<Lane>, ghost a: State)
    requires state.Length == 25 && column.Length == 5 && state != column && x < 5
    requires forall k: nat :: k < 5 ==> column[k] == ParityLane(a, k)
    requires forall i: nat :: i < 25 && i % 5 == x ==> state[i] == a[i]
    modifies state
    ensures forall i: nat :: i < 25 ==> state[i] == if i % 5 == x then ThetaLane(a, i, x) else old(state[i])
  {
    var parity := Parities(column, x, a);
    forall i: nat | i < 25
      ensures Xor(a[i], parity) == ThetaLane(a, i, x)
    {
      ThetaByLanes(a, i, x);
    }
    XorColumn(state, x, parity);
  }

  method ThetaInPlace(state: array<Lane>, column: array<Lane>)
    requires state.Length == 25 && column.Length == 5 && state != column
    modifies state, column
    ensures state[..] == Theta(old(state[..]))
  {
    ghost var a: State := state[..];
    Columns(state, column);
    for x := 0 to 5
      invariant forall k: nat :: k < 5 ==> column[k] == ParityLane(a, k)
      invariant forall i: nat :: i < 25 ==> state[i] == if i % 5 < x then ThetaLane(a, i, i % 5) else a[i]
    {
      ThetaColumn(state, x, column, a);
    }
  }

  method Parities(column: array<Lane>, x: nat, ghost a: State) returns (parity: Lane)
    requires column.Length == 5 && x < 5
    requires forall k: nat :: k < 5 ==> column[k] == ParityLane(a, k)
    ensures parity == SpreadLane(a, x)
  {
    assert (x + 4) % 5 == Left(x) && (x + 1) % 5 == Right(x);
    return Xor(column[(x + 4) % 5], Rotl(column[(x + 1) % 5], 1));
  }

  // ------------------------------------------------------------- chi in place

  method CopyRow(state: array<Lane>, y: nat, column: array<Lane>)
    requires state.Length == 25 && column.Length == 5 && state != column && y + 5 <= 25
    modifies column
    ensures forall x: nat :: x < 5 ==> column[x] == state[y + x]
  {
    for x := 0 to 5
      invariant forall k: nat :: k < x ==> column[k] == state[y + k]
    {
      column[x] := state[y + x];
    }
  }

  lemma ChiByLanes(a: Lane, b: Lane, c: Lane)
    ensures Xor(a, And(Not(b), c)) == ChiLane(a, b, c)
  {
  }

  method MixRow(state: array<Lane>, y: nat, column: array<Lane>)
    requires state.Length == 25 && column.Length == 5 && state != column && y + 5 <= 25
    requires forall x: nat :: x < 5 ==> column[x] == state[y + x]
    modifies state
    ensures forall i: nat :: i < 25 ==> state[i] == if y <= i < y + 5 then RowLane(column[..], i - y) else old(state[i])
  {
    for x := 0 to 5
      invariant forall i: nat :: i < 25 ==>
            state[i] == if y <= i < y + x then RowLane(column[..], i - y) else old(state[i])
    {
      MixLane(state, y + x, column, x);
    }
  }

  method MixLane(state: array<Lane>, i: nat, column: array<Lane>, x: nat)
    requires state.Length == 25 && column.Length == 5 && state != column && i < 25 && x < 5
    requires state[i] == column[x]
    modifies state
    ensures state[i] == RowLane(column[..], x)
    ensures forall k: nat :: k < 25 && k != i ==> state[k] == old(state[k])
  {
    ghost var row := column[..];
    assert (x + 1) % 5 == Right(x) && (x + 2) % 5 == RightTwo(x);
    ChiByLanes(row[x], row[Right(x)], row[RightTwo(x)]);
    state[i] := Xor(state[i], And(Not(column[(x + 1) % 5]), column[(x + 2) % 5]));
  }

  function RowLane(row: seq<Lane>, x: nat): Lane
    requires |row| == 5 && x < 5
  {
    ChiLane(row[x], row[Right(x)], row[RightTwo(x)])
  }

  lemma RowIsChi(a: State, row: nat, x: nat, column: seq<Lane>)
    requires row < 5 && x < 5 && |column| == 5
    requires forall k: nat :: k < 5 ==> column[k] == a[5 * row + k]
    ensures RowLane(column, x) == ChiAt(a, x, row)
    ensures (5 * row + x) % 5 == x && (5 * row + x) / 5 == row
  {
  }

  method ChiRow(state: array<Lane>, y: nat, column: array<Lane>, ghost row: nat, ghost a: State)
    requires state.Length == 25 && column.Length == 5 && state != column && row < 5 && y == 5 * row
    requires forall i: nat :: y <= i < y + 5 ==> state[i] == a[i]
    modifies state, column
    ensures forall i: nat :: i < 25 && !(y <= i < y + 5) ==> state[i] == old(state[i])
    ensures forall i: nat :: y <= i < y + 5 ==> state[i] == ChiAt(a, i % 5, i / 5)
  {
    CopyRow(state, y, column);
    MixRow(state, y, column);
    forall i: nat | y <= i < y + 5
      ensures RowLane(column[..], i - y) == ChiAt(a, i % 5, i / 5)
    {
      RowIsChi(a, row, i - y, column[..]);
    }
  }

  method ChiInPlace(state: array<Lane>, column: array<Lane>)
    requires state.Length == 25 && column.Length == 5 && state != column
    modifies state, column
    ensures state[..] == Chi(old(state[..]))
  {
    ghost var a: State := state[..];
    var y := 0;
    ghost var row := 0;
    while y < 25
      invariant 0 <= row <= 5 && y == 5 * row
      invariant forall i: nat :: i < y ==> state[i] == ChiAt(a, i % 5, i / 5)
      invariant forall i: nat :: y <= i < 25 ==> state[i] == a[i]
    {
      ChiRow(state, y, column, row, a);
      y, row := y + 5, row + 1;
    }
  }

  // ------------------------------------------------------------- rho and pi in place

  const ROTATIONS: seq<nat> :=
    [1, 3, 6, 10, 15, 21, 28, 36, 45, 55, 2, 14, 27, 41, 56, 8, 25, 43, 62, 18, 39, 61, 20, 44]

  const LANE_ORDER: seq<nat> :=
    [10, 7, 11, 17, 18, 3, 5, 16, 8, 21, 24, 4, 15, 23, 19, 13, 12, 2, 20, 14, 22, 9, 6, 1]

  /** The step at which lane i is written, for i > 0. */
  const WRITTEN_AT: seq<nat> :=
    [24, 23, 17, 5, 11, 6, 22, 1, 8, 21, 0, 2, 16, 15, 19, 12, 7, 3, 4, 14, 18, 9, 20, 13, 10]

  function NextPlace(p: nat): nat {
    5 * ((2 * (p % 5) + 3 * (p / 5)) % 5) + p / 5
  }

  lemma FirstSteps(k: nat)
    requires 0 < k <= 8
    ensures Walks(LANE_ORDER, k)
  {
  }

  lemma MiddleSteps(k: nat)
    requires 8 < k <= 16
    ensures Walks(LANE_ORDER, k)
  {
  }

  lemma LastSteps(k: nat)
    requires 16 < k < 24
    ensures Walks(LANE_ORDER, k)
  {
  }

  lemma FirstTurns(k: nat)
    requires 0 < k <= 12
    ensures Turns(ROTATIONS, k)
  {
  }

  lemma LastTurns(k: nat)
    requires 12 < k < 24
    ensures Turns(ROTATIONS, k)
  {
  }

  lemma PlaceNext(t: nat)
    ensures Place(t + 1) == NextPlace(Place(t))
  {
    var (x, y) := Walk(t);
    assert Place(t) % 5 == x && Place(t) / 5 == y;
  }

  lemma Congruent(n: nat, m: nat, k: nat)
    requires m == n % 64
    ensures (m + k) % 64 == (n + k) % 64
  {
  }

  /** Tables that run along rho's walk: where it goes next, by how much, and when a lane is reached. */
  ghost predicate AlongWalk(order: seq<nat>, rotations: seq<nat>, writtenAt: seq<nat>) {
    && |rotations| == 24
    && WritesOnce(order, writtenAt)
    && order[23] == Place(0)
    && (forall t: nat :: t < 24 ==> order[t] == Place(t + 1))
    && (forall t: nat :: t < 24 ==> rotations[t] < 64 && rotations[t] == Triangle(t) % 64)
  }

  /** Every lane but the first is written at one step. */
  ghost predicate WritesOnce(order: seq<nat>, writtenAt: seq<nat>) {
    && |order| == 24 && |writtenAt| == 25
    && (forall t: nat :: t < 24 ==> 0 < order[t] < 25 && writtenAt[order[t]] == t)
    && (forall i: nat :: 0 < i < 25 ==> writtenAt[i] < 24 && order[writtenAt[i]] == i)
  }

  ghost predicate Walks(order: seq<nat>, k: nat) {
    0 < k < |order| && order[k] == NextPlace(order[k - 1])
  }

  ghost predicate Turns(rotations: seq<nat>, k: nat) {
    0 < k < |rotations| && rotations[k] == (rotations[k - 1] + k + 1) % 64
  }

  lemma {:induction false} OrderIsWalk(order: seq<nat>, t: nat)
    requires t < |order| && order[0] == Place(1)
    requires forall k: nat :: 0 < k < |order| ==> Walks(order, k)
    ensures order[t] == Place(t + 1)
  {
    if t > 0 {
      OrderIsWalk(order, t - 1);
      assert Walks(order, t);
      PlaceNext(t);
    }
  }

  lemma {:induction false} RotationsAreTriangles(rotations: seq<nat>, t: nat)
    requires t < |rotations| && rotations[0] == 1
    requires forall k: nat :: 0 < k < |rotations| ==> Turns(rotations, k)
    ensures rotations[t] == Triangle(t) % 64
  {
    if t > 0 {
      RotationsAreTriangles(rotations, t - 1);
      assert Turns(rotations, t);
      Congruent(Triangle(t - 1), rotations[t - 1], t + 1);
    }
  }

  lemma WrittenOnce(i: nat)
    requires 0 < i < 25
    ensures WRITTEN_AT[i] < 24 && LANE_ORDER[WRITTEN_AT[i]] == i
  {
  }

  lemma WrittenThen(t: nat)
    requires t < 24
    ensures LANE_ORDER[t] < 25 && LANE_ORDER[t] > 0 && WRITTEN_AT[LANE_ORDER[t]] == t
    ensures ROTATIONS[t] < 64
  {
  }

  lemma EveryStep(k: nat)
    requires 0 < k < 24
    ensures Walks(LANE_ORDER, k) && Turns(ROTATIONS, k)
  {
    if k <= 8 {
      FirstSteps(k);
    } else if k <= 16 {
      MiddleSteps(k);
    } else {
      LastSteps(k);
    }
    if k <= 12 {
      FirstTurns(k);
    } else {
      LastTurns(k);
    }
  }

  lemma WalksAlong(order: seq<nat>, rotations: seq<nat>, writtenAt: seq<nat>)
    requires |order| == 24 && |rotations| == 24 && |writtenAt| == 25
    requires order[0] == 10 && order[23] == 1 && rotations[0] == 1
    requires forall k: nat :: 0 < k < 24 ==> Walks(order, k) && Turns(rotations, k)
    requires forall t: nat :: t < 24 ==> 0 < order[t] < 25 && writtenAt[order[t]] == t && rotations[t] < 64
    requires forall i: nat :: 0 < i < 25 ==> writtenAt[i] < 24 && order[writtenAt[i]] == i
    ensures AlongWalk(order, rotations, writtenAt)
  {
    assert Place(0) == 1 && Place(1) == 10;
    forall t: nat | t < 24
      ensures order[t] == Place(t + 1) && rotations[t] == Triangle(t) % 64
    {
      OrderIsWalk(order, t);
      RotationsAreTriangles(rotations, t);
    }
  }

  /** The program's tables do. */
  lemma TablesAreWalk()
    ensures AlongWalk(LANE_ORDER, ROTATIONS, WRITTEN_AT)
  {
    forall k: nat | 0 < k < 24
      ensures Walks(LANE_ORDER, k) && Turns(ROTATIONS, k)
    {
      EveryStep(k);
    }
    forall t: nat | t < 24
      ensures 0 < LANE_ORDER[t] < 25 && WRITTEN_AT[LANE_ORDER[t]] == t && ROTATIONS[t] < 64
    {
      WrittenThen(t);
    }
    forall i: nat | 0 < i < 25
      ensures WRITTEN_AT[i] < 24 && LANE_ORDER[WRITTEN_AT[i]] == i
    {
      WrittenOnce(i);
    }
    WalksAlong(LANE_ORDER, ROTATIONS, WRITTEN_AT);
  }

  // rho and pi, lane by lane

  /** The walk visits each lane but (0, 0) once. */
  lemma PlacesDiffer(order: seq<nat>, rotations: seq<nat>, writtenAt: seq<nat>, s: nat)
    requires AlongWalk(order, rotations, writtenAt) && s < 24
    ensures 0 < Place(s) < 25
    ensures writtenAt[Place(s)] == if s == 0 then 23 else s - 1
  {
    if s > 0 {
      assert order[s - 1] == Place(s - 1 + 1);
    }
  }

  lemma TwoPlaces(order: seq<nat>, rotations: seq<nat>, writtenAt: seq<nat>, s: nat, t: nat)
    requires AlongWalk(order, rotations, writtenAt) && s < 24 && t < 24
    ensures 0 < Place(t) < 25 && (Place(s) == Place(t) <==> s == t)
  {
    PlacesDiffer(order, rotations, writtenAt, s);
    PlacesDiffer(order, rotations, writtenAt, t);
  }

  lemma {:induction false} RhoFirst(a: State, t: nat, order: seq<nat>, rotations: seq<nat>, writtenAt: seq<nat>)
    requires AlongWalk(order, rotations, writtenAt) && t <= 24
    ensures RhoSteps(a, t)[0] == a[0]
  {
    if t > 0 {
      PlacesDiffer(order, rotations, writtenAt, t - 1);
      RhoFirst(a, t - 1, order, rotations, writtenAt);
    }
  }

  /** So each is rotated once, and the first lane never. */
  lemma {:induction false} RhoAt(a: State, t: nat, s: nat, order: seq<nat>, rotations: seq<nat>, writtenAt: seq<nat>)
    requires AlongWalk(order, rotations, writtenAt)
    requires t <= 24 && s < 24
    ensures Place(s) < 25
    ensures RhoSteps(a, t)[Place(s)] == if s < t then Rotated(a[Place(s)], Triangle(s)) else a[Place(s)]
    ensures RhoSteps(a, t)[0] == a[0]
  {
    RhoFirst(a, t, order, rotations, writtenAt);
    PlacesDiffer(order, rotations, writtenAt, s);
    if t > 0 {
      TwoPlaces(order, rotations, writtenAt, s, t - 1);
      RhoAt(a, t - 1, s, order, rotations, writtenAt);
      RhoStep(RhoSteps(a, t - 1), RhoSteps(a, t), Place(t - 1), Rotated(a[Place(t - 1)], Triangle(t - 1)), Place(s));
    }
  }

  lemma RhoStep(before: State, after: State, at: nat, lane: Lane, i: nat)
    requires at < 25 && i < 25 && after == before[at := lane]
    ensures after[i] == if i == at then lane else before[i]
    ensures at != 0 ==> after[0] == before[0]
  {
  }

  /** The lane pi brings to the walk's next place is the one the walk is on. */
  lemma PiFollowsWalk(x: nat, y: nat)
    requires x < 5 && y < 5
    ensures
      var i := 5 * ((2 * x + 3 * y) % 5) + y;
      5 * (i % 5) + (i % 5 + 3 * (i / 5)) % 5 == 5 * y + x
  {
    var next := (2 * x + 3 * y) % 5;
    assert (5 * next + y) % 5 == y && (5 * next + y) / 5 == next;
    ThriceNext(x, y, next);
  }

  lemma ThriceNext(x: nat, y: nat, next: nat)
    requires x < 5 && y < 5 && next == (2 * x + 3 * y) % 5
    ensures (y + 3 * next) % 5 == x
  {
  }

  lemma SameRotation(lane: Lane, m: nat, n: nat)
    requires m == n % 64
    ensures Rotl(lane, m) == Rotated(lane, n)
  {
    RotlRotates(lane, m);
    forall z: nat | z < 64
      ensures Rotated(lane, m)[z] == Rotated(lane, n)[z]
    {
      SamePlace(z, m, n);
    }
  }

  lemma SamePlace(z: nat, m: nat, n: nat)
    requires m == n % 64
    ensures (z - m) % 64 == (z - n) % 64
  {
  }

  /** What the fused loop writes at step t is what rho then pi put there. */
  lemma FusedIsPiOfRho(a: State, t: nat, order: seq<nat>, rotations: seq<nat>, writtenAt: seq<nat>)
    requires AlongWalk(order, rotations, writtenAt) && t < 24
    ensures Place(t) < 25 && Place(t + 1) < 25
    ensures Pi(Rho(a))[Place(t + 1)] == Rotl(a[Place(t)], rotations[t])
  {
    assert order[t] == Place(t + 1);
    PlacesDiffer(order, rotations, writtenAt, t);
    RhoAt(a, 24, t, order, rotations, writtenAt);
    PiAtNext(Rho(a), t);
    SameRotation(a[Place(t)], rotations[t], Triangle(t));
  }

  lemma PiAtNext(a: State, t: nat)
    requires Place(t) < 25 && Place(t + 1) < 25
    ensures Pi(a)[Place(t + 1)] == a[Place(t)]
  {
    var (x, y) := Walk(t);
    PiFollowsWalk(x, y);
    assert Walk(t + 1) == (y, (2 * x + 3 * y) % 5);
    assert Place(t + 1) == 5 * ((2 * x + 3 * y) % 5) + y;
  }

  /** The lane in hand before each step: lane 1, then whatever the step before displaced. */
  ghost predicate Picks(picked: seq<Lane>, a: State, order: seq<nat>) {
    && |order| == 24 && (forall t: nat :: t < 24 ==> order[t] < 25)
    && |picked| == 25 && picked[0] == a[1]
    && forall t: nat {:trigger order[t]} :: t < 24 ==> picked[t + 1] == a[order[t]]
  }

  /** Each step puts the lane in hand, rotated, where `b` has it. */
  ghost predicate Puts(b: State, picked: seq<Lane>, order: seq<nat>, rotations: seq<nat>)
    requires |picked| == 25 && |order| == 24 && |rotations| == 24
  {
    forall t: nat {:trigger order[t]} :: t < 24 ==>
        order[t] < 25 && rotations[t] <= 64 && b[order[t]] == Rotl(picked[t], rotations[t])
  }

  /** Lane (0, 0) stays where it is. */
  lemma FirstStays(a: State, order: seq<nat>, rotations: seq<nat>, writtenAt: seq<nat>)
    requires AlongWalk(order, rotations, writtenAt)
    ensures Pi(Rho(a))[0] == a[0]
  {
    RhoAt(a, 24, 0, order, rotations, writtenAt);
    assert Pi(Rho(a))[0] == Rho(a)[0];
  }

  ghost function LaneAt(a: State, t: nat): Lane {
    if Place(t) < 25 then a[Place(t)] else a[0]
  }

  ghost function LanesAlong(a: State): seq<Lane> {
    seq(25, (t: nat) => LaneAt(a, t))
  }

  lemma WalkPicks(a: State, picked: seq<Lane>, order: seq<nat>, rotations: seq<nat>, writtenAt: seq<nat>)
    requires AlongWalk(order, rotations, writtenAt)
    requires |picked| == 25 && forall t: nat :: t < 25 ==> picked[t] == LaneAt(a, t)
    ensures Picks(picked, a, order)
  {
    assert Place(0) == 1;
    forall t: nat | t < 24
      ensures picked[t + 1] == a[order[t]]
    {
      assert picked[t + 1] == LaneAt(a, t + 1);
    }
  }

  lemma WalkPuts(a: State, picked: seq<Lane>, order: seq<nat>, rotations: seq<nat>, writtenAt: seq<nat>)
    requires AlongWalk(order, rotations, writtenAt)
    requires |picked| == 25 && forall t: nat :: t < 25 ==> picked[t] == LaneAt(a, t)
    ensures Puts(Pi(Rho(a)), picked, order, rotations)
  {
    forall t: nat | t < 24
      ensures order[t] < 25 && rotations[t] <= 64 && Pi(Rho(a))[order[t]] == Rotl(picked[t], rotations[t])
    {
      FusedIsPiOfRho(a, t, order, rotations, writtenAt);
      assert picked[t] == LaneAt(a, t);
    }
  }

  /** But for lane (0, 0) the loop is one long exchange: each step writes one lane and picks up the next. */
  method RhoPiInPlace(state: array<Lane>, order: seq<nat>, rotations: seq<nat>, ghost writtenAt: seq<nat>)
    requires state.Length == 25 && AlongWalk(order, rotations, writtenAt)
    modifies state
    ensures state[..] == Pi(Rho(old(state[..])))
  {
    ghost var a: State := state[..];
    ghost var b := Pi(Rho(a));
    ghost var picked := LanesAlong(a);
    FirstStays(a, order, rotations, writtenAt);
    WalkPicks(a, picked, order, rotations, writtenAt);
    WalkPuts(a, picked, order, rotations, writtenAt);
    Exchange(state, order, rotations, writtenAt, a, b, picked);
  }

  /** The lanes written before a step are final, the rest untouched. */
  ghost predicate Exchanged(lanes: State, step: nat, writtenAt: seq<nat>, a: State, b: State)
    requires |writtenAt| == 25
  {
    forall i: nat :: i < 25 ==> lanes[i] == if 0 < i && writtenAt[i] < step then b[i] else a[i]
  }

  lemma ExchangedNext(lanes: State, after: State, step: nat, order: seq<nat>, writtenAt: seq<nat>, a: State, b: State)
    requires step < 24 && WritesOnce(order, writtenAt) && Exchanged(lanes, step, writtenAt, a, b)
    requires after == lanes[order[step] := b[order[step]]]
    ensures lanes[order[step]] == a[order[step]]
    ensures Exchanged(after, step + 1, writtenAt, a, b)
  {
  }

  lemma AllExchanged(lanes: State, order: seq<nat>, writtenAt: seq<nat>, a: State, b: State)
    requires WritesOnce(order, writtenAt) && Exchanged(lanes, 24, writtenAt, a, b) && b[0] == a[0]
    ensures lanes == b
  {
  }

  method Exchange(state: array<Lane>, order: seq<nat>, rotations: seq<nat>, ghost writtenAt: seq<nat>,
      ghost a: State, ghost b: State, ghost picked: seq<Lane>)
    requires state.Length == 25 && |rotations| == 24 && WritesOnce(order, writtenAt) && state[..] == a
    requires b[0] == a[0] && Picks(picked, a, order) && Puts(b, picked, order, rotations)
    modifies state
    ensures state[..] == b
  {
    var carried := state[1];
    for step := 0 to 24
      invariant carried == picked[step]
      invariant Exchanged(state[..], step, writtenAt, a, b)
    {
      ghost var before := state[..];
      var target := order[step];
      var displaced := state[target];
      state[target] := Rotl(carried, rotations[step]);
      ExchangedNext(before, state[..], step, order, writtenAt, a, b);
      carried := displaced;
    }
    AllExchanged(state[..], order, writtenAt, a, b);
  }

  // ------------------------------------------------------------- rounds

  /** One round, with its constant. */
  function Round(a: State, constant: Lane): State {
    Iota(Chi(Pi(Rho(Theta(a)))), constant)
  }

  /** Keccak-f[1600], after its first n rounds. */
  function Rounds(a: State, constants: seq<Lane>, n: nat): State
    requires n <= |constants|
  {
    if n == 0 then a else Round(Rounds(a, constants, n - 1), constants[n - 1])
  }

  method IotaInPlace(state: array<Lane>, constant: Lane)
    requires state.Length == 25
    modifies state
    ensures state[..] == Iota(old(state[..]), constant)
  {
    state[0] := Xor(state[0], constant);
  }

  method RoundInPlace(state: array<Lane>, column: array<Lane>, constant: Lane)
    requires state.Length == 25 && column.Length == 5 && state != column
    modifies state, column
    ensures state[..] == Round(old(state[..]), constant)
  {
    ThetaInPlace(state, column);
    TablesAreWalk();
    RhoPiInPlace(state, LANE_ORDER, ROTATIONS, WRITTEN_AT);
    ChiInPlace(state, column);
    IotaInPlace(state, constant);
  }

  /** The in-place permutation is Keccak-f[1600] of section 3.3, on every state. */
  method Permute(state: array<Lane>, constants: seq<Lane>)
    requires state.Length == 25 && |constants| == 24
    modifies state
    ensures state[..] == Rounds(old(state[..]), constants, 24)
  {
    var column := new Lane[5](_ => Zero());
    ghost var a: State := state[..];
    for round := 0 to 24
      invariant state[..] == Rounds(a, constants, round)
    {
      RoundInPlace(state, column, constants[round]);
    }
  }
}
