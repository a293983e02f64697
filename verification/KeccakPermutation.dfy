/**
 * Keccak-f[1600] is a permutation: no two states go to the same one (section 3.3 of FIPS 202). Rho,
 * pi and iota move or flip bits, chi is undone row by row, and theta is where the work is: two
 * states with one image differ by a state that theta clears, and there is only one such state.
 */
module KeccakPermutation {
  import opened Bits
  import opened Keccak

  // ------------------------------------------------------------------- theta

  /** Bits by column and depth, both counted round. */
  type Plane = (int, int) -> bool

  ghost predicate RoundAt(p: Plane, x: int, z: int) {
    p(x, z) == p(x % 5, z % 64)
  }

  ghost predicate CountedRound(p: Plane) {
    forall x, z :: RoundAt(p, x, z)
  }

  ghost predicate SumAt(p: Plane, s: int, t: int, x: int, z: int) {
    p(x, z) == (p(x - s, z) != p(x - 4 * s, z - t))
  }

  /** Each bit is the sum of the one s columns back and the one 4s columns and t bits back. */
  ghost predicate SumOfTwo(p: Plane, s: int, t: int) {
    forall x, z :: SumAt(p, s, t, x, z)
  }

  /** Applied twice, the mixed terms cancel, and both distances have doubled. */
  lemma Doubled(p: Plane, s: int, t: int)
    requires SumOfTwo(p, s, t)
    ensures SumOfTwo(p, 2 * s, 2 * t)
  {
    forall x, z
      ensures SumAt(p, 2 * s, 2 * t, x, z)
    {
      assert SumAt(p, s, t, x, z);
      assert SumAt(p, s, t, x - s, z);
      assert SumAt(p, s, t, x - 4 * s, z - t);
    }
  }

  /** After six doublings the second distance is a whole turn of 64, and one column is a sum of two others. */
  lemma NextColumns(p: Plane, x: int, z: int)
    requires CountedRound(p) && SumOfTwo(p, 1, 1)
    ensures p(x, z) == (p(x + 1, z) != p(x - 1, z))
  {
    Doubled(p, 1, 1);
    Doubled(p, 2, 2);
    Doubled(p, 4, 4);
    Doubled(p, 8, 8);
    Doubled(p, 16, 16);
    Doubled(p, 32, 32);
    assert SumAt(p, 64, 64, x, z);
    SameColumn(p, x - 64, x + 1, z, z);
    SameColumn(p, x - 256, x - 1, z - 64, z);
  }

  lemma SameColumn(p: Plane, x: int, x': int, z: int, z': int)
    requires CountedRound(p) && x % 5 == x' % 5 && z % 64 == z' % 64
    ensures p(x, z) == p(x', z')
  {
    assert RoundAt(p, x, z) && RoundAt(p, x', z');
  }

  /** Five columns in a ring, each the sum of its neighbours, are all zero. */
  lemma OnlyZero(p: Plane, x: int, z: int)
    requires CountedRound(p) && SumOfTwo(p, 1, 1)
    ensures !p(x, z)
  {
    SameColumn(p, x + 5, x, z, z);
    SameColumn(p, x - 1, x + 4, z, z);
    NextColumns(p, x, z);
    NextColumns(p, x + 1, z);
    NextColumns(p, x + 2, z);
    NextColumns(p, x + 3, z);
    NextColumns(p, x + 4, z);
  }

  /** Where two states' column parities differ. */
  ghost function Differs(a: State, b: State): Plane {
    (x, z) => Parity(a, x % 5, z % 64) != Parity(b, x % 5, z % 64)
  }

  lemma ThetaBit(a: State, x: nat, y: nat, z: nat)
    requires x < 5 && y < 5 && z < 64
    ensures Theta(a)[5 * y + x][z]
         == (a[5 * y + x][z] != (Parity(a, (x - 1) % 5, z) != Parity(a, (x + 1) % 5, (z - 1) % 64)))
  {
    assert (5 * y + x) % 5 == x;
    assert Left(x) == (x - 1) % 5 && Right(x) == (x + 1) % 5;
  }

  /** Under one image, two states differ at a bit exactly where what theta adds to it does. */
  lemma DifferAlike(a: State, b: State, x: nat, y: nat, z: nat)
    requires Theta(a) == Theta(b) && x < 5 && y < 5 && z < 64
    ensures (a[5 * y + x][z] != b[5 * y + x][z]) == (Differs(a, b)(x - 1, z) != Differs(a, b)(x + 1, z - 1))
  {
    ThetaBit(a, x, y, z);
    ThetaBit(b, x, y, z);
  }

  /** So their parities differ by that, five times over, which is once. */
  lemma ParityOfFive(a: State, b: State, x: nat, z: nat, d: bool)
    requires x < 5 && z < 64
    requires (a[x][z] != b[x][z]) == d && (a[x + 5][z] != b[x + 5][z]) == d && (a[x + 10][z] != b[x + 10][z]) == d
    requires (a[x + 15][z] != b[x + 15][z]) == d && (a[x + 20][z] != b[x + 20][z]) == d
    ensures (Parity(a, x, z) != Parity(b, x, z)) == d
  {
  }

  lemma ParityDiffers(a: State, b: State, x: nat, z: nat)
    requires Theta(a) == Theta(b) && x < 5 && z < 64
    ensures Differs(a, b)(x, z) == (Differs(a, b)(x - 1, z) != Differs(a, b)(x + 1, z - 1))
  {
    var d := Differs(a, b)(x - 1, z) != Differs(a, b)(x + 1, z - 1);
    DifferAlike(a, b, x, 0, z);
    DifferAlike(a, b, x, 1, z);
    DifferAlike(a, b, x, 2, z);
    DifferAlike(a, b, x, 3, z);
    DifferAlike(a, b, x, 4, z);
    ParityOfFive(a, b, x, z, d);
  }

  lemma SumHere(p: Plane, x: int, z: int)
    requires CountedRound(p) && p(x % 5, z % 64) == (p(x % 5 - 1, z % 64) != p(x % 5 + 1, z % 64 - 1))
    ensures SumAt(p, 1, 1, x, z)
  {
    SameColumn(p, x % 5, x, z % 64, z);
    SameColumn(p, x % 5 - 1, x - 1, z % 64, z);
    SameColumn(p, x % 5 + 1, x - 4, z % 64 - 1, z - 1);
  }

  lemma DiffersIsRound(a: State, b: State)
    ensures CountedRound(Differs(a, b))
  {
  }

  lemma DifferenceIsSum(a: State, b: State)
    requires Theta(a) == Theta(b)
    ensures CountedRound(Differs(a, b)) && SumOfTwo(Differs(a, b), 1, 1)
  {
    DiffersIsRound(a, b);
    forall x, z
      ensures SumAt(Differs(a, b), 1, 1, x, z)
    {
      ParityDiffers(a, b, x % 5, z % 64);
      SumHere(Differs(a, b), x, z);
    }
  }

  lemma ThetaInjective(a: State, b: State)
    requires Theta(a) == Theta(b)
    ensures a == b
  {
    forall i, z | 0 <= i < 25 && 0 <= z < 64
      ensures a[i][z] == b[i][z]
    {
      DifferenceIsSum(a, b);
      DifferAlike(a, b, i % 5, i / 5, z);
      OnlyZero(Differs(a, b), i % 5 - 1, z);
      OnlyZero(Differs(a, b), i % 5 + 1, z - 1);
    }
    SameBits(a, b);
  }

  lemma SameBits(a: State, b: State)
    requires forall i, z :: 0 <= i < 25 && 0 <= z < 64 ==> a[i][z] == b[i][z]
    ensures a == b
  {
    forall i | 0 <= i < 25
      ensures a[i] == b[i]
    {
      assert forall z :: 0 <= z < 64 ==> a[i][z] == b[i][z];
    }
  }

  // -------------------------------------------------------------- rho, pi, iota

  lemma RotatedInjective(a: Lane, b: Lane, offset: nat)
    requires Rotated(a, offset) == Rotated(b, offset)
    ensures a == b
  {
    forall z | 0 <= z < 64
      ensures a[z] == b[z]
    {
      var from := (z + offset) % 64;
      assert (from - offset) % 64 == z;
      assert Rotated(a, offset)[from] == Rotated(b, offset)[from];
    }
  }

  lemma RhoInjective(a: State, b: State)
    requires Rho(a) == Rho(b)
    ensures a == b
  {
    TablesAreWalk();
    forall i | 0 <= i < 25
      ensures a[i] == b[i]
    {
      var t: nat := if i == 0 || WRITTEN_AT[i] == 23 then 0 else WRITTEN_AT[i] + 1;
      assert i > 0 ==> WRITTEN_AT[i] < 24 && LANE_ORDER[WRITTEN_AT[i]] == i;
      assert i > 0 ==> i == Place(t);
      RhoAt(a, 24, t, LANE_ORDER, ROTATIONS, WRITTEN_AT);
      RhoAt(b, 24, t, LANE_ORDER, ROTATIONS, WRITTEN_AT);
      if i > 0 {
        RotatedInjective(a[i], b[i], Triangle(t));
      }
    }
  }

  lemma PiInjective(a: State, b: State)
    requires Pi(a) == Pi(b)
    ensures a == b
  {
    forall k | 0 <= k < 25
      ensures a[k] == b[k]
    {
      var x, y := k / 5, 2 * (k % 5 - k / 5) % 5;
      var i := 5 * y + x;
      assert i % 5 == x && i / 5 == y;
      assert 5 * x + (x + 3 * y) % 5 == k;
      assert Pi(a)[i] == Pi(b)[i];
    }
  }

  lemma IotaInjective(a: State, b: State, constant: Lane)
    requires Iota(a, constant) == Iota(b, constant)
    ensures a == b
  {
    var c, d := Iota(a, constant), Iota(b, constant);
    forall i, z | 0 <= i < 25 && 0 <= z < 64
      ensures a[i][z] == b[i][z]
    {
      assert c[i][z] == if i == 0 then a[0][z] != constant[z] else a[i][z];
      assert d[i][z] == if i == 0 then b[0][z] != constant[z] else b[i][z];
    }
    SameBits(a, b);
  }

  // --------------------------------------------------------------------- chi

  /** Of a row of five bits, what chi makes tells all five. */
  lemma ChiOfFive(a0: bool, a1: bool, a2: bool, a3: bool, a4: bool, b0: bool, b1: bool, b2: bool, b3: bool, b4: bool)
    requires (a0 != (!a1 && a2)) == (b0 != (!b1 && b2)) && (a1 != (!a2 && a3)) == (b1 != (!b2 && b3))
    requires (a2 != (!a3 && a4)) == (b2 != (!b3 && b4)) && (a3 != (!a4 && a0)) == (b3 != (!b4 && b0))
    requires (a4 != (!a0 && a1)) == (b4 != (!b0 && b1))
    ensures a0 == b0 && a1 == b1 && a2 == b2 && a3 == b3 && a4 == b4
  {
  }

  lemma ChiBit(a: State, i: nat, j: nat, k: nat, z: nat)
    requires i < 25 && j < 25 && k < 25 && z < 64 && i / 5 == j / 5 == k / 5
    requires j % 5 == (i % 5 + 1) % 5 && k % 5 == (i % 5 + 2) % 5
    ensures Chi(a)[i][z] == (a[i][z] != (!a[j][z] && a[k][z]))
  {
    assert 5 * (i / 5) + i % 5 == i && 5 * (j / 5) + j % 5 == j && 5 * (k / 5) + k % 5 == k;
    assert Right(i % 5) == j % 5 && RightTwo(i % 5) == k % 5;
  }

  lemma ChiRow(a: State, r: nat, z: nat)
    requires r <= 20 && r % 5 == 0 && z < 64
    ensures Chi(a)[r][z] == (a[r][z] != (!a[r + 1][z] && a[r + 2][z]))
    ensures Chi(a)[r + 1][z] == (a[r + 1][z] != (!a[r + 2][z] && a[r + 3][z]))
    ensures Chi(a)[r + 2][z] == (a[r + 2][z] != (!a[r + 3][z] && a[r + 4][z]))
    ensures Chi(a)[r + 3][z] == (a[r + 3][z] != (!a[r + 4][z] && a[r][z]))
    ensures Chi(a)[r + 4][z] == (a[r + 4][z] != (!a[r][z] && a[r + 1][z]))
  {
    ChiBit(a, r, r + 1, r + 2, z);
    ChiBit(a, r + 1, r + 2, r + 3, z);
    ChiBit(a, r + 2, r + 3, r + 4, z);
    ChiBit(a, r + 3, r + 4, r, z);
    ChiBit(a, r + 4, r, r + 1, z);
  }

  lemma ChiRowInjective(a: State, b: State, r: nat, z: nat)
    requires Chi(a) == Chi(b) && r <= 20 && r % 5 == 0 && z < 64
    ensures a[r][z] == b[r][z] && a[r + 1][z] == b[r + 1][z] && a[r + 2][z] == b[r + 2][z]
    ensures a[r + 3][z] == b[r + 3][z] && a[r + 4][z] == b[r + 4][z]
  {
    ChiRow(a, r, z);
    ChiRow(b, r, z);
    ChiOfFive(a[r][z], a[r + 1][z], a[r + 2][z], a[r + 3][z], a[r + 4][z],
              b[r][z], b[r + 1][z], b[r + 2][z], b[r + 3][z], b[r + 4][z]);
  }

  lemma ChiInjective(a: State, b: State)
    requires Chi(a) == Chi(b)
    ensures a == b
  {
    forall i, z | 0 <= i < 25 && 0 <= z < 64
      ensures a[i][z] == b[i][z]
    {
      var r := i - i % 5;
      ChiRowInjective(a, b, r, z);
      assert i == r || i == r + 1 || i == r + 2 || i == r + 3 || i == r + 4;
    }
    SameBits(a, b);
  }

  // ------------------------------------------------------------------ rounds

  lemma RoundInjective(a: State, b: State, constant: Lane)
    requires Round(a, constant) == Round(b, constant)
    ensures a == b
  {
    IotaInjective(Chi(Pi(Rho(Theta(a)))), Chi(Pi(Rho(Theta(b)))), constant);
    ChiInjective(Pi(Rho(Theta(a))), Pi(Rho(Theta(b))));
    PiInjective(Rho(Theta(a)), Rho(Theta(b)));
    RhoInjective(Theta(a), Theta(b));
    ThetaInjective(a, b);
  }

  lemma LastRoundInjective(a: State, b: State, constants: seq<Lane>, n: nat, u: State, v: State)
    requires 0 < n <= |constants| && Rounds(a, constants, n) == Rounds(b, constants, n)
    requires u == Rounds(a, constants, n - 1) && v == Rounds(b, constants, n - 1)
    ensures u == v
  {
    RoundInjective(u, v, constants[n - 1]);
  }

  /** No two states go to the same one, whatever the constants and however many rounds. */
  lemma {:induction false} RoundsInjective(a: State, b: State, constants: seq<Lane>, n: nat)
    requires n <= |constants| && Rounds(a, constants, n) == Rounds(b, constants, n)
    ensures a == b
  {
    if n > 0 {
      LastRoundInjective(a, b, constants, n, Rounds(a, constants, n - 1), Rounds(b, constants, n - 1));
      RoundsInjective(a, b, constants, n - 1);
    }
  }
}
