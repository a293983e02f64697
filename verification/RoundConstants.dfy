/**
 * Iota's round constants (packages/shared/src/keccak256.ts:29-55) are the ones the shift register
 * of section 3.2.5 of FIPS 202 produces.
 */
module RoundConstants {
  import opened Bits

  /** The constants as they are written: 16 hexadecimal digits, highest first. */
  function Constant(ir: nat): string {
    if ir < 8 then First(ir) else if ir < 16 then Middle(ir - 8) else Last(ir - 16)
  }

  function First(k: nat): string {
    match k
    case 0 => "0000000000000001"
    case 1 => "0000000000008082"
    case 2 => "800000000000808a"
    case 3 => "8000000080008000"
    case 4 => "000000000000808b"
    case 5 => "0000000080000001"
    case 6 => "8000000080008081"
    case _ => "8000000000008009"
  }

  function Middle(k: nat): string {
    match k
    case 0 => "000000000000008a"
    case 1 => "0000000000000088"
    case 2 => "0000000080008009"
    case 3 => "000000008000000a"
    case 4 => "000000008000808b"
    case 5 => "800000000000008b"
    case 6 => "8000000000008089"
    case _ => "8000000000008003"
  }

  function Last(k: nat): string {
    match k
    case 0 => "8000000000008002"
    case 1 => "8000000000000080"
    case 2 => "000000000000800a"
    case 3 => "800000008000000a"
    case 4 => "8000000080008081"
    case 5 => "8000000000008080"
    case 6 => "0000000080000001"
    case _ => "8000000080008008"
  }

  function HexValue(c: char): nat {
    if '0' <= c <= '9' then (c - '0') as nat else if 'a' <= c <= 'f' then (c - 'a') as nat + 10 else 0
  }

  function HexBit(c: char, j: nat): bool
    requires j < 4
  {
    var v := HexValue(c);
    if j == 0 then v % 2 == 1 else if j == 1 then v / 2 % 2 == 1 else if j == 2 then v / 4 % 2 == 1 else v / 8 % 2 == 1
  }

  function LaneOfHex(digits: string): Lane
    requires |digits| == 16
  {
    seq(64, z requires 0 <= z < 64 => HexBit(digits[15 - z / 4], z % 4))
  }

  // ------------------------------------------------------------- the shift register

  datatype Register = R(b0: bool, b1: bool, b2: bool, b3: bool, b4: bool, b5: bool, b6: bool, b7: bool) {
    /** R = 0 || R, then bits 0, 4, 5 and 6 take bit 8, which is cut off (Algorithm 5). */
    function Step(): Register {
      R(b7, b0, b1, b2, b3 != b7, b4 != b7, b5 != b7, b6)
    }
  }

  function After(r: Register, n: nat): Register {
    if n == 0 then r else After(r, n - 1).Step()
  }

  const START := R(true, false, false, false, false, false, false, false)

  /** rc(t). */
  function Rc(t: nat): bool {
    After(START, t).b0
  }

  /** Bit z of RC[ir]: bits 2^j - 1 are rc(j + 7ir), the others 0 (Algorithm 6). */
  function RcBit(ir: nat, z: nat): bool {
    match z
    case 0 => Rc(7 * ir)
    case 1 => Rc(1 + 7 * ir)
    case 3 => Rc(2 + 7 * ir)
    case 7 => Rc(3 + 7 * ir)
    case 15 => Rc(4 + 7 * ir)
    case 31 => Rc(5 + 7 * ir)
    case 63 => Rc(6 + 7 * ir)
    case _ => false
  }

  // ------------------------------------------------------------- the constants are its output

  /** The register seven steps on, and the bit it gives at each of them. */
  function Seven(r: Register): Register {
    R(r.b1 != (r.b3 != r.b4), r.b2 != (r.b4 != r.b5), r.b3 != (r.b5 != r.b6), r.b4 != (r.b6 != r.b7),
      r.b1 != (r.b3 != (r.b4 != (r.b5 != r.b7))), r.b1 != (r.b2 != (r.b3 != (r.b5 != r.b6))),
      r.b1 != (r.b2 != (r.b6 != r.b7)), r.b0 != (r.b2 != (r.b3 != r.b7)))
  }

  function Sevens(r: Register, n: nat): Register {
    if n == 0 then r else Seven(Sevens(r, n - 1))
  }

  /** The register at the start of a round. */
  function At(ir: nat): Register {
    Sevens(START, ir)
  }

  function Given(r: Register, j: nat): bool {
    match j
    case 0 => r.b0
    case 1 => r.b7
    case 2 => r.b6
    case 3 => r.b5 != r.b7
    case 4 => r.b4 != (r.b6 != r.b7)
    case 5 => r.b3 != (r.b5 != r.b6)
    case _ => r.b2 != (r.b4 != r.b5)
  }

  function Eight(b: bool): char {
    if b then '8' else '0'
  }

  /** 1, 2 and 8 for bits 0, 1 and 3. */
  function LowDigit(a: bool, b: bool, c: bool): char {
    if c then (if b then (if a then 'b' else 'a') else if a then '9' else '8')
    else if b then (if a then '3' else '2') else if a then '1' else '0'
  }

  /** The digits of the constant whose seven bits the register is about to give. */
  function Digits(r: Register): string {
    [Eight(Given(r, 6)), '0', '0', '0', '0', '0', '0', '0',
     Eight(Given(r, 5)), '0', '0', '0', Eight(Given(r, 4)), '0', Eight(Given(r, 3)),
     LowDigit(Given(r, 0), Given(r, 1), Given(r, 2))]
  }

  lemma {:induction false} AfterMore(r: Register, m: nat, n: nat)
    ensures After(r, m + n) == After(After(r, m), n)
  {
    if n > 0 {
      AfterMore(r, m, n - 1);
    }
  }

  lemma SevenSteps(r: Register)
    ensures After(r, 1) == r.Step()
    ensures After(r, 2) == r.Step().Step()
    ensures After(r, 3) == r.Step().Step().Step()
    ensures After(r, 4) == r.Step().Step().Step().Step()
    ensures After(r, 5) == r.Step().Step().Step().Step().Step()
    ensures After(r, 6) == r.Step().Step().Step().Step().Step().Step()
    ensures After(r, 7) == r.Step().Step().Step().Step().Step().Step().Step()
  {
  }

  lemma ThreeSteps(r: Register)
    ensures After(r, 3) == R(r.b5 != r.b7, r.b6, r.b7, r.b0, r.b1 != (r.b5 != r.b7), (r.b2 != r.b6) != (r.b5 != r.b7),
                             (r.b3 != r.b5) != r.b6, r.b4 != (r.b6 != r.b7))
  {
    SevenSteps(r);
  }

  lemma FourSteps(r: Register)
    ensures After(r, 4) == R(r.b4 != (r.b6 != r.b7), r.b5 != r.b7, r.b6, r.b7, r.b0 != (r.b4 != (r.b6 != r.b7)),
                             (r.b1 != r.b5) != (r.b4 != r.b6), (r.b2 != r.b5) != r.b4, (r.b3 != r.b5) != r.b6)
  {
    SevenSteps(r);
  }

  lemma SevenIsAfter(r: Register)
    ensures After(r, 7) == Seven(r)
  {
    AfterMore(r, 3, 4);
    ThreeSteps(r);
    FourSteps(After(r, 3));
  }

  lemma GivenAfter(r: Register)
    ensures After(r, 1).b0 == r.b7 && After(r, 2).b0 == r.b6
    ensures After(r, 3).b0 == (r.b5 != r.b7)
    ensures After(r, 4).b0 == (r.b4 != (r.b6 != r.b7))
    ensures After(r, 5).b0 == (r.b3 != (r.b5 != r.b6))
    ensures After(r, 6).b0 == (r.b2 != (r.b4 != r.b5))
  {
    SevenSteps(r);
  }

  lemma GivenIsAfter(r: Register, j: nat)
    requires j < 7
    ensures After(r, j).b0 == Given(r, j)
  {
    GivenAfter(r);
  }

  lemma SevenMore(m: nat, r: Register)
    requires After(START, m) == r
    ensures After(START, m + 7) == Seven(r)
  {
    AfterMore(START, m, 7);
    SevenIsAfter(r);
  }

  lemma {:induction false} RegisterAt(ir: nat)
    ensures After(START, 7 * ir) == At(ir)
  {
    if ir > 0 {
      RegisterAt(ir - 1);
      SevenMore(7 * (ir - 1), At(ir - 1));
    }
  }

  lemma RcGiven(ir: nat, j: nat)
    requires j < 7
    ensures Rc(j + 7 * ir) == Given(At(ir), j)
  {
    RegisterAt(ir);
    AfterMore(START, 7 * ir, j);
    GivenIsAfter(At(ir), j);
  }

  lemma {:induction false} SevensMore(r: Register, m: nat, n: nat)
    ensures Sevens(r, m + n) == Sevens(Sevens(r, m), n)
  {
    if n > 0 {
      SevensMore(r, m, n - 1);
    }
  }

  // Eight rounds at a time, from a register written out.

  const EIGHTH := R(false, true, false, true, false, false, true, true)

  const SIXTEENTH := R(false, true, false, true, false, true, false, true)

  lemma FirstRounds()
    ensures First(0) == Digits(Sevens(START, 0))
    ensures First(1) == Digits(Sevens(START, 1))
    ensures First(2) == Digits(Sevens(START, 2))
    ensures First(3) == Digits(Sevens(START, 3))
    ensures First(4) == Digits(Sevens(START, 4))
    ensures First(5) == Digits(Sevens(START, 5))
    ensures First(6) == Digits(Sevens(START, 6))
    ensures First(7) == Digits(Sevens(START, 7))
    ensures Sevens(START, 8) == EIGHTH
  {
    assert Sevens(START, 1) == R(false, false, false, false, false, false, false, true);
    assert Sevens(START, 2) == R(false, false, false, true, true, false, true, true);
    assert Sevens(START, 3) == R(false, true, false, true, true, false, false, false);
    assert Sevens(START, 4) == R(true, true, true, true, true, false, true, true);
    assert Sevens(START, 5) == R(true, false, false, true, false, false, false, false);
    assert Sevens(START, 6) == R(true, false, true, false, true, true, false, false);
    assert Sevens(START, 7) == R(true, true, true, true, false, false, true, false);
  }

  lemma MiddleRounds()
    ensures Middle(0) == Digits(Sevens(EIGHTH, 0))
    ensures Middle(1) == Digits(Sevens(EIGHTH, 1))
    ensures Middle(2) == Digits(Sevens(EIGHTH, 2))
    ensures Middle(3) == Digits(Sevens(EIGHTH, 3))
    ensures Middle(4) == Digits(Sevens(EIGHTH, 4))
    ensures Middle(5) == Digits(Sevens(EIGHTH, 5))
    ensures Middle(6) == Digits(Sevens(EIGHTH, 6))
    ensures Middle(7) == Digits(Sevens(EIGHTH, 7))
    ensures Sevens(EIGHTH, 8) == SIXTEENTH
  {
    assert Sevens(EIGHTH, 1) == R(false, false, false, false, true, true, true, false);
    assert Sevens(EIGHTH, 2) == R(true, false, false, false, false, false, true, false);
    assert Sevens(EIGHTH, 3) == R(false, false, true, true, false, true, true, true);
    assert Sevens(EIGHTH, 4) == R(true, false, true, false, true, false, true, true);
    assert Sevens(EIGHTH, 5) == R(true, false, true, true, false, false, true, true);
    assert Sevens(EIGHTH, 6) == R(true, true, false, false, false, true, true, false);
    assert Sevens(EIGHTH, 7) == R(true, true, false, true, false, true, false, true);
  }

  lemma LastRounds()
    ensures Last(0) == Digits(Sevens(SIXTEENTH, 0))
    ensures Last(1) == Digits(Sevens(SIXTEENTH, 1))
    ensures Last(2) == Digits(Sevens(SIXTEENTH, 2))
    ensures Last(3) == Digits(Sevens(SIXTEENTH, 3))
    ensures Last(4) == Digits(Sevens(SIXTEENTH, 4))
    ensures Last(5) == Digits(Sevens(SIXTEENTH, 5))
    ensures Last(6) == Digits(Sevens(SIXTEENTH, 6))
    ensures Last(7) == Digits(Sevens(SIXTEENTH, 7))
  {
    assert Sevens(SIXTEENTH, 1) == R(false, true, false, true, false, true, false, false);
    assert Sevens(SIXTEENTH, 2) == R(false, true, false, false, true, true, true, true);
    assert Sevens(SIXTEENTH, 3) == R(false, false, false, true, false, true, true, true);
    assert Sevens(SIXTEENTH, 4) == R(true, true, true, false, true, true, false, false);
    assert Sevens(SIXTEENTH, 5) == R(false, true, true, true, true, true, false, false);
    assert Sevens(SIXTEENTH, 6) == R(true, true, false, true, false, false, false, false);
    assert Sevens(SIXTEENTH, 7) == R(false, false, true, false, false, false, true, false);
  }

  lemma LaterRegisters(k: nat)
    ensures At(8 + k) == Sevens(EIGHTH, k)
    ensures At(16 + k) == Sevens(SIXTEENTH, k)
  {
    Turning();
    SevensMore(START, 8, k);
    SevensMore(START, 8, 8 + k);
    SevensMore(EIGHTH, 8, k);
  }

  lemma Turning()
    ensures Sevens(START, 8) == EIGHTH && Sevens(EIGHTH, 8) == SIXTEENTH
  {
    FirstRounds();
    MiddleRounds();
  }

  lemma FirstAt(k: nat, constant: string, r: Register)
    requires k < 8 && constant == First(k) && r == Sevens(START, k)
    ensures constant == Digits(r)
  {
    FirstRounds();
    assert k == 0 || k == 1 || k == 2 || k == 3 || k == 4 || k == 5 || k == 6 || k == 7;
  }

  lemma MiddleAt(k: nat, constant: string, r: Register)
    requires k < 8 && constant == Middle(k) && r == Sevens(EIGHTH, k)
    ensures constant == Digits(r)
  {
    MiddleRounds();
    assert k == 0 || k == 1 || k == 2 || k == 3 || k == 4 || k == 5 || k == 6 || k == 7;
  }

  lemma LastAt(k: nat, constant: string, r: Register)
    requires k < 8 && constant == Last(k) && r == Sevens(SIXTEENTH, k)
    ensures constant == Digits(r)
  {
    LastRounds();
    assert k == 0 || k == 1 || k == 2 || k == 3 || k == 4 || k == 5 || k == 6 || k == 7;
  }

  lemma ConstantDigits(ir: nat)
    requires ir < 24
    ensures Constant(ir) == Digits(At(ir))
  {
    if ir < 8 {
      FirstAt(ir, Constant(ir), At(ir));
    } else if ir < 16 {
      LaterRegisters(ir - 8);
      MiddleAt(ir - 8, Constant(ir), At(ir));
    } else {
      LaterRegisters(ir - 16);
      LastAt(ir - 16, Constant(ir), At(ir));
    }
  }

  /** Which of its seven bits, if any, is bit z of a constant. */
  function Which(z: nat): nat {
    match z
    case 0 => 0
    case 1 => 1
    case 3 => 2
    case 7 => 3
    case 15 => 4
    case 31 => 5
    case 63 => 6
    case _ => 7
  }

  /** Hexadecimal digit d, counted from the lowest. */
  function DigitAt(r: Register, d: nat): char {
    match d
    case 0 => LowDigit(Given(r, 0), Given(r, 1), Given(r, 2))
    case 1 => Eight(Given(r, 3))
    case 3 => Eight(Given(r, 4))
    case 7 => Eight(Given(r, 5))
    case 15 => Eight(Given(r, 6))
    case _ => '0'
  }

  lemma DigitsAt(r: Register, d: nat)
    requires d < 16
    ensures Digits(r)[15 - d] == DigitAt(r, d)
  {
  }

  lemma DigitBits(r: Register, d: nat, j: nat)
    requires d < 16 && j < 4
    ensures HexBit(DigitAt(r, d), j) == (Which(4 * d + j) < 7 && Given(r, Which(4 * d + j)))
  {
  }

  /** Every bit of every constant is the one the standard's algorithm gives. */
  lemma ConstantsAreStandard(ir: nat, z: nat)
    requires ir < 24 && z < 64
    ensures |Constant(ir)| == 16
    ensures LaneOfHex(Constant(ir))[z] == RcBit(ir, z)
  {
    var r := At(ir);
    ConstantDigits(ir);
    DigitsAt(r, z / 4);
    DigitBits(r, z / 4, z % 4);
    RcBits(ir, z);
  }

  lemma RcBits(ir: nat, z: nat)
    ensures RcBit(ir, z) == (Which(z) < 7 && Given(At(ir), Which(z)))
  {
    if Which(z) < 7 {
      RcGiven(ir, Which(z));
    }
  }
}
