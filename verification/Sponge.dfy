/**
 * keccak256 (packages/shared/src/keccak256.ts:113-142) as the sponge of section 4 of FIPS 202
 * over Keccak-f[1600], rate 1088, with the padding of section 5.1 and no domain bits: the 0x01
 * and 0x80 bytes are the two ones of pad10*1.
 */
module Sponge {
  import opened Wrappers
  import opened Bits
  import opened Keccak
  import KeccakPermutation
  import opened RoundConstants

  type Byte = n: int | 0 <= n < 256

  const RATE_BYTES: nat := 136
  const RATE_LANES: nat := 17

  // ------------------------------------------------------------- bytes and bits

  /** The lowest k bits of a number, lowest first. */
  function LowBits(n: nat, k: nat): (r: seq<bool>)
    ensures |r| == k
  {
    if k == 0 then [] else [n % 2 == 1] + LowBits(n / 2, k - 1)
  }

  function ByteBits(b: Byte): (r: seq<bool>)
    ensures |r| == 8
  {
    LowBits(b, 8)
  }

  function BitsOf(bytes: seq<Byte>): (r: seq<bool>)
    ensures |r| == 8 * |bytes|
  {
    if bytes == [] then [] else ByteBits(bytes[0]) + BitsOf(bytes[1..])
  }

  lemma {:induction false} BitsOfBoth(a: seq<Byte>, b: seq<Byte>)
    ensures BitsOf(a + b) == BitsOf(a) + BitsOf(b)
  {
    if a == [] {
      assert a + b == b;
      assert BitsOf(a) == [];
    } else {
      var rest := a[1..];
      BitsOfBoth(rest, b);
      assert (a + b)[0] == a[0] && (a + b)[1..] == rest + b;
      Regroup(ByteBits(a[0]), BitsOf(rest), BitsOf(b));
    }
  }

  lemma Regroup(a: seq<bool>, b: seq<bool>, c: seq<bool>)
    ensures a + (b + c) == (a + b) + c
  {
  }

  function Zeros(n: nat): seq<Byte> {
    if n == 0 then [] else [0] + Zeros(n - 1)
  }

  function NoBits(n: nat): (r: seq<bool>)
    ensures |r| == n
  {
    seq(n, i => false)
  }

  lemma {:induction false} ZeroBits(n: nat)
    ensures |Zeros(n)| == n && BitsOf(Zeros(n)) == NoBits(8 * n)
    ensures forall i :: 0 <= i < n ==> Zeros(n)[i] == 0
  {
    if n > 0 {
      ZeroBits(n - 1);
      assert Zeros(n)[1..] == Zeros(n - 1);
    }
  }

  // ------------------------------------------------------------- padding

  /** pad10*1 for the rate of 1088 bits: a one, (-m - 2) mod 1088 zeros, a one (Algorithm 9). */
  function Pad101(m: int): seq<bool> {
    var j: nat := (-m - 2) % 1088;
    [true] + NoBits(j) + [true]
  }

  /** The bytes after the message: 0x01, zeros and 0x80, or 0x81 when there is room for one. */
  function Tail(room: nat): seq<Byte> {
    if room < 2 then [0x81] else [0x01] + Zeros(room - 2) + [0x80]
  }

  /** What is left of the last block, never none of it. */
  function Room(length: nat): (r: nat)
    ensures 0 < r <= RATE_BYTES && (length + r) % RATE_BYTES == 0
  {
    RATE_BYTES - length % RATE_BYTES
  }

  function Padded(data: seq<Byte>): seq<Byte> {
    data + Tail(Room(|data|))
  }

  function Power(k: nat): nat {
    if k == 0 then 1 else 2 * Power(k - 1)
  }

  lemma {:induction false} PowerBits(k: nat)
    ensures LowBits(0, k) == NoBits(k)
    ensures LowBits(Power(k), k + 1) == NoBits(k) + [true]
  {
    if k > 0 {
      PowerBits(k - 1);
      assert LowBits(Power(k), k + 1) == [false] + LowBits(Power(k - 1), k);
    } else {
      assert LowBits(1, 1) == [true] + LowBits(0, 0);
    }
  }

  lemma LowBitsStep(n: nat, k: nat)
    requires k > 0
    ensures LowBits(n, k) == [n % 2 == 1] + LowBits(n / 2, k - 1)
  {
  }

  lemma EdgeBits()
    ensures ByteBits(0x01) == [true] + NoBits(7)
    ensures ByteBits(0x80) == NoBits(7) + [true]
    ensures ByteBits(0x81) == [true] + NoBits(6) + [true]
  {
    PowerBits(7);
    PowerBits(6);
    assert Power(7) == 0x80 && Power(6) == 0x40;
    LowBitsStep(0x01, 8);
    LowBitsStep(0x81, 8);
    Regroup([true], NoBits(6), [true]);
  }

  lemma OneByte(b: Byte)
    ensures BitsOf([b]) == ByteBits(b)
  {
  }

  lemma JoinZeros(a: nat, b: nat, c: nat)
    ensures [true] + NoBits(a) + NoBits(b) + (NoBits(c) + [true]) == [true] + NoBits(a + b + c) + [true]
  {
  }

  lemma LongTailBits(zeros: seq<Byte>, n: nat)
    requires zeros == Zeros(n)
    ensures BitsOf([0x01] + zeros + [0x80]) == ByteBits(0x01) + NoBits(8 * n) + ByteBits(0x80)
  {
    ZeroBits(n);
    BitsOfBoth([0x01], zeros);
    BitsOfBoth([0x01] + zeros, [0x80]);
    OneByte(0x01);
    OneByte(0x80);
  }

  lemma TailBits(room: nat)
    requires room > 0
    ensures |Tail(room)| == room
    ensures BitsOf(Tail(room)) == [true] + NoBits(8 * room - 2) + [true]
  {
    EdgeBits();
    if room == 1 {
      OneByte(0x81);
    } else {
      ZeroBits(room - 2);
      LongTailBits(Zeros(room - 2), room - 2);
      JoinZeros(7, 8 * (room - 2), 7);
    }
  }

  lemma RoomIsFewest(length: nat, room: nat)
    requires room == Room(length)
    ensures Pad101(8 * length) == [true] + NoBits(8 * room - 2) + [true]
  {
    assert (-(8 * length) - 2) % 1088 == 8 * room - 2;
  }

  lemma TailIsPad(length: nat)
    ensures BitsOf(Tail(Room(length))) == Pad101(8 * length)
  {
    TailBits(Room(length));
    RoomIsFewest(length, Room(length));
  }

  lemma PaddedFills(data: seq<Byte>)
    ensures |Padded(data)| % RATE_BYTES == 0 && |Padded(data)| > 0
  {
    TailBits(Room(|data|));
  }

  /** The padded message is the message's bits and pad10*1, and fills whole blocks. */
  lemma PaddingIsStandard(data: seq<Byte>)
    ensures |Padded(data)| % RATE_BYTES == 0 && |Padded(data)| > 0
    ensures BitsOf(Padded(data)) == BitsOf(data) + Pad101(8 * |data|)
  {
    PaddedFills(data);
    TailIsPad(|data|);
    BitsOfBoth(data, Tail(Room(|data|)));
  }

  // ------------------------------------------------------------- and back

  function WithoutZeros(bytes: seq<Byte>): seq<Byte> {
    if bytes != [] && bytes[|bytes| - 1] == 0 then WithoutZeros(bytes[..|bytes| - 1]) else bytes
  }

  function Unpad(bytes: seq<Byte>): Option<seq<Byte>> {
    if bytes == [] then None
    else if bytes[|bytes| - 1] == 0x81 then Some(bytes[..|bytes| - 1])
    else if bytes[|bytes| - 1] != 0x80 then None
    else
      var rest := WithoutZeros(bytes[..|bytes| - 1]);
      if rest == [] || rest[|rest| - 1] != 0x01 then None else Some(rest[..|rest| - 1])
  }

  lemma ZerosFromTheRight(n: nat)
    requires n > 0
    ensures Zeros(n) == Zeros(n - 1) + [0]
  {
    ZeroBits(n);
    ZeroBits(n - 1);
  }

  lemma {:induction false} ZerosStripped(data: seq<Byte>, n: nat)
    requires data != [] && data[|data| - 1] != 0
    ensures WithoutZeros(data + Zeros(n)) == data
  {
    if n == 0 {
      assert data + Zeros(n) == data;
    } else {
      ZerosFromTheRight(n);
      var rest := data + Zeros(n - 1);
      assert data + Zeros(n) == rest + [0];
      assert (rest + [0])[..|rest|] == rest;
      ZerosStripped(data, n - 1);
    }
  }

  lemma LongUnpad(data: seq<Byte>, n: nat)
    ensures Unpad(data + ([0x01] + Zeros(n) + [0x80])) == Some(data)
  {
    var marked := data + [0x01];
    var rest := marked + Zeros(n);
    assert data + ([0x01] + Zeros(n) + [0x80]) == rest + [0x80];
    assert (rest + [0x80])[..|rest|] == rest;
    ZerosStripped(marked, n);
    assert marked[..|data|] == data;
  }

  /** Padding loses nothing, for a message of any length. */
  lemma UnpadInverts(data: seq<Byte>)
    ensures Unpad(Padded(data)) == Some(data)
  {
    var room := Room(|data|);
    if room == 1 {
      assert (data + [0x81])[..|data|] == data;
    } else {
      LongUnpad(data, room - 2);
    }
  }

  /** b | 0x80. */
  function WithHighBit(b: Byte): Byte {
    if b < 128 then b + 128 else b
  }

  /** A zeroed buffer of n bytes with the two marks is the tail. */
  lemma MarkedTail(tail: seq<Byte>, room: nat)
    requires |tail| == room > 0
    requires room == 1 ==> tail == [WithHighBit(0x01)]
    requires room > 1 ==> tail[0] == 0x01 && tail[room - 1] == WithHighBit(0)
    requires forall k :: 0 < k < room - 1 ==> tail[k] == 0
    ensures tail == Tail(room)
  {
    if room > 1 {
      ZeroBits(room - 2);
    }
  }

  method Pad(data: seq<Byte>) returns (padded: array<Byte>)
    ensures fresh(padded) && padded[..] == Padded(data)
  {
    var blocks := (|data| + 1 + RATE_BYTES - 1) / RATE_BYTES;
    ghost var room := Room(|data|);
    assert blocks * RATE_BYTES == |data| + room;
    padded := new Byte[blocks * RATE_BYTES](_ => 0);
    for i := 0 to |data|
      invariant padded[..i] == data[..i]
      invariant forall k :: i <= k < padded.Length ==> padded[k] == 0
    {
      padded[i] := data[i];
    }
    padded[|data|] := 0x01;
    var finalByte := padded.Length - 1;
    padded[finalByte] := WithHighBit(padded[finalByte]);
    MarkedTail(padded[|data|..], room);
    assert padded[..|data|] == data;
    assert padded[..] == padded[..|data|] + padded[|data|..];
  }

  // ------------------------------------------------------------- the sponge

  function Constants(): (r: seq<Lane>)
    ensures |r| == 24
  {
    seq(24, ir requires 0 <= ir < 24 => ConstantLane(ir))
  }

  function ConstantLane(ir: nat): Lane
    requires ir < 24
  {
    ConstantDigits(ir);
    LaneOfHex(Constant(ir))
  }

  function LaneOf(bits: seq<bool>, lane: nat): Lane
    requires 64 * lane + 64 <= |bits|
  {
    bits[64 * lane..64 * lane + 64]
  }

  /** A block of 1088 bits joins the first 17 lanes, and the state is permuted. */
  function AbsorbBlock(a: State, block: seq<bool>): State
    requires |block| == 1088
  {
    Rounds(Joined(a, block, RATE_LANES), Constants(), 24)
  }

  function Joined(a: State, block: seq<bool>, lanes: nat): State
    requires |block| == 1088 && lanes <= RATE_LANES
  {
    seq(25, i requires 0 <= i < 25 => if i < lanes then Xor(a[i], LaneOf(block, i)) else a[i])
  }

  lemma JoinedNext(a: State, block: seq<bool>, lane: nat)
    requires |block| == 1088 && lane < RATE_LANES
    ensures Joined(a, block, lane + 1) == Joined(a, block, lane)[lane := Xor(a[lane], LaneOf(block, lane))]
    ensures Joined(a, block, lane)[lane] == a[lane]
  {
  }

  function Absorb(a: State, bits: seq<bool>): State
    decreases |bits|
  {
    if |bits| < 1088 then a else Absorb(AbsorbBlock(a, bits[..1088]), bits[1088..])
  }

  function Initial(): State {
    seq(25, i => Zero())
  }

  // a block as it is read

  /** Eight bytes from the highest down: (word << 8) | byte each time. */
  method Word(padded: array<Byte>, at: nat) returns (word: Lane)
    requires at + 8 <= padded.Length
    ensures word == BitsOf(padded[at..at + 8])
  {
    var bits: seq<bool> := [];
    var byte := 8;
    while byte > 0
      invariant 0 <= byte <= 8
      invariant bits == BitsOf(padded[at + byte..at + 8])
    {
      byte := byte - 1;
      assert padded[at + byte..at + 8] == [padded[at + byte]] + padded[at + byte + 1..at + 8];
      ShiftIn(bits, padded[at + byte]);
      bits := Or(Shl(bits, 8), ByteBits(padded[at + byte]));
    }
    word := bits;
  }

  lemma ShiftIn(bits: seq<bool>, b: Byte)
    ensures Or(Shl(bits, 8), ByteBits(b)) == ByteBits(b) + bits
  {
  }

  method JoinBlock(state: array<Lane>, padded: array<Byte>, offset: nat)
    requires state.Length == 25 && offset + RATE_BYTES <= padded.Length
    modifies state
    ensures state[..] == Joined(old(state[..]), BitsOf(padded[offset..offset + RATE_BYTES]), RATE_LANES)
  {
    ghost var a: State, bytes := state[..], padded[offset..offset + RATE_BYTES];
    for lane := 0 to RATE_LANES
      invariant state[..] == Joined(a, BitsOf(bytes), lane)
    {
      var word := Word(padded, offset + lane * 8);
      LaneOfBlock(padded[..], offset, lane, bytes, word);
      JoinedNext(a, BitsOf(bytes), lane);
      state[lane] := Xor(state[lane], word);
    }
  }

  lemma LaneOfBlock(all: seq<Byte>, offset: nat, lane: nat, bytes: seq<Byte>, word: Lane)
    requires offset + RATE_BYTES <= |all| && lane < RATE_LANES && bytes == all[offset..offset + RATE_BYTES]
    requires word == BitsOf(all[offset + lane * 8..offset + lane * 8 + 8])
    ensures word == LaneOf(BitsOf(bytes), lane)
  {
    SliceOfSlice(all, offset, lane);
    LaneOfBytes(bytes, lane);
  }

  lemma SliceOfSlice(all: seq<Byte>, offset: nat, lane: nat)
    requires offset + RATE_BYTES <= |all| && lane < RATE_LANES
    ensures all[offset..offset + RATE_BYTES][8 * lane..8 * lane + 8] == all[offset + lane * 8..offset + lane * 8 + 8]
  {
    var bytes := all[offset..offset + RATE_BYTES];
    assert forall k :: 0 <= k < RATE_BYTES ==> bytes[k] == all[offset + k];
  }

  lemma MiddleOf(a: seq<bool>, b: seq<bool>, c: seq<bool>)
    ensures ((a + b) + c)[|a|..|a| + |b|] == b
  {
  }

  lemma SplitInThree<T>(s: seq<T>, i: nat, j: nat)
    requires i <= j <= |s|
    ensures s == (s[..i] + s[i..j]) + s[j..]
  {
  }

  /** A lane's bits are those of its eight bytes. */
  lemma LaneOfBytes(bytes: seq<Byte>, lane: nat)
    requires 8 * lane + 8 <= |bytes|
    ensures LaneOf(BitsOf(bytes), lane) == BitsOf(bytes[8 * lane..8 * lane + 8])
  {
    var before, here, after := bytes[..8 * lane], bytes[8 * lane..8 * lane + 8], bytes[8 * lane + 8..];
    SplitInThree(bytes, 8 * lane, 8 * lane + 8);
    BitsOfBoth(before + here, after);
    BitsOfBoth(before, here);
    MiddleOf(BitsOf(before), BitsOf(here), BitsOf(after));
    assert |BitsOf(before)| == 64 * lane && |BitsOf(here)| == 64;
  }

  method AbsorbBlockInPlace(state: array<Lane>, padded: array<Byte>, offset: nat)
    requires state.Length == 25 && offset + RATE_BYTES <= padded.Length
    modifies state
    ensures state[..] == AbsorbBlock(old(state[..]), BitsOf(padded[offset..offset + RATE_BYTES]))
  {
    JoinBlock(state, padded, offset);
    Permute(state, Constants());
  }

  lemma NextBlock(a: State, all: seq<Byte>, offset: nat)
    requires offset + RATE_BYTES <= |all|
    ensures
      Absorb(a, BitsOf(all[offset..]))
      == Absorb(AbsorbBlock(a, BitsOf(all[offset..offset + RATE_BYTES])), BitsOf(all[offset + RATE_BYTES..]))
  {
    var bytes, block, rest := all[offset..], all[offset..offset + RATE_BYTES], all[offset + RATE_BYTES..];
    assert bytes == block + rest;
    BitsOfBoth(block, rest);
    assert BitsOf(bytes)[..1088] == BitsOf(block) && BitsOf(bytes)[1088..] == BitsOf(rest);
  }

  lemma WholeBlock(length: nat, offset: nat)
    requires length % RATE_BYTES == 0 && offset % RATE_BYTES == 0 && offset < length
    ensures offset + RATE_BYTES <= length && (offset + RATE_BYTES) % RATE_BYTES == 0
  {
  }

  lemma NoMore(a: State, all: seq<Byte>)
    ensures Absorb(a, BitsOf(all[|all|..])) == a
    ensures all[0..] == all
  {
  }

  /** The state after a padded message is the sponge's. */
  method AbsorbInPlace(state: array<Lane>, padded: array<Byte>)
    requires state.Length == 25 && padded.Length % RATE_BYTES == 0
    modifies state
    ensures state[..] == Absorb(old(state[..]), BitsOf(padded[..]))
  {
    ghost var a: State, all := state[..], padded[..];
    var offset := 0;
    NoMore(a, all);
    while offset < padded.Length
      invariant offset <= padded.Length && offset % RATE_BYTES == 0
      invariant padded[..] == all
      invariant Absorb(state[..], BitsOf(all[offset..])) == Absorb(a, BitsOf(all))
    {
      WholeBlock(padded.Length, offset);
      NextBlock(state[..], all, offset);
      AbsorbBlockInPlace(state, padded, offset);
      offset := offset + RATE_BYTES;
    }
    NoMore(state[..], all);
  }

  // ------------------------------------------------------------- the digest

  function Value(bits: seq<bool>): nat {
    if bits == [] then 0 else (if bits[0] then 1 else 0) + 2 * Value(bits[1..])
  }

  function HexDigit(n: nat): char
    requires n < 16
  {
    if n < 10 then '0' + n as char else 'a' + (n - 10) as char
  }

  /** One byte as two lower-case digits, a leading zero kept. */
  function HexPair(bits: seq<bool>): string
    requires |bits| == 8
  {
    ValueBound(bits);
    [HexDigit(Value(bits) / 16), HexDigit(Value(bits) % 16)]
  }

  lemma {:induction false} ValueBound(bits: seq<bool>)
    ensures Value(bits) < Power(|bits|)
    ensures LowBits(Value(bits), |bits|) == bits
  {
    if bits != [] {
      ValueBound(bits[1..]);
      assert bits == [bits[0]] + bits[1..];
    }
    assert Power(8) == 256;
  }

  /** Each byte's two digits, in order. */
  function Hex(bits: seq<bool>): string {
    if |bits| < 8 then "" else HexPair(bits[..8]) + Hex(bits[8..])
  }

  lemma {:induction false} HexOfBoth(a: seq<bool>, b: seq<bool>)
    requires |a| % 8 == 0
    ensures Hex(a + b) == Hex(a) + Hex(b)
  {
    if a == [] {
      assert a + b == b;
    } else {
      var first, rest := a[..8], a[8..];
      HexOfBoth(rest, b);
      HexFirst(first, rest + b);
      HexFirst(first, rest);
      SplitAt(a, b, 8);
    }
  }

  lemma SplitAt<T>(a: seq<T>, b: seq<T>, n: nat)
    requires n <= |a|
    ensures a == a[..n] + a[n..] && a + b == a[..n] + (a[n..] + b)
  {
  }

  lemma HexFirst(first: seq<bool>, rest: seq<bool>)
    requires |first| == 8
    ensures Hex(first + rest) == HexPair(first) + Hex(rest)
  {
  }

  lemma HexOfByte(bits: seq<bool>)
    requires |bits| == 8
    ensures Hex(bits) == HexPair(bits)
  {
    assert bits[..8] == bits;
    assert Hex(bits[8..]) == "";
  }

  /** The digest: the first 256 bits of the sponge's output, as 32 bytes of two digits. */
  function Keccak256Bits(data: seq<Byte>): (r: seq<bool>)
    ensures |r| == 256
  {
    Lanes(Absorb(Initial(), BitsOf(data) + Pad101(8 * |data|)), 4)
  }

  method Squeeze(state: array<Lane>) returns (digest: string)
    requires state.Length == 25
    ensures digest == Hex(Lanes(state[..], 4))
  {
    digest := "";
    ghost var out: seq<bool> := [];
    for lane := 0 to 4
      invariant out == Lanes(state[..], lane)
      invariant |out| == 64 * lane && digest == Hex(out)
    {
      var text := LaneDigits(state[lane]);
      HexOfBoth(out, state[lane]);
      digest, out := digest + text, out + state[lane];
    }
  }

  /** The first n lanes, as one row of bits. */
  function Lanes(a: seq<Lane>, n: nat): (r: seq<bool>)
    requires n <= |a|
    ensures |r| == 64 * n
  {
    if n == 0 then [] else Lanes(a, n - 1) + a[n - 1]
  }

  lemma NextByte(word: Lane, byte: nat, low: seq<bool>)
    requires byte < 8 && low == Shr(word, byte * 8)[..8]
    ensures word[..8 * byte + 8] == word[..8 * byte] + low
  {
    assert low == word[8 * byte..8 * byte + 8];
  }

  /** (word >> (byte * 8)) & 0xff for each byte. */
  method LaneDigits(word: Lane) returns (digits: string)
    ensures digits == Hex(word)
  {
    digits := "";
    for byte := 0 to 8
      invariant digits == Hex(word[..8 * byte])
    {
      var low := Shr(word, byte * 8)[..8];
      HexOfByte(low);
      HexOfBoth(word[..8 * byte], low);
      NextByte(word, byte, low);
      digits := digits + HexPair(low);
    }
    assert word[..64] == word;
  }

  /** A byte is its bits, each for its power of two. */
  lemma ByteOfBits(b: Byte)
    ensures
      var bits := ByteBits(b);
      b == Weight(bits[0], 1) + Weight(bits[1], 2) + Weight(bits[2], 4) + Weight(bits[3], 8)
           + Weight(bits[4], 16) + Weight(bits[5], 32) + Weight(bits[6], 64) + Weight(bits[7], 128)
  {
    var bits := ByteBits(b);
    FourBits(b, 8);
    FourBits(b / 16, 4);
    EightWeights(b, bits, bits[4..]);
  }

  lemma EightWeights(b: Byte, bits: seq<bool>, upper: seq<bool>)
    requires |bits| == 8 && bits[4..] == upper
    requires b % 16 == Weight(bits[0], 1) + Weight(bits[1], 2) + Weight(bits[2], 4) + Weight(bits[3], 8)
    requires b / 16 % 16 == Weight(upper[0], 1) + Weight(upper[1], 2) + Weight(upper[2], 4) + Weight(upper[3], 8)
    ensures b == Weight(bits[0], 1) + Weight(bits[1], 2) + Weight(bits[2], 4) + Weight(bits[3], 8)
                   + Weight(bits[4], 16) + Weight(bits[5], 32) + Weight(bits[6], 64) + Weight(bits[7], 128)
  {
    assert upper[0] == bits[4] && upper[1] == bits[5] && upper[2] == bits[6] && upper[3] == bits[7];
  }

  /** The lowest four bits make the remainder by 16; the bits above are the quotient's. */
  lemma FourBits(n: nat, k: nat)
    requires k >= 4
    ensures
      var bits := LowBits(n, k);
      && n % 16 == Weight(bits[0], 1) + Weight(bits[1], 2) + Weight(bits[2], 4) + Weight(bits[3], 8)
      && bits[4..] == LowBits(n / 16, k - 4)
  {
    LowBitsStep(n, k);
    LowBitsStep(n / 2, k - 1);
    LowBitsStep(n / 4, k - 2);
    LowBitsStep(n / 8, k - 3);
    assert n / 2 / 2 == n / 4 && n / 4 / 2 == n / 8 && n / 8 / 2 == n / 16;
    assert LowBits(n, k)
        == [n % 2 == 1] + ([n / 2 % 2 == 1] + ([n / 4 % 2 == 1] + ([n / 8 % 2 == 1] + LowBits(n / 16, k - 4))));
  }

  function Weight(bit: bool, power: nat): nat {
    if bit then power else 0
  }

  /** Two digits of a text, the higher first, are the k-th byte of a row of bits. */
  predicate ByteAt(text: string, bits: seq<bool>, k: nat)
    requires 2 * k + 1 < |text| && 8 * k + 8 <= |bits|
  {
    var b := 16 * HexValue(text[2 * k]) + HexValue(text[2 * k + 1]);
    IsHexDigit(text[2 * k]) && IsHexDigit(text[2 * k + 1]) && b < 256 && ByteBits(b) == bits[8 * k..8 * k + 8]
  }

  predicate IsHexDigit(c: char) {
    '0' <= c <= '9' || 'a' <= c <= 'f'
  }

  /** A text read back, two digits a byte in order, is the row of bits. */
  ghost predicate Reads(text: string, bits: seq<bool>) {
    4 * |text| == |bits| && |text| % 2 == 0 && forall k: nat :: k < |text| / 2 ==> ByteAt(text, bits, k)
  }

  lemma {:induction false} HexReads(bits: seq<bool>)
    requires |bits| % 8 == 0
    ensures Reads(Hex(bits), bits)
  {
    if bits != [] {
      var first, rest := bits[..8], bits[8..];
      HexReads(rest);
      PairReads(first);
      assert first[0..8] == first;
      assert Hex(bits) == HexPair(first) + Hex(rest);
      PairThenText(HexPair(first), Hex(rest), bits);
    }
  }

  lemma PairThenText(pair: string, rest: string, bits: seq<bool>)
    requires |pair| == 2 && |bits| >= 8 && ByteAt(pair, bits[..8], 0) && Reads(rest, bits[8..])
    ensures Reads(pair + rest, bits)
  {
    forall k: nat | k < |pair + rest| / 2
      ensures ByteAt(pair + rest, bits, k)
    {
      if k == 0 {
        assert bits[..8][0..8] == bits[0..8];
      } else {
        ByteLater(pair, rest, bits, k);
      }
    }
  }

  lemma ByteLater(pair: string, rest: string, bits: seq<bool>, k: nat)
    requires |pair| == 2 && |bits| >= 8 && Reads(rest, bits[8..]) && 0 < k < 1 + |rest| / 2
    ensures ByteAt(pair + rest, bits, k)
  {
    assert ByteAt(rest, bits[8..], k - 1);
    assert bits[8..][8 * (k - 1)..8 * (k - 1) + 8] == bits[8 * k..8 * k + 8];
  }

  lemma PairReads(bits: seq<bool>)
    requires |bits| == 8
    ensures |HexPair(bits)| == 2 && IsHexDigit(HexPair(bits)[0]) && IsHexDigit(HexPair(bits)[1])
    ensures HexValue(HexPair(bits)[0]) < 16 && HexValue(HexPair(bits)[1]) < 16
    ensures 16 * HexValue(HexPair(bits)[0]) + HexValue(HexPair(bits)[1]) < 256
    ensures ByteBits(16 * HexValue(HexPair(bits)[0]) + HexValue(HexPair(bits)[1])) == bits
  {
    ValueBound(bits);
    var v := Value(bits);
    assert Power(8) == 256;
    DigitReads(v / 16);
    DigitReads(v % 16);
  }

  lemma DigitReads(n: nat)
    requires n < 16
    ensures HexValue(HexDigit(n)) == n && IsHexDigit(HexDigit(n))
  {
  }

  /** The digest, and how its text reads: 0x and the 32 bytes of the sponge's first 256 bits. */
  method Keccak256(data: seq<Byte>) returns (digest: string)
    ensures digest == "0x" + Hex(Keccak256Bits(data))
    ensures |digest| == 66 && digest[..2] == "0x" && Reads(digest[2..], Keccak256Bits(data))
  {
    var state := new Lane[25](_ => Zero());
    assert state[..] == Initial();
    var padded := Pad(data);
    PaddingIsStandard(data);
    AbsorbInPlace(state, padded);
    var text := Squeeze(state);
    digest := "0x" + text;
    HexReads(Keccak256Bits(data));
    assert digest[2..] == text;
  }

  /** The digest's text tells every bit of it. */
  lemma {:induction false} HexTellsBits(a: seq<bool>, b: seq<bool>)
    requires |a| == |b| && |a| % 8 == 0 && Hex(a) == Hex(b)
    ensures a == b
  {
    if a != [] {
      assert Hex(a)[..2] == HexPair(a[..8]) && Hex(a)[2..] == Hex(a[8..]);
      assert Hex(b)[..2] == HexPair(b[..8]) && Hex(b)[2..] == Hex(b[8..]);
      PairTellsByte(a[..8], b[..8]);
      HexTellsBits(a[8..], b[8..]);
      assert a == a[..8] + a[8..] && b == b[..8] + b[8..];
    }
  }

  lemma DigitTells(m: nat, n: nat)
    requires m < 16 && n < 16 && HexDigit(m) == HexDigit(n)
    ensures m == n
  {
  }

  lemma PairTellsByte(a: seq<bool>, b: seq<bool>)
    requires |a| == 8 && |b| == 8 && HexPair(a) == HexPair(b)
    ensures a == b
  {
    ValueBound(a);
    ValueBound(b);
    var m, n := Value(a), Value(b);
    assert m < 256 && n < 256;
    assert HexPair(a)[0] == HexDigit(m / 16) && HexPair(a)[1] == HexDigit(m % 16);
    assert HexPair(b)[0] == HexDigit(n / 16) && HexPair(b)[1] == HexDigit(n % 16);
    DigitTells(m / 16, n / 16);
    DigitTells(m % 16, n % 16);
  }

  // ------------------------------------------------------------- what one block tells

  lemma {:induction false} BitsTellBytes(a: seq<Byte>, b: seq<Byte>)
    requires BitsOf(a) == BitsOf(b)
    ensures a == b
  {
    if a != [] && b != [] {
      FirstBits(a);
      FirstBits(b);
      ByteOfBits(a[0]);
      ByteOfBits(b[0]);
      BitsTellBytes(a[1..], b[1..]);
      assert a == [a[0]] + a[1..] && b == [b[0]] + b[1..];
    }
  }

  lemma FirstBits(a: seq<Byte>)
    requires a != []
    ensures BitsOf(a)[..8] == ByteBits(a[0]) && BitsOf(a)[8..] == BitsOf(a[1..])
  {
  }

  lemma JoinTellsBlock(a: State, x: seq<bool>, y: seq<bool>)
    requires |x| == 1088 == |y| && Joined(a, x, RATE_LANES) == Joined(a, y, RATE_LANES)
    ensures x == y
  {
    forall k | 0 <= k < 1088
      ensures x[k] == y[k]
    {
      var lane, z := k / 64, k % 64;
      assert Joined(a, x, RATE_LANES)[lane][z] == (a[lane][z] != LaneOf(x, lane)[z]);
      assert Joined(a, y, RATE_LANES)[lane][z] == (a[lane][z] != LaneOf(y, lane)[z]);
      assert LaneOf(x, lane)[z] == x[k] && LaneOf(y, lane)[z] == y[k];
    }
  }

  lemma AbsorbOne(a: State, block: seq<bool>)
    requires |block| == 1088
    ensures Absorb(a, block) == AbsorbBlock(a, block)
  {
    assert block[..1088] == block && block[1088..] == [];
  }

  /** No two messages shorter than a block lead to the same state. */
  lemma ShortMessagesDiffer(a: seq<Byte>, b: seq<Byte>)
    requires |a| < 136 && |b| < 136
    requires Absorb(Initial(), BitsOf(a) + Pad101(8 * |a|)) == Absorb(Initial(), BitsOf(b) + Pad101(8 * |b|))
    ensures a == b
  {
    var x, y := BitsOf(Padded(a)), BitsOf(Padded(b));
    PaddingIsStandard(a);
    PaddingIsStandard(b);
    OneBlock(a);
    OneBlock(b);
    AbsorbOne(Initial(), x);
    AbsorbOne(Initial(), y);
    KeccakPermutation.RoundsInjective(Joined(Initial(), x, RATE_LANES), Joined(Initial(), y, RATE_LANES),
        Constants(), 24);
    JoinTellsBlock(Initial(), x, y);
    BitsTellBytes(Padded(a), Padded(b));
    UnpadInverts(a);
    UnpadInverts(b);
  }

  lemma OneBlock(data: seq<Byte>)
    requires |data| < 136
    ensures |Padded(data)| == 136
  {
    TailBits(Room(|data|));
    assert Room(|data|) == 136 - |data|;
  }
}
