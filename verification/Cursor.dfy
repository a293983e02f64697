/**
 * The page cursor and its token (apps/registry/src/cursor.ts:45-127).
 *
 * A token is base64url (section 5 of RFC 4648, no padding) of "v1|block|log". Text is handled
 * as bytes: every byte the encoder writes is ASCII, and no byte the decoder looks for can be
 * part of a longer UTF-8 sequence.
 */
module Cursor {
  import opened Wrappers

  type Byte = n: int | 0 <= n < 256
  type Sextet = n: int | 0 <= n < 64

  /** A row's place in the order every paginated read walks. */
  datatype LogPosition = LogPosition(blockNumber: nat, logIndex: nat)

  /** Chain order: by block, then by log. */
  predicate Below(a: LogPosition, b: LogPosition) {
    a.blockNumber < b.blockNumber || (a.blockNumber == b.blockNumber && a.logIndex < b.logIndex)
  }

  datatype CursorError = Malformed | VersionUnknown | OutOfRange

  const MAX_SAFE_INTEGER := 9_007_199_254_740_991
  const BAR: Byte := 124
  const VERSION: seq<Byte> := [118, 49]

  predicate Safe(p: LogPosition) {
    p.blockNumber <= MAX_SAFE_INTEGER && p.logIndex <= MAX_SAFE_INTEGER
  }

  // ------------------------------------------------------------------- digits

  predicate IsDigit(b: Byte) {
    48 <= b <= 57
  }

  predicate AllDigits(s: seq<Byte>) {
    s != [] && forall i :: 0 <= i < |s| ==> IsDigit(s[i])
  }

  function DigitOf(n: nat): Byte {
    var d: int := n % 10;
    48 + d
  }

  /** The decimal digits of a number, as a template string prints it. */
  function Digits(n: nat): seq<Byte> {
    if n < 10 then [DigitOf(n)] else Digits(n / 10) + [DigitOf(n)]
  }

  function ParseDigits(s: seq<Byte>): nat
    requires forall i :: 0 <= i < |s| ==> IsDigit(s[i])
  {
    if s == [] then 0
    else
      assert IsDigit(s[|s| - 1]);
      var last: int := s[|s| - 1];
      10 * ParseDigits(s[..|s| - 1]) + (last - 48)
  }

  lemma AppendDigit(s: seq<Byte>, d: Byte)
    requires AllDigits(s) && IsDigit(d)
    ensures AllDigits(s + [d]) && ParseDigits(s + [d]) == 10 * ParseDigits(s) + (d as int - 48)
  {
  }

  lemma {:induction false} DigitsRoundTrip(n: nat)
    ensures AllDigits(Digits(n)) && ParseDigits(Digits(n)) == n
  {
    if n < 10 {
      assert Digits(n)[..0] == [];
    } else {
      DigitsRoundTrip(n / 10);
      AppendDigit(Digits(n / 10), DigitOf(n));
    }
  }

  function PowerOfTen(k: nat): nat {
    if k == 0 then 1 else 10 * PowerOfTen(k - 1)
  }

  /** Digits are read in base ten, the highest first. */
  lemma {:induction false} DigitsArePlaces(a: seq<Byte>, b: seq<Byte>)
    requires AllDigits(a) && AllDigits(b)
    ensures AllDigits(a + b) && ParseDigits(a + b) == ParseDigits(a) * PowerOfTen(|b|) + ParseDigits(b)
    ensures |a| == 1 ==> ParseDigits(a) == a[0] as int - '0' as int
  {
    var rest, last := b[..|b| - 1], b[|b| - 1];
    if rest == [] {
      AppendDigit(a, last);
      assert b == [last] && PowerOfTen(1) == 10;
    } else {
      DigitsArePlaces(a, rest);
      AppendDigit(a + rest, last);
      AppendDigit(rest, last);
      assert a + b == a + rest + [last] && b == rest + [last];
      NextPlace(ParseDigits(a), PowerOfTen(|rest|));
    }
  }

  lemma NextPlace(value: int, power: int)
    ensures 10 * (value * power) == value * (10 * power)
  {
  }

  /** And written without leading zeros. */
  lemma {:induction false} NoLeadingZero(n: nat)
    ensures n > 0 ==> Digits(n)[0] != '0' as int
    ensures n == 0 ==> Digits(n) == ['0' as int]
  {
    if n >= 10 {
      NoLeadingZero(n / 10);
    }
  }

  // -------------------------------------------------------------------- split

  /** text.split("|"): the pieces between bars, at least one. */
  function Split(s: seq<Byte>): (parts: seq<seq<Byte>>)
    ensures |parts| >= 1
  {
    if s == [] then [[]]
    else
      var rest := Split(s[1..]);
      if s[0] == BAR then [[]] + rest else [[s[0]] + rest[0]] + rest[1..]
  }

  lemma {:induction false} SplitPiece(piece: seq<Byte>, rest: seq<Byte>)
    requires BAR !in piece
    ensures Split(piece) == [piece]
    ensures Split(piece + [BAR] + rest) == [piece] + Split(rest)
  {
    if piece == [] {
      assert [] + [BAR] + rest == [BAR] + rest;
      assert ([BAR] + rest)[1..] == rest;
    } else {
      SplitPiece(piece[1..], rest);
      assert (piece + [BAR] + rest)[1..] == piece[1..] + [BAR] + rest;
      assert [piece[0]] + piece[1..] == piece;
    }
  }

  function JoinWithBars(parts: seq<seq<Byte>>): seq<Byte>
    requires parts != []
  {
    if |parts| == 1 then parts[0] else parts[0] + [BAR] + JoinWithBars(parts[1..])
  }

  ghost predicate BarFree(parts: seq<seq<Byte>>) {
    forall i :: 0 <= i < |parts| ==> BAR !in parts[i]
  }

  /** The pieces are the one way to write the text with bars between pieces that have none. */
  lemma {:induction false} SplitUndoesJoin(parts: seq<seq<Byte>>)
    requires parts != [] && BarFree(parts)
    ensures Split(JoinWithBars(parts)) == parts
  {
    if |parts| == 1 {
      SplitPiece(parts[0], []);
    } else {
      SplitUndoesJoin(parts[1..]);
      SplitPiece(parts[0], JoinWithBars(parts[1..]));
    }
  }

  lemma {:induction false} JoinUndoesSplit(s: seq<Byte>)
    ensures BarFree(Split(s)) && JoinWithBars(Split(s)) == s
  {
    if s != [] {
      JoinUndoesSplit(s[1..]);
      var rest := Split(s[1..]);
      if s[0] == BAR {
        assert ([[]] + rest)[1..] == rest;
        assert [BAR] + s[1..] == s;
      } else {
        FirstPieceGrows(s[0], rest);
      }
    }
  }

  lemma FirstPieceGrows(b: Byte, parts: seq<seq<Byte>>)
    requires parts != [] && BarFree(parts) && b != BAR
    ensures
      var grown := [[b] + parts[0]] + parts[1..];
      BarFree(grown) && JoinWithBars(grown) == [b] + JoinWithBars(parts)
  {
    var grown := [[b] + parts[0]] + parts[1..];
    assert grown[1..] == parts[1..];
    if |parts| > 1 {
      assert [b] + parts[0] + [BAR] + JoinWithBars(parts[1..]) == [b] + (parts[0] + [BAR] + JoinWithBars(parts[1..]));
    }
  }

  // ---------------------------------------------------------------- base64url

  function ToChar(x: Sextet): char {
    if x < 26 then 'A' + (x as char)
    else if x < 52 then 'a' + ((x - 26) as char)
    else if x < 62 then '0' + ((x - 52) as char)
    else if x == 62 then '-' else '_'
  }

  /** The decoder takes both alphabets; anything else it skips. */
  function FromChar(c: char): Option<Sextet> {
    if 'A' <= c <= 'Z' then Some((c - 'A') as int)
    else if 'a' <= c <= 'z' then Some((c - 'a') as int + 26)
    else if '0' <= c <= '9' then Some((c - '0') as int + 52)
    else if c == '-' || c == '+' then Some(62)
    else if c == '_' || c == '/' then Some(63)
    else None
  }

  /** The alphabet of section 5 of RFC 4648. */
  lemma AlphabetIsUrlSafe(x: Sextet)
    ensures ToChar(0) == 'A' && ToChar(26) == 'a' && ToChar(52) == '0' && ToChar(62) == '-' && ToChar(63) == '_'
    ensures x !in {25, 51, 61, 62, 63} ==> ToChar(x + 1) as int == ToChar(x) as int + 1
  {
  }

  lemma CharRoundTrip(x: Sextet)
    ensures FromChar(ToChar(x)) == Some(x) && ToChar(x) != '='
  {
  }

  /** The four sextets of three bytes. */
  function Group(x: int, y: int, z: int): (g: seq<Sextet>)
    requires 0 <= x < 256 && 0 <= y < 256 && 0 <= z < 256
    ensures |g| == 4
  {
    var a: int, b: int := x / 4, x % 4 * 16 + y / 16;
    var c: int, d: int := y % 16 * 4 + z / 64, z % 64;
    [a, b, c, d]
  }

  function Sextets(b: seq<Byte>): seq<Sextet> {
    if b == [] then []
    else if |b| == 1 then Group(b[0], 0, 0)[..2]
    else if |b| == 2 then Group(b[0], b[1], 0)[..3]
    else Group(b[0], b[1], b[2]) + Sextets(b[3..])
  }

  /** The three bytes of four sextets. */
  function Ungroup(a: int, b: int, c: int, d: int): (g: seq<Byte>)
    requires 0 <= a < 64 && 0 <= b < 64 && 0 <= c < 64 && 0 <= d < 64
    ensures |g| == 3
  {
    var x: int, y: int, z: int := a * 4 + b / 16, b % 16 * 16 + c / 4, c % 4 * 64 + d;
    [x, y, z]
  }

  /** A group cut short keeps its whole bytes; a lone sextet carries none. */
  function Bytes(s: seq<Sextet>): seq<Byte> {
    if |s| <= 1 then []
    else if |s| == 2 then Ungroup(s[0], s[1], 0, 0)[..1]
    else if |s| == 3 then Ungroup(s[0], s[1], s[2], 0)[..2]
    else Ungroup(s[0], s[1], s[2], s[3]) + Bytes(s[4..])
  }

  lemma Recombine(q: int, r: int)
    ensures 0 <= r < 4 ==> (q * 4 + r) / 4 == q && (q * 4 + r) % 4 == r
    ensures 0 <= r < 16 ==> (q * 16 + r) / 16 == q && (q * 16 + r) % 16 == r
  {
  }

  lemma GroupRoundTrip(x: int, y: int, z: int)
    requires 0 <= x < 256 && 0 <= y < 256 && 0 <= z < 256
    ensures var g := Group(x, y, z); Ungroup(g[0], g[1], g[2], g[3]) == [x, y, z]
  {
  }

  lemma ShortGroups(x: int, y: int)
    requires 0 <= x < 256 && 0 <= y < 256
    ensures var g := Group(x, 0, 0); Ungroup(g[0], g[1], 0, 0)[..1] == [x]
    ensures var g := Group(x, y, 0); Ungroup(g[0], g[1], g[2], 0)[..2] == [x, y]
  {
    Recombine(x % 4, y / 16);
    Recombine(x % 4, 0);
    Recombine(y % 16, 0);
    assert x == x / 4 * 4 + x % 4 && y == y / 16 * 16 + y % 16;
  }

  lemma {:induction false} SextetsRoundTrip(b: seq<Byte>)
    ensures Bytes(Sextets(b)) == b
  {
    if b != [] {
      ShortGroups(b[0], if |b| >= 2 then b[1] else 0);
    }
    if |b| >= 3 {
      GroupRoundTrip(b[0], b[1], b[2]);
      SextetsRoundTrip(b[3..]);
      assert Sextets(b)[4..] == Sextets(b[3..]);
      assert b == [b[0], b[1], b[2]] + b[3..];
    }
  }

  /** Three bytes are four sextets of one number, the highest first; a short group is filled with zero bits. */
  lemma SextetsOfGroup(x: Byte, y: Byte, z: Byte)
    ensures
      var g := Sextets([x, y, z]);
      && |g| == 4
      && 65536 * (x as int) + 256 * (y as int) + z
         == 262144 * (g[0] as int) + 4096 * (g[1] as int) + 64 * (g[2] as int) + g[3]
    ensures
      var g := Sextets([x, y]);
      |g| == 3 && 4 * (256 * (x as int) + y) == 4096 * (g[0] as int) + 64 * (g[1] as int) + g[2]
    ensures var g := Sextets([x]); |g| == 2 && 16 * (x as int) == 64 * (g[0] as int) + g[1]
  {
    assert [x, y, z][3..] == [];
  }

  /** And longer texts go group by group. */
  lemma SextetsByGroup(x: Byte, y: Byte, z: Byte, rest: seq<Byte>)
    ensures Sextets([x, y, z] + rest) == Sextets([x, y, z]) + Sextets(rest)
  {
    var all, one := [x, y, z] + rest, [x, y, z];
    assert all[3..] == rest && one[3..] == [];
  }

  /** Back again, a short group loses the bits that make no whole byte. */
  lemma BytesOfGroup(a: Sextet, b: Sextet, c: Sextet, d: Sextet)
    ensures
      var g := Bytes([a, b, c, d]);
      && |g| == 3
      && 65536 * (g[0] as int) + 256 * (g[1] as int) + g[2]
         == 262144 * (a as int) + 4096 * (b as int) + 64 * (c as int) + d
    ensures
      var g, bits := Bytes([a, b, c]), 4096 * (a as int) + 64 * (b as int) + c;
      |g| == 2 && 4 * (256 * (g[0] as int) + g[1]) <= bits < 4 * (256 * (g[0] as int) + g[1]) + 4
    ensures
      var g, bits := Bytes([a, b]), 64 * (a as int) + b;
      |g| == 1 && 16 * (g[0] as int) <= bits < 16 * (g[0] as int) + 16
    ensures Bytes([a]) == []
  {
    assert [a, b, c, d][4..] == [];
  }

  lemma BytesByGroup(a: Sextet, b: Sextet, c: Sextet, d: Sextet, rest: seq<Sextet>)
    ensures Bytes([a, b, c, d] + rest) == Bytes([a, b, c, d]) + Bytes(rest)
  {
    var all, one := [a, b, c, d] + rest, [a, b, c, d];
    assert all[4..] == rest && one[4..] == [];
  }

  function EncodeText(s: seq<Sextet>): string {
    if s == [] then "" else [ToChar(s[0])] + EncodeText(s[1..])
  }

  /** The sextets a token carries: decoding stops at padding and skips what is in no alphabet. */
  function DecodeText(t: string): seq<Sextet> {
    if t == "" || t[0] == '=' then []
    else match FromChar(t[0])
         case None => DecodeText(t[1..])
         case Some(x) => [x] + DecodeText(t[1..])
  }

  lemma {:induction false} TextRoundTrip(s: seq<Sextet>)
    ensures DecodeText(EncodeText(s)) == s
  {
    if s != [] {
      TextRoundTrip(s[1..]);
      CharRoundTrip(s[0]);
      assert EncodeText(s)[1..] == EncodeText(s[1..]);
    }
  }

  lemma {:induction false} EncodedAt(s: seq<Sextet>, i: nat)
    requires i < |s|
    ensures |EncodeText(s)| == |s| && EncodeText(s)[i] == ToChar(s[i])
  {
    if i > 0 {
      EncodedAt(s[1..], i - 1);
    } else if |s| > 1 {
      EncodedAt(s[1..], 0);
    } else {
      assert EncodeText(s[1..]) == "";
    }
  }

  lemma {:induction false} DecodedAround(a: string, c: char, b: string)
    requires '=' !in a
    ensures DecodeText(a + [c] + b) == DecodeText(a) + DecodeText([c] + b)
  {
    if a != "" {
      DecodedAround(a[1..], c, b);
      assert (a + [c] + b)[1..] == a[1..] + [c] + b;
    } else {
      assert a + [c] + b == [c] + b;
    }
  }

  /** Padding ends a text; a character of neither alphabet is skipped. */
  lemma SkippedInText(a: string, c: char, b: string)
    requires '=' !in a
    ensures c == '=' ==> DecodeText(a + [c] + b) == DecodeText(a)
    ensures c !in "=+/" && (forall x: Sextet :: c != ToChar(x)) ==>
              DecodeText(a + [c] + b) == DecodeText(a) + DecodeText(b)
  {
    DecodedAround(a, c, b);
    assert ([c] + b)[1..] == b;
    match FromChar(c)
    case Some(x) => assert c == ToChar(x) || c == '+' || c == '/';
    case None =>
  }

  /** Any other carries the sextet that either alphabet gives it. */
  lemma CarriedByText(a: string, x: Sextet, c: char, b: string)
    requires '=' !in a
    requires c == ToChar(x) || (x == 62 && c == '+') || (x == 63 && c == '/')
    ensures DecodeText(a + [c] + b) == DecodeText(a) + [x] + DecodeText(b)
  {
    CharRoundTrip(x);
    DecodedAround(a, c, b);
    assert ([c] + b)[1..] == b;
  }

  // -------------------------------------------------------------------- token

  function PlainText(p: LogPosition): seq<Byte> {
    VERSION + [BAR] + Digits(p.blockNumber) + [BAR] + Digits(p.logIndex)
  }

  function EncodeCursor(p: LogPosition): string {
    EncodeText(Sextets(PlainText(p)))
  }

  function DecodeCursor(token: string): Result<LogPosition, CursorError> {
    var parts := Split(Bytes(DecodeText(token)));
    if |parts| != 3 then Err(Malformed)
    else if parts[0] != VERSION then Err(VersionUnknown)
    else if !AllDigits(parts[1]) || !AllDigits(parts[2]) then Err(Malformed)
    else
      var p := LogPosition(ParseDigits(parts[1]), ParseDigits(parts[2]));
      if Safe(p) then Ok(p) else Err(OutOfRange)
  }

  lemma SplitThree(a: seq<Byte>, b: seq<Byte>, c: seq<Byte>)
    requires BAR !in a && BAR !in b && BAR !in c
    ensures Split(a + [BAR] + b + [BAR] + c) == [a, b, c]
  {
    assert a + [BAR] + b + [BAR] + c == a + [BAR] + (b + [BAR] + c);
    SplitPiece(a, b + [BAR] + c);
    SplitPiece(b, c);
    SplitPiece(c, []);
  }

  lemma PlainTextSplits(p: LogPosition)
    ensures Split(PlainText(p)) == [VERSION, Digits(p.blockNumber), Digits(p.logIndex)]
  {
    DigitsRoundTrip(p.blockNumber);
    DigitsRoundTrip(p.logIndex);
    SplitThree(VERSION, Digits(p.blockNumber), Digits(p.logIndex));
  }

  /** Decoding inverts encoding on safe integers and names the range error on every other position. */
  lemma CursorRoundTrip(p: LogPosition)
    ensures DecodeCursor(EncodeCursor(p)) == if Safe(p) then Ok(p) else Err(OutOfRange)
  {
    TextRoundTrip(Sextets(PlainText(p)));
    SextetsRoundTrip(PlainText(p));
    PlainTextSplits(p);
    DigitsRoundTrip(p.blockNumber);
    DigitsRoundTrip(p.logIndex);
  }

  lemma SplitDigits(block: seq<Byte>, log: seq<Byte>)
    requires AllDigits(block) && AllDigits(log)
    ensures Split(VERSION + [BAR] + block + [BAR] + log) == [VERSION, block, log]
  {
    assert !IsDigit(BAR);
    SplitThree(VERSION, block, log);
  }

  lemma JoinThree(parts: seq<seq<Byte>>)
    requires |parts| == 3
    ensures JoinWithBars(parts) == parts[0] + [BAR] + parts[1] + [BAR] + parts[2]
  {
    assert JoinWithBars(parts[1..]) == parts[1] + [BAR] + parts[2];
  }

  /** The text a token carries is "v1", the block and the log with bars between, the numbers in decimal digits. */
  ghost predicate Writes(text: seq<Byte>, block: seq<Byte>, log: seq<Byte>, p: LogPosition) {
    && block != [] && (forall i :: 0 <= i < |block| ==> '0' as int <= block[i] <= '9' as int)
    && log != [] && (forall i :: 0 <= i < |log| ==> '0' as int <= log[i] <= '9' as int)
    && text == [118, 49, 124] + block + [124] + log
    && ParseDigits(block) == p.blockNumber && ParseDigits(log) == p.logIndex
  }

  lemma AcceptedWrites(token: string, p: LogPosition)
    requires DecodeCursor(token) == Ok(p)
    ensures Safe(p) && exists block, log :: Writes(Bytes(DecodeText(token)), block, log, p)
  {
    var text := Bytes(DecodeText(token));
    var parts := Split(text);
    JoinUndoesSplit(text);
    JoinThree(parts);
    assert VERSION + [BAR] == [118, 49, 124];
    assert Writes(text, parts[1], parts[2], p);
  }

  lemma WrittenIsAccepted(token: string, block: seq<Byte>, log: seq<Byte>, p: LogPosition)
    requires Safe(p) && Writes(Bytes(DecodeText(token)), block, log, p)
    ensures DecodeCursor(token) == Ok(p)
  {
    assert VERSION + [BAR] == [118, 49, 124];
    assert Bytes(DecodeText(token)) == VERSION + [BAR] + block + [BAR] + log;
    SplitDigits(block, log);
  }

  /** The safe integers are those below 2^53. */
  lemma SafeIff(p: LogPosition)
    ensures Safe(p) <==> p.blockNumber < 0x20_0000_0000_0000 && p.logIndex < 0x20_0000_0000_0000
  {
  }

  /** A token is accepted exactly when it carries such a text of a safe position, leading zeros included. */
  lemma DecodesIff(token: string, p: LogPosition)
    ensures DecodeCursor(token) == Ok(p) <==>
              && p.blockNumber < 0x20_0000_0000_0000 && p.logIndex < 0x20_0000_0000_0000
              && exists block, log :: Writes(Bytes(DecodeText(token)), block, log, p)
  {
    SafeIff(p);
    if DecodeCursor(token) == Ok(p) {
      AcceptedWrites(token, p);
    } else if Safe(p) {
      forall block, log | Writes(Bytes(DecodeText(token)), block, log, p)
        ensures false
      {
        WrittenIsAccepted(token, block, log, p);
      }
    }
  }

  /** The refusals in the order they are named: three fields first, the version before the numbers. */
  lemma RefusedAs(token: string, parts: seq<seq<Byte>>)
    requires parts != [] && BarFree(parts) && Bytes(DecodeText(token)) == JoinWithBars(parts)
    ensures |parts| != 3 ==> DecodeCursor(token) == Err(Malformed)
    ensures |parts| == 3 && parts[0] != [118, 49] ==> DecodeCursor(token) == Err(VersionUnknown)
    ensures |parts| == 3 && parts[0] == [118, 49] ==>
              (DecodeCursor(token) == Err(Malformed) <==> !AllDigits(parts[1]) || !AllDigits(parts[2]))
  {
    SplitUndoesJoin(parts);
  }

  /** Two positions never share a token. */
  lemma TokensAreDistinct(p: LogPosition, q: LogPosition)
    requires EncodeCursor(p) == EncodeCursor(q)
    ensures p == q
  {
    TextRoundTrip(Sextets(PlainText(p)));
    TextRoundTrip(Sextets(PlainText(q)));
    SextetsRoundTrip(PlainText(p));
    SextetsRoundTrip(PlainText(q));
    PlainTextSplits(p);
    PlainTextSplits(q);
    DigitsRoundTrip(p.blockNumber);
    DigitsRoundTrip(q.blockNumber);
    DigitsRoundTrip(p.logIndex);
    DigitsRoundTrip(q.logIndex);
  }
}
