/** Crockford base32 without padding (noknowledge/crypto/encoding.py). */
module Base32 {
  import opened Wrappers
  import opened Radix

  const ALPHABET := "0123456789ABCDEFGHJKMNPQRSTVWXYZ"

  type Byte = b: nat | b < 256

  datatype DecodeError = InvalidCharacter(c: char)

  // -- characters --------------------------------------------------------------

  function Chars(digits: seq<nat>): string
    requires forall i :: 0 <= i < |digits| ==> digits[i] < 32
  {
    seq(|digits|, i requires 0 <= i < |digits| => ALPHABET[digits[i]])
  }

  /** `str.upper` on ASCII. */
  function Upper(c: char): char {
    if 'a' <= c <= 'z' then c - 'a' + 'A' else c
  }

  function Confusable(c: char): char {
    match c
    case 'I' => '1'
    case 'L' => '1'
    case 'O' => '0'
    case 'U' => 'V'
    case _ => c
  }

  /** How a character is read: upper-cased, and lookalikes resolved. */
  function Reading(c: char): char {
    Confusable(Upper(c))
  }

  /** The position in the alphabet; 32 if there is none. */
  function Lookup(c: char): (d: nat)
    ensures d <= 32
    ensures d < 32 ==> ALPHABET[d] == c
  {
    LookupFrom(c, 0)
  }

  function LookupFrom(c: char, from: nat): (d: nat)
    requires from <= 32
    ensures from <= d <= 32
    ensures d < 32 ==> ALPHABET[d] == c
    ensures forall i :: from <= i < d ==> ALPHABET[i] != c
    decreases 32 - from
  {
    if from == 32 then 32 else if ALPHABET[from] == c then from else LookupFrom(c, from + 1)
  }

  /** What `str.strip` trims, among the ASCII characters. */
  predicate IsSpace(c: char) {
    c == ' ' || '\t' <= c <= '\r' || '\U{1C}' <= c <= '\U{1F}'
  }

  function StripLeft(t: string): string {
    if t != [] && IsSpace(t[0]) then StripLeft(t[1..]) else t
  }

  function StripRight(t: string): string {
    if t != [] && IsSpace(t[|t| - 1]) then StripRight(t[..|t| - 1]) else t
  }

  function DropHyphens(t: string): string {
    if t == [] then [] else (if t[0] == '-' then [] else [t[0]]) + DropHyphens(t[1..])
  }

  /** What the loop of `b32d` sees: trimmed, without hyphens, every character as it is read. */
  function Plain(t: string): string {
    var cleaned := DropHyphens(StripRight(StripLeft(t)));
    seq(|cleaned|, i requires 0 <= i < |cleaned| => Reading(cleaned[i]))
  }

  // -- reference definitions -------------------------------------------------------

  /** The number of zero bits appended to reach a multiple of five. */
  function Pad(n: nat): (pad: nat)
    ensures pad < 5 && (8 * n + pad) % 5 == 0
  {
    (5 - 8 * n % 5) % 5
  }

  function EncodedLength(n: nat): (m: nat)
    ensures 5 * m == 8 * n + Pad(n)
  {
    (8 * n + Pad(n)) / 5
  }

  /** The encoding: the bytes as one number, shifted by the padding, written in base 32. */
  function Encoded(data: seq<Byte>): string {
    Chars(Digits(Value(data, 256) * Pow(2, Pad(|data|)), EncodedLength(|data|), 32))
  }

  function DigitsOf(plain: string): seq<nat> {
    seq(|plain|, i requires 0 <= i < |plain| => Lookup(plain[i]))
  }

  predicate AllKnown(plain: string) {
    forall i :: 0 <= i < |plain| ==> Lookup(plain[i]) < 32
  }

  /** The decoding: the digits as one number, the odd bits at the end dropped, written in base 256. */
  function Decoded(plain: string): seq<nat> {
    PowPositive(2, 5 * |plain| % 8);
    Digits(Quot(Value(DigitsOf(plain), 32), Pow(2, 5 * |plain| % 8)), 5 * |plain| / 8, 256)
  }

  // -- shifts by less than sixteen bits ----------------------------------------------

  /** Taking five (or eight) bits off the top of a shifted number. */
  lemma ShiftRight(v: nat, b: nat, k: nat)
    requires b + k <= 15
    ensures Pow(2, b) > 0 && Pow(2, b + k) > 0 && Pow(2, k) > 0
    ensures Quot(Quot(v, Pow(2, b)), Pow(2, k)) == Quot(v, Pow(2, b + k))
  {
    PowPositive(2, b);
    PowPositive(2, k);
    PowPositive(2, b + k);
    PowAdds(2, b, k);
    var p, r := Pow(2, b), Pow(2, k);
    var q := Quot(v, p);
    QuotRem(v, p);
    QuotRem(q, r);
    var low := Rem(q, r) * p + Rem(v, p);
    MulMono(Rem(q, r) + 1, r, p);
    assert (Rem(q, r) + 1) * p == Rem(q, r) * p + p;
    assert q * p == (Quot(q, r) * r + Rem(q, r)) * p == Quot(q, r) * r * p + Rem(q, r) * p;
    assert r * p == p * r;
    MulAssoc(Quot(q, r), r, p);
    DivisionUnique(v, p * r, Quot(q, r), low);
  }

  /** Appending `k` low bits does not show above them. */
  lemma ShiftIn(v: nat, low: nat, b: nat, k: nat)
    requires b + k <= 15 && low < Pow(2, k)
    ensures Pow(2, b) > 0 && Pow(2, b + k) > 0
    ensures Quot(v * Pow(2, k) + low, Pow(2, b + k)) == Quot(v, Pow(2, b))
  {
    ShiftRight(v * Pow(2, k) + low, k, b);
    DivisionUnique(v * Pow(2, k) + low, Pow(2, k), v, low);
    assert k + b == b + k;
  }

  lemma SmallPowers()
    ensures Pow(2, 0) == 1 && Pow(2, 5) == 32 && Pow(2, 8) == 256
  {
    assert Pow(2, 1) == 2 && Pow(2, 2) == 4 && Pow(2, 3) == 8 && Pow(2, 4) == 16 && Pow(2, 5) == 32;
    assert Pow(2, 6) == 64 && Pow(2, 7) == 128;
  }

  // -- b32e --------------------------------------------------------------------------

  /** The first `n` characters of a number from which the lowest `bits` bits are still held back. */
  function Emitted(value: nat, bits: nat, n: nat): string {
    PowPositive(2, bits);
    Chars(Digits(Quot(value, Pow(2, bits)), n, 32))
  }

  /** The character the inner loop appends: `(value >> bits) & 31`. */
  function NextChar(value: nat, bits: nat): char {
    PowPositive(2, bits);
    ALPHABET[Rem(Quot(value, Pow(2, bits)), 32)]
  }

  /** The final character: `(value << (5 - bits)) & 31`. */
  function LastChar(value: nat, bits: nat): char
    requires 0 < bits < 5
  {
    ALPHABET[Rem(value * Pow(2, 5 - bits), 32)]
  }

  lemma CharsAppend(digits: seq<nat>, d: nat)
    requires (forall i :: 0 <= i < |digits| ==> digits[i] < 32) && d < 32
    ensures Chars(digits + [d]) == Chars(digits) + [ALPHABET[d]]
  {
  }

  lemma EmitNone(value: nat)
    ensures Emitted(value, 0, 0) == ""
  {
  }

  lemma EmitOne(value: nat, bits: nat, n: nat)
    requires bits < 10
    ensures Emitted(value, bits, n + 1) == Emitted(value, bits + 5, n) + [NextChar(value, bits)]
  {
    SmallPowers();
    ShiftRight(value, bits, 5);
    CharsAppend(Digits(Quot(value, Pow(2, bits + 5)), n, 32), Rem(Quot(value, Pow(2, bits)), 32));
  }

  lemma ReadByte(value: nat, bits: nat, b: Byte, n: nat)
    requires bits < 5
    ensures Emitted(value * 256 + b, bits + 8, n) == Emitted(value, bits, n)
  {
    SmallPowers();
    ShiftIn(value, b, bits, 8);
  }

  lemma EmitLast(value: nat, bits: nat, n: nat)
    requires 0 < bits < 5
    ensures Chars(Digits(value * Pow(2, 5 - bits), n + 1, 32)) == Emitted(value, bits, n) + [LastChar(value, bits)]
  {
    SmallPowers();
    PowPositive(2, 5 - bits);
    ShiftIn(value, 0, bits, 5 - bits);
    CharsAppend(Digits(Quot(value, Pow(2, bits)), n, 32), Rem(value * Pow(2, 5 - bits), 32));
  }

  lemma EmitExact(value: nat, n: nat)
    ensures Emitted(value, 0, n) == Chars(Digits(value * Pow(2, 0), n, 32))
  {
    DivisionUnique(value, 1, value, 0);
  }

  lemma NothingRead(data: seq<Byte>)
    ensures Value(data[..0], 256) == 0
  {
  }

  lemma OneMoreByte(data: seq<Byte>, i: nat)
    requires i < |data|
    ensures Value(data[..i + 1], 256) == Value(data[..i], 256) * 256 + data[i]
  {
    assert data[..i + 1][..i] == data[..i];
  }

  /** The bits left over at the end are padded to one more character. */
  lemma LengthsFit(n: nat, length: nat, bits: nat)
    requires 8 * n == 5 * length + bits && bits < 5
    ensures if bits > 0 then Pad(n) == 5 - bits && EncodedLength(n) == length + 1
            else Pad(n) == 0 && EncodedLength(n) == length
  {
  }

  method Encode(data: seq<Byte>) returns (text: string)
    ensures text == Encoded(data)
    ensures |text| == EncodedLength(|data|)
  {
    hide Emitted, NextChar, LastChar, Chars, Digits, Value, Pow, Pad, EncodedLength;
    var value: nat, bits: nat := 0, 0;
    text := "";
    EmitNone(0);
    NothingRead(data);
    var i := 0;
    while i < |data|
      invariant i <= |data|
      invariant bits < 5
      invariant value == Value(data[..i], 256)
      invariant 8 * i == 5 * |text| + bits
      invariant text == Emitted(value, bits, |text|)
    {
      OneMoreByte(data, i);
      ReadByte(value, bits, data[i], |text|);
      value := value * 256 + data[i];
      bits := bits + 8;
      while bits >= 5
        invariant bits < 13
        invariant 8 * (i + 1) == 5 * |text| + bits
        invariant text == Emitted(value, bits, |text|)
      {
        bits := bits - 5;
        EmitOne(value, bits, |text|);
        text := text + [NextChar(value, bits)];
      }
      i := i + 1;
    }
    assert data[..i] == data;
    LengthsFit(|data|, |text|, bits);
    if bits > 0 {
      EmitLast(value, bits, |text|);
      text := text + [LastChar(value, bits)];
    } else {
      EmitExact(value, |text|);
    }
  }

  // -- b32d --------------------------------------------------------------------------

  /** The first `n` bytes of a number from which the lowest `bits` bits are still held back. */
  function Read(value: nat, bits: nat, n: nat): seq<nat> {
    PowPositive(2, bits);
    Digits(Quot(value, Pow(2, bits)), n, 256)
  }

  /** The byte the loop appends: `(value >> bits) & 0xFF`. */
  function NextByte(value: nat, bits: nat): nat {
    PowPositive(2, bits);
    Rem(Quot(value, Pow(2, bits)), 256)
  }

  lemma ReadOne(value: nat, bits: nat, n: nat)
    requires bits < 7
    ensures Read(value, bits, n + 1) == Read(value, bits + 8, n) + [NextByte(value, bits)]
  {
    SmallPowers();
    ShiftRight(value, bits, 8);
  }

  lemma ReadDigit(value: nat, bits: nat, d: nat, n: nat)
    requires bits < 8 && d < 32
    ensures Read(value * 32 + d, bits + 5, n) == Read(value, bits, n)
  {
    SmallPowers();
    ShiftIn(value, d, bits, 5);
  }

  /** `c` is the earliest character outside the alphabet. */
  ghost predicate FirstUnknown(plain: string, c: char) {
    exists i :: 0 <= i < |plain| && plain[i] == c && Lookup(c) == 32 && forall j :: 0 <= j < i ==> Lookup(plain[j]) < 32
  }

  method Decode(text: string) returns (r: Result<seq<nat>, DecodeError>)
    ensures r.Success? <==> AllKnown(Plain(text))
    ensures r.Success? ==> r.value == Decoded(Plain(text))
    ensures r.Failure? ==> FirstUnknown(Plain(text), r.error.c)
  {
    hide Read, NextByte, Digits, Plain, Lookup;
    var plain := Plain(text);
    var value: nat, bits: nat, out: seq<nat> := 0, 0, [];
    assert Read(0, 0, 0) == [] by {
      ReadNone();
    }
    var i := 0;
    while i < |plain|
      invariant i <= |plain|
      invariant bits < 8
      invariant forall j :: 0 <= j < i ==> Lookup(plain[j]) < 32
      invariant value == Value(DigitsOf(plain)[..i], 32)
      invariant 5 * i == 8 * |out| + bits
      invariant out == Read(value, bits, |out|)
    {
      var digit := Lookup(plain[i]);
      if digit >= 32 {
        LookupBound(plain[i]);
        return Failure(InvalidCharacter(plain[i]));
      }
      assert DigitsOf(plain)[..i + 1][..i] == DigitsOf(plain)[..i];
      ReadDigit(value, bits, digit, |out|);
      value := value * 32 + digit;
      bits := bits + 5;
      if bits >= 8 {
        bits := bits - 8;
        ReadOne(value, bits, |out|);
        out := out + [NextByte(value, bits)];
      }
      i := i + 1;
    }
    assert DigitsOf(plain)[..i] == DigitsOf(plain);
    assert out == Decoded(plain) by {
      ReadAll(plain, bits, |out|);
    }
    return Success(out);
  }

  lemma ReadNone()
    ensures Read(0, 0, 0) == []
  {
  }

  lemma LookupBound(c: char)
    ensures Lookup(c) <= 32
  {
  }

  lemma ReadAll(plain: string, bits: nat, n: nat)
    requires bits < 8 && 5 * |plain| == 8 * n + bits
    ensures Decoded(plain) == Read(Value(DigitsOf(plain), 32), bits, n)
  {
    hide Digits, Value, DigitsOf, Pow;
    assert 5 * |plain| % 8 == bits && 5 * |plain| / 8 == n;
  }

  // -- the round trip -------------------------------------------------------------------

  lemma LookupAlphabet(d: nat)
    requires d < 32
    ensures Lookup(ALPHABET[d]) == d
  {
    var k := Lookup(ALPHABET[d]);
    AlphabetDistinct(d, ALPHABET[d]);
    assert k < 32 ==> ALPHABET[k] == ALPHABET[d];
  }

  lemma AlphabetAscends(i: nat)
    requires i < 31
    ensures ALPHABET[i] < ALPHABET[i + 1]
  {
  }

  lemma {:induction false} AlphabetOrder(i: nat, d: nat)
    requires i < d < 32
    ensures ALPHABET[i] < ALPHABET[d]
    decreases d
  {
    hide ALPHABET;
    AlphabetAscends(d - 1);
    if i < d - 1 {
      AlphabetOrder(i, d - 1);
    }
  }

  /** The search stops at the character, at the latest. */
  lemma {:induction false} LookupStops(c: char, from: nat, d: nat)
    requires from <= d < 32 && c == ALPHABET[d]
    ensures LookupFrom(c, from) <= d
    decreases d - from
  {
    hide ALPHABET;
    if from < d {
      LookupStops(c, from + 1, d);
    }
  }

  /** No character occurs twice in the alphabet: each is the position of its reading. */
  lemma AlphabetDistinct(d: nat, c: char)
    requires d < 32 && c == ALPHABET[d]
    ensures forall i :: 0 <= i < d ==> ALPHABET[i] != c
    ensures LookupFrom(c, 0) <= d
  {
    assert |ALPHABET| == 32;
    hide ALPHABET;
    LookupStops(c, 0, d);
    forall i | 0 <= i < d ensures ALPHABET[i] != c {
      AlphabetOrder(i, d);
    }
  }

  /** A text of alphabet characters is read as it stands. */
  lemma {:induction false} DropNothing(t: string)
    requires forall i :: 0 <= i < |t| ==> t[i] != '-'
    ensures DropHyphens(t) == t
  {
    if t != [] {
      DropNothing(t[1..]);
    }
  }

  lemma PlainIsPlain(digits: seq<nat>)
    requires forall i :: 0 <= i < |digits| ==> digits[i] < 32
    ensures Plain(Chars(digits)) == Chars(digits)
    ensures AllKnown(Chars(digits)) && DigitsOf(Chars(digits)) == digits
  {
    var t := Chars(digits);
    forall i | 0 <= i < |t|
      ensures t[i] != '-' && !IsSpace(t[i]) && Reading(t[i]) == t[i] && Lookup(t[i]) == digits[i]
    {
      AlphabetIsPlain(digits[i]);
      LookupAlphabet(digits[i]);
    }
    DropNothing(t);
  }

  lemma AlphabetIsPlain(d: nat)
    requires d < 32
    ensures ALPHABET[d] != '-' && !IsSpace(ALPHABET[d]) && Reading(ALPHABET[d]) == ALPHABET[d]
  {
  }

  lemma {:induction false} PowOfPow(k: nat, base: nat, n: nat)
    requires base == Pow(2, k)
    ensures Pow(base, n) == Pow(2, k * n)
  {
    if n > 0 {
      PowOfPow(k, base, n - 1);
      PowAdds(2, k, k * (n - 1));
      assert k * n == k + k * (n - 1);
    }
  }

  /** The shifted number has room in its base-32 digits. */
  lemma ScaledBelow(v: nat, bound: nat, scale: nat)
    requires v < bound && scale > 0
    ensures v * scale < bound * scale
  {
    MulMono(v + 1, bound, scale);
    assert (v + 1) * scale == v * scale + scale;
  }

  lemma EncodingFits(data: seq<Byte>)
    ensures Value(data, 256) * Pow(2, Pad(|data|)) < Pow(32, EncodedLength(|data|))
  {
    hide Value, Pow, Pad, EncodedLength;
    var n, pad, m := |data|, Pad(|data|), EncodedLength(|data|);
    SmallPowers();
    ValueBelow(data, 256);
    PowOfPow(8, 256, n);
    PowOfPow(5, 32, m);
    PowAdds(2, 8 * n, pad);
    PowPositive(2, pad);
    ScaledBelow(Value(data, 256), Pow(256, n), Pow(2, pad));
  }

  /** The digits that the decoder reads back form the shifted number. */
  lemma EncodedValue(data: seq<Byte>)
    ensures Plain(Encoded(data)) == Encoded(data) && AllKnown(Encoded(data))
    ensures |Encoded(data)| == EncodedLength(|data|)
    ensures Value(DigitsOf(Encoded(data)), 32) == Value(data, 256) * Pow(2, Pad(|data|))
  {
    EncodingFits(data);
    hide Plain, AllKnown, Value, Pow, Digits;
    var v, m := Value(data, 256) * Pow(2, Pad(|data|)), EncodedLength(|data|);
    PlainIsPlain(Digits(v, m, 32));
    ValueOfDigits(v, m, 32);
  }

  lemma LengthsMatch(n: nat)
    ensures 5 * EncodedLength(n) % 8 == Pad(n) && 5 * EncodedLength(n) / 8 == n
  {
  }

  /** Decoding an encoding gives the bytes back, for every byte string. */
  lemma RoundTrip(data: seq<Byte>)
    ensures AllKnown(Plain(Encoded(data))) && Decoded(Plain(Encoded(data))) == data
  {
    hide Plain, Encoded, DigitsOf, AllKnown, Digits, Value, Pow, Pad, EncodedLength;
    var n, pad, m := |data|, Pad(|data|), EncodedLength(|data|);
    var v := Value(data, 256);
    EncodedValue(data);
    LengthsMatch(n);
    PowPositive(2, pad);
    DivisionUnique(v * Pow(2, pad), Pow(2, pad), v, 0);
    DigitsOfValue(data, 256);
  }

  /** Any spelling that reads the same decodes the same: case and lookalikes do not matter. */
  lemma SpellingDoesNotMatter(t: string, u: string)
    requires |t| == |u| && forall i :: 0 <= i < |t| ==> Reading(t[i]) == Reading(u[i])
    ensures Plain(t) == Plain(u)
  {
    SameReadingStripLeft(t, u);
    var tl, ul := StripLeft(t), StripLeft(u);
    SameReadingStripRight(tl, ul);
    SameReadingDrop(StripRight(tl), StripRight(ul));
  }

  ghost predicate SameReading(t: string, u: string) {
    |t| == |u| && forall i :: 0 <= i < |t| ==> Reading(t[i]) == Reading(u[i])
  }

  lemma ReadingKeepsClass(c: char, d: char)
    requires Reading(c) == Reading(d)
    ensures IsSpace(c) == IsSpace(d) && (c == '-' <==> d == '-')
  {
  }

  lemma {:induction false} SameReadingStripLeft(t: string, u: string)
    requires SameReading(t, u)
    ensures SameReading(StripLeft(t), StripLeft(u))
  {
    if t != [] {
      ReadingKeepsClass(t[0], u[0]);
      SameReadingStripLeft(t[1..], u[1..]);
    }
  }

  lemma {:induction false} SameReadingStripRight(t: string, u: string)
    requires SameReading(t, u)
    ensures SameReading(StripRight(t), StripRight(u))
  {
    if t != [] {
      ReadingKeepsClass(t[|t| - 1], u[|u| - 1]);
      SameReadingStripRight(t[..|t| - 1], u[..|u| - 1]);
    }
  }

  lemma {:induction false} SameReadingDrop(t: string, u: string)
    requires SameReading(t, u)
    ensures SameReading(DropHyphens(t), DropHyphens(u))
  {
    if t != [] {
      ReadingKeepsClass(t[0], u[0]);
      SameReadingDrop(t[1..], u[1..]);
    }
  }

  lemma {:induction false} DropHyphensAppend(a: string, b: string)
    ensures DropHyphens(a + b) == DropHyphens(a) + DropHyphens(b)
  {
    if a == [] {
      assert a + b == b;
    } else {
      assert (a + b)[1..] == a[1..] + b;
      DropHyphensAppend(a[1..], b);
    }
  }

  predicate Blank(t: string) {
    forall i :: 0 <= i < |t| ==> IsSpace(t[i])
  }

  lemma {:induction false} LeftCut(t: string) returns (k: nat)
    ensures k <= |t| && StripLeft(t) == t[k..] && Blank(t[..k])
    ensures k == 0 <==> t == [] || !IsSpace(t[0])
    ensures Blank(t) <==> StripLeft(t) == []
    ensures StripLeft(t) != [] ==> !IsSpace(StripLeft(t)[0])
  {
    if t == [] || !IsSpace(t[0]) {
      k := 0;
    } else {
      var rest := LeftCut(t[1..]);
      k := rest + 1;
      assert t[k..] == t[1..][rest..] && t[..k] == [t[0]] + t[1..][..rest];
    }
  }

  lemma {:induction false} RightCut(t: string) returns (k: nat)
    ensures k <= |t| && StripRight(t) == t[..k] && Blank(t[k..])
    ensures k == |t| <==> t == [] || !IsSpace(t[|t| - 1])
  {
    if t == [] || !IsSpace(t[|t| - 1]) {
      k := |t|;
    } else {
      var n := |t| - 1;
      k := RightCut(t[..n]);
      assert t[..k] == t[..n][..k] && t[k..] == t[..n][k..] + [t[n]];
    }
  }

  lemma {:induction false} StripLeftAppend(x: string, y: string)
    ensures StripLeft(x + y) == if Blank(x) then StripLeft(y) else StripLeft(x) + y
  {
    if x == [] {
      assert x + y == y;
    } else if IsSpace(x[0]) {
      assert (x + y)[1..] == x[1..] + y && x == [x[0]] + x[1..];
      StripLeftAppend(x[1..], y);
    }
  }

  lemma {:induction false} StripRightAppend(x: string, y: string)
    ensures StripRight(x + y) == if Blank(y) then StripRight(x) else x + StripRight(y)
    decreases |y|
  {
    if y == [] {
      assert x + y == x;
    } else {
      var n := |y| - 1;
      assert (x + y)[..|x + y| - 1] == x + y[..n] && y == y[..n] + [y[n]];
      if IsSpace(y[n]) {
        StripRightAppend(x, y[..n]);
      }
    }
  }

  lemma {:induction false} BlankHasNoHyphens(t: string)
    requires Blank(t)
    ensures DropHyphens(t) == t
  {
    if t != [] {
      BlankHasNoHyphens(t[1..]);
    }
  }

  function Cleaned(t: string): string {
    DropHyphens(StripRight(StripLeft(t)))
  }

  ghost predicate HasSpace(t: string) {
    exists i :: 0 <= i < |t| && IsSpace(t[i])
  }

  /** The hyphen lands outside the text proper, so that white space next to it is no longer trimmed. */
  predicate Outside(a: string, b: string) {
    || (Blank(a) && !Blank(b) && IsSpace(b[0]))
    || (Blank(b) && !Blank(a) && IsSpace(a[|a| - 1]))
  }

  lemma HyphenInFront(a: string, b: string)
    requires Blank(a)
    ensures Cleaned(a + ("-" + b)) == Cleaned(a + b) <==> !Outside(a, b)
    ensures |Cleaned(a + ("-" + b))| == |Cleaned(a + b)| <==> !Outside(a, b)
  {
    var t := "-" + b;
    StripLeftAppend(a, t);
    StripLeftAppend(a, b);
    assert StripLeft(t) == t;
    StripRightAppend("-", b);
    OneHyphen();
    var k := LeftCut(b);
    if Blank(b) {
      assert StripRight("-") == "-";
    } else {
      var lead, core := b[..k], b[k..];
      assert b == lead + core && !Blank(core);
      StripRightAppend(lead, core);
      DropHyphensAppend("-", StripRight(b));
      DropHyphensAppend(lead, StripRight(core));
      BlankHasNoHyphens(lead);
    }
  }

  lemma HyphenIsNotBlank(b: string)
    ensures !Blank("-" + b)
  {
    assert !IsSpace(("-" + b)[0]);
  }

  /** Without a hyphen behind it, white space at the end of the text proper is trimmed. */
  lemma TrimmedBehind(core: string)
    requires core != []
    ensures |DropHyphens(core)| == |DropHyphens(StripRight(core))| <==> !IsSpace(core[|core| - 1])
    ensures DropHyphens(core) == DropHyphens(StripRight(core)) <==> !IsSpace(core[|core| - 1])
  {
    var k := RightCut(core);
    hide StripRight, DropHyphens, Blank;
    assert core == core[..k] + core[k..];
    DropHyphensAppend(core[..k], core[k..]);
    BlankHasNoHyphens(core[k..]);
  }

  lemma HyphenBehind(a: string, b: string)
    requires !Blank(a) && Blank(b)
    ensures Cleaned(a + ("-" + b)) == Cleaned(a + b) <==> !Outside(a, b)
    ensures |Cleaned(a + ("-" + b))| == |Cleaned(a + b)| <==> !Outside(a, b)
  {
    var j := LeftCut(a);
    var core := StripLeft(a);
    assert core != [] && core[|core| - 1] == a[|a| - 1];
    assert StripRight("-") == "-";
    assert Outside(a, b) <==> IsSpace(core[|core| - 1]);
    hide StripLeft, StripRight, DropHyphens, Blank, Outside;
    StripLeftAppend(a, "-" + b);
    StripLeftAppend(a, b);
    HyphenIsNotBlank(b);
    StripRightAppend(core, "-" + b);
    StripRightAppend(core, b);
    StripRightAppend("-", b);
    OneHyphen();
    DropHyphensAppend(core, "-");
    assert DropHyphens(core) + [] == DropHyphens(core);
    TrimmedBehind(core);
  }

  lemma HyphenInside(a: string, b: string)
    requires !Blank(a) && !Blank(b)
    ensures Cleaned(a + ("-" + b)) == Cleaned(a + b)
  {
    hide StripLeft, StripRight, DropHyphens, Blank;
    var core, rest := StripLeft(a), StripRight(b);
    StripLeftAppend(a, "-" + b);
    StripLeftAppend(a, b);
    HyphenIsNotBlank(b);
    StripRightAppend(core, "-" + b);
    StripRightAppend(core, b);
    StripRightAppend("-", b);
    OneHyphen();
    DropHyphensAppend(core, "-" + rest);
    DropHyphensAppend("-", rest);
    DropHyphensAppend(core, rest);
    hide Cleaned;
    var drop := DropHyphens(rest);
    assert [] + drop == drop;
    assert DropHyphens(core + ("-" + rest)) == DropHyphens(core + rest);
    CleanedIs(a + ("-" + b), core + ("-" + rest));
    CleanedIs(a + b, core + rest);
  }

  lemma CleanedIs(t: string, trimmed: string)
    requires StripRight(StripLeft(t)) == trimmed
    ensures Cleaned(t) == DropHyphens(trimmed)
  {
  }

  /** What `b32d` returns; nothing when it raises. */
  function Decodes(text: string): Option<seq<nat>> {
    if AllKnown(Plain(text)) then Some(Decoded(Plain(text))) else None
  }

  /** White space inside the text is no symbol. */
  lemma SpaceIsUnknown(t: string)
    requires HasSpace(Cleaned(t))
    ensures Decodes(t) == None
  {
    hide ALPHABET;
    var i :| 0 <= i < |Cleaned(t)| && IsSpace(Cleaned(t)[i]);
    SpaceIsNoSymbol(Cleaned(t)[i]);
    assert Plain(t)[i] == Reading(Cleaned(t)[i]);
  }

  lemma SpaceIsNoSymbol(c: char)
    requires IsSpace(c)
    ensures Reading(c) == c && Lookup(c) == 32
  {
    var d := Lookup(c);
    if d < 32 {
      SymbolsAreLetters(d);
    }
  }

  lemma SymbolsAreLetters(d: nat)
    requires d < 32
    ensures '0' <= ALPHABET[d]
  {
  }

  /**
   An inserted hyphen leaves the symbols as they are exactly when it does not shield white space at the ends from
   trimming; when it does, decoding raises. So it changes the outcome exactly when it shields white space at the
   ends of a text that decodes.
   */
  lemma HyphensDoNotMatter(a: string, b: string)
    ensures Plain(a + "-" + b) == Plain(a + b) <==> !Outside(a, b)
    ensures Decodes(a + "-" + b) == Decodes(a + b) <==> !Outside(a, b) || !AllKnown(Plain(a + b))
  {
    PlainWithHyphen(a, b);
    hide Plain, Cleaned, Outside, Decoded, AllKnown;
    if Outside(a, b) {
      SpaceIsUnknown(a + "-" + b);
    }
  }

  lemma ShieldedInFront(a: string, b: string)
    requires Blank(a) && !Blank(b) && IsSpace(b[0])
    ensures HasSpace(Cleaned(a + ("-" + b)))
  {
    hide StripRight, DropHyphens, Blank;
    StripLeftAppend(a, "-" + b);
    assert StripLeft("-" + b) == "-" + b;
    StripRightAppend("-", b);
    var rest := StripRight(b);
    var k := RightCut(b);
    assert k > 0 by {
      assert b[0..] == b;
    }
    DropHyphensAppend("-", rest);
    OneHyphen();
    assert rest == [b[0]] + rest[1..];
    DropHyphensAppend([b[0]], rest[1..]);
    SpaceStays(b[0]);
    assert Cleaned(a + ("-" + b)) == [b[0]] + DropHyphens(rest[1..]);
    assert Cleaned(a + ("-" + b))[0] == b[0];
  }

  lemma ShieldedBehind(a: string, b: string)
    requires Blank(b) && !Blank(a) && IsSpace(a[|a| - 1])
    ensures HasSpace(Cleaned(a + ("-" + b)))
  {
    hide StripLeft, StripRight, DropHyphens, Blank;
    var k := LeftCut(a);
    var core := StripLeft(a);
    assert core != [] && core[|core| - 1] == a[|a| - 1];
    StripLeftAppend(a, "-" + b);
    HyphenIsNotBlank(b);
    StripRightAppend(core, "-" + b);
    StripRightAppend("-", b);
    OnlyHyphen();
    var n := |core| - 1;
    assert core == core[..n] + [core[n]];
    DropHyphensAppend(core, "-");
    DropHyphensAppend(core[..n], [core[n]]);
    OneHyphen();
    SpaceStays(core[n]);
    var cleaned := Cleaned(a + ("-" + b));
    assert cleaned == DropHyphens(core[..n]) + [core[n]];
    assert cleaned[|cleaned| - 1] == core[n];
  }

  lemma SpaceStays(c: char)
    requires IsSpace(c)
    ensures DropHyphens([c]) == [c]
  {
  }

  lemma OnlyHyphen()
    ensures StripRight("-") == "-"
  {
  }

  lemma PlainWithHyphen(a: string, b: string)
    ensures Plain(a + "-" + b) == Plain(a + b) <==> !Outside(a, b)
    ensures Outside(a, b) ==> HasSpace(Cleaned(a + "-" + b))
  {
    assert a + "-" + b == a + ("-" + b);
    assert !Blank(a) && !Blank(b) ==> !Outside(a, b);
    if Outside(a, b) {
      if Blank(a) {
        ShieldedInFront(a, b);
      } else {
        ShieldedBehind(a, b);
      }
    }
    hide Outside, Blank, DropHyphens, StripLeft, StripRight, HasSpace;
    if Blank(a) {
      HyphenInFront(a, b);
    } else if Blank(b) {
      HyphenBehind(a, b);
    } else {
      HyphenInside(a, b);
    }
    var t, u := Cleaned(a + ("-" + b)), Cleaned(a + b);
    assert |Plain(a + ("-" + b))| == |t| && |Plain(a + b)| == |u|;
  }

  lemma OneHyphen()
    ensures DropHyphens("-") == []
  {
  }

  // -- the alphabet -------------------------------------------------------------------

  /** Digits, then letters without I, L, O and U, each greater than the one before. */
  predicate IsSymbol(c: char) {
    ('0' <= c <= '9' || 'A' <= c <= 'Z') && c != 'I' && c != 'L' && c != 'O' && c != 'U'
  }

  lemma SymbolAt(d: nat)
    requires d < 32
    ensures IsSymbol(ALPHABET[d])
  {
  }

  lemma SymbolIndex(c: char) returns (d: nat)
    requires IsSymbol(c)
    ensures d < 32 && ALPHABET[d] == c
  {
    d := if c <= '9' then (c - '0') as nat
         else if c <= 'H' then (c - 'A') as nat + 10
         else if c <= 'K' then (c - 'J') as nat + 18
         else if c <= 'N' then (c - 'M') as nat + 20
         else if c <= 'T' then (c - 'P') as nat + 22
         else (c - 'V') as nat + 27;
  }

  /** The 32 symbols, in order of their values. */
  lemma AlphabetIs(c: char, i: nat, j: nat)
    ensures |ALPHABET| == 32
    ensures IsSymbol(c) <==> exists d :: 0 <= d < 32 && ALPHABET[d] == c
    ensures i < j < 32 ==> ALPHABET[i] < ALPHABET[j]
  {
    assert |ALPHABET| == 32;
    hide ALPHABET;
    if IsSymbol(c) {
      var d := SymbolIndex(c);
    }
    forall d: nat | d < 32 ensures IsSymbol(ALPHABET[d]) {
      SymbolAt(d);
    }
    if i < j < 32 {
      AlphabetOrder(i, j);
    }
  }

  /** Anywhere in a text a small letter reads as its capital, O as zero, I and L as one, and U as V. */
  lemma LookalikesRead(t: string, i: nat, c: char)
    requires i < |t|
    ensures 'a' <= c <= 'z' ==> Decodes(t[i := c]) == Decodes(t[i := c - 'a' + 'A'])
    ensures Decodes(t[i := 'O']) == Decodes(t[i := '0']) == Decodes(t[i := 'o'])
    ensures Decodes(t[i := 'I']) == Decodes(t[i := '1']) == Decodes(t[i := 'i'])
    ensures Decodes(t[i := 'L']) == Decodes(t[i := '1']) == Decodes(t[i := 'l'])
    ensures Decodes(t[i := 'U']) == Decodes(t[i := 'V']) == Decodes(t[i := 'u'])
  {
    hide Decodes, Plain, AllKnown, Decoded;
    if 'a' <= c <= 'z' {
      ReadsAlike(t, i, c, c - 'a' + 'A');
    }
    ReadsAlike(t, i, 'O', '0');
    ReadsAlike(t, i, 'o', '0');
    ReadsAlike(t, i, 'I', '1');
    ReadsAlike(t, i, 'i', '1');
    ReadsAlike(t, i, 'L', '1');
    ReadsAlike(t, i, 'l', '1');
    ReadsAlike(t, i, 'U', 'V');
    ReadsAlike(t, i, 'u', 'V');
  }

  lemma ReadsAlike(t: string, i: nat, c: char, d: char)
    requires i < |t| && Reading(c) == Reading(d)
    ensures Decodes(t[i := c]) == Decodes(t[i := d])
  {
    SpellingDoesNotMatter(t[i := c], t[i := d]);
  }

  // -- the ends of a text ---------------------------------------------------------------

  /** Space, tab to carriage return, and the four separators. */
  predicate White(c: char) {
    c as int == 32 || 9 <= c as int <= 13 || 28 <= c as int <= 31
  }

  /** White space at either end does not change what is decoded. */
  lemma EndsAreTrimmed(t: string, c: char)
    requires White(c)
    ensures Decodes([c] + t) == Decodes(t) && Decodes(t + [c]) == Decodes(t)
  {
    assert IsSpace(c);
    OneBlank(c);
    StripLeftAppend([c], t);
    StripLeftAppend(t, [c]);
    BlankIsEmpty(t);
    StripRightAppend(StripLeft(t), [c]);
    OneBlankStrips(c);
    hide StripLeft, StripRight, DropHyphens, Blank;
    SameCleanedDecodes([c] + t, t);
    SameCleanedDecodes(t + [c], t);
  }

  lemma OneBlank(c: char)
    requires IsSpace(c)
    ensures Blank([c])
  {
  }

  lemma OneBlankStrips(c: char)
    requires IsSpace(c)
    ensures StripLeft([c]) == []
  {
    assert [c][1..] == [];
  }

  lemma BlankIsEmpty(t: string)
    ensures Blank(t) ==> StripLeft(t) == []
  {
    var k := LeftCut(t);
  }

  lemma SameCleanedDecodes(t: string, u: string)
    requires StripRight(StripLeft(t)) == StripRight(StripLeft(u))
    ensures Decodes(t) == Decodes(u)
  {
    hide StripLeft, StripRight, DropHyphens;
    assert Plain(t) == Plain(u);
  }

  /** Any other character before the digits, but the hyphen, makes the text undecodable wherever it stands first. */
  lemma StrangersAreRefused(t: string, c: char)
    requires (c as int) < 48 && !White(c) && c != '-'
    ensures Decodes([c] + t) == None
  {
    assert !IsSpace(c) && Reading(c) == c;
    var u := [c] + t;
    assert StripLeft(u) == u;
    StripRightAppend([c], t);
    StrangerStays(c);
    hide StripLeft, StripRight, Blank;
    var rest := if Blank(t) then [] else StripRight(t);
    assert StripRight(u) == [c] + rest;
    DropHyphensAppend([c], rest);
    OneStranger(c);
    hide DropHyphens;
    assert Cleaned(u) == [c] + DropHyphens(rest);
    assert Plain(u)[0] == Reading(c);
    if Lookup(c) < 32 {
      SymbolsAreLetters(Lookup(c));
    }
    hide Plain;
  }

  lemma StrangerStays(c: char)
    requires !IsSpace(c)
    ensures StripRight([c]) == [c]
  {
  }

  lemma OneStranger(c: char)
    requires c != '-'
    ensures DropHyphens([c]) == [c]
  {
    assert [c][1..] == [];
  }
}
