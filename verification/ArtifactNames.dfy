/**
 The names batch mode gives its binaries (src/cli_args.cpp): the sanitized path of the
 source and 16 hexadecimal digits of its 64-bit FNV-1a hash (section 2 of
 draft-eastlake-fnv).
 */
module ArtifactNames {
  import opened Paths

  const MODULUS: nat := 0x1_0000_0000_0000_0000
  const FNV_OFFSET_BASIS: nat := 14695981039346656037
  const FNV_PRIME: nat := 1099511628211
  /** The inverse of the prime modulo 2^64, and how often 2^64 goes into their product. */
  const FNV_INVERSE: nat := 0xce96_5057_aff6_957b
  const INVERSE_QUOTIENT: nat := FNV_PRIME * FNV_INVERSE / MODULUS

  type Word = n: nat | n < MODULUS
  type Byte = n: nat | n < 256

  // ---- The hash ----

  function PowerOfTwo(bits: nat): nat {
    if bits == 0 then 1 else 2 * PowerOfTwo(bits - 1)
  }

  /** Exclusive or of the low `bits` bits. */
  function Xor(a: nat, b: nat, bits: nat): (r: nat)
    ensures r < PowerOfTwo(bits)
  {
    if bits == 0 then 0 else (a % 2 + b % 2) % 2 + 2 * Xor(a / 2, b / 2, bits - 1)
  }

  lemma XorHalves(a: nat, b: nat, bits: nat)
    requires bits > 0
    ensures Xor(a, b, bits) / 2 == Xor(a / 2, b / 2, bits - 1) && Xor(a, b, bits) % 2 == (a % 2 + b % 2) % 2
  {
  }

  lemma ParityCancels(x: nat, y: nat)
    requires x < 2 && y < 2
    ensures ((x + y) % 2 + y) % 2 == x
  {
    if y == 1 && x == 1 {
      assert (x + y) % 2 == 0;
    }
  }

  /** Exclusive or undoes itself on the left operand. */
  lemma {:induction false} XorCancels(a: nat, b: nat, bits: nat)
    requires a < PowerOfTwo(bits)
    ensures Xor(Xor(a, b, bits), b, bits) == a
  {
    if bits > 0 {
      XorHalves(a, b, bits);
      XorCancels(a / 2, b / 2, bits - 1);
      ParityCancels(a % 2, b % 2);
    }
  }

  /** And on the right one. */
  lemma {:induction false} XorCommutes(a: nat, b: nat, bits: nat)
    ensures Xor(a, b, bits) == Xor(b, a, bits)
  {
    if bits > 0 {
      XorCommutes(a / 2, b / 2, bits - 1);
    }
  }

  lemma WordBits()
    ensures PowerOfTwo(64) == MODULUS
  {
    assert PowerOfTwo(4) == 16;
    PowerSplit(4, 4);
    PowerSplit(8, 8);
    PowerSplit(16, 16);
    PowerSplit(32, 32);
  }

  lemma {:induction false} PowerSplit(a: nat, b: nat)
    ensures PowerOfTwo(a + b) == PowerOfTwo(a) * PowerOfTwo(b)
  {
    if a > 0 {
      PowerSplit(a - 1, b);
    }
  }

  /** One byte of FNV-1a: exclusive or, then a multiplication modulo 2^64. */
  function HashStep(hash: Word, byte: Byte): Word {
    Xor(hash, byte, 64) * FNV_PRIME % MODULUS
  }

  function HashFrom(hash: Word, text: seq<Byte>): Word
    decreases |text|
  {
    if text == [] then hash else HashFrom(HashStep(hash, text[0]), text[1..])
  }

  function Hash(text: seq<Byte>): Word {
    HashFrom(FNV_OFFSET_BASIS, text)
  }

  method StablePathHash(text: seq<Byte>) returns (hash: Word)
    ensures hash == Hash(text)
  {
    hash := FNV_OFFSET_BASIS;
    for i := 0 to |text|
      invariant HashFrom(hash, text[i..]) == Hash(text)
    {
      assert text[i..][0] == text[i] && text[i..][1..] == text[i + 1..];
      hash := HashStep(hash, text[i]);
    }
  }

  lemma ThreeFactors(x: int, y: int, z: int)
    ensures x * y * z == x * (y * z)
  {
  }

  lemma TimesSum(x: int, y: int, z: int)
    ensures x * (y + z) == x * y + x * z
    ensures (y + z) * x == y * x + z * x
  {
  }

  lemma NoSmallMultiple(modulus: nat, times: int)
    ensures times >= 1 ==> modulus * times >= modulus
    ensures times <= -1 ==> modulus * times <= 0 - modulus
  {
  }

  /** A value below the modulus is the remainder of itself plus any multiple of the modulus. */
  lemma RemainderOf(x: nat, y: int, modulus: nat, times: int)
    requires x < modulus && y == x + modulus * times
    ensures y % modulus == x
  {
    var d := y / modulus - times;
    assert y == modulus * (y / modulus) + y % modulus;
    TimesSum(modulus, y / modulus, -times);
    assert modulus * d == x - y % modulus;
    NoSmallMultiple(modulus, d);
  }

  /** Multiplying modulo `modulus` is undone by multiplying by an inverse of the factor. */
  lemma InverseUndoes(x: nat, factor: nat, inverse: nat, quotient: nat, modulus: nat)
    requires x < modulus && factor * inverse == 1 + quotient * modulus
    ensures (x * factor % modulus) * inverse % modulus == x
  {
    var product := x * factor;
    var q, r := product / modulus, product % modulus;
    assert product == modulus * q + r;
    TimesSum(inverse, modulus * q, r);
    ThreeFactors(modulus, q, inverse);
    ThreeFactors(x, factor, inverse);
    TimesSum(x, 1, quotient * modulus);
    ThreeFactors(x, quotient, modulus);
    assert r * inverse == x + x * quotient * modulus - modulus * (q * inverse);
    TimesSum(modulus, x * quotient, -(q * inverse));
    RemainderOf(x, r * inverse, modulus, x * quotient - q * inverse);
  }

  /** Multiplying by the prime is undone by multiplying by its inverse. */
  lemma PrimeInverse(x: Word)
    ensures (x * FNV_PRIME % MODULUS) * FNV_INVERSE % MODULUS == x
  {
    assert FNV_PRIME * FNV_INVERSE == 1 + INVERSE_QUOTIENT * MODULUS;
    InverseUndoes(x, FNV_PRIME, FNV_INVERSE, INVERSE_QUOTIENT, MODULUS);
  }

  lemma PrimeIsInjective(a: Word, b: Word)
    requires a * FNV_PRIME % MODULUS == b * FNV_PRIME % MODULUS
    ensures a == b
  {
    PrimeInverse(a);
    PrimeInverse(b);
  }

  /** The hash step is injective in the state, and in the byte. */
  lemma StepInjective(a: Word, b: Word, x: Byte, y: Byte)
    requires HashStep(a, x) == HashStep(b, y)
    ensures x == y ==> a == b
    ensures a == b ==> x == y
  {
    WordBits();
    var mixedA, mixedB := Xor(a, x, 64), Xor(b, y, 64);
    PrimeIsInjective(mixedA, mixedB);
    if x == y {
      XorCancels(a, x, 64);
      XorCancels(b, x, 64);
    } else if a == b {
      XorCommutes(a, x, 64);
      XorCommutes(a, y, 64);
      XorCancels(x, a, 64);
      XorCancels(y, a, 64);
      assert false;
    }
  }

  /** The same bytes keep different states apart, however many they are. */
  lemma {:induction false} TailKeepsApart(a: Word, b: Word, tail: seq<Byte>)
    requires a != b
    ensures HashFrom(a, tail) != HashFrom(b, tail)
    decreases |tail|
  {
    if tail != [] {
      if HashStep(a, tail[0]) == HashStep(b, tail[0]) {
        StepInjective(a, b, tail[0], tail[0]);
        assert false;
      }
      TailKeepsApart(HashStep(a, tail[0]), HashStep(b, tail[0]), tail[1..]);
    }
  }

  /** Two texts of one length that differ in exactly one byte have different hashes. */
  lemma {:induction false} OneByteSeparates(hash: Word, a: seq<Byte>, b: seq<Byte>, k: nat)
    requires |a| == |b| && k < |a| && a[k] != b[k]
    requires forall i :: 0 <= i < |a| && i != k ==> a[i] == b[i]
    ensures HashFrom(hash, a) != HashFrom(hash, b)
    decreases k
  {
    if k == 0 {
      assert a[1..] == b[1..];
      if HashStep(hash, a[0]) == HashStep(hash, b[0]) {
        StepInjective(hash, hash, a[0], b[0]);
        assert false;
      }
      TailKeepsApart(HashStep(hash, a[0]), HashStep(hash, b[0]), a[1..]);
    } else {
      OneByteSeparates(HashStep(hash, a[0]), a[1..], b[1..], k - 1);
    }
  }

  // ---- The digest ----

  function HexDigit(n: nat): char
    requires n < 16
  {
    if n < 10 then ('0' as int + n) as char else ('a' as int + n - 10) as char
  }

  /** The hexadecimal digits of `value`, without leading zeros. */
  function Hex(value: nat): (s: string)
    ensures s != ""
  {
    if value < 16 then [HexDigit(value)] else Hex(value / 16) + [HexDigit(value % 16)]
  }

  function Zeros(n: nat): (s: string)
    ensures |s| == n
  {
    if n == 0 then "" else "0" + Zeros(n - 1)
  }

  /** `std::setw(16)` with a zero fill pads on the left and never cuts. */
  function HexDigest(value: Word): string {
    var digits := Hex(value);
    if |digits| >= 16 then digits else Zeros(16 - |digits|) + digits
  }

  /** The low `width` digits of `value`. */
  function FixedHex(value: nat, width: nat): (s: string)
    ensures |s| == width
  {
    if width == 0 then "" else FixedHex(value / 16, width - 1) + [HexDigit(value % 16)]
  }

  function PowerOf16(n: nat): nat {
    if n == 0 then 1 else 16 * PowerOf16(n - 1)
  }

  lemma {:induction false} ZeroDigits(width: nat)
    ensures FixedHex(0, width) == Zeros(width)
  {
    if width > 0 {
      ZeroDigits(width - 1);
      ZerosSnoc(width - 1);
    }
  }

  lemma {:induction false} ZerosSnoc(n: nat)
    ensures Zeros(n) + "0" == Zeros(n + 1)
  {
    if n > 0 {
      ZerosSnoc(n - 1);
      assert Zeros(n) + "0" == "0" + (Zeros(n - 1) + "0");
    }
  }

  /** Padding the digits of a value that fits gives its fixed-width digits. */
  lemma {:induction false} PaddedIsFixed(value: nat, width: nat)
    requires value < PowerOf16(width) && width > 0
    ensures |Hex(value)| <= width && Zeros(width - |Hex(value)|) + Hex(value) == FixedHex(value, width)
  {
    if value < 16 {
      ZeroDigits(width - 1);
      assert value / 16 == 0;
    } else {
      assert width > 1;
      PaddedIsFixed(value / 16, width - 1);
      var high, low := Hex(value / 16), [HexDigit(value % 16)];
      assert Zeros(width - |Hex(value)|) + (high + low) == (Zeros(width - 1 - |high|) + high) + low;
    }
  }

  /** Fixed-width digits determine a value that fits. */
  lemma {:induction false} FixedInjective(a: nat, b: nat, width: nat)
    requires a < PowerOf16(width) && b < PowerOf16(width) && FixedHex(a, width) == FixedHex(b, width)
    ensures a == b
  {
    if width > 0 {
      var highA, highB := FixedHex(a / 16, width - 1), FixedHex(b / 16, width - 1);
      assert FixedHex(a, width)[..width - 1] == highA && FixedHex(b, width)[..width - 1] == highB;
      assert FixedHex(a, width)[width - 1] == HexDigit(a % 16) && FixedHex(b, width)[width - 1] == HexDigit(b % 16);
      FixedInjective(a / 16, b / 16, width - 1);
    }
  }

  lemma SixteenDigits()
    ensures PowerOf16(16) == MODULUS
  {
    assert PowerOf16(4) == 65536;
    assert PowerOf16(8) == 0x1_0000_0000;
  }

  /** The digest is always 16 digits, and different values have different ones. */
  lemma DigestFixed(value: Word)
    ensures HexDigest(value) == FixedHex(value, 16) && |HexDigest(value)| == 16
  {
    SixteenDigits();
    PaddedIsFixed(value, 16);
  }

  lemma DigestInjective(a: Word, b: Word)
    requires HexDigest(a) == HexDigest(b)
    ensures a == b
  {
    SixteenDigits();
    DigestFixed(a);
    DigestFixed(b);
    FixedInjective(a, b, 16);
  }

  /** The number hexadecimal digits stand for. */
  function HexNumber(s: string): nat {
    if s == "" then 0
    else
      var c := s[|s| - 1];
      16 * HexNumber(s[..|s| - 1])
        + (if '0' <= c <= '9' then c as nat - '0' as nat else if 'a' <= c <= 'f' then c as nat - 'a' as nat + 10 else 0)
  }

  /** Reading the digits gives the value back. */
  lemma {:induction false} HexRoundTrip(value: nat, width: nat)
    requires value < PowerOf16(width)
    ensures HexNumber(FixedHex(value, width)) == value
  {
    if width > 0 {
      var s := FixedHex(value, width);
      assert s[..|s| - 1] == FixedHex(value / 16, width - 1);
      HexRoundTrip(value / 16, width - 1);
    }
  }

  lemma DigestRoundTrip(value: Word)
    ensures HexNumber(HexDigest(value)) == value
  {
    SixteenDigits();
    DigestFixed(value);
    HexRoundTrip(value, 16);
  }

  // ---- Known hashes ----

  lemma {:induction false} XorZero(a: nat, bits: nat)
    requires a < PowerOfTwo(bits)
    ensures Xor(a, 0, bits) == a
  {
    if bits > 0 {
      XorZero(a / 2, bits - 1);
    }
  }

  /** One bit more. */
  lemma XorBit(a: nat, b: nat, bits: nat, above: nat)
    requires bits > 0 && Xor(a / 2, b / 2, bits - 1) == above
    ensures Xor(a, b, bits) == 2 * above + (a % 2 + b % 2) % 2
  {
  }

  /** The hashes of the empty text and of "a" (section 6 of draft-eastlake-fnv). */
  lemma KnownHashes()
    ensures Hash([]) == 0xcbf2_9ce4_8422_2325
    ensures Hash([0x61]) == 0xaf63_dc4c_8601_ec8c
  {
    HashOfA(0x61);
  }

  lemma HashOfA(byte: Byte)
    requires byte == 0x61
    ensures Hash([byte]) == 0xaf63_dc4c_8601_ec8c
  {
    HashOfOne(byte, FNV_OFFSET_BASIS);
    MixedWithA(FNV_OFFSET_BASIS, byte, 64);
    MixedTimesPrime(Xor(FNV_OFFSET_BASIS, byte, 64));
  }

  lemma HashOfOne(byte: Byte, basis: Word)
    requires basis == FNV_OFFSET_BASIS
    ensures Hash([byte]) == Xor(basis, byte, 64) * FNV_PRIME % MODULUS
  {
    assert [byte][1..] == [];
    assert HashFrom(HashStep(basis, byte), []) == HashStep(basis, byte);
  }

  lemma MixedTimesPrime(mixed: nat)
    requires mixed == 0xcbf2_9ce4_8422_2344
    ensures mixed * FNV_PRIME % MODULUS == 0xaf63_dc4c_8601_ec8c
  {
  }

  /** Four bits more. */
  lemma XorNibble(a: nat, b: nat, bits: nat, above: nat)
    requires bits >= 4 && Xor(a / 16, b / 16, bits - 4) == above
    ensures Xor(a, b, bits) == 16 * above + 8 * ((a / 8 % 2 + b / 8 % 2) % 2) + 4 * ((a / 4 % 2 + b / 4 % 2) % 2)
      + 2 * ((a / 2 % 2 + b / 2 % 2) % 2) + (a % 2 + b % 2) % 2
  {
    assert a / 8 / 2 == a / 16 && b / 8 / 2 == b / 16 && a / 4 / 2 == a / 8 && b / 4 / 2 == b / 8;
    assert a / 2 / 2 == a / 4 && b / 2 / 2 == b / 4;
    XorBit(a / 8, b / 8, bits - 3, above);
    XorBit(a / 4, b / 4, bits - 2, Xor(a / 8, b / 8, bits - 3));
    XorBit(a / 2, b / 2, bits - 1, Xor(a / 4, b / 4, bits - 2));
    XorBit(a, b, bits, Xor(a / 2, b / 2, bits - 1));
  }

  lemma NibbleFour(a: nat, b: nat, bits: nat, above: nat)
    requires bits >= 4 && Xor(a / 16, b / 16, bits - 4) == above
    requires LikeFour(a, b)
    ensures Xor(a, b, bits) == 16 * above + 4
  {
    XorNibble(a, b, bits, above);
  }

  /** The two low bytes, a nibble at a time; nothing is above the second byte. */
  lemma TwoNibbles(a: nat, b: nat, bits: nat, high: nat, sixth: nat, top: nat)
    requires bits >= 8 && a / 16 == high && b / 16 == sixth && high / 16 == top && sixth / 16 == 0
    requires top < PowerOfTwo(bits - 8) && LikeFour(a, b) && LikeFour(high, sixth)
    ensures Xor(a, b, bits) == 16 * (16 * top + 4) + 4
  {
    XorZero(top, bits - 8);
    NibbleFour(high, sixth, bits - 4, top);
    NibbleFour(a, b, bits, 16 * top + 4);
  }

  predicate LikeFour(a: nat, b: nat) {
    && (a / 8 % 2 + b / 8 % 2) % 2 == 0 && (a / 4 % 2 + b / 4 % 2) % 2 == 1
    && (a / 2 % 2 + b / 2 % 2) % 2 == 0 && (a % 2 + b % 2) % 2 == 0
  }

  lemma MixedWithA(basis: nat, byte: nat, bits: nat)
    requires basis == 0xcbf2_9ce4_8422_2325 && byte == 0x61 && bits == 64
    ensures Xor(basis, byte, bits) == 0xcbf2_9ce4_8422_2344
  {
    FiftySixBits(bits - 8);
    BasisNibbles(basis, byte);
    TwoNibbles(basis, byte, bits, basis / 16, byte / 16, basis / 16 / 16);
  }

  lemma BasisNibbles(basis: nat, byte: nat)
    requires basis == 0xcbf2_9ce4_8422_2325 && byte == 0x61
    ensures basis / 16 / 16 == 0xcb_f29c_e484_2223 && byte / 16 / 16 == 0
    ensures LikeFour(basis, byte) && LikeFour(basis / 16, byte / 16)
  {
  }

  lemma FiftySixBits(n: nat)
    requires n == 56
    ensures PowerOfTwo(n) == 0x100_0000_0000_0000
  {
    var seven, quarter, half := n / 8, n / 4, n / 2;
    assert PowerOfTwo(7) == 128;
    PowerSplit(seven, seven);
    PowerSplit(quarter, quarter);
    PowerSplit(half, half);
  }

  // ---- Sanitized names ----

  predicate Kept(c: char) {
    'a' <= c <= 'z' || 'A' <= c <= 'Z' || '0' <= c <= '9' || c == '-' || c == '_'
  }

  function Sanitized(name: string): (s: string)
    ensures |s| == |name|
    ensures forall i :: 0 <= i < |s| ==> s[i] == if Kept(name[i]) then name[i] else '_'
  {
    if name == "" then "" else [if Kept(name[0]) then name[0] else '_'] + Sanitized(name[1..])
  }

  /** The loop over the bytes of the name, in place. */
  method SanitizeInPlace(name: array<char>)
    modifies name
    ensures name[..] == Sanitized(old(name[..]))
  {
    for i := 0 to name.Length
      invariant forall j :: 0 <= j < i ==> name[j] == if Kept(old(name[j])) then old(name[j]) else '_'
      invariant forall j :: i <= j < name.Length ==> name[j] == old(name[j])
    {
      if !Kept(name[i]) {
        name[i] := '_';
      }
    }
  }

  method SanitizeArtifactName(path: string) returns (name: string)
    ensures name == ArtifactStem(path)
  {
    var buffer := new char[|path|](i requires 0 <= i < |path| => path[i]);
    assert buffer[..] == path;
    SanitizeInPlace(buffer);
    name := buffer[..];
    if name == "" {
      return "test";
    }
  }

  function ArtifactStem(path: string): string {
    if path == "" then "test" else Sanitized(path)
  }

  /** Byte by byte, letters, digits, '-' and '_' are left, and anything else is '_'. */
  lemma SanitizedMeaning(path: string, i: nat)
    requires i < |path|
    ensures var c := path[i];
      ArtifactStem(path)[i]
        == if 'a' <= c <= 'z' || 'A' <= c <= 'Z' || '0' <= c <= '9' || c == '-' || c == '_' then c else '_'
  {
  }

  /** Only letters, digits, '-' and '_' are left, and at least one of them. */
  lemma StemIsClean(path: string)
    ensures ArtifactStem(path) != "" && forall i :: 0 <= i < |ArtifactStem(path)| ==> Kept(ArtifactStem(path)[i])
  {
  }

  /** A path as bytes. */
  type ByteString = s: string | forall i :: 0 <= i < |s| ==> s[i] as int < 256

  function ToBytes(s: ByteString): (bytes: seq<Byte>)
    ensures |bytes| == |s| && forall i :: 0 <= i < |s| ==> bytes[i] == s[i] as int
  {
    if s == "" then [] else [s[0] as int] + ToBytes(s[1..])
  }

  /** The file a test's binary is in: the sanitized path without its extension, and the hash
      of the whole of it. */
  function ArtifactName(relative: ByteString): string
  {
    ArtifactStem(WithoutExtension(relative)) + "_" + HexDigest(Hash(ToBytes(relative)))
  }

  function TestOutputPath(directory: string, relative: ByteString): string
  {
    InDirectory(directory, ArtifactName(relative))
  }

  method MakeTestOutputPath(directory: string, relative: ByteString) returns (path: string)
    ensures path == TestOutputPath(directory, relative)
  {
    var stem := SanitizeArtifactName(WithoutExtension(relative));
    var hash := StablePathHash(ToBytes(relative));
    return InDirectory(directory, stem + "_" + HexDigest(hash));
  }

  lemma {:induction false} HexIsClean(value: nat, width: nat)
    ensures forall i :: 0 <= i < width ==> Kept(FixedHex(value, width)[i])
  {
    if width > 0 {
      HexIsClean(value / 16, width - 1);
    }
  }

  /** An artifact's name is made of letters, digits, '-' and '_' alone. */
  lemma NameIsClean(relative: ByteString)
    ensures forall i :: 0 <= i < |ArtifactName(relative)| ==> Kept(ArtifactName(relative)[i])
  {
    var stem, hash := ArtifactStem(WithoutExtension(relative)), Hash(ToBytes(relative));
    StemIsClean(WithoutExtension(relative));
    DigestFixed(hash);
    HexIsClean(hash, 16);
    assert ArtifactName(relative) == stem + "_" + HexDigest(hash);
  }

  /** What an artifact's name consists of: the path without its extension, byte by byte, or "test"
      if nothing is left of it; an underscore; and digits that spell the hash of the whole path. */
  lemma ArtifactMeaning(relative: ByteString)
    ensures var name, stem := ArtifactName(relative), WithoutExtension(relative); var n := |name| - 17;
      && n >= 1 && name[n] == '_' && HexNumber(name[n + 1..]) == Hash(ToBytes(relative))
      && (if stem == "" then name[..n] == "test" else n == |stem|)
      && forall i :: 0 <= i < |stem| ==> name[i] == ArtifactStem(stem)[i]
  {
    var stem, hash := ArtifactStem(WithoutExtension(relative)), Hash(ToBytes(relative));
    DigestFixed(hash);
    DigestRoundTrip(hash);
    assert ArtifactName(relative) == stem + "_" + HexDigest(hash);
    assert ArtifactName(relative)[|stem| + 1..] == HexDigest(hash);
    assert ArtifactName(relative)[..|stem|] == stem;
  }

  /** Whatever the source's path, its binary is directly in the output directory, under a
      name of letters, digits, '-' and '_'. */
  lemma StaysInDirectory(directory: string, relative: ByteString)
    ensures FileName(TestOutputPath(directory, relative)) == ArtifactName(relative)
    ensures directory <= TestOutputPath(directory, relative)
    ensures |TestOutputPath(directory, relative)| <= |directory| + 1 + |ArtifactName(relative)|
    ensures forall i :: 0 <= i < |ArtifactName(relative)| ==>
      var c := ArtifactName(relative)[i]; 'a' <= c <= 'z' || 'A' <= c <= 'Z' || '0' <= c <= '9' || c == '-' || c == '_'
  {
    NameIsClean(relative);
    FileNameInDirectory(directory, ArtifactName(relative));
  }

  /** Equal paths come from equal hashes, whatever sanitizing made equal. */
  lemma OutputsDetermineHashes(directory: string, a: ByteString, b: ByteString)
    requires TestOutputPath(directory, a) == TestOutputPath(directory, b)
    ensures Hash(ToBytes(a)) == Hash(ToBytes(b))
  {
    var nameA, nameB := ArtifactName(a), ArtifactName(b);
    StaysInDirectory(directory, a);
    StaysInDirectory(directory, b);
    DigestFixed(Hash(ToBytes(a)));
    DigestFixed(Hash(ToBytes(b)));
    assert nameA[|nameA| - 16..] == HexDigest(Hash(ToBytes(a)));
    assert nameB[|nameB| - 16..] == HexDigest(Hash(ToBytes(b)));
    DigestInjective(Hash(ToBytes(a)), Hash(ToBytes(b)));
  }

  /** Two sources whose paths have one length and differ in one byte never share a binary. */
  lemma OneByteSeparatesOutputs(directory: string, a: ByteString, b: ByteString, k: nat)
    requires |a| == |b| && k < |a| && a[k] != b[k]
    requires forall i :: 0 <= i < |a| && i != k ==> a[i] == b[i]
    ensures TestOutputPath(directory, a) != TestOutputPath(directory, b)
  {
    OneByteSeparates(FNV_OFFSET_BASIS, ToBytes(a), ToBytes(b), k);
    if TestOutputPath(directory, a) == TestOutputPath(directory, b) {
      OutputsDetermineHashes(directory, a, b);
      assert false;
    }
  }
}
