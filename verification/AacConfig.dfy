/** The AAC decoder configuration written bit by bit (BitWriter,
    aacFrequencyIndex and aacAudioSpecificConfig in src/audio-decoder.cpp), and
    the syntax of section 1.6.2.1 of ISO/IEC 14496-3 that reads it. */
module AacConfig {
  import opened Common

  // ------------------------------------------------------------------ bits

  function Pow2(n: nat): nat {
    if n == 0 then 1 else 2 * Pow2(n - 1)
  }

  /** `value` shifted right, a negative one in two's complement. */
  function Shift(value: int, n: nat): int
    decreases n
  {
    if n == 0 then value else Shift(value / 2, n - 1)
  }

  /** The low `n` bits of `value`, the highest first. */
  function Field(value: int, n: nat): seq<bool> {
    seq(n, i requires 0 <= i < n => Shift(value, n - 1 - i) % 2 == 1)
  }

  /** The number that bits stand for, the highest first. */
  function Number(bits: seq<bool>): nat {
    if bits == [] then 0 else 2 * Number(bits[..|bits| - 1]) + if bits[|bits| - 1] then 1 else 0
  }

  lemma {:induction false} NumberBelow(bits: seq<bool>)
    ensures Number(bits) < Pow2(|bits|)
    decreases |bits|
  {
    if bits != [] { NumberBelow(bits[..|bits| - 1]); }
  }

  /** All bits but the lowest are those of the half. */
  lemma FieldHalves(value: int, n: nat)
    requires n > 0
    ensures Field(value, n)[..n - 1] == Field(value / 2, n - 1)
    ensures Field(value, n)[n - 1] == (value % 2 == 1)
  {
    var all, half := Field(value, n), Field(value / 2, n - 1);
    forall i | 0 <= i < n - 1 ensures all[..n - 1][i] == half[i] {
      assert all[i] == (Shift(value, n - 1 - i) % 2 == 1);
      assert Shift(value, n - 1 - i) == Shift(value / 2, n - 2 - i);
    }
    assert all[..n - 1] == half;
    assert Shift(value, 0) == value;
  }

  /** A field holds its number just when the number fits. */
  lemma {:induction false} FieldHolds(value: int, n: nat)
    ensures Number(Field(value, n)) == value <==> 0 <= value < Pow2(n)
    ensures Number(Field(value, n)) < Pow2(n)
    decreases n
  {
    if n > 0 {
      FieldHalves(value, n);
      FieldHolds(value / 2, n - 1);
    }
  }

  // ---------------------------------------------------------- bits in bytes

  /** 0x80 >> k. */
  function Mask(k: nat): bv8
    requires k < 8
  {
    if k == 0 then 0x80 else if k == 1 then 0x40 else if k == 2 then 0x20 else if k == 3 then 0x10
    else if k == 4 then 0x08 else if k == 5 then 0x04 else if k == 6 then 0x02 else 0x01
  }

  predicate BitOf(b: bv8, k: nat)
    requires k < 8
  {
    b & Mask(k) != 0
  }

  /** Bit 0 is the highest of the byte. */
  lemma MaskIsShifted(k: nat)
    requires k < 8
    ensures Mask(k) == (0x80 as bv8) >> k
  {
    match k
    case 0 => case 1 => case 2 => case 3 => case 4 => case 5 => case 6 => case _ =>
  }

  /** The byte holds the eight bits from `first` on; past the end there are zeros. */
  predicate ByteIs(b: bv8, bits: seq<bool>, first: nat) {
    forall k :: 0 <= k < 8 ==> BitOf(b, k) == (first + k < |bits| && bits[first + k])
  }

  /** `bits` from the highest bit of the first byte on, in as few bytes as can
      be, the rest of the last one zero. */
  predicate Packs(bytes: seq<bv8>, bits: seq<bool>) {
    && |bits| <= 8 * |bytes| < |bits| + 8
    && forall q :: 0 <= q < |bytes| ==> ByteIs(bytes[q], bits, 8 * q)
  }

  /** `after` is `b` with bit `k` set if `bit`. */
  predicate Sets(b: bv8, k: nat, bit: bool, after: bv8) {
    forall j :: 0 <= j < 8 ==> BitOf(after, j) == (BitOf(b, j) || (bit && j == k))
  }

  lemma SetsBit(b: bv8, k: nat, j: nat)
    requires k < 8 && j < 8
    ensures BitOf(b | Mask(k), j) == (BitOf(b, j) || j == k)
  {
  }

  method SetBit(b: bv8, k: nat) returns (after: bv8)
    requires k < 8
    ensures Sets(b, k, true, after)
  {
    after := b | Mask(k);
    forall j | 0 <= j < 8 ensures BitOf(after, j) == (BitOf(b, j) || j == k) {
      SetsBit(b, k, j);
    }
  }

  /** The last byte, with the first unused bit now used. */
  lemma LastByte(b: bv8, bits: seq<bool>, bit: bool, first: nat, after: bv8)
    requires first <= |bits| < first + 8 && ByteIs(b, bits, first) && Sets(b, |bits| - first, bit, after)
    ensures ByteIs(after, bits + [bit], first)
  {
  }

  lemma FullByte(b: bv8, bits: seq<bool>, bit: bool, first: nat)
    requires first + 8 <= |bits| && ByteIs(b, bits, first)
    ensures ByteIs(b, bits + [bit], first)
  {
  }

  lemma EmptyByte(bits: seq<bool>)
    ensures ByteIs(0, bits, |bits|)
  {
    forall k | 0 <= k < 8 ensures !BitOf(0, k) {
    }
  }

  /** One more bit: a fresh byte when the last is full, then the bit set or not. */
  /** Which byte takes the next bit. */
  lemma NextByte(packed: nat, bytes: nat, last: nat)
    requires packed <= 8 * bytes < packed + 8 && last == if packed % 8 == 0 then bytes else bytes - 1
    ensures 8 * last + packed % 8 == packed
  {
  }

  lemma ByteStays(bytes: seq<bv8>, bits: seq<bool>, longer: seq<bool>, bit: bool, q: nat)
    requires Packs(bytes, bits) && q < |bytes| && 8 * q + 8 <= |bits| && longer == bits + [bit]
    ensures ByteIs(bytes[q], longer, 8 * q)
  {
    FullByte(bytes[q], bits, bit, 8 * q);
  }

  lemma LastByteGrows(bytes: seq<bv8>, bits: seq<bool>, bit: bool, longer: seq<bool>, last: nat, before: bv8, after: bv8)
    requires Packs(bytes, bits) && longer == bits + [bit] && 8 * last + |bits| % 8 == |bits|
    requires if |bits| % 8 == 0 then last == |bytes| && before == 0 else last < |bytes| && before == bytes[last]
    requires Sets(before, |bits| % 8, bit, after)
    ensures ByteIs(after, longer, 8 * last)
  {
    if |bits| % 8 == 0 { EmptyByte(bits); }
    LastByte(before, bits, bit, 8 * last, after);
  }

  lemma PacksOneMore(bytes: seq<bv8>, bits: seq<bool>, bit: bool, grown: seq<bv8>, after: seq<bv8>)
    requires Packs(bytes, bits) && grown != [] && |after| == |grown|
    requires grown == if |bits| % 8 == 0 then bytes + [0] else bytes
    requires Sets(grown[|grown| - 1], |bits| % 8, bit, after[|grown| - 1])
    requires after[..|grown| - 1] == grown[..|grown| - 1]
    ensures Packs(after, bits + [bit])
  {
    var last, longer := |grown| - 1, bits + [bit];
    NextByte(|bits|, |bytes|, last);
    LastByteGrows(bytes, bits, bit, longer, last, grown[last], after[last]);
    forall q | 0 <= q < |after| ensures ByteIs(after[q], longer, 8 * q) {
      if q < last {
        assert after[q] == after[..last][q] == grown[..last][q] == bytes[q];
        ByteStays(bytes, bits, longer, bit, q);
      }
    }
  }

  class BitWriter {
    var bytes: seq<bv8>
    var used: nat
    ghost var contents: seq<bool>

    ghost predicate Valid() reads this {
      |contents| == used && Packs(bytes, contents)
    }

    constructor ()
      ensures Valid() && contents == []
    {
      bytes, used, contents := [], 0, [];
    }

    method PutBit(bit: bool)
      requires Valid()
      modifies this
      ensures Valid() && contents == old(contents) + [bit]
    {
      ghost var before := bytes;
      if used % 8 == 0 { bytes := bytes + [0]; }
      var last := |bytes| - 1;
      ghost var grown := bytes;
      if bit {
        var marked := SetBit(bytes[last], used % 8);
        bytes := bytes[last := marked];
      }
      PacksOneMore(before, contents, bit, grown, bytes);
      used := used + 1;
      contents := contents + [bit];
    }

    method Put(value: int, bits: nat)
      requires Valid()
      modifies this
      ensures Valid() && contents == old(contents) + Field(value, bits)
    {
      for i := bits downto 0
        invariant Valid() && contents == old(contents) + Field(value, bits)[..bits - i]
      {
        PutBit(Shift(value, i) % 2 == 1);
      }
      assert Field(value, bits)[..bits] == Field(value, bits);
    }
  }

  // ---------------------------------------------------- the configuration

  const ESCAPE_INDEX := 15
  const RATES := [96000, 88200, 64000, 48000, 44100, 32000, 24000, 22050, 16000, 12000, 11025, 8000, 7350]

  datatype Format = Format(sampleRate: int, channels: int, frameSamples: int)

  /** The rate's place in the table, or the escape. */
  predicate IsIndex(rate: int, index: nat) {
    if index == ESCAPE_INDEX then rate !in RATES else index < |RATES| && RATES[index] == rate
  }

  lemma IndexOnce(rate: int, i: nat, j: nat)
    requires IsIndex(rate, i) && IsIndex(rate, j)
    ensures i == j
  {
  }

  lemma IndexExists(rate: int)
    ensures exists index :: IsIndex(rate, index)
  {
    if rate in RATES {
      var i :| 0 <= i < |RATES| && RATES[i] == rate;
      assert IsIndex(rate, i);
    } else {
      assert IsIndex(rate, ESCAPE_INDEX);
    }
  }

  ghost function FrequencyIndex(rate: int): (index: nat)
    ensures IsIndex(rate, index)
  {
    IndexExists(rate);
    var index :| IsIndex(rate, index);
    index
  }

  method AacFrequencyIndex(rate: int) returns (index: nat)
    ensures index == FrequencyIndex(rate)
  {
    for i := 0 to |RATES|
      invariant forall k :: 0 <= k < i ==> RATES[k] != rate
    {
      if RATES[i] == rate {
        IndexOnce(rate, i, FrequencyIndex(rate));
        return i;
      }
    }
    IndexOnce(rate, ESCAPE_INDEX, FrequencyIndex(rate));
    return ESCAPE_INDEX;
  }

  function TypeBits(objectType: int): seq<bool> {
    if objectType >= 32 then Field(31, 5) + Field(objectType - 32, 6) else Field(objectType, 5)
  }

  ghost function RateBits(rate: int): seq<bool> {
    var index := FrequencyIndex(rate);
    if index == ESCAPE_INDEX then Field(index, 4) + Field(rate, 24) else Field(index, 4)
  }

  /** ELDSpecificConfig or GASpecificConfig: the frame length, then nothing of
      what could follow. */
  function SpecificBits(objectType: int, frameSamples: int): seq<bool> {
    if objectType == 39 then [frameSamples <= 0 || frameSamples == 480] + Field(0, 8)
    else [frameSamples == 960] + Field(0, 2)
  }

  ghost function ConfigBits(objectType: int, format: Format): seq<bool> {
    TypeBits(objectType) + (RateBits(format.sampleRate) +
      (Field(format.channels, 4) + SpecificBits(objectType, format.frameSamples)))
  }

  lemma Regroup(a: seq<bool>, b: seq<bool>, c: seq<bool>)
    ensures a + b + c == a + (b + c)
  {
  }

  method AacAudioSpecificConfig(objectType: int, format: Format) returns (bytes: seq<bv8>)
    ensures Packs(bytes, ConfigBits(objectType, format))
  {
    var bits := new BitWriter();
    PutType(bits, objectType);
    PutRate(bits, format.sampleRate);
    bits.Put(format.channels, 4);
    PutSpecific(bits, objectType, format.frameSamples);
    ghost var a, b := TypeBits(objectType), RateBits(format.sampleRate);
    ghost var c, d := Field(format.channels, 4), SpecificBits(objectType, format.frameSamples);
    assert [] + a == a;
    Regroup(a + b, c, d);
    Regroup(a, b, c + d);
    bytes := bits.bytes;
  }

  method PutType(bits: BitWriter, objectType: int)
    requires bits.Valid()
    modifies bits
    ensures bits.Valid() && bits.contents == old(bits.contents) + TypeBits(objectType)
  {
    if objectType >= 32 {
      Regroup(bits.contents, Field(31, 5), Field(objectType - 32, 6));
      bits.Put(31, 5);
      bits.Put(objectType - 32, 6);
    } else {
      bits.Put(objectType, 5);
    }
  }

  method PutRate(bits: BitWriter, rate: int)
    requires bits.Valid()
    modifies bits
    ensures bits.Valid() && bits.contents == old(bits.contents) + RateBits(rate)
  {
    var index := AacFrequencyIndex(rate);
    Regroup(bits.contents, Field(index, 4), Field(rate, 24));
    bits.Put(index, 4);
    if index == ESCAPE_INDEX { bits.Put(rate, 24); }
  }

  method PutSpecific(bits: BitWriter, objectType: int, frameSamples: int)
    requires bits.Valid()
    modifies bits
    ensures bits.Valid() && bits.contents == old(bits.contents) + SpecificBits(objectType, frameSamples)
  {
    ghost var before := bits.contents;
    if objectType == 39 {
      var frame := if frameSamples > 0 then frameSamples else 480;
      var flag := if frame == 480 then 1 else 0;
      bits.Put(flag, 1);
      bits.Put(0, 3);
      bits.Put(0, 1);
      bits.Put(0, 4);
      ZerosJoin(before + Field(flag, 1), 3, 1);
      ZerosJoin(before + Field(flag, 1), 4, 4);
      FlagFirst(before, flag, 8);
    } else {
      var flag := if frameSamples == 960 then 1 else 0;
      bits.Put(flag, 1);
      bits.Put(0, 1);
      bits.Put(0, 1);
      ZerosJoin(before + Field(flag, 1), 1, 1);
      FlagFirst(before, flag, 2);
    }
  }

  lemma ZerosJoin(before: seq<bool>, a: nat, b: nat)
    ensures before + Field(0, a) + Field(0, b) == before + Field(0, a + b)
  {
    ZeroField(a);
    ZeroField(b);
    ZeroField(a + b);
  }

  lemma FlagFirst(before: seq<bool>, flag: int, n: nat)
    requires flag == 0 || flag == 1
    ensures before + Field(flag, 1) + Field(0, n) == before + ([flag == 1] + Field(0, n))
  {
    OneBit(flag);
  }

  lemma OneBit(value: int)
    ensures Field(value, 1) == [value % 2 == 1]
  {
    assert Shift(value, 0) == value;
    assert |Field(value, 1)| == 1 && Field(value, 1)[0] == (value % 2 == 1);
  }

  lemma {:induction false} ZeroShift(n: nat)
    ensures Shift(0, n) == 0
  {
    if n > 0 { ZeroShift(n - 1); }
  }

  lemma ZeroField(n: nat)
    ensures forall k :: 0 <= k < n ==> !Field(0, n)[k]
  {
    forall k | 0 <= k < n ensures !Field(0, n)[k] { ZeroShift(n - 1 - k); }
  }

  // ----------------------------------------- section 1.6.2.1 of ISO/IEC 14496-3

  /** One element of the syntax, and the bits behind it. */
  datatype Element = Malformed | Element(value: nat, rest: seq<bool>)

  function ReadNumber(bits: seq<bool>, n: nat): Element {
    if |bits| < n then Malformed else Element(Number(bits[..n]), bits[n..])
  }

  /** audioObjectType, or 31 and audioObjectTypeExt. */
  function ReadType(bits: seq<bool>): Element {
    var e := ReadNumber(bits, 5);
    if e.Element? && e.value == 31 then
      var ext := ReadNumber(e.rest, 6);
      if ext.Malformed? then Malformed else Element(32 + ext.value, ext.rest)
    else e
  }

  /** The rates of section 1.6.3.4, 0 for an index that is reserved. */
  function RateOf(index: nat): nat {
    match index
    case 0 => 96000
    case 1 => 88200
    case 2 => 64000
    case 3 => 48000
    case 4 => 44100
    case 5 => 32000
    case 6 => 24000
    case 7 => 22050
    case 8 => 16000
    case 9 => 12000
    case 10 => 11025
    case 11 => 8000
    case 12 => 7350
    case _ => 0
  }

  /** samplingFrequencyIndex, or 0xf and samplingFrequency. */
  function ReadRate(bits: seq<bool>): Element {
    var e := ReadNumber(bits, 4);
    if e.Malformed? then Malformed
    else if e.value == 15 then ReadNumber(e.rest, 24)
    else if RateOf(e.value) == 0 then Malformed else Element(RateOf(e.value), e.rest)
  }

  datatype Config = Unreadable | Config(objectType: nat, rate: nat, channels: nat, rest: seq<bool>)

  /** Types with an extension, which names the rate and the type beneath it. */
  predicate IsExtended(objectType: int) {
    objectType == 5 || objectType == 29
  }

  /** extensionSamplingFrequencyIndex, the type beneath, and for type 22
      extensionChannelConfiguration. */
  function ReadExtension(rate: nat, channels: nat, bits: seq<bool>): Config {
    var r := ReadRate(bits);
    if r.Malformed? then Unreadable
    else
      var t := ReadType(r.rest);
      if t.Malformed? then Unreadable
      else if t.value != 22 then Config(t.value, rate, channels, t.rest)
      else
        var c := ReadNumber(t.rest, 4);
        if c.Malformed? then Unreadable else Config(t.value, rate, channels, c.rest)
  }

  /** What follows the type, up to the part that belongs to that type. */
  function ReadBehindType(objectType: nat, bits: seq<bool>): Config {
    var r := ReadRate(bits);
    if r.Malformed? then Unreadable
    else
      var c := ReadNumber(r.rest, 4);
      if c.Malformed? then Unreadable
      else if IsExtended(objectType) then ReadExtension(r.value, c.value, c.rest)
      else Config(objectType, r.value, c.value, c.rest)
  }

  function ReadConfig(bits: seq<bool>): Config {
    var t := ReadType(bits);
    if t.Malformed? then Unreadable else ReadBehindType(t.value, t.rest)
  }

  lemma ReadsField(value: int, n: nat, behind: seq<bool>)
    ensures var e := ReadNumber(Field(value, n) + behind, n);
            && e.Element? && e.rest == behind && e.value == Number(Field(value, n)) < Pow2(n)
            && (e.value == value <==> 0 <= value < Pow2(n))
  {
    FieldHolds(value, n);
    assert (Field(value, n) + behind)[..n] == Field(value, n);
    assert (Field(value, n) + behind)[n..] == behind;
  }

  lemma Powers()
    ensures Pow2(4) == 16 && Pow2(5) == 32 && Pow2(6) == 64 && Pow2(24) == 0x100_0000
  {
    assert Pow2(12) == 4096;
  }

  predicate TypeFits(objectType: int) {
    0 <= objectType <= 30 || 32 <= objectType <= 95
  }

  lemma ReadsType(objectType: int, behind: seq<bool>)
    ensures var e := ReadType(TypeBits(objectType) + behind);
            if TypeFits(objectType) then e == Element(objectType, behind)
            else e.Malformed? || (e.value != objectType && (objectType >= 31 ==> e.value >= 31))
  {
    Powers();
    if objectType >= 32 {
      var ext := Field(objectType - 32, 6);
      ReadsField(31, 5, ext + behind);
      ReadsField(objectType - 32, 6, behind);
      Regroup(Field(31, 5), ext, behind);
    } else {
      ReadsField(objectType, 5, behind);
    }
  }

  /** The table is that of the standard. */
  lemma RateAtIndex(rate: int, index: nat)
    requires index != 15 && IsIndex(rate, index)
    ensures index < 13 && RateOf(index) == rate > 0
  {
  }

  lemma ReadsListed(rate: int, index: nat, behind: seq<bool>)
    requires index != 15 && IsIndex(rate, index)
    ensures ReadRate(Field(index, 4) + behind) == Element(RateOf(index), behind)
  {
    RateAtIndex(rate, index);
    Powers();
    ReadsField(index, 4, behind);
  }

  lemma ReadsEscaped(rate: int, behind: seq<bool>)
    ensures var e := ReadRate(Field(15, 4) + (Field(rate, 24) + behind));
            e.Element? && e.rest == behind && (e.value == rate <==> 0 <= rate < 0x100_0000)
  {
    Powers();
    ReadsField(15, 4, Field(rate, 24) + behind);
    ReadsField(rate, 24, behind);
  }

  lemma ReadsRate(rate: int, behind: seq<bool>)
    ensures var e := ReadRate(RateBits(rate) + behind);
            e.Element? && e.rest == behind && (e.value == rate <==> 0 <= rate < 0x100_0000)
  {
    var index := FrequencyIndex(rate);
    if index == ESCAPE_INDEX {
      ReadsEscaped(rate, behind);
      Regroup(Field(index, 4), Field(rate, 24), behind);
    } else {
      RateAtIndex(rate, index);
      ReadsListed(rate, index, behind);
    }
  }

  /** What an extension is read from is used up. */
  lemma ExtensionShortens(rate: nat, channels: nat, bits: seq<bool>)
    ensures var c := ReadExtension(rate, channels, bits);
            c.Config? ==> |bits| >= 4 && |c.rest| < |bits|
  {
  }

  /** The rate and the channel count read back. */
  lemma ReadsBehindType(objectType: nat, format: Format, specific: seq<bool>, bits: seq<bool>)
    requires bits == RateBits(format.sampleRate) + (Field(format.channels, 4) + specific)
    ensures var c := ReadBehindType(objectType, bits);
            if IsExtended(objectType) then c.Unreadable? || (4 <= |specific| && |c.rest| < |specific|)
            else
              && c.Config? && c.objectType == objectType && c.rest == specific
              && (c.rate == format.sampleRate <==> 0 <= format.sampleRate < 0x100_0000)
              && c.channels == Number(Field(format.channels, 4))
              && (c.channels == format.channels <==> 0 <= format.channels < 16)
  {
    Powers();
    ReadsRate(format.sampleRate, Field(format.channels, 4) + specific);
    ReadsField(format.channels, 4, specific);
    ExtensionShortens(ReadRate(bits).value, Number(Field(format.channels, 4)), specific);
  }

  /** A type that does not fit is not read back, nor from an extension. */
  lemma UnfitIsNotRead(objectType: int, behind: seq<bool>)
    requires !TypeFits(objectType)
    ensures var c := ReadConfig(TypeBits(objectType) + behind); c.Unreadable? || c.objectType != objectType
  {
    ReadsType(objectType, behind);
  }

  /** The type, the rate and the channel count fit their fields, and the syntax
      asks for no extension, which is not written. */
  predicate CanBeRead(objectType: int, format: Format) {
    && TypeFits(objectType) && !IsExtended(objectType)
    && 0 <= format.sampleRate < 0x100_0000 && 0 <= format.channels < 16
  }

  /** The configuration reads back as the object type, rate and channel count it
      was made for, with the specific part behind, exactly then. */
  lemma ConfigReadsBack(objectType: int, format: Format, behind: seq<bool>)
    ensures var c := ReadConfig(ConfigBits(objectType, format) + behind);
            && (c.Config? && c.objectType == objectType && c.rate == format.sampleRate && c.channels == format.channels
                && c.rest == SpecificBits(objectType, format.frameSamples) + behind
                <==> CanBeRead(objectType, format))
            && (TypeFits(objectType) && !IsExtended(objectType) ==>
                  && c.Config? && c.rest == SpecificBits(objectType, format.frameSamples) + behind
                  && c.objectType == objectType && (c.rate == format.sampleRate <==> 0 <= format.sampleRate < 0x100_0000)
                  && c.channels == Number(Field(format.channels, 4))
                  && (c.channels == format.channels <==> 0 <= format.channels < 16))
            && (!TypeFits(objectType) ==> c.Unreadable? || c.objectType != objectType)
            && (IsExtended(objectType) ==> c.Unreadable? || 4 <= |SpecificBits(objectType, format.frameSamples)| + |behind|)
  {
    var specific := SpecificBits(objectType, format.frameSamples) + behind;
    var rated := RateBits(format.sampleRate) + (Field(format.channels, 4) + specific);
    Grouping(TypeBits(objectType), RateBits(format.sampleRate), Field(format.channels, 4),
             SpecificBits(objectType, format.frameSamples), behind);
    if TypeFits(objectType) {
      ReadsType(objectType, rated);
      ReadsBehindType(objectType, format, specific, rated);
    } else {
      UnfitIsNotRead(objectType, rated);
    }
  }

  lemma Grouping(a: seq<bool>, b: seq<bool>, c: seq<bool>, d: seq<bool>, e: seq<bool>)
    ensures a + (b + (c + d)) + e == a + (b + (c + (d + e)))
  {
    Regroup(c, d, e);
    Regroup(b, c + d, e);
    Regroup(a, b + (c + d), e);
  }

  /** All bits of the bytes. */
  function Unpacked(bytes: seq<bv8>): seq<bool> {
    seq(8 * |bytes|, i requires 0 <= i < 8 * |bytes| => BitOf(bytes[i / 8], i % 8))
  }

  /** Packed bits come back, followed by fewer than eight zeros: no shorter
      sequence of bytes holds them. */
  lemma PackedUnpacks(bytes: seq<bv8>, bits: seq<bool>) returns (padding: seq<bool>)
    requires Packs(bytes, bits)
    ensures Unpacked(bytes) == bits + padding && |padding| < 8 && forall k :: 0 <= k < |padding| ==> !padding[k]
  {
    padding := Unpacked(bytes)[|bits|..];
    forall i | 0 <= i < 8 * |bytes|
      ensures Unpacked(bytes)[i] == (i < |bits| && bits[i])
    {
      assert ByteIs(bytes[i / 8], bits, 8 * (i / 8));
    }
    assert Unpacked(bytes)[..|bits|] == bits;
  }

  /** Types 5 and 29: the bytes end before the extension that the syntax asks for. */
  lemma ExtendedIsUnreadable(objectType: int, format: Format, bytes: seq<bv8>)
    requires Packs(bytes, ConfigBits(objectType, format)) && IsExtended(objectType)
    ensures ReadConfig(Unpacked(bytes)) == Unreadable
  {
    var padding := PackedUnpacks(bytes, ConfigBits(objectType, format));
    var specific := SpecificBits(objectType, format.frameSamples);
    assert |RateBits(format.sampleRate)| == 4 || |RateBits(format.sampleRate)| == 28;
    assert |ConfigBits(objectType, format)| == 9 + |RateBits(format.sampleRate)| + 3;
    assert padding == [];
    ConfigReadsBack(objectType, format, padding);
  }

  /** The bytes of the configuration read back. */
  lemma BytesReadBack(objectType: int, format: Format, bytes: seq<bv8>)
    requires Packs(bytes, ConfigBits(objectType, format))
    ensures var c := ReadConfig(Unpacked(bytes));
            c.Config? && c.objectType == objectType && c.rate == format.sampleRate && c.channels == format.channels
            <==> CanBeRead(objectType, format)
  {
    if IsExtended(objectType) {
      ExtendedIsUnreadable(objectType, format, bytes);
    } else {
      var padding := PackedUnpacks(bytes, ConfigBits(objectType, format));
      ConfigReadsBack(objectType, format, padding);
    }
  }

  /** The specific part of a type that is read back: its frame flag, and zeros for
      the options that are not used. ELDSpecificConfig, type 39: frames of 480
      samples, else of 512; otherwise GASpecificConfig: of 960, else of 1024. */
  function FrameLength(objectType: nat, specific: seq<bool>): Option<nat> {
    if objectType == 39 then
      if |specific| != 9 || true in specific[1..] then None else Some(if specific[0] then 480 else 512)
    else if |specific| != 3 || true in specific[1..] then None else Some(if specific[0] then 960 else 1024)
  }

  /** It names the frame length: for type 39 one of 480 that is given or left open,
      otherwise one of 960, and in any other case the longer one. */
  lemma FrameLengthReadsBack(objectType: nat, frameSamples: int)
    ensures FrameLength(objectType, SpecificBits(objectType, frameSamples)) ==
      Some(if objectType == 39 then (if frameSamples <= 0 || frameSamples == 480 then 480 else 512)
           else if frameSamples == 960 then 960 else 1024)
  {
    ZeroField(8);
    ZeroField(2);
  }

  /** Object type 31 is written as the escape itself and is never read back. */
  lemma Type31IsLost(format: Format, bytes: seq<bv8>)
    requires Packs(bytes, ConfigBits(31, format))
    ensures var c := ReadConfig(Unpacked(bytes)); c.Config? ==> c.objectType >= 32
  {
    Powers();
    var padding := PackedUnpacks(bytes, ConfigBits(31, format));
    var behind := RateBits(format.sampleRate) + (Field(format.channels, 4) + SpecificBits(31, format.frameSamples));
    ReadsField(31, 5, behind + padding);
    Regroup(Field(31, 5), behind, padding);
  }

  /** A count of 17 channels reads back as one. */
  lemma SeventeenChannelsReadAsOne(bytes: seq<bv8>)
    requires Packs(bytes, ConfigBits(2, Format(44100, 17, 1024)))
    ensures var c := ReadConfig(Unpacked(bytes)); c.Config? && c.objectType == 2 && c.rate == 44100 && c.channels == 1
  {
    var padding := PackedUnpacks(bytes, ConfigBits(2, Format(44100, 17, 1024)));
    ConfigReadsBack(2, Format(44100, 17, 1024), padding);
    SeventeenInFourBits(4);
    Powers();
    FieldHolds(1, 4);
  }

  lemma SeventeenInFourBits(n: nat)
    requires n == 4
    ensures Field(17, n) == Field(1, n)
  {
    assert Shift(17, 1) == 8 && Shift(17, 2) == 4 && Shift(17, 3) == 2;
    assert Shift(1, 1) == 0 && Shift(1, 2) == 0 && Shift(1, 3) == 0;
    forall i | 0 <= i < n ensures Field(17, n)[i] == Field(1, n)[i] {
      assert Shift(17, 0) == 17 && Shift(1, 0) == 1;
      assert n - 1 - i == 0 || n - 1 - i == 1 || n - 1 - i == 2 || n - 1 - i == 3;
    }
  }
}
