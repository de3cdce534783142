/**
 * The bytes a name state is stored as (Sources/Covenants/NameState.swift, lines 247 to 461), and
 * that reading them gives the state back, but for the name hash, exactly if it fits the format.
 */
module NameFormat {
  import opened Base
  import opened Covenants
  import opened NameState
  import opened Bits
  import Endian

  /** Thrown on bytes that end too early; the other stands for a number that does not fit its type. */
  datatype FormatError = Truncated | Overflow

  const INT64_LIMIT := 0x8000_0000_0000_0000
  const WORD64 := 0x1_0000_0000_0000_0000
  const WORD32 := 0x1_0000_0000

  // ---- Writing ----

  /** Bitcoin's CompactSize. */
  function Varint(v: nat): Bytes {
    if v < 0xFD then [v]
    else if v <= 0xFFFF then [0xFD] + LittleEndianBytes(v, 2)
    else if v <= 0xFFFF_FFFF then [0xFE] + LittleEndianBytes(v, 4)
    else [0xFF] + LittleEndianBytes(v, 8)
  }

  /** Bits from the lowest up. */
  function Packed(bits: seq<bool>): nat {
    if bits == [] then 0 else (if bits[0] then 1 else 0) + 2 * Packed(bits[1..])
  }

  /** Which optional fields follow, and the two booleans. */
  function FieldFlags(ns: NameState): (bits: seq<bool>)
    ensures |bits| == 8
  {
    [ns.owner.Some?, ns.value != 0, ns.highest != 0, ns.transfer != 0, ns.revoked != 0, ns.renewals != 0,
     ns.registered, ns.expired]
  }

  function Field(ns: NameState): Byte {
    PackedBound(FieldFlags(ns));
    ByteBits();
    Packed(FieldFlags(ns))
  }

  lemma {:induction false} PackedBound(bits: seq<bool>)
    ensures Packed(bits) < Pow2(|bits|)
  {
    if bits != [] {
      PackedBound(bits[1..]);
    }
  }

  lemma {:induction false} ByteBits()
    ensures Pow2(8) == 0x100
  {
    assert Pow2(4) == 16;
  }

  function OwnerBytes(owner: Option<Outpoint>): Bytes {
    match owner
    case None => []
    case Some(o) => o.hash + Varint(o.index)
  }

  function NumberBytes(n: nat): Bytes {
    if n == 0 then [] else Varint(n)
  }

  function HeightBytes(n: nat): Bytes {
    if n == 0 then [] else LittleEndianBytes(n, 4)
  }

  /** Flags and parent, written only when one of them is there. */
  function Extension(ns: NameState): Bytes
    requires |ns.parentHash| <= 0xFF
  {
    if ns.flags == 0 && ns.parentHash == ZERO_HASH then []
    else if ns.parentHash == ZERO_HASH then [ns.flags, 0]
    else [ns.flags, |ns.parentHash|] + ns.parentHash
  }

  /** No conversion to a narrower type traps. */
  predicate Writable(ns: NameState) {
    && |ns.name| <= 0xFF && |ns.data| <= 0xFFFF && |ns.parentHash| <= 0xFF
    && ns.height < WORD32 && ns.renewal < WORD32 && ns.transfer < WORD32 && ns.revoked < WORD32
    && ns.value < WORD64 && ns.highest < WORD64 && ns.renewals < WORD64
    && (ns.owner.Some? ==> ns.owner.value.index < WORD64)
  }

  function Encoded(ns: NameState): Bytes
    requires Writable(ns)
  {
    [|ns.name|] + ns.name + LittleEndianBytes(|ns.data|, 2) + ns.data
    + LittleEndianBytes(ns.height, 4) + LittleEndianBytes(ns.renewal, 4) + [Field(ns)]
    + OwnerBytes(ns.owner) + NumberBytes(ns.value) + NumberBytes(ns.highest)
    + HeightBytes(ns.transfer) + HeightBytes(ns.revoked) + NumberBytes(ns.renewals) + Extension(ns)
  }

  method Serialize(ns: NameState) returns (out: Option<Bytes>)
    ensures out == if Writable(ns) then Some(Encoded(ns)) else None
  {
    hide Varint, Field, FieldFlags, LittleEndianBytes;
    if !Writable(ns) {
      return None;
    }
    var b: Bytes := [|ns.name|];
    b := b + ns.name;
    b := b + LittleEndianBytes(|ns.data|, 2);
    b := b + ns.data;
    b := b + LittleEndianBytes(ns.height, 4);
    b := b + LittleEndianBytes(ns.renewal, 4);
    b := b + [Field(ns)];
    ghost var w := b;
    if ns.owner.Some? {
      b := b + ns.owner.value.hash;
      b := b + Varint(ns.owner.value.index);
    }
    assert b == w + OwnerBytes(ns.owner);
    w := b;
    if ns.value != 0 {
      b := b + Varint(ns.value);
    }
    assert b == w + NumberBytes(ns.value);
    w := b;
    if ns.highest != 0 {
      b := b + Varint(ns.highest);
    }
    assert b == w + NumberBytes(ns.highest);
    w := b;
    if ns.transfer != 0 {
      b := b + LittleEndianBytes(ns.transfer, 4);
    }
    assert b == w + HeightBytes(ns.transfer);
    w := b;
    if ns.revoked != 0 {
      b := b + LittleEndianBytes(ns.revoked, 4);
    }
    assert b == w + HeightBytes(ns.revoked);
    w := b;
    if ns.renewals != 0 {
      b := b + Varint(ns.renewals);
    }
    assert b == w + NumberBytes(ns.renewals);
    return Some(b + Extension(ns));
  }

  // ---- Reading ----

  /** What was read, and the bytes still to be read. */
  datatype Read<+T> = Read(value: T, rest: Bytes)

  function Take(n: nat, b: Bytes): Result<Read<Bytes>, FormatError> {
    if n <= |b| then Ok(Read(b[..n], b[n..])) else Err(Truncated)
  }

  function TakeNumber(size: nat, b: Bytes): Result<Read<nat>, FormatError> {
    var bytes :- Take(size, b);
    Ok(Read(LittleEndian(bytes.value), bytes.rest))
  }

  /** A byte string behind its length. */
  function TakeCounted(size: nat, b: Bytes): Result<Read<Bytes>, FormatError> {
    var length :- TakeNumber(size, b);
    Take(length.value, length.rest)
  }

  function TakeVarint(b: Bytes): Result<Read<nat>, FormatError> {
    var first :- TakeNumber(1, b);
    if first.value < 0xFD then Ok(first)
    else TakeNumber(if first.value == 0xFD then 2 else if first.value == 0xFE then 4 else 8, first.rest)
  }

  /** A signed 64-bit number. */
  function TakeSigned(b: Bytes): Result<Read<nat>, FormatError> {
    var n :- TakeVarint(b);
    if n.value < INT64_LIMIT then Ok(n) else Err(Overflow)
  }

  function TakeOwner(b: Bytes): Result<Read<Outpoint>, FormatError> {
    var hash :- Take(32, b);
    var index :- TakeSigned(hash.rest);
    Ok(Read(Outpoint(hash.value, index.value), index.rest))
  }

  predicate BitSet(field: nat, i: nat) {
    BitAt(field, i) == 1
  }

  function OwnerIf(on: bool, b: Bytes): Result<Read<Option<Outpoint>>, FormatError> {
    if !on then Ok(Read(None, b))
    else
      var owner :- TakeOwner(b);
      Ok(Read(Some(owner.value), owner.rest))
  }

  function SignedIf(on: bool, b: Bytes): Result<Read<nat>, FormatError> {
    if on then TakeSigned(b) else Ok(Read(0, b))
  }

  function HeightIf(on: bool, b: Bytes): Result<Read<nat>, FormatError> {
    if on then TakeNumber(4, b) else Ok(Read(0, b))
  }

  datatype Extended = Extended(flags: Byte, parentHash: Hash)

  /** Whatever follows is flags and, behind its length, the parent hash; further bytes are ignored. */
  function TakeExtension(b: Bytes): Result<Extended, FormatError> {
    if b == [] then Ok(Extended(0, ZERO_HASH))
    else if |b| == 1 then Ok(Extended(b[0], ZERO_HASH))
    else
      var parent :- TakeCounted(1, b[1..]);
      Ok(Extended(b[0], if |parent.value| == 32 then parent.value else ZERO_HASH))
  }

  /** What stands before the optional fields. */
  datatype Head = Head(name: Bytes, data: Bytes, height: nat, renewal: nat, field: nat)

  function TakeHead(b: Bytes): Result<Read<Head>, FormatError> {
    var name :- TakeCounted(1, b);
    var data :- TakeCounted(2, name.rest);
    var height :- TakeNumber(4, data.rest);
    var renewal :- TakeNumber(4, height.rest);
    var field :- TakeNumber(1, renewal.rest);
    Ok(Read(Head(name.value, data.value, height.value, renewal.value, field.value), field.rest))
  }

  datatype Auctioned = Auctioned(owner: Option<Outpoint>, value: nat, highest: nat)

  function TakeAuctioned(field: nat, b: Bytes): Result<Read<Auctioned>, FormatError> {
    var owner :- OwnerIf(BitSet(field, 0), b);
    var value :- SignedIf(BitSet(field, 1), owner.rest);
    var highest :- SignedIf(BitSet(field, 2), value.rest);
    Ok(Read(Auctioned(owner.value, value.value, highest.value), highest.rest))
  }

  datatype Dates = Dates(transfer: nat, revoked: nat, renewals: nat)

  function TakeDates(field: nat, b: Bytes): Result<Read<Dates>, FormatError> {
    var transfer :- HeightIf(BitSet(field, 3), b);
    var revoked :- HeightIf(BitSet(field, 4), transfer.rest);
    var renewals :- SignedIf(BitSet(field, 5), revoked.rest);
    Ok(Read(Dates(transfer.value, revoked.value, renewals.value), renewals.rest))
  }

  function Decoded(b: Bytes): Result<NameState, FormatError> {
    var head :- TakeHead(b);
    var won :- TakeAuctioned(head.value.field, head.rest);
    var dates :- TakeDates(head.value.field, won.rest);
    var ext :- TakeExtension(dates.rest);
    var h, w, d := head.value, won.value, dates.value;
    Ok(NameState(h.name, ZERO_HASH, h.height, h.renewal, w.owner, w.value, w.highest, h.data, d.transfer, d.revoked,
                 d.renewals, BitSet(h.field, 6), BitSet(h.field, 7), ext.flags, ext.parentHash))
  }

  // ---- Reading what was written ----

  lemma {:induction false} TakeFront(a: Bytes, rest: Bytes)
    ensures Take(|a|, a + rest) == Ok(Read(a, rest))
  {
    assert (a + rest)[..|a|] == a && (a + rest)[|a|..] == rest;
  }

  lemma {:induction false} TakeNumberFront(n: nat, size: nat, rest: Bytes)
    requires n < Endian.Power256(size)
    ensures TakeNumber(size, LittleEndianBytes(n, size) + rest) == Ok(Read(n, rest))
  {
    hide Take;
    TakeFront(LittleEndianBytes(n, size), rest);
    Endian.RoundTrip(n, size);
  }

  lemma {:induction false} OneByte(n: Byte)
    ensures LittleEndianBytes(n, 1) == [n]
  {
    assert LittleEndianBytes(n / 256, 0) == [];
  }

  lemma {:induction false} TakeByteFront(n: Byte, rest: Bytes)
    ensures TakeNumber(1, [n] + rest) == Ok(Read(n, rest))
  {
    hide Endian.Power256, LittleEndianBytes, TakeNumber;
    Endian.Widths();
    OneByte(n);
    TakeNumberFront(n, 1, rest);
  }

  lemma {:induction false} TakeVarintFront(v: nat, rest: Bytes)
    requires v < WORD64
    ensures TakeVarint(Varint(v) + rest) == Ok(Read(v, rest))
  {
    hide Endian.Power256, LittleEndianBytes, TakeNumber;
    Endian.Widths();
    if v < 0xFD {
      TakeByteFront(v, rest);
    } else {
      var size := if v <= 0xFFFF then 2 else if v <= 0xFFFF_FFFF then 4 else 8;
      var mark: Byte := if v <= 0xFFFF then 0xFD else if v <= 0xFFFF_FFFF then 0xFE else 0xFF;
      assert Varint(v) + rest == [mark] + (LittleEndianBytes(v, size) + rest);
      TakeByteFront(mark, LittleEndianBytes(v, size) + rest);
      TakeNumberFront(v, size, rest);
    }
  }

  lemma {:induction false} TakeCountedFront(a: Bytes, size: nat, rest: Bytes)
    requires |a| < Endian.Power256(size)
    ensures TakeCounted(size, LittleEndianBytes(|a|, size) + a + rest) == Ok(Read(a, rest))
  {
    hide Take, TakeNumber, LittleEndianBytes;
    assert LittleEndianBytes(|a|, size) + a + rest == LittleEndianBytes(|a|, size) + (a + rest);
    TakeNumberFront(|a|, size, a + rest);
    TakeFront(a, rest);
  }

  /** The fields fit their places: what the round trip needs. */
  predicate Fits(ns: NameState) {
    && |ns.name| <= 0xFF && |ns.data| <= 0xFFFF && |ns.parentHash| == 32
    && ns.height < WORD32 && ns.renewal < WORD32 && ns.transfer < WORD32 && ns.revoked < WORD32
    && ns.value < INT64_LIMIT && ns.highest < INT64_LIMIT && ns.renewals < INT64_LIMIT
    && (ns.owner.Some? ==> |ns.owner.value.hash| == 32 && ns.owner.value.index < INT64_LIMIT)
  }

  function HeadBytes(ns: NameState): Bytes
    requires |ns.name| <= 0xFF
  {
    [|ns.name|] + ns.name + LittleEndianBytes(|ns.data|, 2) + ns.data
    + LittleEndianBytes(ns.height, 4) + LittleEndianBytes(ns.renewal, 4) + [Field(ns)]
  }

  lemma {:induction false} HeadBack(ns: NameState, rest: Bytes)
    requires Fits(ns)
    ensures TakeHead(HeadBytes(ns) + rest) == Ok(Read(Head(ns.name, ns.data, ns.height, ns.renewal, Field(ns)), rest))
  {
    hide TakeCounted, TakeNumber, LittleEndianBytes, Endian.Power256, Field;
    Endian.Widths();
    OneByte(|ns.name|);
    var d := [Field(ns)] + rest;
    var c := LittleEndianBytes(ns.renewal, 4) + d;
    var b := LittleEndianBytes(ns.height, 4) + c;
    var a := LittleEndianBytes(|ns.data|, 2) + ns.data + b;
    assert HeadBytes(ns) + rest == LittleEndianBytes(|ns.name|, 1) + ns.name + a;
    TakeCountedFront(ns.name, 1, a);
    TakeCountedFront(ns.data, 2, b);
    TakeNumberFront(ns.height, 4, c);
    TakeNumberFront(ns.renewal, 4, d);
    TakeByteFront(Field(ns), rest);
  }

  lemma {:induction false} PackedBit(bits: seq<bool>, i: nat)
    requires i < |bits|
    ensures BitSet(Packed(bits), i) == bits[i]
  {
    if i > 0 {
      PackedBit(bits[1..], i - 1);
      ShiftTwice(Packed(bits), 1, i - 1);
      assert ShiftRight(Packed(bits), 1) == ShiftRight(Packed(bits), 0) / 2 == Packed(bits[1..]);
    } else {
      assert ShiftRight(Packed(bits), 0) == Packed(bits);
    }
  }

  lemma {:induction false} FieldBits(ns: NameState)
    ensures BitSet(Field(ns), 0) == ns.owner.Some?
    ensures BitSet(Field(ns), 1) == (ns.value != 0) && BitSet(Field(ns), 2) == (ns.highest != 0)
    ensures BitSet(Field(ns), 3) == (ns.transfer != 0) && BitSet(Field(ns), 4) == (ns.revoked != 0)
    ensures BitSet(Field(ns), 5) == (ns.renewals != 0)
    ensures BitSet(Field(ns), 6) == ns.registered && BitSet(Field(ns), 7) == ns.expired
  {
    hide Packed, BitSet;
    forall i: nat | i < 8
      ensures BitSet(Field(ns), i) == FieldFlags(ns)[i]
    {
      PackedBit(FieldFlags(ns), i);
    }
  }

  lemma {:induction false} SignedBack(n: nat, rest: Bytes)
    requires n < INT64_LIMIT
    ensures SignedIf(n != 0, NumberBytes(n) + rest) == Ok(Read(n, rest))
  {
    hide TakeVarint, Varint;
    TakeVarintFront(n, rest);
    assert [] + rest == rest;
  }

  lemma {:induction false} HeightBack(n: nat, rest: Bytes)
    requires n < WORD32
    ensures HeightIf(n != 0, HeightBytes(n) + rest) == Ok(Read(n, rest))
  {
    hide TakeNumber, LittleEndianBytes, Endian.Power256;
    Endian.Widths();
    TakeNumberFront(n, 4, rest);
    assert [] + rest == rest;
  }

  lemma {:induction false} OwnerBack(owner: Option<Outpoint>, rest: Bytes)
    requires owner.Some? ==> |owner.value.hash| == 32 && owner.value.index < INT64_LIMIT
    ensures OwnerIf(owner.Some?, OwnerBytes(owner) + rest) == Ok(Read(owner, rest))
  {
    hide TakeVarint, Varint, Take;
    if owner.Some? {
      var tail := Varint(owner.value.index) + rest;
      assert OwnerBytes(owner) + rest == owner.value.hash + tail;
      TakeFront(owner.value.hash, tail);
      TakeVarintFront(owner.value.index, rest);
    } else {
      assert [] + rest == rest;
    }
  }

  lemma {:induction false} AuctionedBack(ns: NameState, rest: Bytes)
    requires Fits(ns)
    ensures TakeAuctioned(Field(ns), OwnerBytes(ns.owner) + (NumberBytes(ns.value) + (NumberBytes(ns.highest) + rest)))
         == Ok(Read(Auctioned(ns.owner, ns.value, ns.highest), rest))
  {
    hide OwnerIf, SignedIf, OwnerBytes, NumberBytes, Field, BitSet;
    FieldBits(ns);
    var b := NumberBytes(ns.highest) + rest;
    OwnerBack(ns.owner, NumberBytes(ns.value) + b);
    SignedBack(ns.value, b);
    SignedBack(ns.highest, rest);
  }

  lemma {:induction false} DatesBack(ns: NameState, rest: Bytes)
    requires Fits(ns)
    ensures TakeDates(Field(ns), HeightBytes(ns.transfer) + (HeightBytes(ns.revoked) + (NumberBytes(ns.renewals) + rest)))
         == Ok(Read(Dates(ns.transfer, ns.revoked, ns.renewals), rest))
  {
    hide SignedIf, HeightIf, NumberBytes, HeightBytes, Field, BitSet;
    FieldBits(ns);
    var b := NumberBytes(ns.renewals) + rest;
    HeightBack(ns.transfer, HeightBytes(ns.revoked) + b);
    HeightBack(ns.revoked, b);
    SignedBack(ns.renewals, rest);
  }

  lemma {:induction false} ExtensionBack(ns: NameState)
    requires |ns.parentHash| == 32
    ensures TakeExtension(Extension(ns)) == Ok(Extended(ns.flags, ns.parentHash))
  {
    hide TakeCounted, LittleEndianBytes, Zeros, Endian.Power256;
    Endian.Widths();
    if ns.parentHash != ZERO_HASH {
      OneByte(32);
      TakeCountedFront(ns.parentHash, 1, []);
      assert Extension(ns)[1..] == LittleEndianBytes(32, 1) + ns.parentHash + [];
    } else if ns.flags != 0 {
      OneByte(0);
      TakeCountedFront([], 1, []);
      assert Extension(ns)[1..] == LittleEndianBytes(0, 1) + [] + [];
    }
  }

  function DatesAndMore(ns: NameState): Bytes
    requires |ns.parentHash| <= 0xFF
  {
    HeightBytes(ns.transfer) + (HeightBytes(ns.revoked) + (NumberBytes(ns.renewals) + Extension(ns)))
  }

  lemma {:induction false} EncodedParts(ns: NameState)
    requires Writable(ns)
    ensures Encoded(ns) == HeadBytes(ns)
      + (OwnerBytes(ns.owner) + (NumberBytes(ns.value) + (NumberBytes(ns.highest) + DatesAndMore(ns))))
  {
    hide OwnerBytes, NumberBytes, HeightBytes, Extension, LittleEndianBytes, Field;
  }

  /** A state that fits is written, and read back it is the same but for the name hash. */
  lemma {:induction false} ReadBack(ns: NameState)
    requires Fits(ns)
    ensures Writable(ns) && Decoded(Encoded(ns)) == Ok(ns.(nameHash := ZERO_HASH))
  {
    hide HeadBytes, OwnerBytes, NumberBytes, HeightBytes, Extension, Encoded, Field, TakeHead, TakeAuctioned, TakeDates,
      TakeExtension, BitSet, Zeros;
    EncodedParts(ns);
    HeadBack(ns, OwnerBytes(ns.owner) + (NumberBytes(ns.value) + (NumberBytes(ns.highest) + DatesAndMore(ns))));
    AuctionedBack(ns, DatesAndMore(ns));
    DatesBack(ns, Extension(ns));
    ExtensionBack(ns);
    FieldBits(ns);
  }

  /** One state in bytes, for any two hashes. */
  lemma {:induction false} EncodedExample(key: Hash, id: Hash, parent: Hash)
    requires |id| == 32 && |parent| == 32 && parent != ZERO_HASH
    ensures var ns := NameState([0x61], key, 1, 2, Some(Outpoint(id, 3)), 300, 70_000, [9, 8], 4, 0, 0, true, false, 1, parent);
      Writable(ns) &&
      Encoded(ns) == [1, 0x61, 2, 0, 9, 8, 1, 0, 0, 0, 2, 0, 0, 0, 0x4F]
        + (id + [3] + ([0xFD, 0x2C, 0x01] + ([0xFE, 0x70, 0x11, 0x01, 0x00] + ([4, 0, 0, 0] + ([1, 32] + parent)))))
  {
    hide Zeros, LittleEndianBytes, HeadBytes, DatesAndMore, Encoded, Varint, Field, FieldFlags;
    var ns := NameState([0x61], key, 1, 2, Some(Outpoint(id, 3)), 300, 70_000, [9, 8], 4, 0, 0, true, false, 1, parent);
    EncodedParts(ns);
    ExampleNumbers();
    ExampleHead(ns);
    ExampleTail(ns, parent);
  }

  lemma {:induction false} ExampleNumbers()
    ensures Varint(3) == [3] && Varint(300) == [0xFD, 0x2C, 0x01] && Varint(70_000) == [0xFE, 0x70, 0x11, 0x01, 0x00]
  {
  }

  lemma {:induction false} ExampleHead(ns: NameState)
    requires ns.name == [0x61] && ns.data == [9, 8] && ns.height == 1 && ns.renewal == 2
    requires ns.owner.Some? && ns.value != 0 && ns.highest != 0 && ns.transfer != 0 && ns.revoked == 0 && ns.renewals == 0
    requires ns.registered && !ns.expired
    ensures HeadBytes(ns) == [1, 0x61, 2, 0, 9, 8, 1, 0, 0, 0, 2, 0, 0, 0, 0x4F]
  {
    hide Field, LittleEndianBytes;
    ExampleField(ns);
    ExampleWords();
    assert HeadBytes(ns) == [1] + [0x61] + [2, 0] + [9, 8] + [1, 0, 0, 0] + [2, 0, 0, 0] + [0x4F];
  }

  lemma {:induction false} ExampleWords()
    ensures LittleEndianBytes(2, 2) == [2, 0]
    ensures LittleEndianBytes(1, 4) == [1, 0, 0, 0] && LittleEndianBytes(2, 4) == [2, 0, 0, 0]
  {
  }

  lemma {:induction false} ExampleTail(ns: NameState, parent: Hash)
    requires ns.transfer == 4 && ns.revoked == 0 && ns.renewals == 0 && ns.flags == 1
    requires ns.parentHash == parent && |parent| == 32 && parent != ZERO_HASH
    ensures DatesAndMore(ns) == [4, 0, 0, 0] + ([1, 32] + parent)
  {
    hide HeightBytes, NumberBytes, Extension;
    ExampleDates();
    ExampleExtension(ns, parent);
    assert [] + ([1, 32] + parent) == [1, 32] + parent;
  }

  lemma {:induction false} ExampleDates()
    ensures HeightBytes(4) == [4, 0, 0, 0] && HeightBytes(0) == [] && NumberBytes(0) == []
  {
    hide Varint;
  }

  lemma {:induction false} ExampleExtension(ns: NameState, parent: Hash)
    requires ns.flags == 1 && ns.parentHash == parent && |parent| == 32 && parent != ZERO_HASH
    ensures Extension(ns) == [1, 32] + parent
  {
    hide Zeros;
  }

  lemma {:induction false} ExampleField(ns: NameState)
    requires ns.owner.Some? && ns.value != 0 && ns.highest != 0 && ns.transfer != 0 && ns.revoked == 0 && ns.renewals == 0
    requires ns.registered && !ns.expired
    ensures Field(ns) == 0x4F
  {
    var bits := FieldFlags(ns);
    assert bits == [true, true, true, true, false, false, true, false];
    assert bits[7..][1..] == [] && Packed(bits[7..]) == 0;
    PackedTail(bits, 6);
    PackedTail(bits, 5);
    PackedTail(bits, 4);
    PackedTail(bits, 3);
    PackedTail(bits, 2);
    PackedTail(bits, 1);
    PackedTail(bits, 0);
    assert bits[0..] == bits;
  }

  lemma {:induction false} PackedTail(bits: seq<bool>, i: nat)
    requires i < |bits|
    ensures Packed(bits[i..]) == (if bits[i] then 1 else 0) + 2 * Packed(bits[i + 1..])
  {
    assert bits[i..][1..] == bits[i + 1..];
  }

  // ---- Exactly when ----

  lemma {:induction false} SignedFits(on: bool, b: Bytes)
    ensures SignedIf(on, b).Ok? ==> SignedIf(on, b).value.value < INT64_LIMIT
  {
    hide TakeVarint;
  }

  lemma {:induction false} HeightFits(on: bool, b: Bytes)
    ensures HeightIf(on, b).Ok? ==> HeightIf(on, b).value.value < WORD32
  {
    hide LittleEndian, Endian.Power256;
    Endian.Widths();
    if on && 4 <= |b| {
      Endian.Bound(b[..4]);
    }
  }

  lemma {:induction false} CountedFits(size: nat, b: Bytes)
    ensures TakeCounted(size, b).Ok? ==> |TakeCounted(size, b).value.value| < Endian.Power256(size)
  {
    hide LittleEndian;
    if size <= |b| {
      Endian.Bound(b[..size]);
    }
  }

  lemma {:induction false} HeadFits(b: Bytes)
    ensures TakeHead(b).Ok? ==>
      var h := TakeHead(b).value.value;
      |h.name| <= 0xFF && |h.data| <= 0xFFFF && h.height < WORD32 && h.renewal < WORD32
  {
    hide TakeCounted, TakeNumber, Endian.Power256;
    Endian.Widths();
    var name := TakeCounted(1, b);
    CountedFits(1, b);
    if name.Ok? {
      var data := TakeCounted(2, name.value.rest);
      CountedFits(2, name.value.rest);
      if data.Ok? {
        HeightFits(true, data.value.rest);
        var height := TakeNumber(4, data.value.rest);
        if height.Ok? {
          HeightFits(true, height.value.rest);
        }
      }
    }
  }

  lemma {:induction false} AuctionedFits(field: nat, b: Bytes)
    ensures TakeAuctioned(field, b).Ok? ==>
      var w := TakeAuctioned(field, b).value.value;
      && w.value < INT64_LIMIT && w.highest < INT64_LIMIT
      && (w.owner.Some? ==> |w.owner.value.hash| == 32 && w.owner.value.index < INT64_LIMIT)
  {
    hide SignedIf, BitSet, TakeVarint;
    forall c: Bytes, on: bool
      ensures SignedIf(on, c).Ok? ==> SignedIf(on, c).value.value < INT64_LIMIT
    {
      SignedFits(on, c);
    }
  }

  lemma {:induction false} DatesFit(field: nat, b: Bytes)
    ensures TakeDates(field, b).Ok? ==>
      var d := TakeDates(field, b).value.value;
      d.transfer < WORD32 && d.revoked < WORD32 && d.renewals < INT64_LIMIT
  {
    hide SignedIf, HeightIf, BitSet;
    forall c: Bytes, on: bool
      ensures SignedIf(on, c).Ok? ==> SignedIf(on, c).value.value < INT64_LIMIT
      ensures HeightIf(on, c).Ok? ==> HeightIf(on, c).value.value < WORD32
    {
      SignedFits(on, c);
      HeightFits(on, c);
    }
  }

  /** Whatever can be read fits the format. */
  lemma {:induction false} DecodedFits(b: Bytes)
    ensures Decoded(b).Ok? ==> Fits(Decoded(b).value) && Decoded(b).value.nameHash == ZERO_HASH
  {
    hide TakeHead, TakeAuctioned, TakeDates, TakeCounted, BitSet, Zeros;
    ZerosLength(32);
    HeadFits(b);
    var head := TakeHead(b);
    if head.Ok? {
      var field := head.value.value.field;
      AuctionedFits(field, head.value.rest);
      var won := TakeAuctioned(field, head.value.rest);
      if won.Ok? {
        DatesFit(field, won.value.rest);
      }
    }
  }

  /**
   * Written and read back, a state is the same but for the name hash if and only if its fields fit:
   * what does not fit either traps when it is written or comes back as something else.
   */
  lemma {:induction false} RoundTripExactly(ns: NameState)
    ensures Writable(ns) && Decoded(Encoded(ns)) == Ok(ns.(nameHash := ZERO_HASH)) <==> Fits(ns)
  {
    hide Decoded, Encoded;
    if Fits(ns) {
      ReadBack(ns);
    } else if Writable(ns) {
      DecodedFits(Encoded(ns));
    }
  }

  // ---- Reading at a moving position ----

  lemma {:induction false} TakeAt(n: nat, b: Bytes, pos: nat)
    requires pos <= |b|
    ensures Take(n, b[pos..]) == if pos + n <= |b| then Ok(Read(b[pos..pos + n], b[pos + n..])) else Err(Truncated)
  {
    if pos + n <= |b| {
      assert b[pos..][..n] == b[pos..pos + n] && b[pos..][n..] == b[pos + n..];
    }
  }

  method ReadBytes(b: Bytes, pos: nat, n: nat) returns (r: Result<Bytes, FormatError>, next: nat)
    requires pos <= |b|
    ensures r.Ok? ==> next <= |b| && Take(n, b[pos..]) == Ok(Read(r.value, b[next..]))
    ensures r.Err? ==> Take(n, b[pos..]) == Err(r.error)
  {
    hide Take;
    TakeAt(n, b, pos);
    if pos + n > |b| {
      return Err(Truncated), pos;
    }
    return Ok(b[pos..pos + n]), pos + n;
  }

  method ReadNumber(b: Bytes, pos: nat, size: nat) returns (r: Result<nat, FormatError>, next: nat)
    requires pos <= |b|
    ensures r.Ok? ==> next <= |b| && TakeNumber(size, b[pos..]) == Ok(Read(r.value, b[next..]))
    ensures r.Err? ==> TakeNumber(size, b[pos..]) == Err(r.error)
  {
    hide Take, LittleEndian;
    var bytes;
    bytes, next :- ReadBytes(b, pos, size);
    return Ok(LittleEndian(bytes)), next;
  }

  method ReadCounted(b: Bytes, pos: nat, size: nat) returns (r: Result<Bytes, FormatError>, next: nat)
    requires pos <= |b|
    ensures r.Ok? ==> next <= |b| && TakeCounted(size, b[pos..]) == Ok(Read(r.value, b[next..]))
    ensures r.Err? ==> TakeCounted(size, b[pos..]) == Err(r.error)
  {
    hide Take, TakeNumber;
    var length;
    length, next :- ReadNumber(b, pos, size);
    r, next := ReadBytes(b, next, length);
  }

  method ReadSigned(b: Bytes, pos: nat) returns (r: Result<nat, FormatError>, next: nat)
    requires pos <= |b|
    ensures r.Ok? ==> next <= |b| && TakeSigned(b[pos..]) == Ok(Read(r.value, b[next..]))
    ensures r.Err? ==> TakeSigned(b[pos..]) == Err(r.error)
  {
    hide TakeVarint;
    r, next := ReadVarint(b, pos);
    if r.Ok? && r.value >= INT64_LIMIT {
      return Err(Overflow), pos;
    }
  }

  method ReadVarint(b: Bytes, pos: nat) returns (r: Result<nat, FormatError>, next: nat)
    requires pos <= |b|
    ensures r.Ok? ==> next <= |b| && TakeVarint(b[pos..]) == Ok(Read(r.value, b[next..]))
    ensures r.Err? ==> TakeVarint(b[pos..]) == Err(r.error)
  {
    hide LittleEndian, Take;
    TakeAt(1, b, pos);
    if pos >= |b| {
      return Err(Truncated), pos;
    }
    OneByte(b[pos]);
    Endian.Widths();
    Endian.RoundTrip(b[pos], 1);
    assert b[pos..pos + 1] == [b[pos]];
    var first := b[pos];
    if first < 0xFD {
      return Ok(first), pos + 1;
    }
    var size := if first == 0xFD then 2 else if first == 0xFE then 4 else 8;
    TakeAt(size, b, pos + 1);
    if pos + 1 + size > |b| {
      return Err(Truncated), pos;
    }
    return Ok(LittleEndian(b[pos + 1..pos + 1 + size])), pos + 1 + size;
  }

  method ReadOwnerIf(on: bool, b: Bytes, pos: nat) returns (r: Result<Option<Outpoint>, FormatError>, next: nat)
    requires pos <= |b|
    ensures r.Ok? ==> next <= |b| && OwnerIf(on, b[pos..]) == Ok(Read(r.value, b[next..]))
    ensures r.Err? ==> OwnerIf(on, b[pos..]) == Err(r.error)
  {
    hide Take, TakeSigned;
    if !on {
      return Ok(None), pos;
    }
    var hash, index;
    hash, next :- ReadBytes(b, pos, 32);
    index, next :- ReadSigned(b, next);
    return Ok(Some(Outpoint(hash, index))), next;
  }

  method ReadSignedIf(on: bool, b: Bytes, pos: nat) returns (r: Result<nat, FormatError>, next: nat)
    requires pos <= |b|
    ensures r.Ok? ==> next <= |b| && SignedIf(on, b[pos..]) == Ok(Read(r.value, b[next..]))
    ensures r.Err? ==> SignedIf(on, b[pos..]) == Err(r.error)
  {
    hide TakeSigned;
    if !on {
      return Ok(0), pos;
    }
    r, next := ReadSigned(b, pos);
  }

  method ReadHeightIf(on: bool, b: Bytes, pos: nat) returns (r: Result<nat, FormatError>, next: nat)
    requires pos <= |b|
    ensures r.Ok? ==> next <= |b| && HeightIf(on, b[pos..]) == Ok(Read(r.value, b[next..]))
    ensures r.Err? ==> HeightIf(on, b[pos..]) == Err(r.error)
  {
    hide TakeNumber;
    if !on {
      return Ok(0), pos;
    }
    r, next := ReadNumber(b, pos, 4);
  }

  /** The optional fields, each read only if its bit is set. */
  method ReadAuctioned(field: nat, b: Bytes, start: nat) returns (r: Result<Auctioned, FormatError>, pos: nat)
    requires start <= |b|
    ensures r.Ok? ==> pos <= |b| && TakeAuctioned(field, b[start..]) == Ok(Read(r.value, b[pos..]))
    ensures r.Err? ==> TakeAuctioned(field, b[start..]) == Err(r.error)
  {
    hide OwnerIf, SignedIf, BitSet;
    var owner, value, highest;
    owner, pos :- ReadOwnerIf(BitSet(field, 0), b, start);
    value, pos :- ReadSignedIf(BitSet(field, 1), b, pos);
    highest, pos :- ReadSignedIf(BitSet(field, 2), b, pos);
    return Ok(Auctioned(owner, value, highest)), pos;
  }

  method ReadDates(field: nat, b: Bytes, start: nat) returns (r: Result<Dates, FormatError>, pos: nat)
    requires start <= |b|
    ensures r.Ok? ==> pos <= |b| && TakeDates(field, b[start..]) == Ok(Read(r.value, b[pos..]))
    ensures r.Err? ==> TakeDates(field, b[start..]) == Err(r.error)
  {
    hide SignedIf, HeightIf, BitSet;
    var transfer, revoked, renewals;
    transfer, pos :- ReadHeightIf(BitSet(field, 3), b, start);
    revoked, pos :- ReadHeightIf(BitSet(field, 4), b, pos);
    renewals, pos :- ReadSignedIf(BitSet(field, 5), b, pos);
    return Ok(Dates(transfer, revoked, renewals)), pos;
  }

  method Deserialize(b: Bytes) returns (r: Result<NameState, FormatError>)
    ensures r == Decoded(b)
  {
    hide Take, TakeNumber, TakeCounted, TakeAuctioned, TakeDates, BitSet, Zeros;
    assert b[0..] == b;
    var name, pos :- ReadCounted(b, 0, 1);
    var data;
    data, pos :- ReadCounted(b, pos, 2);
    var height;
    height, pos :- ReadNumber(b, pos, 4);
    var renewal;
    renewal, pos :- ReadNumber(b, pos, 4);
    var field;
    field, pos :- ReadNumber(b, pos, 1);
    var won, dates;
    won, pos :- ReadAuctioned(field, b, pos);
    dates, pos :- ReadDates(field, b, pos);
    var flags, parentHash: Hash := 0, ZERO_HASH;
    if pos < |b| {
      flags := b[pos];
      pos := pos + 1;
      if pos < |b| {
        assert b[pos - 1..][1..] == b[pos..];
        var parent;
        parent, pos :- ReadCounted(b, pos, 1);
        if |parent| == 32 {
          parentHash := parent;
        }
      }
    }
    return Ok(NameState(name, ZERO_HASH, height, renewal, won.owner, won.value, won.highest, data, dates.transfer,
                        dates.revoked, dates.renewals, BitSet(field, 6), BitSet(field, 7), flags, parentHash));
  }
}
