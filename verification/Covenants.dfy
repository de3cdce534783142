/**
 * Covenants and the typed views of their items
 * (Sources/Protocol/CovenantType.swift, Sources/Covenants/CovenantData.swift), and the table of
 * allowed transitions (Sources/Covenants/CovenantVerifier.swift).
 */
module Covenants {
  import opened Base

  datatype CovenantType =
    | Nothing | Open | Bid | Reveal | Redeem | Register
    | Update | Renew | Transfer | Finalize | Revoke
  {
    predicate IsName() { !Nothing? }
  }

  datatype Covenant = Covenant(kind: CovenantType, items: seq<Bytes>)

  datatype Address = Address(version: Byte, hash: Bytes)

  datatype Outpoint = Outpoint(hash: Hash, index: nat)

  datatype Output = Output(value: nat, address: Address, covenant: Covenant)

  /** A transaction with its (opaque) id; inputs are given by the outpoints they spend. */
  datatype Transaction = Transaction(hash: Hash, version: nat, inputs: seq<Outpoint>, outputs: seq<Output>)

  const NULL_ADDRESS := Address(0, Zeros(20))

  const ZERO_HASH: Hash := Zeros(32)

  const NULL_OUTPOINT := Outpoint(ZERO_HASH, 0xFFFF_FFFF)

  const DOT: Byte := 0x2E

  function Item(c: Covenant, i: nat): Option<Bytes> {
    if i < |c.items| then Some(c.items[i]) else None
  }

  function ItemOfSize(c: Covenant, i: nat, size: nat): Option<Bytes> {
    if i < |c.items| && |c.items[i]| == size then Some(c.items[i]) else None
  }

  function NameHashOf(c: Covenant): Option<Hash> {
    ItemOfSize(c, 0, 32)
  }

  /** The start height, a 32-bit little-endian integer in item 1. */
  function HeightOf(c: Covenant): Option<nat> {
    match ItemOfSize(c, 1, 4)
    case None => None
    case Some(b) => Some(LittleEndian(b))
  }

  /** Item 3 of an OPEN is a parent hash when it has 32 bytes and the raw name contains a dot. */
  function ParentHashOf(c: Covenant): Option<Hash> {
    if |c.items| >= 4 && |c.items[3]| == 32 && DOT in c.items[2] then Some(c.items[3]) else None
  }

  function RegisterFlagsOf(c: Covenant): Option<Byte> {
    if c.kind == Register && |c.items| >= 5 && |c.items[4]| == 1 then Some(c.items[4][0]) else None
  }

  function FlagsOf(c: Covenant): Option<Byte> {
    if |c.items| >= 4 && |c.items[3]| == 1 then Some(c.items[3][0]) else None
  }

  /** The kinds of output that may follow each kind of input. */
  function AllowedAfter(from: CovenantType): set<CovenantType> {
    match from
    case Nothing => {Nothing, Open, Bid}
    case Open => {Nothing, Open, Bid}
    case Bid => {Reveal}
    case Reveal => {Register, Redeem}
    case Redeem => {Nothing, Open, Bid}
    case Register => {Update, Renew, Transfer, Revoke}
    case Update => {Update, Renew, Transfer, Revoke}
    case Renew => {Update, Renew, Transfer, Revoke}
    case Transfer => {Update, Renew, Revoke, Finalize}
    case Finalize => {Update, Renew, Transfer, Revoke}
    case Revoke => {}
  }

  predicate IsValidTransition(from: CovenantType, to: CovenantType) {
    to in AllowedAfter(from)
  }
}
