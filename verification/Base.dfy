/** Types shared by every component: bytes, hashes and the usual failure-compatible wrappers. */
module Base {

  type Byte = b: int | 0 <= b < 256

  type Bytes = seq<Byte>

  /** A digest. Hash functions are left opaque throughout, so its length rarely matters here. */
  type Hash = Bytes

  /** An inner hash function, left opaque. */
  type Hasher = Bytes -> Bytes

  ghost predicate Hashes32(h: Hasher) {
    forall x :: |h(x)| == 32
  }

  function Zeros(n: nat): Bytes {
    if n == 0 then [] else [0] + Zeros(n - 1)
  }

  lemma {:induction false} ZerosLength(n: nat)
    ensures |Zeros(n)| == n
  {
    if n > 0 {
      ZerosLength(n - 1);
    }
  }

  /** The number a little-endian byte string stands for. */
  function LittleEndian(b: Bytes): nat {
    if b == [] then 0 else b[0] + 0x100 * LittleEndian(b[1..])
  }

  /** The low `size` bytes of `n`, lowest first. */
  function LittleEndianBytes(n: nat, size: nat): (b: Bytes)
    ensures |b| == size
  {
    if size == 0 then [] else [n % 256] + LittleEndianBytes(n / 256, size - 1)
  }

  datatype Option<+T> = None | Some(value: T) {
    function ToResult<E>(error: E): Result<T, E> {
      match this
      case None => Err(error)
      case Some(v) => Ok(v)
    }
  }

  datatype Result<+T, +E> = Ok(value: T) | Err(error: E) {
    predicate IsFailure() {
      Err?
    }

    function PropagateFailure<U>(): Result<U, E>
      requires Err?
    {
      Err(error)
    }

    function Extract(): T
      requires Ok?
    {
      value
    }
  }

  /** The outcome of a guard that either passes or throws. */
  datatype Outcome<+E> = Pass | Throw(error: E) {
    predicate IsFailure() {
      Throw?
    }

    function PropagateFailure<U>(): Result<U, E>
      requires Throw?
    {
      Err(error)
    }
  }

  function Guard<E>(condition: bool, error: E): Outcome<E> {
    if condition then Pass else Throw(error)
  }

  function Max(a: int, b: int): int {
    if a > b then a else b
  }

  function Min(a: int, b: int): int {
    if a < b then a else b
  }
}
