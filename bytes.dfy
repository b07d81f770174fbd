/**
 * Byte strings and the big-endian unsigned integer encoding used by the
 * precompile inputs and outputs (Go's `big.Int.FillBytes` / `big.Int.SetBytes`
 * and `common.LeftPadBytes`).
 */
module Bytes {

  /** One octet. */
  type Byte = b: nat | b < 256

  /** 2^(8 * len): how many distinct values a big-endian field of `len` bytes holds. */
  function Capacity(len: nat): (c: nat)
    ensures c >= 1
    ensures len > 0 ==> c >= 256
  {
    if len == 0 then 1 else 256 * Capacity(len - 1)
  }

  /** 2^256, the first value that does not fit in one 32-byte word. */
  const WordCapacity: nat := Capacity(32)

  /** `make([]byte, n)`: n zero bytes. */
  function Zeros(n: nat): (z: seq<Byte>)
    ensures |z| == n
    ensures forall i :: 0 <= i < n ==> z[i] == 0
  {
    seq(n, _ => 0)
  }

  /**
   * `x.FillBytes(buf)` for a buffer of `len` bytes: x, zero-extended, big-endian.
   * Go panics when x does not fit, so fitting is the caller's obligation.
   */
  function FillBytes(n: nat, len: nat): (b: seq<Byte>)
    requires n < Capacity(len)
    ensures |b| == len
  {
    if len == 0 then [] else FillBytes(n / 256, len - 1) + [n % 256]
  }

  /** `new(big.Int).SetBytes(b)`: the unsigned big-endian value of b. */
  function SetBytes(b: seq<Byte>): (n: nat)
    ensures n < Capacity(|b|)
  {
    if b == [] then 0 else SetBytes(b[..|b| - 1]) * 256 + b[|b| - 1]
  }

  /** Decoding an encoded value gives the value back. */
  lemma {:induction false} SetBytesOfFillBytes(n: nat, len: nat)
    requires n < Capacity(len)
    ensures SetBytes(FillBytes(n, len)) == n
  {
    if len > 0 {
      var b := FillBytes(n, len);
      assert b[..len - 1] == FillBytes(n / 256, len - 1);
      SetBytesOfFillBytes(n / 256, len - 1);
    }
  }

  /** Encoding a decoded field at its own width gives the field back. */
  lemma {:induction false} FillBytesOfSetBytes(b: seq<Byte>)
    ensures FillBytes(SetBytes(b), |b|) == b
  {
    if b != [] {
      var p := b[..|b| - 1];
      FillBytesOfSetBytes(p);
      assert b == p + [b[|b| - 1]];
    }
  }

  /** Two values that fit encode to the same field only if they are equal. */
  lemma FillBytesInjective(m: nat, n: nat, len: nat)
    requires m < Capacity(len) && n < Capacity(len)
    requires FillBytes(m, len) == FillBytes(n, len)
    ensures m == n
  {
    SetBytesOfFillBytes(m, len);
    SetBytesOfFillBytes(n, len);
  }

  /** Zero encodes as a field of zero bytes (the test's `zeroBytes`). */
  lemma {:induction false} FillBytesOfZero(len: nat)
    ensures FillBytes(0, len) == Zeros(len)
  {
    if len > 0 {
      FillBytesOfZero(len - 1);
      assert FillBytes(0, len) == Zeros(len - 1) + [0];
    }
  }

  /** Every byte but the last is zero when the value is below 256. */
  lemma {:induction false} FillBytesOfSmall(n: nat, len: nat)
    requires 0 < len && n < 256
    ensures FillBytes(n, len) == Zeros(len - 1) + [n]
  {
    FillBytesOfZero(len - 1);
  }
}
