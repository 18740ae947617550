/** Machine integers and small datatypes shared by every component. */
module Common {

  datatype Option<+T> = None | Some(value: T)

  datatype Result<+T> = Ok(value: T) | Err(reason: string)

  const U32: nat := 0x1_0000_0000
  const U64: nat := 0x1_0000_0000_0000_0000

  // The crate is built for wasm32, where `usize` has 32 bits.
  const USIZE: nat := U32

  type byte = bv8
  type Key32 = seq<byte>

  type u8 = x: nat | x < 256
  type u32 = x: nat | x < U32

  /** The `as usize` cast: it drops the high bits without a check. */
  function AsUsize(x: nat): nat {
    x % USIZE
  }

  function WrappingAdd(x: nat, y: nat, modulus: nat): (r: nat)
    requires modulus > 0
    ensures r < modulus && (x + y < modulus ==> r == x + y)
  {
    (x + y) % modulus
  }

  function SaturatingAdd(x: nat, y: nat, modulus: nat): (r: nat)
    requires modulus > 0
    ensures r < modulus
  {
    if x + y < modulus then x + y else modulus - 1
  }

  function SaturatingSub(x: nat, y: nat): nat {
    if x < y then 0 else x - y
  }

  function Max(x: nat, y: nat): nat {
    if x < y then y else x
  }

  lemma {:induction false} SubsetSize<T>(a: set<T>, b: set<T>)
    requires a <= b
    ensures |a| <= |b|
  {
    if a != {} {
      var x :| x in a;
      SubsetSize(a - {x}, b - {x});
    }
  }
}
