/** Machine words shared by the models: bytes, 32-bit cursors and little-endian words in byte memory. */
module Words {

  newtype byte = x: int | 0 <= x < 0x100

  const TWO32: int := 0x1_0000_0000

  type u32 = x: nat | x < TWO32

  datatype Option<+T> = None | Some(value: T)

  /** Reduction to `std::uint32_t`; exact for negative differences too, as unsigned subtraction is. */
  function U32(x: int): nat {
    x % TWO32
  }

  /** Unsigned 32-bit subtraction `b - a`. */
  function Dist(a: u32, b: u32): u32 {
    if a <= b then b - a else b - a + TWO32
  }

  /** Unsigned 32-bit addition. */
  function Plus(a: u32, b: u32): u32 {
    if a + b < TWO32 then a + b else a + b - TWO32
  }

  /** `load_u32`: a little-endian word. */
  function Load(mem: seq<byte>, at: nat): u32
    requires at + 4 <= |mem|
  {
    mem[at] as nat + 0x100 * (mem[at + 1] as nat) + 0x1_0000 * (mem[at + 2] as nat) + 0x100_0000 * (mem[at + 3] as nat)
  }

  /** `store_u32`. */
  function Store(mem: seq<byte>, at: nat, x: u32): (out: seq<byte>)
    requires at + 4 <= |mem|
    ensures |out| == |mem| && forall i :: 0 <= i < |mem| && !(at <= i < at + 4) ==> out[i] == mem[i]
  {
    mem[at := (x % 0x100) as byte][at + 1 := (x / 0x100 % 0x100) as byte]
       [at + 2 := (x / 0x1_0000 % 0x100) as byte][at + 3 := (x / 0x100_0000) as byte]
  }

  lemma LoadStore(mem: seq<byte>, at: nat, x: u32)
    requires at + 4 <= |mem|
    ensures Load(Store(mem, at, x), at) == x
  {
    var y := x / 0x100;
    var z := y / 0x100;
    assert x / 0x1_0000 == z && x / 0x100_0000 == z / 0x100;
  }

  lemma LoadSame(a: seq<byte>, b: seq<byte>, at: nat)
    requires at + 4 <= |a| == |b| && a[at..at + 4] == b[at..at + 4]
    ensures Load(a, at) == Load(b, at)
  {
    assert a[at] == a[at..at + 4][0] && a[at + 1] == a[at..at + 4][1] && a[at + 2] == a[at..at + 4][2] && a[at + 3] == a[at..at + 4][3];
    assert b[at] == b[at..at + 4][0] && b[at + 1] == b[at..at + 4][1] && b[at + 2] == b[at..at + 4][2] && b[at + 3] == b[at..at + 4][3];
  }

  /** Numbers less than 2^32 apart are equal exactly when their 32-bit forms are. */
  lemma U32Exact(a: nat, b: nat)
    requires a <= b < a + TWO32
    ensures U32(a) == U32(b) <==> a == b
  {
  }
}
