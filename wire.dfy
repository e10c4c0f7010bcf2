/** Bytes, fixed-width integers and the two byte orders used on the nfnetlink wire. */
module Wire {

  type byte = b: int | 0 <= b < 0x100
  type u16 = n: int | 0 <= n < 0x1_0000
  type u32 = n: int | 0 <= n < 0x1_0000_0000
  type Bytes = seq<byte>

  datatype Option<+T> = None | Some(value: T) {
    predicate IsFailure() { None? }
    function PropagateFailure<U>(): Option<U> requires None? { None }
    function Extract(): T requires Some? { value }
  }

  /** The value of a 2-byte little-endian word. */
  function ReadLE16(b: Bytes): (n: u16)
    requires |b| == 2
  {
    b[0] as int + 0x100 * (b[1] as int)
  }

  /** The value of a 2-byte big-endian (network order) word. */
  function ReadBE16(b: Bytes): (n: u16)
    requires |b| == 2
  {
    0x100 * (b[0] as int) + b[1] as int
  }

  /** The value of a 4-byte big-endian (network order) word. */
  function ReadBE32(b: Bytes): (n: u32)
    requires |b| == 4
  {
    0x100_0000 * (b[0] as int) + 0x1_0000 * (b[1] as int) + 0x100 * (b[2] as int) + b[3] as int
  }

  /** Host order of the modelled (little-endian) hosts: attribute headers are written this way. */
  function LE16(n: u16): (r: Bytes)
    ensures |r| == 2 && ReadLE16(r) == n
  {
    [n % 0x100, n / 0x100]
  }

  /** Network order: ports and the resource id of the sub-header are written this way. */
  function BE16(n: u16): (r: Bytes)
    ensures |r| == 2 && ReadBE16(r) == n
    ensures r[0] == n / 0x100 && r[1] == n % 0x100
  {
    [n / 0x100, n % 0x100]
  }

  /** Network order for 32-bit scalars such as the timeout. */
  function BE32(n: u32): (r: Bytes)
    ensures |r| == 4 && ReadBE32(r) == n
  {
    var hi := n / 0x1_0000;
    var lo := n % 0x1_0000;
    BE16(hi) + BE16(lo)
  }

  /** Number of zero bytes that bring `n` bytes up to the next multiple of 4. */
  function Pad(n: nat): (p: nat)
    ensures p < 4 && (n + p) % 4 == 0
  {
    (4 - n % 4) % 4
  }

  /** `n` rounded up to a multiple of 4: the room a record of declared length `n` occupies. */
  function Align(n: nat): (m: nat)
    ensures n <= m < n + 4 && m % 4 == 0
    ensures n % 4 == 0 ==> m == n
  {
    n + Pad(n)
  }

  function Zeros(k: nat): (r: Bytes)
    ensures |r| == k && forall i | 0 <= i < k :: r[i] == 0
  {
    seq(k, _ => 0)
  }
}
