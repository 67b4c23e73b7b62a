/** Wire bytes, fixed-width integers, and the small types and functions shared by every module. */
module Bytes {

  newtype byte = x: int | 0 <= x < 256

  datatype Option<+T> = None | Some(value: T) {
    function GetOr(default: T): T {
      match this
      case Some(v) => v
      case None => default
    }
  }

  /** src/error.rs `NzError`, without message texts. `IoTimeout` is the I/O error whose kind is
      `TimedOut` or `WouldBlock`, which the driver treats as a command timeout. `Unsupported` marks an external-table
      message, which is not part of this model. */
  datatype NzError = Protocol | Closed | Io | IoTimeout | Timeout | Config | Unsupported | Database(message: string)

  datatype Result<+T> = Ok(value: T) | Err(error: NzError) {
    function Unit(): Result<()> {
      match this
      case Ok(_) => Ok(())
      case Err(e) => Err(e)
    }
  }

  /** src/error.rs `MAX_PROTOCOL_PAYLOAD`. */
  const MAX_PROTOCOL_PAYLOAD := 10_000_000

  const TWO_32 := 0x1_0000_0000

  /** `u16::from_le_bytes` at `at`. */
  function LittleU16(b: seq<byte>, at: nat): (n: nat)
    requires at + 2 <= |b|
    ensures n < 0x1_0000
  {
    b[at] as int + 256 * b[at + 1] as int
  }

  /** `i32::from_be_bytes` at `at`: two's complement, most significant byte first. */
  function BigI32(b: seq<byte>, at: nat): (n: int)
    requires at + 4 <= |b|
    ensures -0x8000_0000 <= n < 0x8000_0000
  {
    var u := 0x100_0000 * b[at] as int + 0x1_0000 * b[at + 1] as int + 256 * b[at + 2] as int + b[at + 3] as int;
    if u < 0x8000_0000 then u else u - TWO_32
  }

  /** `value & mask != 0` on bytes. */
  predicate Masked(value: byte, mask: byte) {
    ((value as bv8) & (mask as bv8)) != 0
  }

  /** The accepting condition of src/error.rs `validate_protocol_length`. */
  predicate ValidLength(n: int, allowZero: bool) {
    0 <= n <= MAX_PROTOCOL_PAYLOAD && (allowZero || n != 0)
  }

  predicate AllNul(b: seq<byte>) {
    forall i :: 0 <= i < |b| ==> b[i] == 0
  }

  /** `char::is_whitespace`. */
  predicate IsSpace(c: char) {
    var n := c as int;
    || 9 <= n <= 13 || n == 32 || n == 0x85 || n == 0xA0 || n == 0x1680 || 0x2000 <= n <= 0x200A
    || n == 0x2028 || n == 0x2029 || n == 0x202F || n == 0x205F || n == 0x3000
  }

  /** `saturating_sub`. */
  function Less(total: nat, n: nat): nat {
    if total < n then 0 else total - n
  }

  lemma SliceOfDrop<T>(s: seq<T>, k: nat, i: nat, j: nat)
    requires i <= j && k + j <= |s|
    ensures s[k..][i..j] == s[k + i..k + j] && s[k..][i..] == s[k + i..]
  {
  }

  lemma SplitInFront<T>(a: seq<T>, b: seq<T>, n: nat)
    requires n <= |a|
    ensures (a + b)[..n] == a[..n] && (a + b)[n..] == a[n..] + b
  {
  }

  lemma Associative<T>(a: seq<T>, b: seq<T>, c: seq<T>)
    ensures (a + b) + c == a + (b + c)
  {
  }

  lemma FirstOfConcat<T>(a: seq<T>, b: seq<T>)
    requires a != []
    ensures (a + b)[0] == a[0] && (a + b)[1..] == a[1..] + b
  {
  }
}
