/** Words of the drawfile buffer and small text helpers shared by the converter.

    The drawfile is held in memory as an array of 32-bit signed words; a C
    address into it is modelled as a word index. Reads outside the buffer are undefined
    in C; here they read as 0, which ends every scanning loop of the converter. */
module Words {

  datatype Option<T> = None | Some(value: T)

  /** Regrouping a concatenation, for proofs that build sequences piece by piece. */
  lemma Assoc<T>(a: seq<T>, b: seq<T>, c: seq<T>)
    ensures a + b + c == a + (b + c)
  {
  }

  /** Quotient and remainder are the unique ones. */
  lemma DivMod(a: int, b: int, q: int, r: int)
    requires 0 < b && 0 <= r < b && a == q * b + r
    ensures a / b == q && a % b == r
  {
    var q', r' := a / b, a % b;
    assert (q' - q) * b == r - r';
    if q' > q {
      MulAtLeast(q' - q, b);
    } else if q' < q {
      MulAtLeast(q - q', b);
    }
  }

  lemma {:induction false} MulAtLeast(k: int, b: int)
    requires k >= 1 && b > 0
    ensures k * b >= b
    decreases k
  {
    if k > 1 {
      MulAtLeast(k - 1, b);
      assert k * b == (k - 1) * b + b;
    }
  }

  const TwoTo32: int := 0x1_0000_0000

  /** The word at index `i`, or 0 outside the buffer. */
  function At(w: seq<int>, i: int): int
  {
    if 0 <= i < |w| then w[i] else 0
  }

  /** The two's-complement bit pattern of a signed word, as an unsigned value. */
  function U32(x: int): (r: nat)
    ensures r < TwoTo32
    ensures 0 <= x < TwoTo32 ==> r == x
    ensures -TwoTo32 <= x < 0 ==> r == x + TwoTo32
  {
    x % TwoTo32
  }

  /** An object's (or outline record's) length in words: its byte length
      `p[1]` shifted right by two, an arithmetic shift, i.e. rounding down. */
  function Len(w: seq<int>, p: int): int
  {
    At(w, p + 1) / 4
  }

  /** The word index just past the object (or outline record) at `p`. */
  function Next(w: seq<int>, p: int): int
  {
    p + Len(w, p)
  }

  /** Byte `k` of `u`: its low byte after `k` shifts right by eight bits. */
  function ByteOf(u: nat, k: nat): (r: nat)
    ensures r < 256
    ensures u == 0 ==> r == 0
  {
    if k == 0 then u % 0x100 else ByteOf(u / 0x100, k - 1)
  }

  /** The byte at byte address `b`; words are little-endian. */
  function ByteAt(w: seq<int>, b: int): (r: nat)
    ensures r < 256
  {
    if b < 0 then 0 else ByteOf(U32(At(w, b / 4)), b % 4)
  }

  /** The NUL-terminated string starting at byte address `b`. */
  function CString(w: seq<int>, b: int): (r: string)
    decreases 4 * |w| - b
  {
    if b < 0 || b >= 4 * |w| || ByteAt(w, b) == 0 then ""
    else [ByteAt(w, b) as char] + CString(w, b + 1)
  }

  function Digit(n: nat): char
    requires n < 10
  {
    "0123456789"[n]
  }

  function NatToString(n: nat): (r: string)
    ensures |r| > 0
    ensures forall i :: 0 <= i < |r| ==> '0' <= r[i] <= '9'
  {
    if n < 10 then [Digit(n)] else NatToString(n / 10) + [Digit(n % 10)]
  }

  /** `%d` / `%i`: decimal, with a leading '-' for negative values. */
  function IntToString(n: int): (r: string)
    ensures |r| > 0
  {
    if n < 0 then "-" + NatToString(-n) else NatToString(n)
  }

  function HexDigit(n: nat): char
    requires n < 16
  {
    "0123456789ABCDEF"[n]
  }

  /** `%02X` of a byte. */
  function Hex2(b: nat): string
    requires b < 256
  {
    [HexDigit(b / 16), HexDigit(b % 16)]
  }
}
