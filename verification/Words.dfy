/** Bytes and 16-bit words of the M-code machine, kept as bounded integers so that every
    wrap-around of the machine is written out. */
module Words {

  type byte = x: int | 0 <= x < 0x100
  type word = x: int | 0 <= x < 0x1_0000

  /** Assignment to a `uint16_t`. */
  function Wrap(x: int): word {
    x % 0x1_0000
  }

  /** Sums may be wrapped on the way. */
  lemma {:induction false} WrapSum(x: int, y: int)
    ensures Wrap(Wrap(x) + y) == Wrap(x + y)
  {
  }

  /** Reading a word as `int16_t`. */
  function Signed(w: word): int {
    if w < 0x8000 then w else w - 0x1_0000
  }

  /** Reading a byte as `int8_t`. */
  function SignedByte(b: byte): int {
    if b < 0x80 then b else b - 0x100
  }

  /** High byte first, as `PutWord` writes and `le_next2` reads. */
  function Bytes(w: word): (s: seq<byte>)
    ensures |s| == 2
  {
    [w / 0x100, w % 0x100]
  }

  function Join(hi: byte, lo: byte): word {
    hi * 0x100 + lo
  }

  function Pow2(n: nat): (r: nat)
    ensures r >= 1
  {
    if n == 0 then 1 else 2 * Pow2(n - 1)
  }

  /** Bitwise AND of two nonnegative integers. */
  function BitAnd(x: nat, y: nat): (r: nat)
    ensures r <= x && r <= y
  {
    if x == 0 || y == 0 then 0
    else (if x % 2 == 1 && y % 2 == 1 then 1 else 0) + 2 * BitAnd(x / 2, y / 2)
  }

  lemma {:induction false} JoinBytes(w: word)
    ensures Join(Bytes(w)[0], Bytes(w)[1]) == w
  {
  }

  /** C's integer division, which truncates towards zero. */
  function TruncDiv(i: int, j: int): int
    requires j != 0
  {
    if i >= 0 then
      (if j > 0 then i / j else -(i / -j))
    else
      (if j > 0 then -(-i / j) else -i / -j)
  }

  /** A power of two times k leaves the low bits of x alone: masking with 2^n - 1 is
      the remainder modulo 2^n. */
  lemma {:induction false} MaskIsRemainder(x: nat, n: nat)
    ensures BitAnd(x, Pow2(n) - 1) == x % Pow2(n)
  {
    hide BitAnd;
    if n == 0 || x == 0 {
      MaskZero(x);
      assert n == 0 ==> Pow2(n) - 1 == 0;
    } else {
      MaskIsRemainder(x / 2, n - 1);
      OddMask(Pow2(n - 1));
      HalfMask(x, 2 * Pow2(n - 1) - 1, (x / 2) % Pow2(n - 1));
      HalfRemainder(x, Pow2(n - 1));
    }
  }

  lemma {:induction false} MaskZero(x: nat)
    ensures BitAnd(x, 0) == 0
    ensures forall y: nat {:trigger BitAnd(0, y)} :: BitAnd(0, y) == 0
  {
  }

  lemma {:induction false} OddMask(h: nat)
    requires h >= 1
    ensures (2 * h - 1) % 2 == 1 && (2 * h - 1) / 2 == h - 1
  {
  }

  lemma {:induction false} HalfMask(x: nat, y: nat, r: nat)
    requires x > 0 && y % 2 == 1 && BitAnd(x / 2, y / 2) == r
    ensures BitAnd(x, y) == x % 2 + 2 * r
  {
  }

  lemma {:induction false} HalfRemainder(x: nat, h: nat)
    requires h >= 1
    ensures x % (2 * h) == x % 2 + 2 * ((x / 2) % h)
  {
    var q, r := (x / 2) / h, (x / 2) % h;
    assert x / 2 == h * q + r;
    assert x == 2 * (h * q + r) + x % 2;
    assert x == (2 * h) * q + (2 * r + x % 2);
    RemainderUnique(x, 2 * h, q, 2 * r + x % 2);
  }

  lemma {:induction false} RemainderUnique(x: int, m: int, q: int, r: int)
    requires m > 0 && 0 <= r < m && x == m * q + r
    ensures x % m == r && x / m == q
  {
    var d := x / m - q;
    assert x == m * (x / m) + x % m;
    assert m * d == r - x % m by {
      assert m * d == m * (x / m) - m * q;
    }
    if d >= 1 {
      MulMono(m, 1, d);
    } else if d <= -1 {
      MulMono(m, d, -1);
    }
  }

  lemma {:induction false} QuotientShrinks(i: nat, d: nat)
    requires d >= 1
    ensures 0 <= i / d <= i
  {
    var q := i / d;
    assert i == d * q + i % d && q >= 0;
    MulMono(q, 1, d);
  }

  lemma {:induction false} MulMono(m: int, a: int, b: int)
    requires m >= 0 && a <= b
    ensures m * a <= m * b
  {
  }

  /** Wrapping may be done before or after adding a multiple of 2^16. */
  lemma {:induction false} WrapShift(x: int, k: int)
    ensures Wrap(x + 0x1_0000 * k) == Wrap(x)
  {
    RemainderUnique(x + 0x1_0000 * k, 0x1_0000, x / 0x1_0000 + k, x % 0x1_0000);
  }
}
