/** Small shared vocabulary: optional values, results with kernel errno codes, pause sources, 32-bit conversion, and ring index facts. */
module Prelude {

  datatype Option<+T> = None | Some(value: T)

  datatype Result<+T> = Ok(value: T) | Err(error: int)

  /** Who may hold a transfer queue paused. */
  datatype PauseSource = InternalWork | Firmware | Suspend | Shutdown

  // Kernel errno values as the driver returns them.
  const EIO: int := -5
  const ENOMEM: int := -12
  const EINVAL: int := -22
  const EPIPE: int := -32
  const EPROTO: int := -71
  const EOVERFLOW: int := -75
  const EREMOTEIO: int := -121

  function Min(a: int, b: int): int {
    if a <= b then a else b
  }

  function Max(a: int, b: int): int {
    if a <= b then b else a
  }

  /** Stepping a ring index is the same as reducing the stepped position. */
  lemma RingStep(k: nat, n: nat)
    requires 0 < n
    ensures (k % n + 1) % n == (k + 1) % n
  {
    var q, r := k / n, k % n;
    assert k == q * n + r;
    if r + 1 < n {
      DivModUnique(k + 1, n, q, r + 1);
      DivModUnique(r + 1, n, 0, r + 1);
    } else {
      assert (q + 1) * n == q * n + n;
      DivModUnique(k + 1, n, q + 1, 0);
      DivModUnique(r + 1, n, 1, 0);
    }
  }

  /** Two positions less than one ring apart share an index only when they are the same position. */
  lemma RingApart(i: nat, j: nat, n: nat)
    requires i <= j < i + n
    ensures i % n == j % n <==> i == j
  {
    var d := j / n - i / n;
    assert d * n == (j / n) * n - (i / n) * n;
    if i % n == j % n {
      MulBound(d, n);
    }
  }

  lemma MulBound(k: int, n: nat)
    ensures k >= 1 ==> k * n >= n
    ensures k <= -1 ==> k * n <= 0 - n
    ensures k == 0 ==> k * n == 0
  {
    assert k * n - n == (k - 1) * n;
    assert k * n + n == (k + 1) * n;
  }

  /** Quotient and remainder are determined by their defining equation. */
  lemma DivModUnique(x: int, n: nat, q: int, r: nat)
    requires 0 < n && x == q * n + r && r < n
    ensures x / n == q && x % n == r
  {
    var d := x / n - q;
    assert d * n == (x / n) * n - q * n;
    MulBound(d, n);
  }

  /** A stepped ring index either moves on by one or returns to zero. */
  lemma Wrap(x: nat, n: nat)
    requires x < n
    ensures (x + 1) % n == if x + 1 == n then 0 else x + 1
  {
    if x + 1 == n {
      DivModUnique(x + 1, n, 1, 0);
    } else {
      DivModUnique(x + 1, n, 0, x + 1);
    }
  }

  /** A conversion to a signed 32-bit integer keeps the low 32 bits. */
  function ToS32(x: int): int {
    (x + 0x8000_0000) % 0x1_0000_0000 - 0x8000_0000
  }

  lemma FitsS32(x: int)
    requires -0x8000_0000 <= x < 0x8000_0000
    ensures ToS32(x) == x
  {
    DivModUnique(x + 0x8000_0000, 0x1_0000_0000, 0, x + 0x8000_0000);
  }

  /** One turn too far comes back by one turn. */
  lemma WrapsS32(x: int)
    requires 0x8000_0000 <= x < 0x1_8000_0000
    ensures ToS32(x) == x - 0x1_0000_0000
  {
    DivModUnique(x + 0x8000_0000, 0x1_0000_0000, 1, x - 0x8000_0000);
  }
}
