/**
 The idle sway of the header: which frame a tick shows next.
 */
module Sway {
  import Arithmetic

  /** The next frame of the idle sway and its direction. */
  function NextPingPong(idx: int, dir: int, n: nat): (r: (int, int))
    ensures n > 0 && 0 <= idx < n && (dir == 1 || dir == -1) ==> 0 <= r.0 < n && (r.1 == 1 || r.1 == -1)
  {
    if n <= 1 then (0, dir)
    else if idx + dir >= n - 1 then (n - 1, -1)
    else if idx + dir <= 0 then (0, 1)
    else (idx + dir, dir)
  }

  /** The sway after `k` ticks from the resting frame. */
  function After(k: nat, n: nat): (r: (int, int))
    requires n > 1
  {
    if k == 0 then (0, 1) else var (i, d) := After(k - 1, n); NextPingPong(i, d, n)
  }

  /** The triangle wave over `n` frames at phase `m`. */
  function Wave(m: nat, n: nat): (r: (int, int)) {
    if m < n - 1 then (m, 1) else (2 * (n - 1) - m, -1)
  }

  lemma {:induction false} Phase(k: nat, n: nat, p: nat) returns (c: nat, m: nat)
    requires n > 1 && p == 2 * (n - 1)
    ensures k == c * p + m && m < p && After(k, n) == Wave(m, n)
  {
    if k == 0 {
      c, m := 0, 0;
    } else {
      c, m := Phase(k - 1, n, p);
      assert (c + 1) * p == c * p + p;
      if m + 1 == p {
        c, m := c + 1, 0;
      } else {
        m := m + 1;
      }
    }
  }

  /** The sway is the triangle wave of period 2 (n - 1): every frame in turn, there and back. */
  lemma IsTriangleWave(k: nat, n: nat)
    requires n > 1
    ensures After(k, n) == Wave(k % (2 * (n - 1)), n)
  {
    var p := 2 * (n - 1);
    var c, m := Phase(k, n, p);
    Arithmetic.DivModUnique(k, p, c, m);
  }
}
