/**
  Index arithmetic of the scene pool: which scene is shown now, which one
  the cross-fade blends towards, and which one is shown after the running
  transition completes.

  The program computes on JavaScript numbers. Its `%` truncates towards zero
  (the remainder takes the sign of the dividend) whereas Dafny's `%` on `int`
  is Euclidean, so the JavaScript operator is written out as `Rem`.
 */
module SceneIndex {

  /** Names of the matcap textures, one scene per entry, in pool order. */
  datatype Matcap = Red | Green | Gray

  /** The scene descriptions the pool is built from. */
  const ScenesData: seq<Matcap> := [Red, Green, Gray]

  /** JavaScript's `Math.abs` on integral numbers. */
  function Abs(x: int): (r: int)
    ensures r >= 0
    ensures r == x || r == -x
  {
    if x < 0 then -x else x
  }

  /** JavaScript's remainder operator `a % b` for a positive divisor. */
  function Rem(a: int, b: int): (r: int)
    requires b > 0
    ensures a >= 0 ==> 0 <= r < b
    ensures a < 0 ==> -b < r <= 0
    ensures a >= 0 ==> r == a % b
  {
    if a >= 0 then a % b else -((-a) % b)
  }

  /** The dividend minus JavaScript's remainder is a multiple of the divisor, whatever the dividend's sign. */
  lemma {:induction false} RemDifferenceIsMultiple(a: int, b: int)
    requires b > 0
    ensures (a - Rem(a, b)) % b == 0
  {
    if a >= 0 {
      var q := a / b;
      assert a == q * b + a % b;
      RemainderUnique(a - a % b, q, b, 0);
    } else {
      var q := (-a) / b;
      assert -a == q * b + (-a) % b;
      assert a - Rem(a, b) == (-q) * b;
      RemainderUnique(a - Rem(a, b), -q, b, 0);
    }
  }

  /**
    The index `current` takes when a transition completes:
    `Math.abs(current + 1) % n`. `Math.abs` keeps the dividend non-negative,
    so the result is a valid index whatever `current` is.
   */
  function AdvanceIndex(current: int, n: int): (r: int)
    requires n > 0
    ensures 0 <= r < n
    ensures 0 <= current < n - 1 ==> r == current + 1
    ensures current == n - 1 ==> r == 0
  {
    Rem(Abs(current + 1), n)
  }

  /**
    The index of the scene the frame blends towards: `(current + 1) % n`.
    For every index the program can hold it is a valid index, it is the
    index `current` takes at the next completion, and with two or more
    scenes it differs from `current`.
   */
  function NextIndex(current: int, n: int): (r: int)
    requires n > 0
    ensures current >= -1 ==> 0 <= r < n
    ensures current >= 0 ==> r == AdvanceIndex(current, n)
    ensures n >= 2 && 0 <= current < n ==> r != current
  {
    Rem(current + 1, n)
  }

  /** The remainder is determined by any decomposition `m == q * n + r` with `0 <= r < n`. */
  lemma {:induction false} RemainderUnique(m: int, q: int, n: int, r: int)
    requires n > 0 && 0 <= r < n
    requires m == q * n + r
    ensures m % n == r
  {
    var q', r' := m / n, m % n;
    var d := q - q';
    assert q * n - q' * n == d * n;
    assert d * n == r' - r;
    if d >= 1 {
      MultipleAtLeast(d, n);
    } else if d <= -1 {
      MultipleAtLeast(-d, n);
    }
  }

  /** The nonlinear step `RemainderUnique` needs: a positive multiple of `n` is at least `n`. */
  lemma MultipleAtLeast(d: int, n: int)
    requires d >= 1 && n > 0
    ensures d * n >= n
  {
    assert d * n == (d - 1) * n + n;
  }

  /** One more advance adds one modulo `n`. */
  lemma {:induction false} AdvanceStep(m: int, n: int)
    requires n > 0
    requires m >= 0
    ensures AdvanceIndex(m % n, n) == (m + 1) % n
  {
    var q, r := m / n, m % n;
    assert m == q * n + r;
    if r < n - 1 {
      RemainderUnique(m + 1, q, n, r + 1);
    } else {
      RemainderUnique(m + 1, q + 1, n, 0);
    }
  }

  /** With the program's three scenes, three completions from any index return to it. */
  lemma {:induction false} ThreeScenesCycle(start: int)
    requires 0 <= start < |ScenesData|
    ensures AdvanceIndex(AdvanceIndex(AdvanceIndex(start, |ScenesData|), |ScenesData|), |ScenesData|) == start
  {
  }
}
