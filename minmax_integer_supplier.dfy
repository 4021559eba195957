/** `MinMaxIntegerSupplier`: an integer in `[min, max)` computed from one
    random `int` with Java's 32-bit arithmetic, and the size sources built on it. */
module MinMaxIntegerSupplier {
  import opened Types

  const DEFAULT_MIN_SIZE: Int32 := 1
  const DEFAULT_MAX_SIZE: Int32 := 11

  /** The two final fields of a supplier. */
  datatype Bounds = Bounds(min: Int32, max: Int32)

  /** A constructed supplier: its constructor admits only `min < max`. */
  type MinMax = b: Bounds | b.min < b.max witness Bounds(DEFAULT_MIN_SIZE, DEFAULT_MAX_SIZE)

  /** The constructor: `IllegalArgumentException` unless `min < max`. */
  function New(min: Int32, max: Int32): (r: Result<MinMax>)
    ensures r.Success? <==> min < max
    ensures r.Success? ==> r.value == Bounds(min, max)
    ensures r.Raised? ==> r.failure == IllegalArgument
  {
    if min < max then Success(Bounds(min, max)) else Raised(IllegalArgument)
  }

  /** The static factory `create()`: the default range. */
  function Create(): (m: MinMax)
    ensures m.min == 1 && m.max == 11
  {
    Bounds(DEFAULT_MIN_SIZE, DEFAULT_MAX_SIZE)
  }

  /** `Math.abs(int)`: the negation of `Integer.MIN_VALUE` overflows back to itself. */
  function Abs32(x: Int32): (r: Int32)
    ensures x != INT_MIN ==> r >= 0 && (r == x || r == -x)
    ensures x == INT_MIN ==> r == INT_MIN
  {
    if x >= 0 then x else Wrap32(-(x as int))
  }

  /** Java's `%` on `int`: truncated division, so the remainder has the sign of the dividend. */
  function JavaRem(a: int, b: int): (r: int)
    requires b != 0
    ensures a >= 0 ==> 0 <= r < (if b > 0 then b else -b)
    ensures a < 0 ==> -(if b > 0 then b else -b) < r <= 0
    ensures a >= 0 ==> r == a % b
  {
    var m := if b > 0 then b else -b;
    ModOfMagnitude(a, b);
    if a >= 0 then a % m else -((-a) % m)
  }

  /** The (Euclidean) remainder does not depend on the divisor's sign. */
  lemma ModOfMagnitude(a: int, b: int)
    requires b != 0
    ensures a % b == a % (if b > 0 then b else -b)
  {
    if b < 0 {
      var m := -b;
      var q, r := a / m, a % m;
      var q', r' := a / b, a % b;
      assert a == m * q + r && 0 <= r < m;
      assert a == b * q' + r' && 0 <= r' < m;
      var k := q + q';
      assert m * k == r' - r by {
        assert b * q' == -(m * q');
        assert m * q + m * q' == m * (q + q');
      }
      MultipleBounds(m, k);
    }
  }

  /** A non-zero multiple of a positive `m` is at least `m` in magnitude. */
  lemma {:induction false} MultipleBounds(m: int, k: int)
    requires m > 0
    ensures k > 0 ==> m * k >= m
    ensures k < 0 ==> m * k <= -m
    decreases if k < 0 then -k else k
  {
    if k > 1 {
      MultipleBounds(m, k - 1);
      assert m * k == m * (k - 1) + m;
    } else if k < -1 {
      MultipleBounds(m, k + 1);
      assert m * k == m * (k + 1) - m;
    }
  }

  /** The truncated remainder is odd in the dividend and ignores the
      divisor's sign: `(-a) % b == -(a % b)` and `a % (-b) == a % b`. */
  lemma JavaRemSigns(a: int, b: int)
    requires b != 0
    ensures JavaRem(-a, b) == -JavaRem(a, b)
    ensures JavaRem(a, -b) == JavaRem(a, b)
  {
    var m := if b > 0 then b else -b;
    assert (if -b > 0 then -b else b) == m;
    assert JavaRem(a, b) == if a >= 0 then a % m else -((-a) % m);
    assert JavaRem(a, -b) == if a >= 0 then a % m else -((-a) % m);
    if a == 0 {
      assert JavaRem(-a, b) == 0 % m == 0;
    } else {
      assert JavaRem(-a, b) == if a < 0 then (-a) % m else -(a % m);
    }
  }

  /** `get()`: `Math.abs(r) % (max - min) + min` on 32-bit `int`s, where `r` is
      the random `int` drawn for this call. */
  function Get(m: MinMax, r: Int32): Int32
  {
    var width := Wrap32(m.max - m.min);
    assert width != 0;
    Wrap32(JavaRem(Abs32(r), width) + m.min)
  }

  /** Wrapping a value one `2^32` above the `int` range. */
  lemma WrapAbove(x: int)
    requires INT_MAX < x <= INT_MAX + 0x1_0000_0000
    ensures Wrap32(x) == x - 0x1_0000_0000
  {
    var q := x - INT_MIN;
    assert q == (q - 0x1_0000_0000) + 0x1_0000_0000;
    assert q % 0x1_0000_0000 == q - 0x1_0000_0000;
  }

  /** Wrapping a value one `2^32` below the `int` range. */
  lemma WrapBelow(x: int)
    requires INT_MIN - 0x1_0000_0000 <= x < INT_MIN
    ensures Wrap32(x) == x + 0x1_0000_0000
  {
    var q := x - INT_MIN;
    assert q % 0x1_0000_0000 == q + 0x1_0000_0000;
  }

  /** The divisor `get` uses, as a magnitude: `max - min`, or, when that
      overflows an `int`, the magnitude `2^32 - (max - min)` of the wrapped
      (negative) difference. */
  function Divisor(m: MinMax): (d: int)
    ensures 0 < d <= 0x8000_0000 || d == m.max - m.min
    ensures d > 0
  {
    var w := m.max - m.min;
    if w <= INT_MAX then w else 0x1_0000_0000 - w
  }

  /** `Wrap32(max - min)` is `max - min`, or the negative of `Divisor`. */
  lemma WidthWrapped(m: MinMax)
    ensures var w := m.max - m.min;
      (w <= INT_MAX ==> Wrap32(w) == w) && (w > INT_MAX ==> Wrap32(w) == -Divisor(m))
  {
    if m.max - m.min > INT_MAX {
      WrapAbove(m.max - m.min);
    }
  }

  /** Whenever the drawn `int` is not `Integer.MIN_VALUE`, the result lies in
      `[min, max)`, even when `max - min` overflows: the remainder is then
      below the drawn magnitude, which is below the true width. */
  lemma GetInRange(m: MinMax, r: Int32)
    requires r != INT_MIN
    ensures m.min <= Get(m, r) < m.max
  {
    var a := Abs32(r);
    var d := Divisor(m);
    WidthWrapped(m);
    var b := Wrap32(m.max - m.min);
    assert b == d || b == -d;
    var rem := JavaRem(a, b);
    assert rem == a % d;
    RemainderBelow(a, d);
    assert m.min <= rem + m.min < m.max;
  }

  /** A non-negative remainder is at most the dividend and below the divisor. */
  lemma RemainderBelow(a: int, d: int)
    requires a >= 0 && d > 0
    ensures 0 <= a % d <= a && a % d < d
  {
    if a >= d {
      assert a % d < d;
    } else {
      assert a % d == a;
    }
  }

  /** `Math.abs(Integer.MIN_VALUE)` is negative, so that draw gives
      `min - k` with `k = 2^31 mod Divisor(m)`, wrapped to 32 bits: exactly
      `min` when `k` is zero, below `min` when the subtraction stays in range,
      and above `max` when it passes `Integer.MIN_VALUE` and wraps around. */
  lemma GetAtIntMin(m: MinMax)
    ensures var k := 0x8000_0000 % Divisor(m);
      && Get(m, INT_MIN) == Wrap32(m.min - k)
      && (k == 0 ==> Get(m, INT_MIN) == m.min)
      && (0 < k && INT_MIN <= m.min - k ==> Get(m, INT_MIN) < m.min)
      && (m.min - k < INT_MIN ==> m.max < Get(m, INT_MIN))
  {
    var k := 0x8000_0000 % Divisor(m);
    WidthWrapped(m);
    assert Abs32(INT_MIN) == INT_MIN;
    assert JavaRem(INT_MIN, Wrap32(m.max - m.min)) == -k;
    if m.min - k < INT_MIN {
      WrapBelow(m.min - k);
    }
  }

  /** A width of 3 from `Integer.MIN_VALUE`: the draw `Integer.MIN_VALUE`
      wraps around to `Integer.MAX_VALUE - 1`, far above `max`. */
  lemma GetAtIntMinWraps()
    ensures Get(Bounds(INT_MIN, INT_MIN + 3), INT_MIN) == INT_MAX - 1
  {
    GetAtIntMin(Bounds(INT_MIN, INT_MIN + 3));
    assert 0x8000_0000 % 3 == 2;
    WrapBelow(INT_MIN - 2);
  }

  /** With the default range, the draw `Integer.MIN_VALUE` yields `-7`. */
  lemma DefaultAtIntMin()
    ensures Get(Create(), INT_MIN) == -7
  {
    GetAtIntMin(Create());
    assert 0x8000_0000 % 10 == 8;
  }

  /** A `Supplier<Integer>` used for sizes: a `MinMaxIntegerSupplier`, or any
      other supplier, whose result is then the injected draw itself. */
  datatype IntSource = Ranged(range: MinMax) | Injected

  /** The integer that size source `src` yields as the `t`-th external call. */
  function Next(src: IntSource, draw: nat -> Int32, t: nat): (n: Int32)
    ensures src.Injected? ==> n == draw(t)
    ensures src.Ranged? && draw(t) != INT_MIN ==> src.range.min <= n < src.range.max
  {
    match src
    case Ranged(m) =>
      assert draw(t) != INT_MIN ==> m.min <= Get(m, draw(t)) < m.max by {
        if draw(t) != INT_MIN { GetInRange(m, draw(t)); }
      }
      Get(m, draw(t))
    case Injected => draw(t)
  }
}
