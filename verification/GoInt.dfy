/** Go's integer operators and Kubernetes quantities, where they differ from Dafny's `int`. */
module GoInt {

  const INT32_MAX := 0x7fff_ffff
  const INT32_MIN := -0x8000_0000
  const TWO_TO_32 := 0x1_0000_0000

  /** The conversion `int32(x)`: keeps the low 32 bits, read as two's complement. */
  function ToInt32(x: int): (r: int)
    ensures INT32_MIN <= r <= INT32_MAX
    ensures INT32_MIN <= x <= INT32_MAX ==> r == x
  {
    (x + 0x8000_0000) % TWO_TO_32 - 0x8000_0000
  }

  /** Go's `a / b`, which truncates toward zero. */
  function Quot(a: int, b: int): int
    requires b != 0
  {
    var q := Abs(a) / Abs(b);
    if (a < 0) == (b < 0) then q else -q
  }

  function Abs(x: int): nat {
    if x < 0 then -x else x
  }

  /** A loop `for i := 0; i < int(n); i++` runs this many times. */
  function Trips(n: int): nat {
    if n < 0 then 0 else n
  }

  /** A Kubernetes resource quantity, counted in thousandths. */
  type Quantity = int

  /** `Quantity.Value()`: whole units, rounded away from zero. */
  function Value(q: Quantity): int {
    if q < 0 then -((-q + 999) / 1000) else (q + 999) / 1000
  }

  /** The least number of whole units that covers a quantity. */
  predicate LeastCover(units: int, q: Quantity) {
    1000 * (units - 1) < q <= 1000 * units
  }

  /** Whole units, rounded up; a negative quantity mirrors the positive one. */
  lemma ValueRoundsAway(q: Quantity)
    ensures q >= 0 ==> LeastCover(Value(q), q)
    ensures Value(-q) == -Value(q)
  {
  }

  /** A conversion keeps the number modulo 2^32. */
  lemma ToInt32Wraps(x: int)
    ensures (x - ToInt32(x)) % TWO_TO_32 == 0
  {
    var k := (x + 0x8000_0000) / TWO_TO_32;
    assert x - ToInt32(x) == k * TWO_TO_32;
  }

  /** Accumulating in int32 gives the int32 conversion of the exact sum. */
  lemma ToInt32Add(a: int, b: int)
    ensures ToInt32(ToInt32(a) + ToInt32(b)) == ToInt32(a + b)
  {
    var k := (a + 0x8000_0000) / TWO_TO_32 + (b + 0x8000_0000) / TWO_TO_32;
    assert ToInt32(a) + ToInt32(b) == a + b - k * TWO_TO_32;
  }

  /** Division by the slot width, for a value that fits in its type. */
  lemma QuotOfMultiple(n: nat, b: int)
    requires b > 0
    ensures Quot(n * b, b) == n
  {
    assert n * b >= 0;
    DivOfMultiple(n, b);
  }

  lemma DivOfMultiple(n: nat, b: int)
    requires b > 0
    ensures n * b / b == n
  {
    var q := n * b / b;
    assert n * b == q * b + n * b % b;
    assert (n - q) * b == n * b - q * b;
    SmallMultiple(n - q, b);
  }

  lemma SmallMultiple(k: int, b: int)
    requires -b < k * b < b
    ensures k == 0
  {
    if k >= 1 {
      MulMonotone(1, k, b);
    } else if k <= -1 {
      MulMonotone(k, -1, b);
    }
  }

  lemma MulMonotone(x: int, y: int, b: int)
    requires x <= y && b >= 0
    ensures x * b <= y * b
  {
    assert (y - x) * b >= 0;
    assert (y - x) * b == y * b - x * b;
  }
}
