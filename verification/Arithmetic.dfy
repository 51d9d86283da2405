/** The few facts about division by a variable that the record layer needs. */
module Arithmetic {

  lemma {:induction false} MulAtLeast(k: int, b: int)
    requires k >= 1 && b > 0
    ensures k * b >= b
    decreases k
  {
    if k > 1 {
      MulAtLeast(k - 1, b);
      Distributes(k - 1, 1, b);
    }
  }

  lemma Distributes(x: int, y: int, b: int)
    ensures (x + y) * b == x * b + y * b
  {
  }

  lemma QuotientUnique(q: int, r: int, q': int, r': int, b: int)
    requires b > 0 && 0 <= r < b && 0 <= r' < b && q * b + r == q' * b + r'
    ensures q == q' && r == r'
  {
    Distributes(q, -q', b);
    assert (-q') * b == -(q' * b);
    if q > q' {
      MulAtLeast(q - q', b);
    } else if q < q' {
      Distributes(q', -q, b);
      assert (-q) * b == -(q * b);
      MulAtLeast(q' - q, b);
    }
  }

  lemma DivMod(q: int, r: int, b: int)
    requires b > 0 && 0 <= r < b
    ensures (q * b + r) / b == q && (q * b + r) % b == r
  {
    var a := q * b + r;
    var q', r' := a / b, a % b;
    assert a == b * q' + r';
    Commutes(b, q');
    QuotientUnique(q, r, q', r', b);
  }

  lemma Commutes(x: int, y: int)
    ensures x * y == y * x
  {
  }

  lemma Decompose(a: int, b: int)
    requires b > 0
    ensures a == (a / b) * b + a % b
  {
    assert a == b * (a / b) + a % b;
    Commutes(b, a / b);
  }

  function RoundUp(a: int, b: int): int
    requires b > 0
  {
    a + (b - a % b) % b
  }

  /** RoundUp is the least multiple of b that is at least a. */
  lemma RoundUpLeast(a: int, b: int)
    requires b > 0
    ensures a <= RoundUp(a, b) < a + b && RoundUp(a, b) % b == 0
  {
    Decompose(a, b);
    var q := a / b;
    if a % b == 0 {
      DivMod(1, 0, b);
      DivMod(q, 0, b);
    } else {
      DivMod(0, b - a % b, b);
      Distributes(q, 1, b);
      DivMod(q + 1, 0, b);
    }
  }

  /** A multiple of b that is at least a is at least RoundUp(a, b). */
  lemma MultipleAboveRoundUp(m: int, a: int, b: int)
    requires b > 0 && m % b == 0 && m >= a
    ensures m >= RoundUp(a, b)
  {
    RoundUpLeast(a, b);
    Decompose(m, b);
    Decompose(RoundUp(a, b), b);
    if m < RoundUp(a, b) {
      var k := RoundUp(a, b) / b - m / b;
      Distributes(m / b, k, b);
      if k >= 1 {
        MulAtLeast(k, b);
      } else {
        MulAtMostZero(k, b);
      }
    }
  }

  lemma MulAtMostZero(k: int, b: int)
    requires k <= 0 && b > 0
    ensures k * b <= 0
  {
    if k < 0 {
      MulAtLeast(-k, b);
      assert (-k) * b == -(k * b);
    }
  }

  /** a filled up to the next multiple of b, with at least one added. */
  lemma PadToMultiple(a: int, b: int)
    requires b > 0 && a >= 0
    ensures 1 <= b - a % b <= b && (a + (b - a % b)) % b == 0
  {
    Decompose(a, b);
    Distributes(a / b, 1, b);
    DivMod(a / b + 1, 0, b);
  }

  lemma MultiplesAdd(a: int, c: int, b: int)
    requires b > 0 && a % b == 0 && c % b == 0
    ensures (a + c) % b == 0
  {
    Decompose(a, b);
    Decompose(c, b);
    Distributes(a / b, c / b, b);
    DivMod(a / b + c / b, 0, b);
  }

  lemma PadAtLeastBlock(n: int, b: int)
    requires b > 0 && n % b == 0 && n >= 1
    ensures n >= b
  {
    Decompose(n, b);
    if n < b {
      DivMod(0, n, b);
    }
  }
}
