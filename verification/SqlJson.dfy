/**
 Rows as they come back from storage.  A stored row is JSON text; reading it
 turns every number into a 64-bit floating-point value, the nearest one with
 ties to even.
 */
module SqlJson {
  import opened SqlAst

  type Row = map<string, Value>

  /** Up to here every integer has a floating-point value of its own. */
  const EXACT: int := 0x20_0000_0000_0000

  /** The distance between neighbouring floating-point values around `n`. */
  function Unit(n: nat): (u: nat)
    ensures u >= 1
  {
    if n <= EXACT then 1 else 2 * Unit((n + 1) / 2)
  }

  /** The multiple of `u` nearest to `n`, the even one when there are two. */
  function Nearest(n: nat, u: nat): nat
    requires u >= 1
  {
    var q, r := n / u, n % u;
    if 2 * r < u || (2 * r == u && q % 2 == 0) then q * u else (q + 1) * u
  }

  function Double(n: int): int {
    if n < 0 then 0 - Nearest(-n, Unit(-n)) else Nearest(n, Unit(n))
  }

  function Magnitude(n: int): nat {
    if n < 0 then -n else n
  }

  /** The number is a multiple of the distance between floating-point values around it. */
  predicate Survives(n: int) {
    Magnitude(n) % Unit(Magnitude(n)) == 0
  }

  /** Exactly those numbers are read back as they were written. */
  lemma {:induction false} DoubleIsExact(n: int)
    ensures Double(n) == n <==> Survives(n)
  {
    NearestIsExact(Magnitude(n), Unit(Magnitude(n)));
  }

  lemma {:induction false} NearestIsExact(n: nat, u: nat)
    requires u >= 1
    ensures Nearest(n, u) == n <==> n % u == 0
  {
    var q, r := n / u, n % u;
    assert n == q * u + r;
    if Nearest(n, u) == n {
      MultipleDivides(if 2 * r < u || (2 * r == u && q % 2 == 0) then q else q + 1, u);
    }
  }

  predicate PowerOfTwo(u: nat) {
    u == 1 || (u > 1 && u % 2 == 0 && PowerOfTwo(u / 2))
  }

  /** The distance is the least power of two that leaves no more than 2 to the 53 steps. */
  lemma {:induction false} UnitExactly(n: nat)
    ensures PowerOfTwo(Unit(n)) && n <= EXACT * Unit(n)
    ensures Unit(n) > 1 ==> 2 * n > EXACT * Unit(n)
  {
    if n > EXACT {
      UnitExactly((n + 1) / 2);
    }
  }

  lemma {:induction false} ScaleIsMonotone(a: int, b: int, u: nat)
    requires a <= b
    ensures a * u <= b * u
  {
    assert (b - a) * u >= 0;
  }

  /** How far the multiples of `u` are from a number between two of them. */
  lemma {:induction false} MultiplesApart(q: int, u: nat, k: int)
    ensures k < q ==> k * u <= q * u - u
    ensures k > q + 1 ==> k * u >= q * u + 2 * u
    ensures (q + 1) * u == q * u + u
  {
    if k < q {
      ScaleIsMonotone(k, q - 1, u);
      assert (q - 1) * u == q * u - u;
    } else if k > q + 1 {
      ScaleIsMonotone(q + 2, k, u);
      assert (q + 2) * u == q * u + 2 * u;
    }
  }

  /** No multiple of `u` is nearer, and of two equally near ones it is the even one. */
  lemma {:induction false} NearestIsNearest(n: nat, u: nat, k: int)
    requires u >= 1
    ensures Nearest(n, u) % u == 0 && Magnitude(Nearest(n, u) - n) <= Magnitude(k * u - n)
    ensures Magnitude(Nearest(n, u) - n) == Magnitude(k * u - n) && k * u != Nearest(n, u) ==>
              Nearest(n, u) / u % 2 == 0
  {
    var q, r, down := NearestForm(n, u);
    MultiplesApart(q, u, k);
    NearestOfTwo(n, u, q * u, r, down, q % 2 == 0, k * u, k - q);
  }

  /** The nearest multiple is one of the two around the number. */
  lemma {:induction false} NearestForm(n: nat, u: nat) returns (q: nat, r: nat, down: bool)
    requires u >= 1
    ensures n == q * u + r && r < u && (down <==> 2 * r < u || (2 * r == u && q % 2 == 0))
    ensures Nearest(n, u) == if down then q * u else q * u + u
    ensures Nearest(n, u) % u == 0 && Nearest(n, u) / u == if down then q else q + 1
  {
    q, r := n / u, n % u;
    down := 2 * r < u || (2 * r == u && q % 2 == 0);
    if down {
      MultipleDivides(q, u);
    } else {
      MultipleDivides(q + 1, u);
      OneStepMore(q, u);
    }
  }

  lemma {:induction false} OneStepMore(q: nat, u: nat)
    ensures (q + 1) * u == q * u + u
  {
  }

  /** Between `low` and `low + u`, with `n` at `r` from `low`, against a multiple `x` that is `d` steps from `low`. */
  lemma {:induction false} NearestOfTwo(n: nat, u: nat, low: int, r: nat, down: bool, even: bool, x: int, d: int)
    requires n == low + r && r < u && (down <==> 2 * r < u || (2 * r == u && even))
    requires (d < 0 ==> x <= low - u) && (d == 0 ==> x == low) && (d == 1 ==> x == low + u)
    requires d > 1 ==> x >= low + 2 * u
    ensures var near := if down then low else low + u;
            && Magnitude(near - n) <= Magnitude(x - n)
            && (Magnitude(near - n) == Magnitude(x - n) && x != near ==> (down <==> even))
  {
  }

  /** A number is read back as the nearest floating-point value, the even one of two equally near. */
  lemma {:induction false} DoubleIsNearest(n: int, k: int)
    ensures var u := Unit(Magnitude(n));
            && Magnitude(Double(n)) % u == 0
            && Magnitude(Double(n) - n) <= Magnitude(k * u - n)
            && (Magnitude(Double(n) - n) == Magnitude(k * u - n) && k * u != Double(n) ==>
                  Magnitude(Double(n)) / u % 2 == 0)
  {
    var u := Unit(Magnitude(n));
    NearestIsNearest(Magnitude(n), u, if n < 0 then -k else k);
    assert (-k) * u == -(k * u);
  }

  /** Up to 2 to the 53 every number survives; the next one is read back as 2 to the 53. */
  lemma {:induction false} SmallSurvives(n: int)
    ensures -EXACT <= n <= EXACT ==> Survives(n)
    ensures Double(EXACT + 1) == EXACT && !Survives(EXACT + 1)
  {
    assert (EXACT + 2) / 2 <= EXACT;
    assert Unit(EXACT + 1) == 2 * Unit((EXACT + 2) / 2) == 2;
    DoubleIsExact(EXACT + 1);
  }

  lemma {:induction false} Doubled(a: nat, b: nat)
    ensures a * (2 * b) == 2 * (a * b)
  {
  }

  lemma {:induction false} UnitOfDouble(m: nat)
    requires 2 * m > EXACT
    ensures Unit(2 * m) == 2 * Unit(m)
  {
    assert (2 * m + 1) / 2 == m;
  }

  /** A short multiple of a unit is a multiple of its own unit. */
  lemma {:induction false} ShortMultiple(n: nat, k: nat) returns (c: nat)
    requires k <= EXACT
    ensures k * Unit(n) == c * Unit(k * Unit(n))
  {
    if n <= EXACT {
      c := k;
    } else {
      var u := Unit((n + 1) / 2);
      c := ShortMultiple((n + 1) / 2, k);
      Doubled(k, u);
      if 2 * (k * u) <= EXACT {
        c := 2 * (k * u);
      } else {
        UnitOfDouble(k * u);
        Doubled(c, Unit(k * u));
      }
    }
  }

  lemma {:induction false} NearestOfMultiple(c: nat, u: nat)
    requires u >= 1
    ensures Nearest(c * u, u) == c * u
  {
    assert (c * u) / u == c && (c * u) % u == 0 by {
      MultipleDivides(c, u);
    }
  }

  lemma {:induction false} MultipleDivides(c: nat, u: nat)
    requires u >= 1
    ensures (c * u) / u == c && (c * u) % u == 0
  {
    QuotientIsUnique(c * u, u, c, 0);
  }

  lemma {:induction false} QuotientIsUnique(n: nat, u: nat, q: nat, r: nat)
    requires u >= 1 && n == q * u + r && r < u
    ensures n / u == q && n % u == r
  {
    var a, b := n / u, n % u;
    assert n == a * u + b && b < u;
    if a < q {
      assert (a + 1) * u <= q * u by { Monotone(a + 1, q, u); }
      assert false;
    } else if a > q {
      assert (q + 1) * u <= a * u by { Monotone(q + 1, a, u); }
      assert false;
    }
  }

  lemma {:induction false} Monotone(a: nat, b: nat, u: nat)
    requires a <= b
    ensures a * u <= b * u
  {
    assert b * u == a * u + (b - a) * u;
  }

  lemma {:induction false} QuotientIsBounded(n: nat, u: nat, bound: nat)
    requires u >= 1 && n <= bound * u
    ensures n / u < bound || (n / u == bound && n % u == 0)
  {
    var q, r := n / u, n % u;
    assert n == q * u + r;
    if q > bound {
      assert false;
    }
  }

  lemma {:induction false} NearestIsBounded(n: nat, u: nat, bound: nat) returns (k: nat)
    requires u >= 1 && n <= bound * u
    ensures k <= bound && Nearest(n, u) == k * u
  {
    QuotientIsBounded(n, u, bound);
    var q, r := n / u, n % u;
    k := if 2 * r < u || (2 * r == u && q % 2 == 0) then q else q + 1;
  }

  lemma {:induction false} NearestIsShort(n: nat) returns (k: nat)
    ensures k <= EXACT && Nearest(n, Unit(n)) == k * Unit(n)
  {
    UnitExactly(n);
    k := NearestIsBounded(n, Unit(n), EXACT);
  }

  lemma {:induction false} NearestTwice(n: nat)
    ensures Nearest(Nearest(n, Unit(n)), Unit(Nearest(n, Unit(n)))) == Nearest(n, Unit(n))
  {
    var k := NearestIsShort(n);
    var c := ShortMultiple(n, k);
    NearestOfMultiple(c, Unit(k * Unit(n)));
  }

  /** Rounding a rounded number changes nothing. */
  lemma {:induction false} DoubleTwice(n: int)
    ensures Double(Double(n)) == Double(n)
  {
    NearestTwice(if n < 0 then -n else n);
  }

  // ---------------------------------------------------------------- rows

  function AsRead(v: Value): Value {
    if v.IntValue? then IntValue(Double(v.n)) else v
  }

  function Decode(row: Row): Row {
    map c | c in row :: AsRead(row[c])
  }

  lemma {:induction false} AsReadTwice(v: Value)
    ensures AsRead(AsRead(v)) == AsRead(v)
  {
    if v.IntValue? {
      DoubleTwice(v.n);
    }
  }

  lemma {:induction false} DecodeTwice(row: Row)
    ensures Decode(Decode(row)) == Decode(row)
  {
    forall c | c in row ensures AsRead(AsRead(row[c])) == AsRead(row[c]) {
      AsReadTwice(row[c]);
    }
  }

  predicate Exact(v: Value) {
    v.IntValue? ==> Survives(v.n)
  }

  predicate ExactRow(row: Row) {
    forall c | c in row :: Exact(row[c])
  }

  lemma {:induction false} AsReadExactly(v: Value)
    ensures AsRead(v) == v <==> Exact(v)
  {
    if v.IntValue? {
      DoubleIsExact(v.n);
    }
  }

  /** A row is read back as it was written exactly when all its numbers survive. */
  lemma {:induction false} DecodeExactly(row: Row)
    ensures Decode(row) == row <==> ExactRow(row)
  {
    forall c | c in row ensures AsRead(row[c]) == row[c] <==> Exact(row[c]) {
      AsReadExactly(row[c]);
    }
    if c :| c in row && !Exact(row[c]) {
      assert Decode(row)[c] != row[c];
    }
  }
}
