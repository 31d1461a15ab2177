/** JavaScript numbers as IEEE 754 binary64 values, far enough to evaluate the
    calorie snapshot `Math.round(weight * (caloriesPer100g / 100))` the way the
    app does: every division and product is rounded to the nearest double. Only
    non-negative values occur, and overflow and subnormals are out of reach of
    calorie figures, so neither is modelled. */
module Float {
  import opened Types
  import opened Day

  function Pow2(n: nat): (r: nat)
    ensures r >= 1
  {
    if n == 0 then 1 else 2 * Pow2(n - 1)
  }

  lemma {:induction false} Pow2Add(a: nat, b: nat)
    ensures Pow2(a + b) == Pow2(a) * Pow2(b)
  {
    if b > 0 {
      Pow2Add(a, b - 1);
      assert Pow2(a + b) == 2 * (Pow2(a) * Pow2(b - 1));
    }
  }

  /** `x * 2^s` is `x * Up(s) / Down(s)`, whatever the sign of `s`. */
  function Up(s: int): (r: nat)
    ensures r >= 1
  {
    if s >= 0 then Pow2(s) else 1
  }

  function Down(s: int): (r: nat)
    ensures r >= 1
  {
    if s >= 0 then 1 else Pow2(-s)
  }

  /** 2^52 and 2^53: a double's significand has 53 bits. */
  const Two52: nat := 4503599627370496
  const Two53: nat := 9007199254740992

  /** `p / q * 2^s` lies in [2^52, 2^53): scaled by `2^s`, the value has exactly
      the 53 significant bits of a double. */
  predicate InBinade(p: nat, q: nat, s: int) {
    Two52 * q * Down(s) <= p * Up(s) < Two53 * q * Down(s)
  }

  /** A double `m * 2^-s`. */
  datatype Double = Double(m: nat, s: int)

  function Value(d: Double): real {
    (d.m * Down(d.s)) as real / Up(d.s) as real
  }

  /** `n / d` rounded to the nearest integer, a tie going to the even one. */
  function NearestEven(n: nat, d: nat): (r: nat)
    requires d > 0
    ensures -(d as int) <= 2 * (r * d - n) <= d
    ensures 2 * (n % d) == d ==> r % 2 == 0
  {
    var f, rem := n / d, n % d;
    var r := if 2 * rem < d || (2 * rem == d && f % 2 == 0) then f else f + 1;
    DivMod(n, d);
    NearestStep(n, d, f, rem, r);
    r
  }

  lemma DivMod(n: nat, d: nat)
    requires d > 0
    ensures n / d >= 0 && n == n / d * d + n % d && 0 <= n % d < d
  {
  }

  /** The neighbour of `n / d` on the side of the remainder is within a half. */
  lemma NearestStep(n: int, d: int, f: int, rem: int, r: int)
    requires d > 0 && 0 <= rem < d && n == f * d + rem
    requires r == if 2 * rem < d || (2 * rem == d && f % 2 == 0) then f else f + 1
    ensures -d <= 2 * (r * d - n) <= d
    ensures 2 * rem == d ==> r % 2 == 0
  {
    if r == f + 1 {
      assert r * d == f * d + d;
    }
  }

  /** The double nearest to `p / q`: scaled into its binade, the significand is
      the scaled value rounded to the nearest integer, ties to even. */
  ghost function ToDouble(p: nat, q: nat): (d: Double)
    requires q > 0
    ensures p == 0 ==> Value(d) == 0.0
    ensures p > 0 ==> InBinade(p, q, d.s)
    ensures p > 0 ==> -((q * Down(d.s)) as int) <= 2 * (d.m * (q * Down(d.s)) - p * Up(d.s)) <= q * Down(d.s)
  {
    if p == 0 then Double(0, 0)
    else
      BinadeExists(p, q);
      var s :| InBinade(p, q, s);
      Double(NearestEven(p * Up(s), q * Down(s)), s)
  }

  /** `Math.round(weight * (caloriesPer100g / 100))` in JavaScript, for a card
      whose weight and calories are whole numbers: `kcal / 100` is rounded to a
      double, the product with the weight is rounded again, and `Math.round`
      takes the nearest integer of that double, halves going up. */
  ghost function JsSnapshot(weight: nat, kcal: nat): int {
    var ratio := ToDouble(kcal, 100);
    var product := ToDouble(weight * ratio.m * Down(ratio.s), Up(ratio.s));
    Round(Value(product))
  }

  /** Every positive fraction has a binade. */
  lemma BinadeExists(p: nat, q: nat)
    requires p > 0 && q > 0
    ensures exists s :: InBinade(p, q, s)
  {
    if p < Two52 * q {
      BinadeAbove(p, q, 0);
    } else if p >= Two53 * q {
      BinadeBelow(p, q, 0);
    } else {
      assert InBinade(p, q, 0);
    }
  }

  /** Doubling a fraction below 2^52 reaches the binade. */
  lemma BinadeAbove(p: nat, q: nat, s: nat)
    requires p > 0 && q > 0 && p * Pow2(s) < Two52 * q
    ensures exists t :: InBinade(p, q, t)
    decreases Two52 * q - p * Pow2(s)
  {
    var x := p * Pow2(s);
    assert p * Pow2(s + 1) == 2 * x;
    assert x < 2 * x by { assert x >= 1 by { MulLe(1, p, Pow2(s)); } }
    if 2 * x < Two52 * q {
      BinadeAbove(p, q, s + 1);
    } else {
      assert Up(s + 1) == Pow2(s + 1) && Down(s + 1) == 1;
      assert InBinade(p, q, s + 1);
    }
  }

  /** Halving a fraction of 2^53 or more reaches the binade. */
  lemma BinadeBelow(p: nat, q: nat, t: nat)
    requires q > 0 && p >= Two53 * q * Pow2(t)
    ensures exists s :: InBinade(p, q, s)
    decreases p - Two53 * q * Pow2(t)
  {
    var y := Two53 * q * Pow2(t);
    assert Two53 * q * Pow2(t + 1) == 2 * y;
    assert y < 2 * y by { assert q * Pow2(t) >= 1 by { MulLe(1, q, Pow2(t)); } }
    if p >= 2 * y {
      BinadeBelow(p, q, t + 1);
    } else {
      assert Up(-(t + 1)) == 1 && Down(-(t + 1)) == Pow2(t + 1);
      assert Two52 * q * Pow2(t + 1) == y;
      assert InBinade(p, q, -(t + 1));
    }
  }

  /** A fraction has one binade only. */
  lemma BinadeUnique(p: nat, q: nat, s: int, t: int)
    requires q > 0 && InBinade(p, q, s) && InBinade(p, q, t)
    ensures s == t
  {
    if s < t {
      BinadesApart(p, q, s, t);
    } else if t < s {
      BinadesApart(p, q, t, s);
    }
  }

  /** Scaled into one binade, `p / q` is at least twice too large for any
      higher one. */
  lemma BinadesApart(p: nat, q: nat, s: int, t: int)
    requires s < t && InBinade(p, q, s)
    ensures !InBinade(p, q, t)
  {
    var k: nat := t - s;
    var g := Pow2(k);
    ScaleShift(s, t);
    assert g >= 2 by { assert g == 2 * Pow2(k - 1); }
    ScaledUp(p, q, Up(s), Down(s), Up(t), Down(t), g);
  }

  /** The arithmetic of `BinadesApart`, on plain numbers. */
  lemma ScaledUp(p: nat, q: nat, us: nat, ds: nat, ut: nat, dt: nat, g: nat)
    requires ds >= 1 && ut * ds == g * us * dt && g >= 2
    requires Two52 * q * ds <= p * us
    ensures Two53 * q * dt <= p * ut
  {
    var x := p * us * dt;
    MulLe(Two52 * q * ds, p * us, dt);
    assert Two52 * q * ds * dt == Two52 * (q * dt) * ds;
    MulLe(2, g, x);
    Regroup(p, ut, ds, g, us, dt);
    assert p * ut * ds >= Two53 * (q * dt) * ds;
    Cancel(p * ut, Two53 * (q * dt), ds);
  }

  lemma Regroup(p: int, ut: int, ds: int, g: int, us: int, dt: int)
    requires ut * ds == g * us * dt
    ensures p * ut * ds == g * (p * us * dt)
  {
    calc {
      p * ut * ds;
      p * (ut * ds);
      p * (g * us * dt);
      g * (p * us * dt);
    }
  }

  lemma Cancel(x: int, y: int, z: int)
    requires z >= 1 && x * z >= y * z
    ensures x >= y
  {
    if x < y {
      MulLt(x, y, z);
    }
  }

  /** Moving from scale `s` up to scale `t` multiplies by `2^(t - s)`. */
  lemma ScaleShift(s: int, t: int)
    requires s < t
    ensures Up(t) * Down(s) == Pow2(t - s) * Up(s) * Down(t)
  {
    if s >= 0 {
      Pow2Add(t - s, s);
    } else if t >= 0 {
      Pow2Add(t, -s);
    } else {
      Pow2Add(t - s, -t);
    }
  }

  lemma MulLe(x: int, y: int, z: nat)
    requires x <= y
    ensures x * z <= y * z
  {
  }

  lemma MulLt(x: int, y: int, z: int)
    requires x < y && z >= 1
    ensures x * z < y * z
  {
  }

  lemma Pow2Table()
    ensures Pow2(49) == 562949953421312
    ensures Pow2(54) == 18014398509481984
  {
    var p8 := Pow2(8);
    assert p8 == 256;
    Pow2Add(8, 8);
    var p16 := Pow2(16);
    assert p16 == 65536;
    Pow2Add(16, 16);
    var p32 := Pow2(32);
    assert p32 == 4294967296;
    Pow2Add(32, 16);
    var p48 := Pow2(48);
    assert p48 == 281474976710656;
    Pow2Add(48, 1);
    Pow2Add(48, 6);
    assert Pow2(6) == 64;
  }

  /** `29 / 100` as a double: 5224175567749775 * 2^-54, a little under 0.29. */
  lemma RatioOf29()
    ensures ToDouble(29, 100) == Double(5224175567749775, 54)
  {
    Pow2Table();
    var d := ToDouble(29, 100);
    assert InBinade(29, 100, 54);
    BinadeUnique(29, 100, d.s, 54);
  }

  /** 50 times that double, rounded: 8162774324609023 * 2^-49, a little under 14.5. */
  lemma ProductOf50()
    ensures ToDouble(50 * 5224175567749775, Pow2(54)) == Double(8162774324609023, 49)
  {
    Pow2Table();
    var p := 50 * 5224175567749775;
    var d := ToDouble(p, Pow2(54));
    assert InBinade(p, Pow2(54), 49);
    BinadeUnique(p, Pow2(54), d.s, 49);
  }

  /** A 50 g portion of a 29 kcal / 100 g card: the app stores 14 kcal, because
      `29 / 100 * 50` evaluates to 14.499999999999998, while the exact
      snapshot `Day.NewFoodItem` rounds 14.5 up to 15. */
  lemma HalfCalorieRoundsDown()
    ensures JsSnapshot(50, 29) == 14
    ensures JsSnapshot(50, 29) as real <= 50.0 * 29.0 / 100.0 - 1.0 / 2.0
    ensures NewFoodItem(FoodCard("f", "Broth", "", 50.0, 29.0, [], [])).calculatedCalories == 15
  {
    Pow2Table();
    RatioOf29();
    ProductOf50();
    assert Value(Double(8162774324609023, 49)) == 8162774324609023.0 / 562949953421312.0;
  }
}
