/** The script that generates the lookup table, over the reals. The exponential enters only as
    some positive function that never decreases. */
module ThermistorTable {
  import opened Thermistor

  datatype Constants = Constants(beta: real, t0: real, r0: real, vDivider: real, rDivider: real)

  /** Positive constants, and a calibration temperature above absolute zero. */
  ghost predicate Physical(c: Constants) {
    c.beta > 0.0 && c.t0 > -273.15 && c.r0 > 0.0 && c.vDivider > 0.0 && c.rDivider > 0.0
  }

  ghost predicate Exponential(exp: real -> real) {
    && (forall x :: exp(x) > 0.0)
    && (forall x, y :: x <= y ==> exp(x) <= exp(y))
  }

  function CelsiusToKelvin(celsius: real): real {
    celsius + 273.15
  }

  function Exponent(temperature: real, c: Constants): real
    requires temperature > -273.15 && c.t0 > -273.15
  {
    c.beta * (1.0 / CelsiusToKelvin(temperature) - 1.0 / CelsiusToKelvin(c.t0))
  }

  function Resistance(temperature: real, c: Constants, exp: real -> real): real
    requires temperature > -273.15 && c.t0 > -273.15
  {
    c.r0 * exp(Exponent(temperature, c))
  }

  /** Voltage across the thermistor in the potential divider. */
  function Divide(v: real, d: real, r: real): real
    requires d > 0.0 && r > 0.0
  {
    v * r / (r + d)
  }

  /** Truncation is rounding down, the voltage being positive. */
  function VoltageMv(temperature: real, c: Constants, exp: real -> real): int
    requires temperature > -273.15 && Physical(c) && Exponential(exp)
  {
    ResistancePositive(temperature, c, exp);
    (Divide(c.vDivider, c.rDivider, Resistance(temperature, c, exp)) * 1000.0).Floor
  }

  lemma Product(x: real, y: real)
    requires x > 0.0 && y > 0.0
    ensures x * y > 0.0
  {
  }

  lemma Scale(k: real, x: real, y: real)
    requires k > 0.0 && x <= y
    ensures k * x <= k * y
  {
    if x < y {
      Product(k, y - x);
    }
  }

  lemma ResistancePositive(temperature: real, c: Constants, exp: real -> real)
    requires temperature > -273.15 && Physical(c) && Exponential(exp)
    ensures Resistance(temperature, c, exp) > 0.0
  {
    Product(c.r0, exp(Exponent(temperature, c)));
  }

  lemma InverseFalls(x: real, y: real)
    requires 0.0 < x <= y
    ensures 1.0 / y <= 1.0 / x
  {
    var p, q := 1.0 / x, 1.0 / y;
    Product(p, q);
    Scale(p * q, x, y);
    assert p * q * x == q * (p * x) && p * q * y == p * (q * y);
  }

  lemma ExponentFalls(low: real, high: real, c: Constants)
    requires -273.15 < low <= high && Physical(c)
    ensures Exponent(high, c) <= Exponent(low, c)
  {
    InverseFalls(CelsiusToKelvin(low), CelsiusToKelvin(high));
    var at0 := 1.0 / CelsiusToKelvin(c.t0);
    Scale(c.beta, 1.0 / CelsiusToKelvin(high) - at0, 1.0 / CelsiusToKelvin(low) - at0);
  }

  lemma ResistanceFalls(low: real, high: real, c: Constants, exp: real -> real)
    requires -273.15 < low <= high && Physical(c) && Exponential(exp)
    ensures Resistance(high, c, exp) <= Resistance(low, c, exp)
  {
    ExponentFalls(low, high, c);
    var x, y := Exponent(high, c), Exponent(low, c);
    assert exp(x) <= exp(y);
    Scale(c.r0, exp(x), exp(y));
  }

  /** The share of the supply the other resistor takes. */
  lemma Share(v: real, d: real, r: real)
    requires v > 0.0 && d > 0.0 && r > 0.0
    ensures Divide(v, d, r) == v - v * d * (1.0 / (r + d))
    ensures Divide(v, d, r) == v * r * (1.0 / (r + d))
  {
    var w := 1.0 / (r + d);
    assert w * (r + d) == 1.0;
    assert v * r == v * (r + d) - v * d;
    assert v * r * w == v * ((r + d) * w) - v * d * w;
  }

  /** That share shrinks as the thermistor's resistance grows. */
  lemma DividerRises(v: real, d: real, r: real, s: real)
    requires v > 0.0 && d > 0.0 && 0.0 < r <= s
    ensures 0.0 < Divide(v, d, r) <= Divide(v, d, s) < v
  {
    Share(v, d, r);
    Share(v, d, s);
    InverseFalls(r + d, s + d);
    Product(v, d);
    Scale(v * d, 1.0 / (s + d), 1.0 / (r + d));
    Product(v, r);
    Product(v * r, 1.0 / (r + d));
    Product(v * d, 1.0 / (s + d));
  }

  lemma FloorRises(x: real, y: real, z: real)
    requires 0.0 < x <= y <= z
    ensures 0 <= (x * 1000.0).Floor <= (y * 1000.0).Floor <= (z * 1000.0).Floor
  {
  }

  /** Millivolts never rise with the temperature, and stay within the divider's supply. */
  lemma VoltageFalls(low: real, high: real, c: Constants, exp: real -> real)
    requires -273.15 < low <= high && Physical(c) && Exponential(exp)
    ensures 0 <= VoltageMv(high, c, exp) <= VoltageMv(low, c, exp) <= (c.vDivider * 1000.0).Floor
  {
    ResistancePositive(high, c, exp);
    ResistancePositive(low, c, exp);
    ResistanceFalls(low, high, c, exp);
    var r, s := Resistance(high, c, exp), Resistance(low, c, exp);
    DividerRises(c.vDivider, c.rDivider, r, s);
    FloorRises(Divide(c.vDivider, c.rDivider, r), Divide(c.vDivider, c.rDivider, s), c.vDivider);
  }

  lemma ExponentIs(temperature: real, c: Constants)
    requires temperature > -273.15 && Physical(c)
    ensures Exponent(temperature, c) * (temperature + 273.15) * (c.t0 + 273.15) == c.beta * (c.t0 - temperature)
  {
    var k, k0 := temperature + 273.15, c.t0 + 273.15;
    var p, q := 1.0 / k, 1.0 / k0;
    assert p * k == 1.0 && q * k0 == 1.0;
    assert Exponent(temperature, c) == c.beta * (p - q);
    assert c.beta * (p - q) * k * k0 == c.beta * ((p * k) * k0 - (q * k0) * k);
  }

  lemma DivideIs(v: real, d: real, r: real)
    requires d > 0.0 && r > 0.0
    ensures Divide(v, d, r) * (r + d) == v * r
  {
    var n, s := v * r, r + d;
    assert s > 0.0 && Divide(v, d, r) == n / s;
    Cancels(n, s);
  }

  lemma Cancels(n: real, s: real)
    requires s > 0.0
    ensures n / s * s == n
  {
  }

  lemma FloorIs(x: real, n: int, s: real, t: real)
    requires s > 0.0 && n == (x * 1000.0).Floor && x * s == t
    ensures n as real * s <= 1000.0 * t < (n as real + 1.0) * s
  {
    var y, m := x * 1000.0, n as real;
    assert m <= y < m + 1.0;
    Scale(s, m, y);
    Product(s, m + 1.0 - y);
    Regroup(x, s);
    Spread(s, m, y);
  }

  lemma Regroup(x: real, s: real)
    ensures s * (x * 1000.0) == 1000.0 * (x * s)
  {
  }

  lemma Spread(s: real, m: real, y: real)
    ensures s * (m + 1.0 - y) == (m + 1.0) * s - s * y
    ensures m * s == s * m
  {
  }

  /** The voltage is that of the divider, in millivolts rounded down, with the resistance the beta
      formula gives between temperature and calibration temperature, in kelvin. */
  lemma VoltageIs(temperature: real, c: Constants, exp: real -> real) returns (x: real, r: real, s: real, t: real)
    requires temperature > -273.15 && Physical(c) && Exponential(exp)
    ensures x * (temperature + 273.15) * (c.t0 + 273.15) == c.beta * (c.t0 - temperature)
    ensures r == c.r0 * exp(x) && r > 0.0 && s == r + c.rDivider && t == c.vDivider * r
    ensures
      var mv := VoltageMv(temperature, c, exp) as real;
      mv * s <= 1000.0 * t < (mv + 1.0) * s
  {
    x, r := Exponent(temperature, c), Resistance(temperature, c, exp);
    ExponentIs(temperature, c);
    ResistancePositive(temperature, c, exp);
    var v := Divide(c.vDivider, c.rDivider, r);
    s := r + c.rDivider;
    DivideIs(c.vDivider, c.rDivider, r);
    t := c.vDivider * r;
    FloorIs(v, VoltageMv(temperature, c, exp), s, t);
  }

  /** The table loop. */
  method GenerateTable(tempMin: int, tempMax: int, c: Constants, exp: real -> real) returns (mv: seq<int>)
    requires tempMin as real > -273.15 && Physical(c) && Exponential(exp)
    ensures |mv| == if tempMin <= tempMax then tempMax - tempMin + 1 else 0
    ensures forall i :: 0 <= i < |mv| ==> mv[i] == VoltageMv((tempMin + i) as real, c, exp)
  {
    mv := [];
    var t := tempMin;
    while t < tempMax + 1
      invariant tempMin <= t && (t <= tempMax + 1 || mv == [])
      invariant |mv| == t - tempMin
      invariant forall i :: 0 <= i < |mv| ==> mv[i] == VoltageMv((tempMin + i) as real, c, exp)
    {
      mv := mv + [VoltageMv(t as real, c, exp)];
      t := t + 1;
    }
  }

  /** A generated table, for a range that fits int8 and a supply below 65.536 V, meets what the
      search of the firmware asks of it. */
  lemma GeneratedTableSearchable(mv: seq<int>, tempMin: int8, c: Constants, exp: real -> real)
    returns (t: Table)
    requires Physical(c) && Exponential(exp) && c.vDivider < 65.536
    requires 0 < |mv| && tempMin + |mv| <= 128
    requires forall i :: 0 <= i < |mv| ==> mv[i] == VoltageMv((tempMin + i) as real, c, exp)
    ensures t.mv == mv && t.tempMin == tempMin && Sized(t) && NonIncreasing(t.mv)
  {
    forall i, j | 0 <= i <= j < |mv|
      ensures 0 <= mv[j] <= mv[i] < 0x1_0000
    {
      VoltageFalls((tempMin + i) as real, (tempMin + j) as real, c, exp);
      assert c.vDivider * 1000.0 < 65536.0;
    }
    var entries: seq<uint16> := seq(|mv|, i requires 0 <= i < |mv| => mv[i] as uint16);
    assert entries == mv;
    t := Table(entries, tempMin);
  }
}
