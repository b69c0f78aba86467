/** Thermistor lookup: a table search seeded by the previous reading. */
module Thermistor {

  type uint16 = x: int | 0 <= x < 0x1_0000
  type int8 = x: int | -128 <= x < 128

  /** The generated table: one entry a degree from tempMin on. */
  datatype Table = Table(mv: seq<uint16>, tempMin: int8)

  /** Temperatures fit int8. Every configuration the generator can produce is like this. */
  ghost predicate Sized(t: Table) {
    0 < |t.mv| && t.tempMin + |t.mv| <= 128
  }

  function TempMax(t: Table): int
  {
    t.tempMin + |t.mv| - 1
  }

  /** Higher temperature, lower or equal voltage. */
  ghost predicate NonIncreasing(mv: seq<uint16>) {
    forall i, j :: 0 <= i <= j < |mv| ==> mv[i] >= mv[j]
  }

  // ---------------------------------------------------------------- the plain scan

  /** The least index whose entry is at most the reading, or the last index: a rounding up in
      temperature. */
  function Scan(mv: seq<uint16>, reading: int): (k: nat)
    requires 0 < |mv|
    ensures k < |mv|
    ensures forall i :: 0 <= i < k ==> mv[i] > reading
    ensures k < |mv| - 1 ==> mv[k] <= reading
  {
    if |mv| == 1 || mv[0] <= reading then 0 else 1 + Scan(mv[1..], reading)
  }

  lemma ScanIs(mv: seq<uint16>, reading: int, k: nat)
    requires k < |mv|
    requires forall i :: 0 <= i < k ==> mv[i] > reading
    requires k < |mv| - 1 ==> mv[k] <= reading
    ensures Scan(mv, reading) == k
  {
  }

  /** A higher voltage never gives a higher temperature. */
  lemma ScanAntitone(mv: seq<uint16>, low: int, high: int)
    requires 0 < |mv| && low <= high
    ensures Scan(mv, high) <= Scan(mv, low)
  {
  }

  // ---------------------------------------------------------------- the search of the source

  function Clamp(t: Table, temperature: int): int
    requires 0 < |t.mv|
  {
    if temperature > TempMax(t) then TempMax(t)
    else if temperature < t.tempMin then t.tempMin
    else temperature
  }

  /** The clamp is the temperature of the table nearest to the one asked for. */
  lemma ClampIsNearest(t: Table, temperature: int, other: int)
    requires 0 < |t.mv| && t.tempMin <= other < t.tempMin + |t.mv|
    ensures t.tempMin <= Clamp(t, temperature) < t.tempMin + |t.mv|
    ensures temperature <= Clamp(t, temperature) <= other || other <= Clamp(t, temperature) <= temperature
      || Clamp(t, temperature) == temperature
  {
  }

  function Wrap32(x: int): int {
    x % 0x1_0000_0000
  }

  /** A 32-bit unsigned value converted to int8 keeps its low byte, read as signed. */
  function ToInt8(x: int): int8 {
    var low := x % 256;
    if low < 128 then low else low - 256
  }

  /** tempMin + i is computed in uint32 and narrowed to int8; nothing is lost. */
  lemma IndexToTemperature(t: Table, i: nat)
    requires Sized(t) && i < |t.mv|
    ensures ToInt8(Wrap32(t.tempMin + i)) == t.tempMin + i
  {
    var x := t.tempMin + i;
    if x < 0 {
      assert Wrap32(x) == x + 0x1_0000_0000;
      assert (x + 0x1_0000_0000) % 256 == x + 256 by {
        assert x + 0x1_0000_0000 == 256 * 0xFF_FFFF + (x + 256);
      }
    }
  }

  function Abs(x: int): nat {
    if x < 0 then -x else x
  }

  /** Turns of the search loop from index prev; a backward search takes one more turn to see
      that it has arrived, unless it runs into the start of the table. */
  function Steps(mv: seq<uint16>, prev: nat, reading: int): nat
    requires 0 < |mv|
  {
    var k := Scan(mv, reading);
    if k > prev then k - prev
    else if prev < |mv| && mv[prev] > reading then 0
    else prev - k + if k > 0 then 1 else 0
  }

  /** The two-way search returns what the plain scan returns, whatever the previous temperature
      was, and steps counts the turns of its loops. */
  method MillivoltsToDegreesCelsius(t: Table, reading: uint16, temperaturePrev: int8)
    returns (temperature: int8, ghost steps: nat)
    requires Sized(t) && NonIncreasing(t.mv)
    ensures temperature == t.tempMin + Scan(t.mv, reading)
    ensures steps == Steps(t.mv, Clamp(t, temperaturePrev) - t.tempMin, reading)
  {
    var clamped := Clamp(t, temperaturePrev);
    var prevIndex: nat := clamped - t.tempMin;
    var prevMv := t.mv[prevIndex];
    steps := 0;
    if reading < prevMv {
      var i := prevIndex + 1;
      while i < |t.mv|
        invariant prevIndex < i <= |t.mv|
        invariant forall j :: 0 <= j < i ==> t.mv[j] > reading
        invariant steps == i - (prevIndex + 1)
      {
        steps := steps + 1;
        var thisMv := t.mv[i];
        if reading >= thisMv {
          ScanIs(t.mv, reading, i);
          IndexToTemperature(t, i);
          return ToInt8(Wrap32(t.tempMin + i)), steps;
        }
        i := i + 1;
      }
      ScanIs(t.mv, reading, |t.mv| - 1);
      return TempMax(t), steps;
    } else {
      var i := prevIndex;
      while i > 0
        invariant 0 <= i <= prevIndex && prevMv == t.mv[i] <= reading
        invariant steps == prevIndex - i
      {
        steps := steps + 1;
        var thisMv := prevMv;
        prevMv := t.mv[i - 1];
        if reading >= thisMv && reading < prevMv {
          ScanIs(t.mv, reading, i);
          IndexToTemperature(t, i);
          return ToInt8(Wrap32(t.tempMin + i)), steps;
        }
        i := i - 1;
      }
      ScanIs(t.mv, reading, 0);
      return t.tempMin, steps;
    }
  }

  /** Converting back gives the lowest temperature that has the voltage of the clamped one. */
  method DegreesCelsiusToMillivolts(t: Table, temperature: int8) returns (mv: uint16)
    requires Sized(t)
    ensures mv == t.mv[Clamp(t, temperature) - t.tempMin]
    ensures NonIncreasing(t.mv) ==>
      var lowest := Scan(t.mv, mv);
      && t.tempMin + lowest <= Clamp(t, temperature)
      && (forall j :: lowest <= j <= Clamp(t, temperature) - t.tempMin ==> t.mv[j] == mv)
      && (forall j :: 0 <= j < lowest ==> t.mv[j] > mv)
  {
    var clamped := Clamp(t, temperature);
    mv := t.mv[clamped - t.tempMin];
  }

  // ---------------------------------------------------------------- round trip

  /** Degrees to millivolts and back gives the clamped temperature exactly where the table falls
      strictly from the entry before; elsewhere it gives a lower temperature. */
  lemma RoundTripExactly(t: Table, temperature: int)
    requires Sized(t) && NonIncreasing(t.mv)
    ensures
      var i := Clamp(t, temperature) - t.tempMin;
      t.tempMin + Scan(t.mv, t.mv[i]) == Clamp(t, temperature) <==> i == 0 || t.mv[i - 1] > t.mv[i]
  {
    var i := Clamp(t, temperature) - t.tempMin;
    if i == 0 || t.mv[i - 1] > t.mv[i] {
      ScanIs(t.mv, t.mv[i], i);
    }
  }

  /** On a strictly falling table the round trip is the clamp, for every temperature. */
  lemma RoundTripClamps(t: Table, temperature: int)
    requires Sized(t) && forall i, j :: 0 <= i < j < |t.mv| ==> t.mv[i] > t.mv[j]
    ensures t.tempMin + Scan(t.mv, t.mv[Clamp(t, temperature) - t.tempMin]) == Clamp(t, temperature)
  {
    RoundTripExactly(t, temperature);
  }

  // ---------------------------------------------------------------- runs of readings

  /** Loop turns over a run of readings, each search seeded by the result before. */
  function TotalSteps(mv: seq<uint16>, prev: nat, readings: seq<uint16>): nat
    requires 0 < |mv|
    decreases |readings|
  {
    if readings == [] then 0
    else Steps(mv, prev, readings[0]) + TotalSteps(mv, Scan(mv, readings[0]), readings[1..])
  }

  /** How far the reported temperature travels over the run. */
  function Variation(mv: seq<uint16>, prev: nat, readings: seq<uint16>): nat
    requires 0 < |mv|
    decreases |readings|
  {
    if readings == [] then 0
    else Abs(Scan(mv, readings[0]) - prev) + Variation(mv, Scan(mv, readings[0]), readings[1..])
  }

  /** The searches of a whole run cost no more than the temperature travels, plus one turn each. */
  lemma {:induction false} SearchCost(mv: seq<uint16>, prev: nat, readings: seq<uint16>)
    requires 0 < |mv|
    ensures TotalSteps(mv, prev, readings) <= Variation(mv, prev, readings) + |readings|
    decreases |readings|
  {
    if readings == [] {
    } else {
      SearchCost(mv, Scan(mv, readings[0]), readings[1..]);
    }
  }

  // ---------------------------------------------------------------- measurements

  datatype Measurement = Vref(reading: uint16) | ThermistorAdc(reading: uint16) | OtherAdc(reading: uint16)

  type uint32 = x: int | 0 <= x < 0x1_0000_0000

  /** The product is taken in 32 bits and the quotient narrowed to 16. */
  function Millivolts(vrefConst: uint32, reading: uint16, vrefRaw: uint16): uint16
    requires vrefRaw > 0
  {
    Wrap32(vrefConst * reading) / vrefRaw % 0x1_0000
  }

  /** The product fits 32 bits and the quotient 16. */
  predicate Measurable(vrefConst: uint32, reading: uint16, vrefRaw: uint16) {
    vrefConst * reading < 0x1_0000_0000 && vrefConst * reading < 0x1_0000 * vrefRaw
  }

  /** mv times the reference is the greatest multiple of the reference up to the product. */
  predicate IsQuotient(mv: int, product: int, vrefRaw: uint16) {
    mv * vrefRaw <= product < (mv + 1) * vrefRaw
  }

  lemma QuotientIs(x: nat, d: nat)
    requires d > 0
    ensures d * (x / d) <= x < d * (x / d) + d
  {
  }

  lemma ProductRises(low: int, high: int, d: nat)
    requires low <= high
    ensures low * d <= high * d
  {
    assert high * d == low * d + (high - low) * d;
  }

  lemma QuotientBelow(q: nat, x: nat, d: nat, n: nat)
    requires d * q <= x < d * q + d
    ensures q < n <==> x < n * d
  {
    if q < n {
      ProductRises(q + 1, n, d);
    } else {
      ProductRises(n, q, d);
    }
  }

  /** Where the product or the quotient wraps, the voltage is that of another product: short of
      this one by a multiple of the range, first of the product, then of the quotient. */
  lemma MillivoltsWraps(vrefConst: uint32, reading: uint16, vrefRaw: uint16) returns (a: nat, b: nat)
    requires vrefRaw > 0
    ensures IsQuotient(Millivolts(vrefConst, reading, vrefRaw) + 0x1_0000 * b,
                       vrefConst * reading - 0x1_0000_0000 * a, vrefRaw)
    ensures Measurable(vrefConst, reading, vrefRaw) <==> a == 0 && b == 0
  {
    var product: nat := vrefConst * reading;
    var p := Wrap32(product);
    a := product / 0x1_0000_0000;
    b := p / vrefRaw / 0x1_0000;
    QuotientIs(p, vrefRaw);
    QuotientNarrowed(p, vrefRaw);
  }

  lemma QuotientNarrowed(p: nat, vrefRaw: uint16)
    requires vrefRaw > 0
    ensures p / vrefRaw / 0x1_0000 == 0 <==> p < 0x1_0000 * vrefRaw
  {
    QuotientIs(p, vrefRaw);
    QuotientBelow(p / vrefRaw, p, vrefRaw, 0x1_0000);
  }

  /** The voltage is reading times constant over reference, rounded down, exactly for the readings
      for which nothing wraps. */
  lemma MillivoltsExactly(vrefConst: uint32, reading: uint16, vrefRaw: uint16)
    requires vrefRaw > 0
    ensures IsQuotient(Millivolts(vrefConst, reading, vrefRaw), vrefConst * reading, vrefRaw)
       <==> Measurable(vrefConst, reading, vrefRaw)
  {
    var mv := Millivolts(vrefConst, reading, vrefRaw);
    var a, b := MillivoltsWraps(vrefConst, reading, vrefRaw);
    if !Measurable(vrefConst, reading, vrefRaw) {
      if a == 0 {
        ProductRises(mv + 1, mv + 0x1_0000 * b, vrefRaw);
      } else {
        ProductRises(mv, mv + 0x1_0000 * b, vrefRaw);
        assert (mv + 1) * vrefRaw == mv * vrefRaw + vrefRaw;
      }
    }
  }

  /** The entry is at most the voltage exactly if entry times reference is at most the product. */
  lemma EntryAtMost(entry: int, mv: int, product: int, vrefRaw: uint16)
    requires IsQuotient(mv, product, vrefRaw)
    ensures entry <= mv <==> entry * vrefRaw <= product
  {
    if entry <= mv {
      ProductRises(entry, mv, vrefRaw);
    } else {
      ProductRises(mv + 1, entry, vrefRaw);
    }
  }

  /** k is the least index whose entry, times the reference, is at most the product, or the last. */
  ghost predicate IsFirstAtMost(mv: seq<uint16>, k: int, product: int, vrefRaw: uint16) {
    && 0 <= k < |mv|
    && (forall i :: 0 <= i < k ==> mv[i] * vrefRaw > product)
    && (k < |mv| - 1 ==> mv[k] * vrefRaw <= product)
  }

  lemma ScanOfReading(mv: seq<uint16>, vrefConst: uint32, reading: uint16, vrefRaw: uint16)
    requires 0 < |mv| && vrefRaw > 0 && Measurable(vrefConst, reading, vrefRaw)
    ensures IsFirstAtMost(mv, Scan(mv, Millivolts(vrefConst, reading, vrefRaw)), vrefConst * reading, vrefRaw)
  {
    MillivoltsExactly(vrefConst, reading, vrefRaw);
    forall i | 0 <= i < |mv|
      ensures mv[i] <= Millivolts(vrefConst, reading, vrefRaw) <==> mv[i] * vrefRaw <= vrefConst * reading
    {
      EntryAtMost(mv[i], Millivolts(vrefConst, reading, vrefRaw), vrefConst * reading, vrefRaw);
    }
  }

  /** A higher reading never gives a higher temperature. */
  lemma ReadingAntitone(mv: seq<uint16>, vrefConst: uint32, low: uint16, high: uint16, vrefRaw: uint16)
    requires 0 < |mv| && vrefRaw > 0 && low <= high && Measurable(vrefConst, high, vrefRaw)
    ensures Scan(mv, Millivolts(vrefConst, high, vrefRaw)) <= Scan(mv, Millivolts(vrefConst, low, vrefRaw))
  {
    ProductRises(low, high, vrefConst);
    assert vrefConst * low <= vrefConst * high;
    MillivoltsExactly(vrefConst, low, vrefRaw);
    MillivoltsExactly(vrefConst, high, vrefRaw);
    EntryAtMost(Millivolts(vrefConst, low, vrefRaw), Millivolts(vrefConst, high, vrefRaw), vrefConst * high, vrefRaw);
    ScanAntitone(mv, Millivolts(vrefConst, low, vrefRaw), Millivolts(vrefConst, high, vrefRaw));
  }

  /** Where the quotient wraps, a higher reading may give a higher temperature. */
  lemma WrappedReadingMisread()
    ensures !Measurable(1000, 66, 1) && Millivolts(1000, 66, 1) == 464 && Millivolts(1000, 65, 1) == 65000
    ensures Scan([50000, 400], Millivolts(1000, 65, 1)) < Scan([50000, 400], Millivolts(1000, 66, 1))
  {
    ScanIs([50000, 400], 65000, 0);
    ScanIs([50000, 400], 464, 1);
  }

  /** The reference voltage last measured before message n. */
  function LastVref(ms: seq<Measurement>, n: nat, initial: uint16): uint16
    requires n <= |ms|
  {
    if n == 0 then initial
    else if ms[n - 1].Vref? then ms[n - 1].reading
    else LastVref(ms, n - 1, initial)
  }

  /** Message i is the last thermistor reading before message n. */
  ghost predicate LastReading(ms: seq<Measurement>, i: nat, n: nat)
    requires n <= |ms|
  {
    i < n && ms[i].ThermistorAdc? && forall j :: i < j < n ==> !ms[j].ThermistorAdc?
  }

  // ---------------------------------------------------------------- runs of messages

  /** Every thermistor reading comes after a non-zero reference. */
  ghost predicate ReferenceFirst(ms: seq<Measurement>, vref: uint16) {
    forall i :: 0 <= i < |ms| && ms[i].ThermistorAdc? ==> LastVref(ms, i, vref) > 0
  }

  /** The temperature after n messages, each handled as HandleMeasurement does. */
  function TemperatureAfter(t: Table, vrefConst: uint32, ms: seq<Measurement>, n: nat, vref: uint16, start: int): int
    requires Sized(t) && n <= |ms| && ReferenceFirst(ms, vref)
  {
    if n == 0 then start
    else if ms[n - 1].ThermistorAdc?
    then t.tempMin + Scan(t.mv, Millivolts(vrefConst, ms[n - 1].reading, LastVref(ms, n - 1, vref)))
    else TemperatureAfter(t, vrefConst, ms, n - 1, vref, start)
  }

  class Sensor {
    const table: Table
    var vrefRaw: uint16

    constructor (table: Table)
      ensures this.table == table && vrefRaw == 0
    {
      this.table, vrefRaw := table, 0;
    }

    /** The reference voltage must have been measured before the thermistor. */
    method HandleMeasurement(m: Measurement, vrefConst: uint32, temperature: int8)
      returns (measured: bool, newTemperature: int8)
      requires Sized(table) && NonIncreasing(table.mv)
      requires m.ThermistorAdc? ==> vrefRaw > 0
      modifies this
      ensures measured <==> m.ThermistorAdc?
      ensures vrefRaw == if m.Vref? then m.reading else old(vrefRaw)
      ensures newTemperature ==
        if m.ThermistorAdc?
        then table.tempMin + Scan(table.mv, Millivolts(vrefConst, m.reading, old(vrefRaw)))
        else temperature
      ensures m.ThermistorAdc? && Measurable(vrefConst, m.reading, old(vrefRaw)) ==>
        IsFirstAtMost(table.mv, newTemperature - table.tempMin, vrefConst * m.reading, old(vrefRaw))
    {
      newTemperature, measured := temperature, false;
      match m
      case Vref(reading) => vrefRaw := reading;
      case ThermistorAdc(reading) =>
        var mv := Millivolts(vrefConst, reading, vrefRaw);
        ghost var steps;
        newTemperature, steps := MillivoltsToDegreesCelsius(table, mv, temperature);
        measured := true;
        if Measurable(vrefConst, reading, vrefRaw) { ScanOfReading(table.mv, vrefConst, reading, vrefRaw); }
      case OtherAdc(_) =>
    }

    /** A run of messages, each handled with the temperature that the one before left. */
    method HandleAll(ms: seq<Measurement>, vrefConst: uint32, start: int8) returns (temperature: int8)
      requires Sized(table) && NonIncreasing(table.mv) && ReferenceFirst(ms, vrefRaw)
      modifies this
      ensures vrefRaw == LastVref(ms, |ms|, old(vrefRaw))
      ensures temperature == TemperatureAfter(table, vrefConst, ms, |ms|, old(vrefRaw), start)
    {
      temperature := start;
      for i := 0 to |ms|
        invariant vrefRaw == LastVref(ms, i, old(vrefRaw))
        invariant temperature == TemperatureAfter(table, vrefConst, ms, i, old(vrefRaw), start)
      {
        var measured;
        measured, temperature := HandleMeasurement(ms[i], vrefConst, temperature);
      }
    }
  }

  lemma {:induction false} LastReadingDecides(
      t: Table, vrefConst: uint32, ms: seq<Measurement>, n: nat, vref: uint16, start: int, i: nat)
    requires Sized(t) && n <= |ms| && ReferenceFirst(ms, vref) && LastReading(ms, i, n)
    ensures TemperatureAfter(t, vrefConst, ms, n, vref, start) ==
      t.tempMin + Scan(t.mv, Millivolts(vrefConst, ms[i].reading, LastVref(ms, i, vref)))
  {
    if i < n - 1 {
      LastReadingDecides(t, vrefConst, ms, n - 1, vref, start, i);
    }
  }

  /** History is forgotten: two runs of messages, from different temperatures and with different
      pasts, agree once their last thermistor readings and the references in force agree. */
  lemma HistoryForgotten(
      t: Table, vrefConst: uint32,
      ms: seq<Measurement>, vref: uint16, start: int, i: nat,
      ns: seq<Measurement>, vref': uint16, start': int, j: nat)
    requires Sized(t) && ReferenceFirst(ms, vref) && ReferenceFirst(ns, vref')
    requires LastReading(ms, i, |ms|) && LastReading(ns, j, |ns|)
    requires ms[i].reading == ns[j].reading && LastVref(ms, i, vref) == LastVref(ns, j, vref')
    ensures TemperatureAfter(t, vrefConst, ms, |ms|, vref, start)
         == TemperatureAfter(t, vrefConst, ns, |ns|, vref', start')
  {
    LastReadingDecides(t, vrefConst, ms, |ms|, vref, start, i);
    LastReadingDecides(t, vrefConst, ns, |ns|, vref', start', j);
  }
}
