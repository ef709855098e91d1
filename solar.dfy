/** The per-moment solar model of classes/moment_data.py: from a day, an hour, a location and a module
    orientation to the power the module generates, or a failure where the constructor raises. */
module Solar {
  import opened Options

  /** The transcendental functions the source calls, left uninterpreted. `sin` and `cos` take an angle
      in degrees and `asin` and `acos` return one (the source's radians/degrees conversions folded in);
      `pow(b, e)` is b raised to e for a positive base b. */
  datatype Trig = Trig(
    sin: real -> real,
    cos: real -> real,
    asin: real -> real,
    acos: real -> real,
    pow: (real, real) -> real)

  /** The range facts of those functions that the model relies on. */
  ghost predicate Lawful(t: Trig) {
    && (forall x :: -1.0 <= t.sin(x) <= 1.0)
    && (forall x :: -1.0 <= t.cos(x) <= 1.0)
    && (forall x :: -90.0 <= x <= 90.0 ==> t.cos(x) >= 0.0)
    && (forall y :: -1.0 <= y <= 1.0 ==> -90.0 <= t.asin(y) <= 90.0)
    && (forall y :: -1.0 <= y <= 1.0 ==> 0.0 <= t.acos(y) <= 180.0)
    && (forall b, e :: b > 0.0 ==> t.pow(b, e) > 0.0)
    && t.sin(0.0) == 0.0
  }

  /** The constructor's arguments. */
  datatype MomentInput = MomentInput(
    day: int,
    gmt: int,
    hour: real,
    longitude: real,
    latitude: real,
    moduleAzimuth: real,
    moduleTilt: real,
    constantEff: real)

  /** Every attribute the constructor derives, each assigned once. */
  datatype MomentState = MomentState(
    dayAngle: real,
    eot: real,
    lstm: real,
    tc: real,
    lst: real,
    hra: real,
    declination: real,
    elevation: real,
    zenith: real,
    azimuthMorning: real,
    azimuthAfternoon: real,
    azimuth: real,
    airMass: real,
    incident: real,
    fraction: real,
    moduleIrradiance: real,
    generatedKw: real)

  /** The constructor either returns the object or raises (one tag for all of the source's exceptions). */
  datatype Construction = Built(state: MomentState) | Raised

  /** The time-correction chain: day angle B, equation of time, standard meridian, correction, local solar
      time and hour angle. */
  datatype SolarTime = SolarTime(b: real, eot: real, lstm: real, tc: real, lst: real, hra: real)

  function Timing(t: Trig, inp: MomentInput): (st: SolarTime)
    ensures inp.day == 81 ==> st.b == 0.0
    ensures st.hra == 15.0 * inp.hour - 180.0 + (inp.longitude - 15.0 * inp.gmt as real) + st.eot / 4.0
  {
    var b := (360.0 / 365.0) * (inp.day - 81) as real;
    var eot := 9.87 * t.sin(2.0 * b) - 7.53 * t.cos(b) - 1.5 * t.sin(b);
    var lstm := 15.0 * inp.gmt as real;
    var tc := 4.0 * (inp.longitude - lstm) + eot;
    var lst := inp.hour + tc / 60.0;
    SolarTime(b, eot, lstm, tc, lst, 15.0 * (lst - 12.0))
  }

  /** An hour later the sun is exactly 15 degrees further west: the hour angle grows by 15. */
  lemma HourAngleStep(t: Trig, inp: MomentInput)
    ensures Timing(t, inp.(hour := inp.hour + 1.0)).hra == Timing(t, inp).hra + 15.0
  {
  }

  /** Declination angle, 23.45 * sin(B). */
  function Declination(t: Trig, inp: MomentInput): real {
    23.45 * t.sin(Timing(t, inp).b)
  }

  /** On day 81 the day angle is 0, so the declination is 23.45 * sin(0) = 0. */
  lemma EquinoxDeclination(t: Trig, inp: MomentInput)
    requires Lawful(t)
    requires inp.day == 81
    ensures Declination(t, inp) == 0.0
  {
  }

  /** The argument the source passes to asin for the elevation angle; nothing keeps it in [-1, 1]. */
  function ElevationArg(t: Trig, inp: MomentInput): real {
    var dec := Declination(t, inp);
    t.sin(dec) * t.sin(inp.latitude) + t.cos(dec) * t.cos(inp.latitude) * t.cos(Timing(t, inp).hra)
  }

  /** Elevation angle, defined when ElevationArg is in asin's domain. */
  function Elevation(t: Trig, inp: MomentInput): real {
    t.asin(ElevationArg(t, inp))
  }

  /** The source's `max(min(x, 1), -1)` before acos. */
  function Clamp(x: real): (r: real)
    ensures -1.0 <= r <= 1.0
    ensures -1.0 <= x <= 1.0 ==> r == x
    ensures x > 1.0 ==> r == 1.0
    ensures x < -1.0 ==> r == -1.0
  {
    var upper := if x < 1.0 then x else 1.0;
    if upper > -1.0 then upper else -1.0
  }

  /** Python's float `**` for a non-integral exponent: a positive base gives a positive real, a zero base
      gives 0 for a positive exponent and raises ZeroDivisionError for a negative one, a negative base gives a
      complex number. The constructor never recovers from a complex value (it stays complex until
      `max(0, ...)` raises TypeError), so that case is a failure here as well. */
  function Power(t: Trig, base: real, exponent: real): (r: Option<real>)
    requires exponent.Floor as real != exponent
    ensures base < 0.0 ==> r.None?
    ensures base == 0.0 ==> (r.Some? <==> exponent > 0.0)
    ensures Lawful(t) && base > 0.0 ==> r.Some? && r.value > 0.0
  {
    if base > 0.0 then Some(t.pow(base, exponent))
    else if base == 0.0 && exponent > 0.0 then Some(0.0)
    else None
  }

  /** The zenith angle at which the air-mass formula's base 96.07995 - zenith vanishes. */
  const AIR_MASS_POLE: real := 96.07995

  /** Air mass 1 / (cos(zenith) + 0.50572 * (96.07995 - zenith)^-1.6364), or a failure. */
  function AirMass(t: Trig, zenith: real): (r: Option<real>)
    ensures zenith >= AIR_MASS_POLE ==> r.None?
    ensures Lawful(t) && 0.0 <= zenith <= 90.0 ==> r.Some? && r.value > 0.0
  {
    match Power(t, AIR_MASS_POLE - zenith, -1.6364)
    case None => None
    case Some(term) =>
      var denominator := t.cos(zenith) + 0.50572 * term;
      if denominator == 0.0 then None else Some(1.0 / denominator)
  }

  /** MomentData's constructor. */
  function Compute(t: Trig, inp: MomentInput): (r: Construction)
    ensures r.Built? ==> r.state.hra == Timing(t, inp).hra && r.state.declination == Declination(t, inp)
    ensures r.Built? ==> -1.0 <= ElevationArg(t, inp) <= 1.0 && r.state.elevation == Elevation(t, inp)
    ensures r.Built? ==> r.state.zenith == 90.0 - r.state.elevation && r.state.zenith < AIR_MASS_POLE
    ensures r.Built? ==> t.cos(r.state.elevation) != 0.0
    ensures r.Built? ==> r.state.azimuthMorning + r.state.azimuthAfternoon == 360.0
    ensures r.Built? ==>
      r.state.azimuth == if r.state.hra > 0.0 then r.state.azimuthAfternoon else r.state.azimuthMorning
    ensures r.Built? ==> r.state.moduleIrradiance
                         == if r.state.incident * r.state.fraction > 0.0 then r.state.incident * r.state.fraction
                            else 0.0
    ensures r.Built? ==> r.state.moduleIrradiance >= 0.0
    ensures r.Built? ==> r.state.generatedKw == r.state.moduleIrradiance * inp.constantEff
    ensures r.Built? && inp.constantEff >= 0.0 ==> r.state.generatedKw >= 0.0
  {
    var time := Timing(t, inp);
    var dec := Declination(t, inp);
    var arg := ElevationArg(t, inp);
    if !(-1.0 <= arg <= 1.0) then Raised                 // asin raises ValueError
    else
      var ev := t.asin(arg);
      var zenith := 90.0 - ev;
      var denominator := t.cos(ev);
      if denominator == 0.0 then Raised                  // ZeroDivisionError
      else
        var numerator := t.sin(dec) * t.cos(inp.latitude) - t.cos(dec) * t.sin(inp.latitude) * t.cos(time.hra);
        var azimuthBase := t.acos(Clamp(numerator / denominator));
        var azimuth := if time.hra > 0.0 then 360.0 - azimuthBase else azimuthBase;
        match AirMass(t, zenith)
        case None => Raised
        case Some(airMass) =>
          match Power(t, airMass, 0.678)
          case None => Raised
          case Some(exponent) =>
            var incident := 1.353 * t.pow(0.7, exponent);
            var fraction := denominator * t.sin(inp.moduleTilt * t.cos(azimuth - inp.moduleAzimuth))
                            + t.sin(ev) * t.cos(inp.moduleTilt);
            var product := incident * fraction;
            var moduleIrradiance := if product > 0.0 then product else 0.0;
            Built(MomentState(
              time.b, time.eot, time.lstm, time.tc, time.lst, time.hra, dec, ev, zenith,
              azimuthBase, 360.0 - azimuthBase, azimuth, airMass, incident, fraction,
              moduleIrradiance, moduleIrradiance * inp.constantEff))
  }

  /** With lawful trigonometry the base azimuth lies in [0, 180]; the final azimuth is in [0, 180] up to
      solar noon (hra <= 0, noon itself included) and in [180, 360] after it. */
  lemma AzimuthRange(t: Trig, inp: MomentInput)
    requires Lawful(t)
    requires Compute(t, inp).Built?
    ensures var s := Compute(t, inp).state;
      && 0.0 <= s.azimuthMorning <= 180.0
      && 180.0 <= s.azimuthAfternoon <= 360.0
      && (s.hra > 0.0 ==> 180.0 <= s.azimuth <= 360.0)
      && (s.hra <= 0.0 ==> 0.0 <= s.azimuth <= 180.0)
  {
  }

  /** The constructor raises whenever the elevation's asin argument leaves [-1, 1], whenever cos(elevation) is 0,
      and whenever the zenith reaches 96.07995 (a zero division there, a complex air mass beyond). */
  lemma RaisesOnDomainErrors(t: Trig, inp: MomentInput)
    ensures !(-1.0 <= ElevationArg(t, inp) <= 1.0) ==> Compute(t, inp).Raised?
    ensures t.cos(Elevation(t, inp)) == 0.0 ==> Compute(t, inp).Raised?
    ensures 90.0 - Elevation(t, inp) >= AIR_MASS_POLE ==> Compute(t, inp).Raised?
  {
  }

  /** Conversely, with the sun on or above the horizon the constructor only raises through the first two
      causes: when the asin argument is in range and cos(elevation) is not 0, it returns an object. */
  lemma BuildsInDaylight(t: Trig, inp: MomentInput)
    requires Lawful(t)
    requires -1.0 <= ElevationArg(t, inp) <= 1.0
    requires Elevation(t, inp) >= 0.0
    requires t.cos(Elevation(t, inp)) != 0.0
    ensures Compute(t, inp).Built?
  {
    var ev := Elevation(t, inp);
    assert 0.0 <= 90.0 - ev <= 90.0;
    var am := AirMass(t, 90.0 - ev);
    assert am.Some? && am.value > 0.0;
  }
  /** The constructor raises exactly at its four domain errors: the asin argument outside [-1, 1], a zero
      cos(elevation) under the azimuth quotient, an air mass that fails (at or past the pole of its
      formula, or a zero denominator), and a negative air mass under the float power `** 0.678`. Every other
      hour builds, including one with the sun up to 6.07995 degrees below the horizon. */
  lemma RaisesExactly(t: Trig, inp: MomentInput)
    ensures var ev := Elevation(t, inp);
      Compute(t, inp).Raised?
      <==> || !(-1.0 <= ElevationArg(t, inp) <= 1.0)
           || t.cos(ev) == 0.0
           || AirMass(t, 90.0 - ev).None?
           || AirMass(t, 90.0 - ev).value < 0.0
  {
  }


  /** The generation calculator: the constructor's generated power, or None when it raises. */
  function GeneratedKw(t: Trig, inp: MomentInput): (r: Option<real>)
    ensures r.Some? <==> Compute(t, inp).Built?
    ensures r.Some? ==> r.value == Compute(t, inp).state.generatedKw
    ensures inp.constantEff >= 0.0 && r.Some? ==> r.value >= 0.0
  {
    match Compute(t, inp)
    case Built(s) => Some(s.generatedKw)
    case Raised => None
  }

  /** With a positive efficiency constant, an hour generates positive power exactly when the object is
      built and the unfloored irradiance incident * fraction is positive: the `max(0, ...)` floor is what
      turns every other built hour into a 0 kW hour. */
  lemma PositiveExactlyWhenLit(t: Trig, inp: MomentInput)
    requires inp.constantEff > 0.0
    ensures var r := GeneratedKw(t, inp);
      (r.Some? && r.value > 0.0)
      <==> (Compute(t, inp).Built? && Compute(t, inp).state.incident * Compute(t, inp).state.fraction > 0.0)
  {
    var c := Compute(t, inp);
    if c.Built? {
      var s := c.state;
      if s.incident * s.fraction > 0.0 {
        assert s.generatedKw == s.incident * s.fraction * inp.constantEff;
      } else {
        assert s.generatedKw == 0.0;
      }
    }
  }
}
