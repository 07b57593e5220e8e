/** Conversions of computed quota values to 32-bit integers: truncating or rounding, saturating or strict. */
module QuotaMath {
  import opened Options
  import opened Floats

  const MAX_QUOTA: int := 0x7fff_ffff
  const MIN_QUOTA: int := -0x8000_0000

  datatype Kind = Overflow | Underflow | NotANumber

  datatype Clamp = Clamp(kind: Kind, original: Float, clamped: int)

  datatype Checked = Checked(quota: int, clamp: Option<Clamp>)

  datatype Result<T> = Ok(value: T) | Err(error: Clamp)

  // ---- Rounding ----

  /** Toward zero. */
  function Truncate(r: real): int {
    if r >= 0.0 then r.Floor else -(-r).Floor
  }

  /** To the nearest integer, halves away from zero. */
  function RoundHalfAway(r: real): int {
    if r >= 0.0 then (r + 0.5).Floor else -(-r + 0.5).Floor
  }

  function RoundFloat(v: Float): Float {
    if v.Fin? then Fin(RoundHalfAway(v.value) as real) else v
  }

  // ---- The conversions ----

  predicate Above(v: Float, bound: int) {
    v.PosInf? || (v.Fin? && v.value > bound as real)
  }

  predicate Below(v: Float, bound: int) {
    v.NegInf? || (v.Fin? && v.value < bound as real)
  }

  function Saturate(v: Float): Checked {
    if v.NaN? then Checked(0, Some(Clamp(NotANumber, v, 0)))
    else if Above(v, MAX_QUOTA) then Checked(MAX_QUOTA, Some(Clamp(Overflow, v, MAX_QUOTA)))
    else if Below(v, MIN_QUOTA) then Checked(MIN_QUOTA, Some(Clamp(Underflow, v, MIN_QUOTA)))
    else Checked(Truncate(v.value), None)
  }

  function Strict(c: Checked): Result<int> {
    if c.clamp.Some? then Err(c.clamp.value) else Ok(c.quota)
  }

  /** How a value is prepared before saturation: as it is, rounded as a float, or rounded as a decimal. */
  datatype Conversion = FromFloat | Round | FromDecimal

  function Prepare(how: Conversion, v: Float): Float {
    if how == FromFloat then v else RoundFloat(v)
  }

  function Convert(how: Conversion, v: Float): Checked {
    Saturate(Prepare(how, v))
  }

  function ConvertStrict(how: Conversion, v: Float): Result<int> {
    Strict(Convert(how, v))
  }

  // ---- What the conversions promise ----

  /** The quota fits a signed 32-bit integer. */
  predicate InRange(quota: int) {
    -2147483648 <= quota <= 2147483647
  }

  /** The order of floats that are numbers. */
  predicate AtMost(a: Float, b: Float) {
    a.NegInf? || b.PosInf? || (a.Fin? && b.Fin? && a.value <= b.value)
  }

  /** The integer a conversion aims at, without any limit. */
  function Exact(how: Conversion, r: real): int {
    if how == FromFloat then Truncate(r) else RoundHalfAway(r)
  }

  function Project(i: int): int {
    if i > MAX_QUOTA then MAX_QUOTA else if i < MIN_QUOTA then MIN_QUOTA else i
  }

  lemma RoundHalfAwayIsNearest(r: real)
    ensures -0.5 <= RoundHalfAway(r) as real - r <= 0.5
    ensures RoundHalfAway(r) as real - r == 0.5 ==> r > 0.0
    ensures RoundHalfAway(r) as real - r == -0.5 ==> r < 0.0
  {
  }

  lemma TruncateIsTowardZero(r: real)
    ensures r >= 0.0 ==> 0.0 <= Truncate(r) as real <= r < Truncate(r) as real + 1.0
    ensures r < 0.0 ==> Truncate(r) as real - 1.0 < r <= Truncate(r) as real <= 0.0
  {
  }

  lemma FloorOfInteger(i: int)
    ensures (i as real).Floor == i && (i as real + 0.5).Floor == i
    ensures Truncate(i as real) == i && RoundHalfAway(i as real) == i
  {
  }

  lemma ExactIsMonotone(how: Conversion, a: real, b: real)
    requires a <= b
    ensures Exact(how, a) <= Exact(how, b)
  {
  }

  /** Main result: every conversion is the limit-free one cut off at the 32-bit range, so it never wraps around. */
  lemma ConvertProjects(how: Conversion, v: Float)
    ensures InRange(Convert(how, v).quota)
    ensures v.NaN? ==> Convert(how, v).quota == 0
    ensures v.PosInf? ==> Convert(how, v).quota == MAX_QUOTA
    ensures v.NegInf? ==> Convert(how, v).quota == MIN_QUOTA
    ensures v.Fin? ==> Convert(how, v).quota == Project(Exact(how, v.value))
  {
  }

  lemma ConvertIsMonotone(how: Conversion, a: Float, b: Float)
    requires AtMost(a, b) && !a.NaN? && !b.NaN?
    ensures Convert(how, a).quota <= Convert(how, b).quota
  {
    ConvertProjects(how, a);
    ConvertProjects(how, b);
    if a.Fin? && b.Fin? {
      ExactIsMonotone(how, a.value, b.value);
    }
  }

  lemma ConvertFixesQuotas(how: Conversion, quota: int)
    requires InRange(quota)
    ensures Convert(how, Fin(quota as real)) == Checked(quota, None)
  {
    FloorOfInteger(quota);
  }

  /**
   In range, truncation loses less than one unit and never raises the amount; rounding is off by
   half a unit at most.
  */
  lemma ConvertIsClose(how: Conversion, r: real)
    requires MIN_QUOTA as real <= r <= MAX_QUOTA as real
    ensures var quota := Convert(how, Fin(r)).quota as real;
      if how == FromFloat then -1.0 < quota - r < 1.0 && (r >= 0.0 ==> quota <= r) && (r <= 0.0 ==> quota >= r)
      else -0.5 <= quota - r <= 0.5
  {
    ConvertProjects(how, Fin(r));
    TruncateIsTowardZero(r);
    RoundHalfAwayIsNearest(r);
    FloorOfInteger(MAX_QUOTA);
    FloorOfInteger(MIN_QUOTA);
    ExactIsMonotone(how, r, MAX_QUOTA as real);
    ExactIsMonotone(how, MIN_QUOTA as real, r);
  }

  /**
   The strict form succeeds exactly when the prepared value is a number in range, and then agrees
   with the lenient one; otherwise it reports the clamp, with the right kind.
  */
  lemma StrictIffInRange(how: Conversion, v: Float)
    ensures ConvertStrict(how, v).Ok? <==> Convert(how, v).clamp.None?
    ensures ConvertStrict(how, v).Ok? <==>
      var p := Prepare(how, v); p.Fin? && MIN_QUOTA as real <= p.value <= MAX_QUOTA as real
    ensures ConvertStrict(how, v).Ok? ==> ConvertStrict(how, v).value == Convert(how, v).quota == Exact(how, v.value)
    ensures ConvertStrict(how, v).Err? ==>
      var c := ConvertStrict(how, v).error;
      && c.clamped == Convert(how, v).quota && c.original == Prepare(how, v)
      && (c.kind == NotANumber <==> v.NaN?) && (c.kind == Overflow <==> Above(Prepare(how, v), MAX_QUOTA))
  {
  }
}
