/** ISO-8601 durations: the parser loop, the printer and a model of the
    floating-point steps between a decimal token and a nanosecond count. */
module Duration {
  import opened Wrappers
  import opened Text

  const NANOSECOND_LIMIT: int := 0x8000_0000_0000_0000

  const MILLISECOND: int := 1_000_000
  const SECOND: int := 1_000_000_000
  const MINUTE: int := 60 * SECOND
  const HOUR: int := 60 * MINUTE
  const DAY: int := 24 * HOUR
  const WEEK: int := 7 * DAY

  /** What the platform's float64 does to an exact result: `round` gives the
      stored value (None when it overflows to infinity); `outOfRange` is the
      platform's answer when a float that no int64 can hold is converted. */
  datatype Float = Float(round: real -> Option<real>, outOfRange: Option<real> -> int)

  /** Exact decimal arithmetic. */
  const EXACT: Float := Float(x => Some(x), x => 0)

  datatype ParseError =
    | InvalidDuration | EmptyValue | InvalidNumber | UnsupportedUnit | MisplacedDesignator
    | NeedsDesignator | MonthsUnsupported | UnexpectedCharacter | TrailingValue
    | DesignatorWithoutComponents | NoComponents

  /** int64 addition wraps around. */
  function Wrap(x: int): int {
    (x + NANOSECOND_LIMIT) % (2 * NANOSECOND_LIMIT) - NANOSECOND_LIMIT
  }

  /** `time.Duration(x)` for a non-negative float: truncation when it fits. */
  function Convert(float: Float, x: Option<real>): int {
    if x.Some? && 0.0 <= x.value < NANOSECOND_LIMIT as real then x.value.Floor else float.outOfRange(x)
  }

  // ----------------------------------------------------------------- numbers

  predicate IsNumberChar(c: char) { IsDigit(c) || c == '.' }

  function LeadingDigits(s: string): (d: string)
    ensures d <= s && AllDigits(d)
    ensures |d| < |s| ==> !IsDigit(s[|d|])
  {
    if s == "" || !IsDigit(s[0]) then "" else [s[0]] + LeadingDigits(s[1..])
  }

  /** A decimal number: whole part, digits after the point, and how many there are. */
  datatype Number = Number(whole: nat, fraction: nat, places: nat) {
    function Exact(): real { whole as real + fraction as real / Pow10(places) as real }
  }

  /** What `Sscanf("%f")` reads from a token of digits and dots: digits,
      at most one dot, digits; whatever follows is left unread without error. */
  function ScanNumber(token: string): Option<Number> {
    var whole := LeadingDigits(token);
    var rest := token[|whole|..];
    var fraction := if rest != "" && rest[0] == '.' then LeadingDigits(rest[1..]) else "";
    if whole == "" && fraction == "" then None
    else Some(Number(Value(whole), Value(fraction), |fraction|))
  }

  function UnitNanos(unit: char): Option<int> {
    match unit
    case 'D' => Some(DAY)
    case 'W' => Some(WEEK)
    case 'H' => Some(HOUR)
    case 'M' => Some(MINUTE)
    case 'S' => Some(SECOND)
    case _ => None
  }

  function IsoUnit(float: Float, unit: char, amount: real): Result<int, ParseError> {
    match UnitNanos(unit)
    case None => Err(UnsupportedUnit)
    case Some(nanos) => Ok(Convert(float, float.round(amount * nanos as real)))
  }

  /** One component's nanoseconds, or the error the flush step reports. */
  function Amount(float: Float, token: string, unit: char): Result<int, ParseError> {
    if token == "" then Err(EmptyValue)
    else match ScanNumber(token)
      case None => Err(InvalidNumber)
      case Some(number) =>
        match float.round(number.Exact())
        case None => Err(InvalidNumber)
        case Some(amount) => IsoUnit(float, unit, amount)
  }

  /** How the parser reads one component: from its token and unit. */
  type Reader = (string, char) -> Result<int, ParseError>

  function Reading(float: Float): Reader {
    (token, unit) => Amount(float, token, unit)
  }

  // ------------------------------------------------------------------ parser

  /** The variables the parser loop carries from one character to the next. */
  datatype Scan = Scan(token: string, inTime: bool, timeComponents: nat, total: int, count: nat)

  const START := Scan("", false, 0, 0, 0)

  predicate IsUnitChar(c: char) {
    c == 'Y' || c == 'M' || c == 'D' || c == 'W' || c == 'H' || c == 'S'
  }

  /** The flush step: add a component and clear its token. */
  function Flush(scan: Scan, nanos: int): Scan {
    Scan("", scan.inTime, if scan.inTime then scan.timeComponents + 1 else scan.timeComponents,
         Wrap(scan.total + nanos), scan.count + 1)
  }

  function ScanChar(read: Reader, scan: Scan, c: char): Result<Scan, ParseError> {
    if c == 'T' then
      if scan.token != "" then Err(MisplacedDesignator) else Ok(scan.(inTime := true))
    else if IsNumberChar(c) then Ok(scan.(token := scan.token + [c]))
    else if IsUnitChar(c) then
      if !scan.inTime && (c == 'H' || c == 'S') then Err(NeedsDesignator)
      else if !scan.inTime && c == 'M' then Err(MonthsUnsupported)
      else match read(scan.token, c)
        case Err(e) => Err(e)
        case Ok(d) => Ok(Flush(scan, d))
    else Err(UnexpectedCharacter)
  }

  function ScanAll(read: Reader, scan: Scan, s: string): Result<Scan, ParseError>
    decreases |s|
  {
    if s == "" then Ok(scan)
    else match ScanChar(read, scan, s[0])
      case Err(e) => Err(e)
      case Ok(next) => ScanAll(read, next, s[1..])
  }

  function Finish(scan: Scan): Result<int, ParseError> {
    if scan.token != "" then Err(TrailingValue)
    else if scan.inTime && scan.timeComponents == 0 then Err(DesignatorWithoutComponents)
    else if scan.count == 0 then Err(NoComponents)
    else Ok(scan.total)
  }

  /** The specification the parser method is proved against. */
  function ParseTrimmed(read: Reader, s: string): Result<int, ParseError> {
    if |s| < 2 || s[0] != 'P' then Err(InvalidDuration)
    else match ScanAll(read, START, s[1..])
      case Err(e) => Err(e)
      case Ok(scan) => Finish(scan)
  }

  /** The parser with the program's number reading. */
  function Parse(float: Float, value: string): Result<int, ParseError> {
    ParseTrimmed(Reading(float), TrimSpace(value))
  }

  /** `read` stands for the number scan and unit conversion of the flush step;
      the program's own is `Reading(float)`. */
  method ParseISO8601Duration(read: Reader, value: string) returns (r: Result<int, ParseError>)
    ensures r == ParseTrimmed(read, TrimSpace(value))
  {
    var s := TrimSpace(value);
    if |s| < 2 || s[0] != 'P' { return Err(InvalidDuration); }
    s := s[1..];
    var token, inTime, timeComponents, total, count := "", false, 0, 0, 0;
    for i := 0 to |s|
      invariant ScanAll(read, START, s) ==
                ScanAll(read, Scan(token, inTime, timeComponents, total, count), s[i..])
    {
      var c := s[i];
      assert s[i..][1..] == s[i + 1..];
      if c == 'T' {
        if token != "" { return Err(MisplacedDesignator); }
        inTime := true;
      } else if IsNumberChar(c) {
        token := token + [c];
      } else if IsUnitChar(c) {
        if !inTime && (c == 'H' || c == 'S') { return Err(NeedsDesignator); }
        if !inTime && c == 'M' { return Err(MonthsUnsupported); }
        match read(token, c) {
          case Err(e) => return Err(e);
          case Ok(d) =>
            total := Wrap(total + d);
            count := count + 1;
            if inTime { timeComponents := timeComponents + 1; }
            token := "";
        }
      } else {
        return Err(UnexpectedCharacter);
      }
    }
    if token != "" { return Err(TrailingValue); }
    if inTime && timeComponents == 0 { return Err(DesignatorWithoutComponents); }
    if count == 0 { return Err(NoComponents); }
    return Ok(total);
  }
}
