/** Leaf scalar types: the Decimal scalar of lib/apia/scalars/decimal.rb, the
    Integer scalar of lib/rapid/scalars/integer.rb, and any other scalar as a
    triple of user blocks. A scalar has `parse` (raw input to value, may fail
    with a ParseError message), `valid?` and `cast` (value to output). */
module Scalars {
  import opened Wrappers
  import opened OrderedMaps
  import opened Values

  datatype Scalar =
    | Decimal
    | Integer
    /** A scalar defined elsewhere: its id and its three blocks. `cast`
        answers None where the block would raise. */
    | Custom(id: string, parse: Value -> Result<Value, string>, validator: Value -> bool, cast: Value -> Option<Value>)

  /** The definition id, as `Helpers.class_name_to_id` derives it. */
  function Id(s: Scalar): string {
    match s
    case Decimal => "Apia/Scalars/Decimal"
    case Integer => "Rapid/Scalars/Integer"
    case Custom(id, _, _, _) => id
  }

  /** A scalar registry, the table behind `Scalars.register`: scalars filed
      under the name they were registered with. Apia and Rapid each keep
      their own. */
  class Registry {
    var entries: OMap<string, Scalar>

    constructor()
      ensures entries == []
    {
      entries := [];
    }

    /** `register(name, klass)`: the scalar is found under `name` afterwards,
        and what is filed under every other name is as it was. */
    method Register(name: string, sc: Scalar)
      modifies this
      ensures entries == Put(old(entries), name, sc)
      ensures Get(entries, name) == Some(sc)
      ensures forall n :: n != name ==> Get(entries, n) == Get(old(entries), n)
    {
      forall n | n != name
        ensures Get(Put(entries, name, sc), n) == Get(entries, n)
      {
        PutOther(entries, name, sc, n);
      }
      entries := Put(entries, name, sc);
    }

    /** The scalar registered under `name`, if any. */
    function Fetch(name: string): (r: Option<Scalar>)
      reads this
      ensures r.Some? <==> HasKey(entries, name)
    {
      Get(entries, name)
    }
  }

  /** Apia's registry once decimal.rb has loaded: Decimal under `decimal`. */
  method LoadApiaScalars() returns (reg: Registry)
    ensures fresh(reg)
    ensures reg.Fetch("decimal") == Some(Decimal)
    ensures forall n :: n != "decimal" ==> reg.Fetch(n).None?
  {
    reg := new Registry();
    reg.Register("decimal", Decimal);
  }

  /** Rapid's registry once integer.rb has loaded: Integer under `integer`. */
  method LoadRapidScalars() returns (reg: Registry)
    ensures fresh(reg)
    ensures reg.Fetch("integer") == Some(Integer)
    ensures forall n :: n != "integer" ==> reg.Fetch(n).None?
  {
    reg := new Registry();
    reg.Register("integer", Integer);
  }

  // ---------------------------------------------------------------------
  // The decimal string pattern /\A-?\d+(\.\d+)?\z/

  predicate IsDigit(c: char) {
    '0' <= c <= '9'
  }

  predicate AllDigits(s: string) {
    forall i :: 0 <= i < |s| ==> IsDigit(s[i])
  }

  /** `\d+` */
  predicate IsDigits(s: string) {
    |s| > 0 && AllDigits(s)
  }

  /** `\d+(\.\d+)?`, written as a direct description of the strings it matches. */
  predicate UnsignedPattern(b: string) {
    || IsDigits(b)
    || exists k :: 0 < k < |b| - 1 && b[k] == '.' && IsDigits(b[..k]) && IsDigits(b[k + 1..])
  }

  /** The whole pattern `\A-?\d+(\.\d+)?\z`: an optional minus, then the unsigned part. */
  predicate DecimalPattern(s: string) {
    if |s| > 0 && s[0] == '-' then UnsignedPattern(s[1..]) else UnsignedPattern(s)
  }

  /** The recogniser: a left-to-right scan through the states of the pattern. */
  datatype ScanState = Start | AfterSign | IntDigits | AfterPoint | FracDigits | Rejected

  function Step(st: ScanState, c: char): ScanState {
    match st
    case Start => if c == '-' then AfterSign else if IsDigit(c) then IntDigits else Rejected
    case AfterSign => if IsDigit(c) then IntDigits else Rejected
    case IntDigits => if IsDigit(c) then IntDigits else if c == '.' then AfterPoint else Rejected
    case AfterPoint => if IsDigit(c) then FracDigits else Rejected
    case FracDigits => if IsDigit(c) then FracDigits else Rejected
    case Rejected => Rejected
  }

  function Scan(st: ScanState, s: string): ScanState
    decreases |s|
  {
    if |s| == 0 then st else Scan(Step(st, s[0]), s[1..])
  }

  predicate Accepting(st: ScanState) {
    st == IntDigits || st == FracDigits
  }

  /** `value.is_a?(::String) && value =~ /\A-?\d+(\.\d+)?\z/` */
  predicate IsDecimalString(s: string) {
    Accepting(Scan(Start, s))
  }

  lemma {:induction false} ScanRejected(s: string)
    ensures Scan(Rejected, s) == Rejected
    decreases |s|
  {
    if |s| > 0 {
      ScanRejected(s[1..]);
    }
  }

  lemma {:induction false} ScanFrac(s: string)
    ensures Accepting(Scan(FracDigits, s)) <==> AllDigits(s)
    decreases |s|
  {
    if |s| > 0 {
      if IsDigit(s[0]) {
        ScanFrac(s[1..]);
        assert AllDigits(s) <==> AllDigits(s[1..]) by {
          if AllDigits(s[1..]) {
            forall i | 0 <= i < |s| ensures IsDigit(s[i]) {
              if i > 0 { assert s[i] == s[1..][i - 1]; }
            }
          }
          if AllDigits(s) {
            forall i | 0 <= i < |s| - 1 ensures IsDigit(s[1..][i]) {
              assert s[1..][i] == s[i + 1];
            }
          }
        }
      } else {
        ScanRejected(s[1..]);
      }
    }
  }

  lemma ScanAfterPoint(s: string)
    ensures Accepting(Scan(AfterPoint, s)) <==> IsDigits(s)
  {
    if |s| > 0 {
      if IsDigit(s[0]) {
        ScanFrac(s[1..]);
        AllDigitsCons(s);
      } else {
        ScanRejected(s[1..]);
      }
    }
  }

  /** A string of digits stays one when its first digit is removed, and back. */
  lemma AllDigitsCons(s: string)
    requires |s| > 0 && IsDigit(s[0])
    ensures AllDigits(s) <==> AllDigits(s[1..])
  {
    if AllDigits(s[1..]) {
      forall i | 0 <= i < |s| ensures IsDigit(s[i]) {
        if i > 0 { assert s[i] == s[1..][i - 1]; }
      }
    }
    if AllDigits(s) {
      forall i | 0 <= i < |s| - 1 ensures IsDigit(s[1..][i]) {
        assert s[1..][i] == s[i + 1];
      }
    }
  }

  /** The rest of the input after at least one integer digit: more digits,
      optionally followed by a point and at least one digit. */
  predicate IntTail(s: string) {
    || AllDigits(s)
    || exists k :: 0 <= k < |s| - 1 && s[k] == '.' && AllDigits(s[..k]) && IsDigits(s[k + 1..])
  }

  /** A leading digit does not change whether the rest is an integer tail. */
  lemma IntTailCons(s: string)
    requires |s| > 0 && IsDigit(s[0])
    ensures IntTail(s) <==> IntTail(s[1..])
  {
    AllDigitsCons(s);
    if IntTail(s[1..]) && !AllDigits(s[1..]) {
      IntTailConsBack(s);
    }
    if IntTail(s) && !AllDigits(s) {
      IntTailConsForth(s);
    }
  }

  lemma IntTailConsBack(s: string)
    requires |s| > 0 && IsDigit(s[0]) && IntTail(s[1..]) && !AllDigits(s[1..])
    ensures IntTail(s)
  {
    var t := s[1..];
    var k :| 0 <= k < |t| - 1 && t[k] == '.' && AllDigits(t[..k]) && IsDigits(t[k + 1..]);
    assert s[..k + 1] == [s[0]] + t[..k];
    assert s[k + 2..] == t[k + 1..];
    AllDigitsCons(s[..k + 1]);
    assert s[..k + 1][1..] == t[..k];
    assert s[k + 1] == '.';
  }

  lemma IntTailConsForth(s: string)
    requires |s| > 0 && IsDigit(s[0]) && IntTail(s) && !AllDigits(s)
    ensures IntTail(s[1..])
  {
    var t := s[1..];
    var k :| 0 <= k < |s| - 1 && s[k] == '.' && AllDigits(s[..k]) && IsDigits(s[k + 1..]);
    assert k > 0;
    assert t[..k - 1] == s[..k][1..];
    AllDigitsCons(s[..k]);
    assert t[k..] == s[k + 1..];
    assert t[k - 1] == '.';
  }

  lemma {:induction false} ScanInt(s: string)
    ensures Accepting(Scan(IntDigits, s)) <==> IntTail(s)
    decreases |s|
  {
    if |s| == 0 {
    } else if IsDigit(s[0]) {
      ScanInt(s[1..]);
      IntTailCons(s);
    } else if s[0] == '.' {
      ScanAfterPoint(s[1..]);
      forall k | 0 < k <= |s| ensures s[..k][0] == s[0] {
      }
      if IsDigits(s[1..]) {
        assert s[..0] == [];
        assert s[0 + 1..] == s[1..];
      }
    } else {
      ScanRejected(s[1..]);
      forall k | 0 < k <= |s| ensures s[..k][0] == s[0] {
      }
    }
  }

  /** The unsigned part, read from a state that still needs its first digit. */
  lemma UnsignedFromTail(b: string)
    requires |b| > 0 && IsDigit(b[0]) && IntTail(b[1..]) && !AllDigits(b[1..])
    ensures UnsignedPattern(b)
  {
    var t := b[1..];
    var k :| 0 <= k < |t| - 1 && t[k] == '.' && AllDigits(t[..k]) && IsDigits(t[k + 1..]);
    assert b[..k + 1] == [b[0]] + t[..k];
    AllDigitsCons(b[..k + 1]);
    assert b[..k + 1][1..] == t[..k];
    assert b[k + 2..] == t[k + 1..];
    assert b[k + 1] == '.';
  }

  lemma TailFromUnsigned(b: string)
    requires |b| > 0 && IsDigit(b[0]) && UnsignedPattern(b) && !IsDigits(b)
    ensures IntTail(b[1..])
  {
    var t := b[1..];
    var k :| 0 < k < |b| - 1 && b[k] == '.' && IsDigits(b[..k]) && IsDigits(b[k + 1..]);
    assert t[..k - 1] == b[..k][1..];
    AllDigitsCons(b[..k]);
    assert t[k..] == b[k + 1..];
    assert t[k - 1] == '.';
  }

  lemma ScanUnsigned(b: string, st: ScanState)
    requires st == Start || st == AfterSign
    requires |b| > 0 ==> b[0] != '-' || st == AfterSign
    ensures Accepting(Scan(st, b)) <==> UnsignedPattern(b)
  {
    if |b| == 0 {
    } else if IsDigit(b[0]) {
      ScanInt(b[1..]);
      AllDigitsCons(b);
      if IntTail(b[1..]) && !AllDigits(b[1..]) {
        UnsignedFromTail(b);
      }
      if UnsignedPattern(b) && !IsDigits(b) {
        TailFromUnsigned(b);
      }
    } else {
      ScanRejected(b[1..]);
      assert !IsDigits(b) by { assert !IsDigit(b[0]); }
      forall k | 0 < k < |b| - 1 ensures !IsDigits(b[..k]) {
        assert b[..k][0] == b[0];
      }
    }
  }

  /** The scanning recogniser matches exactly the strings the pattern describes. */
  lemma DecimalRecogniserCorrect(s: string)
    ensures IsDecimalString(s) <==> DecimalPattern(s)
  {
    if |s| > 0 && s[0] == '-' {
      ScanUnsigned(s[1..], AfterSign);
    } else {
      ScanUnsigned(s, Start);
    }
  }

  /** The forms the pattern refuses and one it accepts. */
  lemma DecimalPatternExamples()
    ensures !IsDecimalString("") && !IsDecimalString(".5") && !IsDecimalString("1.")
    ensures !IsDecimalString("+1") && !IsDecimalString("1e3") && !IsDecimalString("-")
    ensures IsDecimalString("-12.5") && IsDecimalString("007")
  {
    DecimalRecogniserCorrect("");
    DecimalRecogniserCorrect(".5");
    assert !IsDigit(".5"[0]);
    DecimalRecogniserCorrect("1.");
    assert !IsDigit("1."[1]);
    DecimalRecogniserCorrect("+1");
    assert !IsDigit("+1"[0]);
    DecimalRecogniserCorrect("1e3");
    assert !IsDigit("1e3"[1]);
    DecimalRecogniserCorrect("-");
    DecimalRecogniserCorrect("-12.5");
    var b := "-12.5"[1..];
    assert b == "12.5" && b[..2] == "12" && b[3..] == "5";
    DecimalRecogniserCorrect("007");
  }

  // ---------------------------------------------------------------------
  // Conversions

  /** The number spelled by the digits of `s`, any other character ignored. */
  function DigitsValue(s: string): nat
    decreases |s|
  {
    if |s| == 0 then 0
    else
      var c := s[|s| - 1];
      if IsDigit(c) then DigitsValue(s[..|s| - 1]) * 10 + (c as int - '0' as int)
      else DigitsValue(s[..|s| - 1])
  }

  /** The number of characters after the first decimal point (0 without one). */
  function FractionLength(s: string): nat
    decreases |s|
  {
    if |s| == 0 then 0 else if s[0] == '.' then |s| - 1 else FractionLength(s[1..])
  }

  function Pow10(n: nat): (p: nat)
    ensures p > 0
  {
    if n == 0 then 1 else 10 * Pow10(n - 1)
  }

  /** `String#to_f` on a string the decimal pattern accepts, as an exact real. */
  function DecimalText(s: string): real {
    var neg := |s| > 0 && s[0] == '-';
    var body := if neg then s[1..] else s;
    var magnitude := DigitsValue(body) as real / Pow10(FractionLength(body)) as real;
    if neg then -magnitude else magnitude
  }

  /** Ruby's whitespace characters, which `String#to_i` skips at the front. */
  predicate IsSpace(c: char) {
    c == ' ' || c == '\t' || c == '\n' || c == '\r' || c == '\U{B}' || c == '\U{C}'
  }

  /** The digits `String#to_i` reads at the front of `s`: a run of digits in
      which a single underscore may stand between two digits; the
      underscores are dropped. */
  function LeadingDigits(s: string): (d: string)
    ensures |d| <= |s| && AllDigits(d)
    ensures |s| == 0 || !IsDigit(s[0]) <==> d == []
    ensures NoUnderscore(s) ==> d == s[..|d|] && (|d| < |s| ==> !IsDigit(s[|d|]))
    decreases |s|
  {
    if |s| > 0 && IsDigit(s[0]) then
      if |s| > 2 && s[1] == '_' && IsDigit(s[2]) then
        [s[0]] + LeadingDigits(s[2..])
      else
        var rest := LeadingDigits(s[1..]);
        assert NoUnderscore(s) ==> NoUnderscore(s[1..]) by {
          if NoUnderscore(s) {
            assert forall i :: 0 <= i < |s[1..]| ==> s[1..][i] == s[i + 1];
          }
        }
        [s[0]] + rest
    else []
  }

  predicate NoUnderscore(s: string) {
    forall i :: 0 <= i < |s| ==> s[i] != '_'
  }

  /** `String#to_i`: leading whitespace, an optional sign, then the leading
      digits; 0 when there are none. */
  function StringToI(s: string): int
    decreases |s|
  {
    if |s| > 0 && IsSpace(s[0]) then StringToI(s[1..])
    else if |s| > 0 && s[0] == '-' then -(DigitsValue(LeadingDigits(s[1..])) as int)
    else if |s| > 0 && s[0] == '+' then DigitsValue(LeadingDigits(s[1..]))
    else DigitsValue(LeadingDigits(s))
  }

  /** Truncation toward zero, as `Float#to_i` does. */
  function Truncate(r: real): int {
    if r >= 0.0 then r.Floor else -((-r).Floor)
  }

  // ---------------------------------------------------------------------
  // The three operations of a scalar

  const DecimalParseMessage := "Decimal must be provided as a decimal, integer or a string only containing numbers"

  /** `parse`: raw input to value; Err carries the ParseError message. */
  function Parse(sc: Scalar, v: Value): (r: Result<Value, string>)
    ensures sc.Decimal? ==> (r.Ok? <==> (v.Str? && IsDecimalString(v.s)) || v.Float? || v.Int?)
    ensures sc.Decimal? && r.Err? ==> r.error == DecimalParseMessage
    ensures sc.Decimal? && r.Ok? ==> if v.Str? then r.value.Float? else r.value == v
    ensures sc.Integer? ==> r == Ok(v)
  {
    match sc
    case Decimal =>
      if v.Str? && IsDecimalString(v.s) then Ok(Float(DecimalText(v.s)))
      else if v.Float? then Ok(v)
      else if v.Int? then Ok(v)
      else Err(DecimalParseMessage)
    // The default parse of a scalar passes the value through.
    case Integer => Ok(v)
    case Custom(_, parse, _, _) => parse(v)
  }

  /** `valid?` */
  predicate Valid(sc: Scalar, v: Value)
    ensures !sc.Custom? ==> (Valid(sc, v) <==> CastFixes(sc, v))
  {
    match sc
    case Decimal => v.Float?
    case Integer => v.Int?
    case Custom(_, _, validator, _) => validator(v)
  }

  /** `cast`: value to output. None where Ruby would raise NoMethodError
      (the value has no `to_f`/`to_i`). */
  function Cast(sc: Scalar, v: Value): (r: Option<Value>)
    ensures sc.Decimal? && r.Some? ==> r.value.Float?
    ensures sc.Decimal? ==> (r.None? <==> !(v.Float? || v.Int? || v.Nil? || (v.Str? && IsDecimalString(v.s))))
    ensures sc.Integer? && r.Some? ==> r.value.Int?
    ensures sc.Integer? ==> (r.None? <==> !(v.Int? || v.Float? || v.Nil? || v.Str?))
  {
    match sc
    case Decimal =>
      (match v
      case Float(_) => Some(v)
      case Int(i) => Some(Float(i as real))
      case Nil => Some(Float(0.0))
      case Str(s) => if IsDecimalString(s) then Some(Float(DecimalText(s))) else None
      case _ => None)
    case Integer =>
      (match v
      case Int(_) => Some(v)
      case Float(r) => Some(Int(Truncate(r)))
      case Nil => Some(Int(0))
      case Str(s) => Some(Int(StringToI(s)))
      case _ => None)
    case Custom(_, _, _, cast) => cast(v)
  }

  /** The value is its own cast: casting the built-ins leaves exactly their
      valid values unchanged. */
  predicate CastFixes(sc: Scalar, v: Value) {
    Cast(sc, v) == Some(v)
  }

  /** A stand-in for the String scalar, which is not part of this model, as
      it behaves on the values used here: strings parse, are valid and cast
      to themselves. */
  function StringScalar(): Scalar {
    Custom("Apia/Scalars/String",
      (v: Value) => if v.Str? then Ok(v) else Err("String must be provided"),
      (v: Value) => v.Str?,
      (v: Value) => if v.Str? then Some(v) else None)
  }

  // ---------------------------------------------------------------------
  // Properties of the two built-in scalars

  /** Decimal parse succeeds exactly on decimal strings, Floats and Integers. */
  lemma DecimalParseAccepts(v: Value)
    ensures Parse(Decimal, v).Ok? <==> (v.Str? && DecimalPattern(v.s)) || v.Float? || v.Int?
    ensures Parse(Decimal, v).Err? ==> Parse(Decimal, v).error == DecimalParseMessage
  {
    if v.Str? {
      DecimalRecogniserCorrect(v.s);
    }
  }

  /** Floats come back unchanged, Integers stay Integers, strings become Floats. */
  lemma DecimalParseResults(v: Value)
    ensures v.Float? || v.Int? ==> Parse(Decimal, v) == Ok(v)
    ensures v.Str? && Parse(Decimal, v).Ok? ==> Parse(Decimal, v).value.Float?
  {
  }

  /** An Integer parses but the validator refuses it: only Floats are valid. */
  lemma DecimalIntegerNotValid(i: int)
    ensures Parse(Decimal, Int(i)).Ok? && !Valid(Decimal, Parse(Decimal, Int(i)).value)
  {
  }

  /** What Decimal parse accepts from a string always passes the validator. */
  lemma DecimalStringParsesValid(s: string)
    requires DecimalPattern(s)
    ensures Parse(Decimal, Str(s)).Ok? && Valid(Decimal, Parse(Decimal, Str(s)).value)
  {
    DecimalRecogniserCorrect(s);
  }

  /** Decimal cast always produces a valid Float. */
  lemma DecimalCastValid(v: Value)
    ensures Cast(Decimal, v).Some? ==> Valid(Decimal, Cast(Decimal, v).value)
    ensures v.Float? ==> Cast(Decimal, v) == Some(v)
  {
  }

  /** Integer: `valid?` iff Integer, cast of an Integer is the identity, and
      every cast result passes the validator. */
  lemma IntegerCastValid(v: Value)
    ensures Valid(Integer, v) <==> v.Int?
    ensures v.Int? ==> Cast(Integer, v) == Some(v)
    ensures Cast(Integer, v).Some? ==> Valid(Integer, Cast(Integer, v).value)
  {
  }

  /** Truncation of a Float moves toward zero by less than one. */
  lemma TruncateTowardZero(r: real)
    ensures 0.0 <= r ==> 0.0 <= Truncate(r) as real <= r < Truncate(r) as real + 1.0
    ensures r < 0.0 ==> Truncate(r) as real - 1.0 < r <= Truncate(r) as real <= 0.0
  {
  }

  /** The digits of a decimal string, read back. */
  lemma DecimalTextNegative()
    ensures DecimalText("-12.5") == -12.5
  {
    assert "-12.5"[1..] == "12.5";
    assert "12.5"[..3] == "12." && "12."[..2] == "12" && "12"[..1] == "1" && "1"[..0] == "";
    assert "12.5"[1..] == "2.5" && "2.5"[1..] == ".5";
  }

  lemma DecimalTextLeadingZeros()
    ensures DecimalText("007") == 7.0
  {
    assert "007"[..2] == "00" && "00"[..1] == "0" && "0"[..0] == "";
    assert "007"[1..] == "07" && "07"[1..] == "7" && "7"[1..] == "";
  }

  lemma StringToIExample()
    ensures StringToI("  -42abc") == -42
  {
    var t := "  -42abc";
    assert t[1..] == " -42abc" && t[1..][1..] == "-42abc";
    var u := "-42abc"[1..];
    assert u == "42abc";
    assert LeadingDigits(u) == "42" by {
      assert u[1..] == "2abc" && u[1..][1..] == "abc";
    }
    assert "42"[..1] == "4" && "4"[..0] == "";
  }

  /** A single underscore between digits is skipped; a doubled one, or one
      that does not follow a digit, ends the number. */
  lemma StringToIUnderscores()
    ensures StringToI("1_000") == 1000
    ensures StringToI("1__000") == 1
    ensures StringToI("_1") == 0
    ensures StringToI("7_") == 7
  {
    StringToISkipsUnderscore();
    StringToIStopsAtDoubled();
    StringToIStopsAtTrailing();
  }

  lemma StringToISkipsUnderscore()
    ensures StringToI("1_000") == 1000
  {
    var a := "1_000";
    assert LeadingDigits(a[2..]) == "000" by {
      assert a[2..] == "000" && a[2..][1..] == "00" && a[2..][1..][1..] == "0";
    }
    assert LeadingDigits(a) == "1000";
    assert DigitsValue("1000") == 1000 by {
      assert "1000"[..3] == "100" && "100"[..2] == "10" && "10"[..1] == "1" && "1"[..0] == "";
    }
  }

  lemma StringToIStopsAtDoubled()
    ensures StringToI("1__000") == 1
  {
    var b := "1__000";
    assert LeadingDigits(b[1..]) == [] by {
      assert b[1..] == "__000";
    }
    assert LeadingDigits(b) == "1";
    assert "1"[..0] == "";
  }

  lemma StringToIStopsAtTrailing()
    ensures StringToI("7_") == 7
  {
    var c := "7_";
    assert LeadingDigits(c[1..]) == [] by {
      assert c[1..] == "_";
    }
    assert LeadingDigits(c) == "7";
    assert "7"[..0] == "";
  }
}
