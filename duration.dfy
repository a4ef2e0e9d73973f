/**
 * The elapsed-time formatter `format_duration` (vmaf.py:143-164).
 *
 * The script splits the elapsed seconds with two `divmod` calls, truncates the
 * three parts with `int()`, and picks one of seven string shapes: a zero minutes
 * or seconds part is left out whenever a larger unit is shown, the leading unit
 * is written as plain `{n}`, and every later unit with the `:02d` format.
 */
module Duration {
  import opened Wrappers

  /** The hours, minutes and seconds parts of a duration. */
  datatype Hms = Hms(hours: nat, minutes: nat, seconds: nat)

  /** The number of seconds a decomposition stands for. */
  function Total(c: Hms): nat
  {
    c.hours * 3600 + c.minutes * 60 + c.seconds
  }

  /** Minutes and seconds are below 60, as two `divmod` calls leave them. */
  predicate Normal(c: Hms)
  {
    c.minutes < 60 && c.seconds < 60
  }

  /** `divmod(n, 3600)` and then `divmod(remainder, 60)` on whole seconds. */
  function Split(n: nat): (c: Hms)
    ensures Normal(c) && Total(c) == n
  {
    var remainder := n % 3600;
    Hms(n / 3600, remainder / 60, remainder % 60)
  }

  /** A normal decomposition is the one `Split` computes: the parts are unique. */
  lemma {:induction false} SplitUnique(c: Hms)
    requires Normal(c)
    ensures Split(Total(c)) == c
  {
    var n := Total(c);
    var r := c.minutes * 60 + c.seconds;
    assert r < 3600;
    DivModUnique(n, 3600, c.hours, r);
    DivModUnique(r, 60, c.minutes, c.seconds);
  }

  /** Euclidean division has one quotient and one remainder. */
  lemma {:induction false} DivModUnique(n: nat, d: nat, q: nat, r: nat)
    requires 0 < d && r < d && n == q * d + r
    ensures n / d == q && n % d == r
  {
    var q', r' := n / d, n % d;
    assert n == q' * d + r';
    if q' < q {
      assert q' * d + d <= q * d by { MulMono(q' + 1, q, d); }
    } else if q < q' {
      assert q * d + d <= q' * d by { MulMono(q + 1, q', d); }
    }
  }

  lemma {:induction false} MulMono(a: nat, b: nat, d: nat)
    requires a <= b
    ensures a * d <= b * d
  {
  }

  // ---------------------------------------------------------------- digits

  predicate IsDigit(ch: char)
  {
    '0' <= ch <= '9'
  }

  predicate AllDigits(s: string)
  {
    forall i :: 0 <= i < |s| ==> IsDigit(s[i])
  }

  function DigitChar(d: nat): char
    requires d < 10
  {
    ('0' as int + d) as char
  }

  /** The value of a digit character (0 for any other character). */
  function DigitValue(ch: char): nat
  {
    if IsDigit(ch) then ch as int - '0' as int else 0
  }

  /** Python's `str(n)` (the `{n}` f-string field) for a non-negative integer: no leading zero. */
  function Decimal(n: nat): (s: string)
    ensures 1 <= |s|
    ensures s[0] == '0' <==> n == 0
    ensures |s| == 1 <==> n < 10
    ensures 10 <= n < 100 ==> |s| == 2
  {
    if n < 10 then [DigitChar(n)] else Decimal(n / 10) + [DigitChar(n % 10)]
  }

  /** The value a string of decimal digits denotes (most significant digit first). */
  function ParseDecimal(s: string): nat
  {
    if s == [] then 0 else ParseDecimal(s[..|s| - 1]) * 10 + DigitValue(s[|s| - 1])
  }

  /** `str(n)` is made of digits only. */
  lemma {:induction false} DecimalDigits(n: nat)
    ensures AllDigits(Decimal(n))
  {
    if n >= 10 {
      DecimalDigits(n / 10);
    }
  }

  /** Reading the digits back gives the number that was written. */
  lemma {:induction false} DecimalRoundTrip(n: nat)
    ensures ParseDecimal(Decimal(n)) == n
  {
    var s := Decimal(n);
    if n < 10 {
      assert s[..|s| - 1] == [];
    } else {
      assert s[..|s| - 1] == Decimal(n / 10);
      DecimalRoundTrip(n / 10);
    }
  }

  /** The `:02d` format: at least two characters, zero-padded on the left. */
  function Pad2(n: nat): (s: string)
    ensures 2 <= |s|
    ensures n < 100 ==> |s| == 2
  {
    if n < 10 then ['0'] + Decimal(n) else Decimal(n)
  }

  /** A padded field is made of digits and reads back as the number written. */
  lemma {:induction false} Pad2RoundTrip(n: nat)
    ensures AllDigits(Pad2(n)) && ParseDecimal(Pad2(n)) == n
  {
    DecimalDigits(n);
    DecimalRoundTrip(n);
    if n < 10 {
      var s := Pad2(n);
      assert s[..|s| - 1] == ['0'];
      assert ParseDecimal(['0']) == 0 by { assert ['0'][..0] == []; }
    }
  }

  // ---------------------------------------------------------------- rendering

  /** The three units and the text the script writes after each number. */
  datatype Unit = Hour | Minute | Second

  function Name(u: Unit): string
  {
    match u
    case Hour => "小时"
    case Minute => "分钟"
    case Second => "秒"
  }

  /** The number of seconds in `v` of unit `u`. */
  function Scale(v: nat, u: Unit): nat
  {
    match u
    case Hour => 3600 * v
    case Minute => 60 * v
    case Second => v
  }

  /** `{v}` followed by the unit's name: the leading field, unpadded. */
  function Lead(v: nat, u: Unit): string
  {
    Decimal(v) + Name(u)
  }

  /** `{v:02d}` followed by the unit's name: a field after the leading one. */
  function Padded(v: nat, u: Unit): string
  {
    Pad2(v) + Name(u)
  }

  /**
   * The seven shapes of `format_duration`, chosen on the truthiness of each
   * part.  They are one rule, stated unit by unit in `ByUnitRule`.
   */
  function Render(c: Hms): (r: string)
    ensures r == ByUnitRule(c)
  {
    var e: string := [];
    assert Padded(c.minutes, Minute) + e == Padded(c.minutes, Minute);
    assert e + Padded(c.seconds, Second) == Padded(c.seconds, Second);
    if c.hours != 0 then
      if c.minutes != 0 && c.seconds != 0 then
        Lead(c.hours, Hour) + (Padded(c.minutes, Minute) + Padded(c.seconds, Second))
      else if c.seconds != 0 then
        Lead(c.hours, Hour) + Padded(c.seconds, Second)
      else if c.minutes != 0 then
        Lead(c.hours, Hour) + Padded(c.minutes, Minute)
      else
        Lead(c.hours, Hour)
    else if c.minutes != 0 then
      if c.seconds != 0 then
        Lead(c.minutes, Minute) + Padded(c.seconds, Second)
      else
        Lead(c.minutes, Minute)
    else
      Lead(c.seconds, Second)
  }

  /**
   * `format_duration` on a whole number of seconds: the unit-by-unit rule
   * applied to the hours, minutes and seconds `divmod` gives.
   */
  function FormatDuration(n: nat): (r: string)
    ensures r == ByUnitRule(Split(n))
  {
    Render(Split(n))
  }

  /**
   * The two `divmod` calls and the three `int()` truncations on the float the
   * script measures, computed over exact reals: the parts are those of the
   * floored number of seconds.
   */
  function RealSplit(x: real): (c: Hms)
    requires x >= 0.0
    ensures Normal(c) && Total(c) == x.Floor
  {
    var hours := (x / 3600.0).Floor;
    var remainder := x - hours as real * 3600.0;
    var minutes := (remainder / 60.0).Floor;
    var seconds := remainder - minutes as real * 60.0;
    assert 0.0 <= remainder < 3600.0;
    assert 0.0 <= seconds < 60.0;
    assert 0 <= minutes < 60;
    var whole := seconds.Floor;
    assert x == (hours * 3600 + minutes * 60) as real + seconds;
    FloorShift(hours * 3600 + minutes * 60, seconds);
    Hms(hours, minutes, whole)
  }

  lemma {:induction false} FloorShift(k: int, y: real)
    ensures (k as real + y).Floor == k + y.Floor
  {
  }

  /**
   * `format_duration` on the measured float, following the script's steps:
   * the text is that of the floored number of seconds.
   */
  function FormatElapsed(x: real): (r: string)
    requires x >= 0.0
    ensures r == FormatDuration(x.Floor)
  {
    SplitUnique(RealSplit(x));
    Render(RealSplit(x))
  }

  // ---------------------------------------------------------------- shape

  /** The leading unit: the largest non-zero part, or seconds when all are zero. */
  function Leading(c: Hms): Unit
  {
    if c.hours != 0 then Hour else if c.minutes != 0 then Minute else Second
  }

  function Part(c: Hms, u: Unit): nat
  {
    match u
    case Hour => c.hours
    case Minute => c.minutes
    case Second => c.seconds
  }

  /** The minutes field after a leading hours field: present exactly when the minutes are non-zero. */
  function MinutesField(c: Hms): string
  {
    if Leading(c) == Hour && c.minutes != 0 then Padded(c.minutes, Minute) else []
  }

  /** The seconds field after a leading hours or minutes field: present exactly when the seconds are non-zero. */
  function SecondsField(c: Hms): string
  {
    if Leading(c) != Second && c.seconds != 0 then Padded(c.seconds, Second) else []
  }

  /**
   * The formatting rule stated unit by unit: the leading unit is written
   * unpadded, and each smaller unit appears, padded to two digits, exactly when
   * its part is non-zero.
   */
  function ByUnitRule(c: Hms): string
  {
    Lead(Part(c, Leading(c)), Leading(c)) + (MinutesField(c) + SecondsField(c))
  }

  /**
   * Below one minute the result is the unpadded number followed by the seconds
   * unit; in particular zero seconds is "0秒".
   */
  lemma {:induction false} UnderOneMinute(n: nat)
    requires n < 60
    ensures FormatDuration(n) == Decimal(n) + "秒"
    ensures n < 10 ==> |FormatDuration(n)| == 2
  {
    assert Split(n) == Hms(0, 0, n);
  }

  /** The leading unit is never zero-padded: the text starts with '0' only for zero seconds. */
  lemma {:induction false} NoLeadingZero(n: nat)
    ensures FormatDuration(n)[0] == '0' <==> n == 0
  {
    var c := Split(n);
    var lead := Leading(c);
    var first := Lead(Part(c, lead), lead);
    assert FormatDuration(n) == first + (ByUnitRule(c)[|first|..]);
    assert first[0] == Decimal(Part(c, lead))[0];
    LeadingPart(c);
  }

  /** The leading part is zero only when the whole duration is. */
  lemma {:induction false} LeadingPart(c: Hms)
    ensures Part(c, Leading(c)) == 0 <==> Total(c) == 0
  {
  }

  /**
   * No elapsed time at all is written "0秒".  The count is a parameter pinned
   * to zero rather than the literal `0`: on a literal the verifier evaluates
   * every branch of the formatter and does not finish.
   */
  lemma {:induction false} ZeroSeconds(n: nat)
    requires n == 0
    ensures FormatDuration(n) == "0秒"
  {
    UnderOneMinute(n);
    ZeroText(n);
  }

  /** The text step of `ZeroSeconds`, kept apart so that the formatter is not unfolded beside it. */
  lemma {:induction false} ZeroText(n: nat)
    requires n == 0
    ensures Decimal(n) + "秒" == "0秒"
  {
    assert Decimal(n) == "0";
  }

  lemma {:induction false} ExampleSeconds()
    ensures FormatDuration(45) == "45秒"
  {
    UnderOneMinute(45);
    FortyFiveText();
  }

  /** The text step of `ExampleSeconds`, kept apart so that the formatter is not unfolded beside it. */
  lemma {:induction false} FortyFiveText()
    ensures Decimal(45) + "秒" == "45秒"
  {
    assert Decimal(45) == Decimal(4) + [DigitChar(5)];
  }

  lemma {:induction false} ExampleMinutes()
    ensures FormatDuration(125) == "2分钟05秒"
  {
  }

  /** With hours shown, zero minutes are left out but the seconds are still padded. */
  lemma {:induction false} ExampleHoursSeconds()
    ensures FormatDuration(3605) == "1小时05秒"
  {
  }

  lemma {:induction false} ExampleHoursMinutes()
    ensures FormatDuration(3660) == "1小时01分钟"
  {
  }

  lemma {:induction false} ExampleAllUnits()
    ensures FormatDuration(3661) == "1小时01分钟01秒"
  {
  }

  // ---------------------------------------------------------------- reading back
  //
  // A reader for the texts `format_duration` writes, the partner against which
  // the formatter is proved: it gives back the number of seconds.

  /** The unit whose name starts `s`, if any. */
  function UnitAt(s: string): (r: Option<Unit>)
    ensures r.Some? ==> |Name(r.value)| <= |s|
  {
    if |s| >= 2 && s[0] == '小' && s[1] == '时' then Some(Hour)
    else if |s| >= 2 && s[0] == '分' && s[1] == '钟' then Some(Minute)
    else if |s| >= 1 && s[0] == '秒' then Some(Second)
    else None
  }

  /**
   * Reads a duration text as a sequence of fields, each a run of digits
   * followed by a unit name, and adds up their values; None for text that is
   * not such a sequence.
   */
  function ParseDuration(s: string): Option<nat>
    decreases |s|, 2
  {
    if s == [] then Some(0) else ReadNumber(s, [])
  }

  /** Scans the digits of a field; `digits` holds those already read. */
  function ReadNumber(s: string, digits: string): Option<nat>
    decreases |s|, 1
  {
    if s != [] && IsDigit(s[0]) then ReadNumber(s[1..], digits + [s[0]]) else ReadUnit(s, digits)
  }

  /** Reads the unit name after the digits of a field, then the rest of the text. */
  function ReadUnit(s: string, digits: string): Option<nat>
    decreases |s|, 0
  {
    if digits == [] then None
    else
      match UnitAt(s)
      case None => None
      case Some(u) =>
        match ParseDuration(s[|Name(u)|..])
        case None => None
        case Some(t) => Some(Scale(ParseDecimal(digits), u) + t)
  }

  /** The digits in front of the text are all taken into the field's number. */
  lemma {:induction false} ReadDigits(d: string, t: string, digits: string)
    requires AllDigits(d)
    ensures ReadNumber(d + t, digits) == ReadNumber(t, digits + d)
    decreases |d|
  {
    if d != [] {
      assert (d + t)[0] == d[0];
      assert (d + t)[1..] == d[1..] + t;
      ReadDigits(d[1..], t, digits + [d[0]]);
      assert digits + [d[0]] + d[1..] == digits + d;
    } else {
      assert d + t == t;
      assert digits + d == digits;
    }
  }

  lemma {:induction false} UnitAtName(u: Unit, rest: string)
    ensures UnitAt(Name(u) + rest) == Some(u)
  {
    var s := Name(u) + rest;
    assert s[..|Name(u)|] == Name(u);
  }

  /** A unit name after the digits ends the field; the rest of the text follows. */
  lemma {:induction false} ReadNamedUnit(d: string, u: Unit, rest: string)
    requires d != []
    ensures ReadUnit(Name(u) + rest, d)
         == if ParseDuration(rest).None? then None else Some(Scale(ParseDecimal(d), u) + ParseDuration(rest).value)
  {
    UnitAtName(u, rest);
    assert (Name(u) + rest)[|Name(u)|..] == rest;
  }

  /** The digits of a field end where its unit name begins. */
  lemma {:induction false} ReadFieldNumber(d: string, u: Unit, rest: string)
    requires AllDigits(d)
    ensures ReadNumber(d + (Name(u) + rest), []) == ReadUnit(Name(u) + rest, d)
  {
    var tail := Name(u) + rest;
    var e: string := [];
    ReadDigits(d, tail, e);
    assert e + d == d;
    assert tail[0] == Name(u)[0];
  }

  /** A field in front of a readable text adds its value to that text's. */
  lemma {:induction false} ReadField(d: string, v: nat, u: Unit, rest: string, t: nat)
    requires AllDigits(d) && d != [] && ParseDecimal(d) == v && ParseDuration(rest) == Some(t)
    ensures ParseDuration(d + Name(u) + rest) == Some(Scale(v, u) + t)
  {
    assert d + Name(u) + rest == d + (Name(u) + rest);
    ReadFieldNumber(d, u, rest);
    ReadNamedUnit(d, u, rest);
  }

  // ---------------------------------------------------------------- fields
  //
  // The unit-by-unit rule as a list of fields, so that the reader can be
  // proved field by field whatever the digits are.

  /** A written field: its digits, the number they stand for, and its unit. */
  datatype Field = Field(digits: string, value: nat, unit: Unit)

  /** The text of the fields, each written as its digits and its unit name. */
  function Join(fs: seq<Field>): string
    decreases |fs|
  {
    if fs == [] then [] else fs[0].digits + Name(fs[0].unit) + Join(fs[1..])
  }

  /** The seconds the fields stand for. */
  function FieldsValue(fs: seq<Field>): nat
    decreases |fs|
  {
    if fs == [] then 0 else Scale(fs[0].value, fs[0].unit) + FieldsValue(fs[1..])
  }

  /** The field is a non-empty run of digits that reads as its number. */
  predicate ReadsAsValue(f: Field)
  {
    f.digits != [] && AllDigits(f.digits) && ParseDecimal(f.digits) == f.value
  }

  /** Every field reads as its number. */
  predicate Readable(fs: seq<Field>)
    decreases |fs|
  {
    fs == [] || (ReadsAsValue(fs[0]) && Readable(fs[1..]))
  }

  /** Fields of non-empty digit runs are read back one after the other. */
  lemma {:induction false} ReadFields(fs: seq<Field>)
    requires Readable(fs)
    ensures ParseDuration(Join(fs)) == Some(FieldsValue(fs))
    decreases |fs|
  {
    if fs != [] {
      var rest := fs[1..];
      var f := fs[0];
      ReadFields(rest);
      ReadField(f.digits, f.value, f.unit, Join(rest), FieldsValue(rest));
      assert Join(fs) == f.digits + Name(f.unit) + Join(rest);
    }
  }

  /** A padded field that is written only when `present` holds. */
  function OptionalField(present: bool, v: nat, u: Unit): seq<Field>
  {
    if present then [Field(Pad2(v), v, u)] else []
  }

  /** The fields of the unit-by-unit rule. */
  function Fields(c: Hms): seq<Field>
  {
    [Field(Decimal(Part(c, Leading(c))), Part(c, Leading(c)), Leading(c))]
      + (OptionalField(Leading(c) == Hour && c.minutes != 0, c.minutes, Minute)
         + OptionalField(Leading(c) != Second && c.seconds != 0, c.seconds, Second))
  }

  lemma {:induction false} JoinCons(f: Field, fs: seq<Field>)
    ensures Join([f] + fs) == f.digits + Name(f.unit) + Join(fs)
  {
    assert ([f] + fs)[1..] == fs;
  }

  lemma {:induction false} JoinOptional(present: bool, v: nat, u: Unit, fs: seq<Field>)
    ensures Join(OptionalField(present, v, u) + fs)
         == (if present then Padded(v, u) else []) + Join(fs)
  {
    if present {
      JoinCons(Field(Pad2(v), v, u), fs);
    } else {
      assert OptionalField(present, v, u) + fs == fs;
    }
  }

  lemma {:induction false} UnitRuleFields(c: Hms)
    ensures Join(Fields(c)) == ByUnitRule(c)
  {
    var lead := Leading(c);
    var minutes := OptionalField(lead == Hour && c.minutes != 0, c.minutes, Minute);
    var seconds := OptionalField(lead != Second && c.seconds != 0, c.seconds, Second);
    var e: seq<Field> := [];
    JoinCons(Field(Decimal(Part(c, lead)), Part(c, lead), lead), minutes + seconds);
    JoinOptional(lead == Hour && c.minutes != 0, c.minutes, Minute, seconds);
    JoinOptional(lead != Second && c.seconds != 0, c.seconds, Second, e);
    assert seconds + e == seconds;
    assert Join(e) == [];
    assert SecondsField(c) + [] == SecondsField(c);
  }

  lemma {:induction false} FieldsReadable(c: Hms)
    ensures Readable(Fields(c))
  {
    var lead := Leading(c);
    var minutes := OptionalField(lead == Hour && c.minutes != 0, c.minutes, Minute);
    var seconds := OptionalField(lead != Second && c.seconds != 0, c.seconds, Second);
    DecimalDigits(Part(c, lead));
    DecimalRoundTrip(Part(c, lead));
    ReadableOptional(lead != Second && c.seconds != 0, c.seconds, Second, []);
    assert seconds + [] == seconds;
    ReadableOptional(lead == Hour && c.minutes != 0, c.minutes, Minute, seconds);
    ReadableCons(Field(Decimal(Part(c, lead)), Part(c, lead), lead), minutes + seconds);
  }

  lemma {:induction false} ReadableCons(f: Field, fs: seq<Field>)
    requires ReadsAsValue(f) && Readable(fs)
    ensures Readable([f] + fs)
  {
    assert ([f] + fs)[1..] == fs;
  }

  lemma {:induction false} ReadableOptional(present: bool, v: nat, u: Unit, fs: seq<Field>)
    requires Readable(fs)
    ensures Readable(OptionalField(present, v, u) + fs)
  {
    if present {
      Pad2RoundTrip(v);
      ReadableCons(Field(Pad2(v), v, u), fs);
    } else {
      assert OptionalField(present, v, u) + fs == fs;
    }
  }

  lemma {:induction false} FieldsTotal(c: Hms)
    ensures FieldsValue(Fields(c)) == Total(c)
  {
    var lead := Leading(c);
    var minutes := OptionalField(lead == Hour && c.minutes != 0, c.minutes, Minute);
    var seconds := OptionalField(lead != Second && c.seconds != 0, c.seconds, Second);
    ValueCons(Field(Decimal(Part(c, lead)), Part(c, lead), lead), minutes + seconds);
    ValueOptional(lead == Hour && c.minutes != 0, c.minutes, Minute, seconds);
    ValueOptional(lead != Second && c.seconds != 0, c.seconds, Second, []);
  }

  lemma {:induction false} ValueCons(f: Field, fs: seq<Field>)
    ensures FieldsValue([f] + fs) == Scale(f.value, f.unit) + FieldsValue(fs)
  {
    assert ([f] + fs)[1..] == fs;
  }

  lemma {:induction false} ValueOptional(present: bool, v: nat, u: Unit, fs: seq<Field>)
    ensures FieldsValue(OptionalField(present, v, u) + fs)
         == (if present then Scale(v, u) else 0) + FieldsValue(fs)
  {
    if present {
      ValueCons(Field(Pad2(v), v, u), fs);
    } else {
      assert OptionalField(present, v, u) + fs == fs;
    }
  }

  // ---------------------------------------------------------------- round trip

  /** Reading a rendered decomposition gives back the seconds it stands for. */
  lemma {:induction false} RenderRoundTrip(c: Hms)
    ensures ParseDuration(Render(c)) == Some(Total(c))
  {
    UnitRuleFields(c);
    FieldsReadable(c);
    ReadFields(Fields(c));
    FieldsTotal(c);
  }

  /** Reading a formatted duration gives back the number of seconds. */
  lemma {:induction false} FormatRoundTrip(n: nat)
    ensures ParseDuration(FormatDuration(n)) == Some(n)
  {
    RenderRoundTrip(Split(n));
  }

  /** Different numbers of seconds are never formatted alike. */
  lemma {:induction false} FormatInjective(a: nat, b: nat)
    requires FormatDuration(a) == FormatDuration(b)
    ensures a == b
  {
    FormatRoundTrip(a);
    FormatRoundTrip(b);
  }
}
