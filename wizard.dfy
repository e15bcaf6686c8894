/** The sign-up wizard: its six steps, the age derived from a birth date, the
    footer controls each step offers and the handlers behind them. */
module Wizard {
  import opened Wrappers
  import opened Text
  import opened FormValues
  import opened AuthSchema
  import opened StepperHook

  /** The wizard's step descriptors. */
  const WizardSteps: seq<StepConfig> := [
    StepConfig("DPI", None),
    StepConfig("Cuenta", None),
    StepConfig("Perfil", None),
    StepConfig("Institución", None),
    StepConfig("Profesional", None),
    StepConfig("Archivos", None)]

  /** The wizard starts on the files step, not on the first one. */
  const InitialStep: int := 5

  /** The completed pseudo-step of the wizard's stepper. */
  const Completed: nat := 6

  lemma StepsShape()
    ensures |WizardSteps| == Completed
    ensures InitialStep == |WizardSteps| - 1
    ensures forall i :: 0 <= i < |WizardSteps| ==> WizardSteps[i].optional.None?
  {
  }

  // ------------------------------------------------------------ parseInt

  /** The value of `c` as a digit in base `radix` (10 or 16), or -1. */
  function DigitValue(c: char, radix: nat): (v: int)
    ensures -1 <= v < 16
    ensures radix != 16 ==> v < 10
  {
    if '0' <= c <= '9' then c as int - '0' as int
    else if radix == 16 && 'a' <= c <= 'f' then c as int - 'a' as int + 10
    else if radix == 16 && 'A' <= c <= 'F' then c as int - 'A' as int + 10
    else -1
  }

  /** The length of the longest prefix of `s` made of base-`radix` digits. */
  function DigitRun(s: string, radix: nat): (n: nat)
    ensures n <= |s|
    ensures forall i :: 0 <= i < n ==> DigitValue(s[i], radix) >= 0
    ensures n < |s| ==> DigitValue(s[n], radix) < 0
  {
    if s == [] || DigitValue(s[0], radix) < 0 then 0 else 1 + DigitRun(s[1..], radix)
  }

  /** The number the digits `ds` denote in base `radix`, most significant first. */
  function Numeral(ds: string, radix: nat): int
  {
    if ds == [] then 0 else Numeral(ds[..|ds| - 1], radix) * radix + DigitValue(ds[|ds| - 1], radix)
  }

  /** A string made only of decimal digits is one digit run. */
  lemma {:induction false} DecimalRun(s: string)
    requires AllDigits(s)
    ensures DigitRun(s, 10) == |s|
  {
    if s != [] {
      DecimalRun(s[1..]);
    }
  }

  /** `parseInt(s)` with no radix: leading white space, an optional sign, an
      optional `0x`/`0X` prefix selecting base 16, then the longest digit run;
      `None` stands for `NaN`. */
  function ParseInt(s: string): Option<int>
  {
    var t := TrimStart(s);
    var sign := if t != [] && t[0] == '-' then -1 else 1;
    var u := if t != [] && (t[0] == '-' || t[0] == '+') then t[1..] else t;
    var hex := |u| >= 2 && u[0] == '0' && (u[1] == 'x' || u[1] == 'X');
    var radix := if hex then 16 else 10;
    var v := if hex then u[2..] else u;
    var n := DigitRun(v, radix);
    if n == 0 then None else Some(sign * Numeral(v[..n], radix))
  }

  /** A non-empty run of decimal digits is read whole, in base 10. */
  lemma ParseDecimal(s: string)
    requires s != [] && AllDigits(s)
    ensures ParseInt(s) == Some(Numeral(s, 10))
  {
    assert IsDigit(s[0]);
    assert !IsSpace(s[0]);
    assert LeadingSpaces(s) == 0;
    assert TrimStart(s) == s;
    DecimalRun(s);
    assert s[..|s|] == s;
  }

  /** `parseInt(undefined)` reads the string "undefined", which has no digits. */
  lemma ParseUndefined()
    ensures ParseInt("undefined").None?
  {
    assert TrimStart("undefined") == "undefined" by {
      assert !IsSpace('u');
      assert LeadingSpaces("undefined") == 0;
    }
  }

  // -------------------------------------------------------------- dates

  /** A calendar date as the `Date` getters report it: full year, month
      counted from 0 (`getMonth`) and day of the month (`getDate`). */
  datatype Ymd = Ymd(year: int, month: int, day: int)

  /** Which of the three formats `calculateAge` tries a birth date in. */
  datatype DateFormat = DayMonthYearDash | DayMonthYearSlash | YearFirst | Unrecognised

  /** `s.indexOf(c)`, counted in UTF-16 code units. */
  function JsIndexOf(s: string, c: char): (r: int)
    ensures r == -1 <==> c !in s
  {
    var i := IndexOf(s, c);
    if i < 0 then -1 else Utf16Length(s[..i])
  }

  /** The format the branches of `calculateAge` pick, in their order. */
  function FormatOf(s: string): DateFormat
  {
    if '-' in s && Utf16Length(s) == 10 then DayMonthYearDash
    else if '/' in s && Utf16Length(s) == 10 then DayMonthYearSlash
    else if '-' in s && JsIndexOf(s, '-') == 4 then YearFirst
    else Unrecognised
  }

  /** Every ten-code-unit string with a hyphen is read day first, so the
      year-first branch is reached exactly by hyphenated strings of another
      length whose first hyphen is at index 4. */
  lemma FormatDispatch(s: string)
    ensures '-' in s && Utf16Length(s) == 10 ==> FormatOf(s) == DayMonthYearDash
    ensures FormatOf(s) == YearFirst <==> '-' in s && Utf16Length(s) != 10 && JsIndexOf(s, '-') == 4
    ensures FormatOf(s) == DayMonthYearSlash <==> '-' !in s && '/' in s && Utf16Length(s) == 10
    ensures FormatOf(s) == Unrecognised <==>
      ('-' !in s && !('/' in s && Utf16Length(s) == 10)) ||
      ('-' in s && Utf16Length(s) != 10 && JsIndexOf(s, '-') != 4)
  {
  }

  /** `parseInt` of the `i`-th piece of a `split`; a missing piece is
      `undefined`, which `parseInt` reads as `NaN` (`ParseUndefined`). */
  function Piece(parts: seq<string>, i: nat): Option<int>
  {
    if i < |parts| then ParseInt(parts[i]) else None
  }

  /** `new Date(year, month - 1, day)` on the `parseInt` results; a `NaN`
      argument gives an invalid date. `makeDate` is the `Date` constructor on
      finite arguments. */
  function DateFromPieces(day: Option<int>, month: Option<int>, year: Option<int>,
                          makeDate: (int, int, int) -> Option<Ymd>): Option<Ymd>
  {
    if day.None? || month.None? || year.None? then None else makeDate(year.value, month.value - 1, day.value)
  }

  /** The date read from `[day, month, year] = s.split(sep)`. */
  function DayFirst(s: string, sep: char, makeDate: (int, int, int) -> Option<Ymd>): Option<Ymd>
  {
    var parts := Split(s, sep);
    DateFromPieces(Piece(parts, 0), Piece(parts, 1), Piece(parts, 2), makeDate)
  }

  /** The date `calculateAge` reads from `s`; `parseDate` is `new Date(s)`,
      `None` standing for `null` or an invalid date. */
  function DateOf(s: string, makeDate: (int, int, int) -> Option<Ymd>, parseDate: string -> Option<Ymd>): Option<Ymd>
  {
    match FormatOf(s)
    case DayMonthYearDash => DayFirst(s, '-', makeDate)
    case DayMonthYearSlash => DayFirst(s, '/', makeDate)
    case YearFirst => parseDate(s)
    case Unrecognised => None
  }

  /** A day-first string whose three pieces hold no separator is taken apart
      into exactly those pieces, whatever the order of the numbers in it. */
  lemma DayFirstPieces(d: string, m: string, y: string, sep: char, makeDate: (int, int, int) -> Option<Ymd>)
    requires sep !in d && sep !in m && sep !in y
    ensures DayFirst(d + [sep] + m + [sep] + y, sep, makeDate) ==
      DateFromPieces(ParseInt(d), ParseInt(m), ParseInt(y), makeDate)
  {
    var parts := [d, m, y];
    var s := d + [sep] + m + [sep] + y;
    assert Join(parts[2..], [sep]) == y;
    assert Join(parts[1..], [sep]) == m + [sep] + y;
    assert Join(parts, [sep]) == s;
    SplitJoin(parts, sep);
  }

  /** Whether the date (year, month, day) is on or before `t`. */
  predicate OnOrBefore(year: int, month: int, day: int, t: Ymd)
  {
    year < t.year || (year == t.year && (month < t.month || (month == t.month && day <= t.day)))
  }

  /** The year difference, less one when today's (month, day) precedes the
      birth (month, day). */
  function Age(birth: Ymd, today: Ymd): int
  {
    var age := today.year - birth.year;
    if today.month - birth.month < 0 || (today.month - birth.month == 0 && today.day < birth.day) then age - 1 else age
  }

  /** The age is the number of whole years completed: the birthday of that
      many years later has come, the next one has not. */
  lemma AgeIsCompletedYears(birth: Ymd, today: Ymd)
    ensures OnOrBefore(birth.year + Age(birth, today), birth.month, birth.day, today)
    ensures !OnOrBefore(birth.year + Age(birth, today) + 1, birth.month, birth.day, today)
  {
  }

  /** The age `calculateAge` reports for a birth date it has read: none for
      an invalid date or a negative age. */
  function AgeAt(date: Option<Ymd>, today: Ymd): (r: Option<int>)
    ensures r.Some? <==> date.Some? && Age(date.value, today) >= 0
    ensures r.Some? ==> r.value >= 0 && r.value == Age(date.value, today)
  {
    match date
    case None => None
    case Some(birth) => if Age(birth, today) >= 0 then Some(Age(birth, today)) else None
  }

  /** What `calculateAge(s)` returns, with `today` standing for `new Date()`;
      the empty string gives no age. */
  function AgeOf(s: string, makeDate: (int, int, int) -> Option<Ymd>, parseDate: string -> Option<Ymd>,
                 today: Ymd): (r: Option<int>)
    ensures s == "" ==> r.None?
    ensures s != "" ==> r == AgeAt(DateOf(s, makeDate, parseDate), today)
  {
    if s == "" then None else AgeAt(DateOf(s, makeDate, parseDate), today)
  }

  /** The format ladder of `calculateAge`, reassigning `date` in the branch
      that matches. */
  method ReadBirthDate(birthDate: string, makeDate: (int, int, int) -> Option<Ymd>,
                       parseDate: string -> Option<Ymd>) returns (date: Option<Ymd>)
    ensures date == DateOf(birthDate, makeDate, parseDate)
  {
    date := None;
    if '-' in birthDate && Utf16Length(birthDate) == 10 {
      date := DayFirst(birthDate, '-', makeDate);
    } else if '/' in birthDate && Utf16Length(birthDate) == 10 {
      date := DayFirst(birthDate, '/', makeDate);
    } else if '-' in birthDate && JsIndexOf(birthDate, '-') == 4 {
      date := parseDate(birthDate);
    }
  }

  /** The year difference of `calculateAge`, decremented once when today's
      (month, day) comes before the birthday's. */
  method YearsSince(birth: Ymd, today: Ymd) returns (age: int)
    ensures age == Age(birth, today)
  {
    age := today.year - birth.year;
    var monthDiff := today.month - birth.month;
    if monthDiff < 0 || (monthDiff == 0 && today.day < birth.day) {
      age := age - 1;
    }
  }

  /** `calculateAge`: the date is picked by format, then the age is the year
      difference, decremented once before the birthday. */
  method CalculateAge(birthDate: string, makeDate: (int, int, int) -> Option<Ymd>,
                      parseDate: string -> Option<Ymd>, today: Ymd) returns (r: Option<int>)
    ensures r == AgeOf(birthDate, makeDate, parseDate, today)
  {
    if birthDate == "" {
      return None;
    }
    var date := ReadBirthDate(birthDate, makeDate, parseDate);
    if date.None? {
      return None;
    }
    var age := YearsSince(date.value, today);
    r := if age >= 0 then Some(age) else None;
  }

  /** A ten-character ISO date is split at its hyphens as if it were day
      first: "1990-01-15" becomes `new Date(15, 0, 1990)`. */
  lemma IsoDateReadDayFirst(makeDate: (int, int, int) -> Option<Ymd>, parseDate: string -> Option<Ymd>)
    ensures FormatOf("1990-01-15") == DayMonthYearDash
    ensures DateOf("1990-01-15", makeDate, parseDate) == makeDate(15, 0, 1990)
  {
    IsoDateIsTenUnits();
    IsoDatePieces(makeDate);
  }

  lemma IsoDateIsTenUnits()
    ensures '-' in "1990-01-15" && Utf16Length("1990-01-15") == 10
  {
    assert "1990-01-15"[4] == '-';
    Utf16LengthBmp("1990-01-15");
  }

  lemma IsoDatePieces(makeDate: (int, int, int) -> Option<Ymd>)
    ensures DayFirst("1990-01-15", '-', makeDate) == makeDate(15, 0, 1990)
  {
    assert "1990-01-15" == "1990" + ['-'] + "01" + ['-'] + "15";
    DayFirstPieces("1990", "01", "15", '-', makeDate);
    ParseSamples();
  }

  /** The three pieces of "1990-01-15" as `parseInt` reads them. */
  lemma ParseSamples()
    ensures ParseInt("1990") == Some(1990)
    ensures ParseInt("01") == Some(1)
    ensures ParseInt("15") == Some(15)
  {
    ParseYear();
    ParseMonth();
    ParseDay();
  }

  lemma ParseYear()
    ensures ParseInt("1990") == Some(1990)
  {
    ParseDecimal("1990");
    NumeralYear();
  }

  lemma NumeralYear()
    ensures Numeral("1990", 10) == 1990
  {
    assert "1990"[..3] == "199" && "199"[..2] == "19" && "19"[..1] == "1" && "1"[..0] == "";
  }

  lemma ParseMonth()
    ensures ParseInt("01") == Some(1)
  {
    ParseDecimal("01");
    NumeralMonth();
  }

  lemma NumeralMonth()
    ensures Numeral("01", 10) == 1
  {
    assert "01"[..1] == "0" && "0"[..0] == "";
  }

  lemma ParseDay()
    ensures ParseInt("15") == Some(15)
  {
    ParseDecimal("15");
    NumeralDay();
  }

  lemma NumeralDay()
    ensures Numeral("15", 10) == 15
  {
    assert "15"[..1] == "1" && "1"[..0] == "";
  }

  /** The format dispatch with the year-first test moved ahead of the
      day-first ones, so that an ISO date reaches the branch meant for it. */
  function IntendedFormatOf(s: string): (f: DateFormat)
    ensures '-' in s && JsIndexOf(s, '-') == 4 ==> f == YearFirst
    ensures '-' in s && JsIndexOf(s, '-') != 4 && Utf16Length(s) == 10 ==> f == DayMonthYearDash
    ensures f == DayMonthYearSlash <==> FormatOf(s) == DayMonthYearSlash
  {
    if '-' in s && JsIndexOf(s, '-') == 4 then YearFirst
    else if '-' in s && Utf16Length(s) == 10 then DayMonthYearDash
    else if '/' in s && Utf16Length(s) == 10 then DayMonthYearSlash
    else Unrecognised
  }

  /** The date read with the intended dispatch: a year-first string goes to
      `new Date(s)`, and wherever the two dispatches agree so do the dates. */
  function IntendedDateOf(s: string, makeDate: (int, int, int) -> Option<Ymd>, parseDate: string -> Option<Ymd>): (r: Option<Ymd>)
    ensures '-' in s && JsIndexOf(s, '-') == 4 ==> r == parseDate(s)
    ensures IntendedFormatOf(s) == FormatOf(s) ==> r == DateOf(s, makeDate, parseDate)
  {
    match IntendedFormatOf(s)
    case DayMonthYearDash => DayFirst(s, '-', makeDate)
    case DayMonthYearSlash => DayFirst(s, '/', makeDate)
    case YearFirst => parseDate(s)
    case Unrecognised => None
  }

  /** With the intended order an ISO date "yyyy-mm-dd" is read year first,
      while a "dd-mm-yyyy" date is still split day first, as before. */
  lemma IntendedReadsIso(y: string, m: string, d: string)
    requires |y| == 4 && AllDigits(y) && '-' !in m && '-' !in d
    ensures IntendedFormatOf(y + "-" + m + "-" + d) == YearFirst
    ensures |d| == 2 && AllDigits(d) && Utf16Length(m) == 2 && Utf16Length(y + "-" + m + "-" + d) == 10 ==>
      IntendedFormatOf(d + "-" + m + "-" + y) == DayMonthYearDash == FormatOf(d + "-" + m + "-" + y)
  {
    var s := y + "-" + m + "-" + d;
    assert '-' !in y by {
      assert forall i :: 0 <= i < |y| ==> IsDigit(y[i]);
    }
    assert s[4] == '-';
    assert IndexOf(s, '-') == 4 by {
      assert s[..4] == y;
    }
    Utf16LengthBmp(y);
    assert s[..4] == y;
    if |d| == 2 && AllDigits(d) && Utf16Length(m) == 2 && Utf16Length(s) == 10 {
      var t := d + "-" + m + "-" + y;
      assert '-' !in d by {
        assert forall i :: 0 <= i < |d| ==> IsDigit(d[i]);
      }
      assert t[2] == '-' && t[..2] == d;
      assert IndexOf(t, '-') == 2;
      Utf16LengthBmp(d);
      Utf16LengthAppend(y + "-" + m + "-", d);
      Utf16LengthAppend(d + "-" + m + "-", y);
      Utf16LengthAppend(y + "-", m);
      Utf16LengthAppend(d + "-", m);
      Utf16LengthAppend(y, "-");
      Utf16LengthAppend(d, "-");
      Utf16LengthAppend(y + "-" + m, "-");
      Utf16LengthAppend(d + "-" + m, "-");
    }
  }

  /** The UTF-16 length of a concatenation is the sum of the lengths. */
  lemma {:induction false} Utf16LengthAppend(a: string, b: string)
    ensures Utf16Length(a + b) == Utf16Length(a) + Utf16Length(b)
    decreases |a|
  {
    if a != [] {
      assert (a + b)[1..] == a[1..] + b;
      Utf16LengthAppend(a[1..], b);
    } else {
      assert a + b == b;
    }
  }

  // ------------------------------------------------------- step validity

  /** The object `{ dpi }` that `step0Valid` hands to the pre-fill schema. */
  function OnlyDpi(f: Field): (v: Values)
    ensures Get(v, Dpi) == f
  {
    Build(k => if k == Dpi then f else Undefined)
  }

  /** `watch("dpi") ?? ""`. */
  function DpiOrEmpty(f: Field): Field
  {
    if f.Undefined? then Str("") else f
  }

  /** `step0Valid`: the watched DPI, or "" when there is none, is text that
      is 13 ASCII digits once trimmed. */
  predicate Step0Valid(v: Values)
  {
    var f := DpiOrEmpty(Get(v, Dpi));
    f.Str? && |Trim(f.s)| == 13 && AllDigits(Trim(f.s))
  }

  /** `step0Valid` is the verdict of the pre-fill schema on `{ dpi }`, and an
      absent DPI fails it. */
  lemma Step0ValidIsPreFill(v: Values, isEmail: string -> bool)
    ensures Step0Valid(v) <==> SchemaAccepts(PreFill, OnlyDpi(DpiOrEmpty(Get(v, Dpi))), isEmail)
    ensures Step0Valid(v) ==> Get(v, Dpi).Str?
  {
    PreFillAccepts(OnlyDpi(DpiOrEmpty(Get(v, Dpi))), isEmail);
    if Get(v, Dpi).Undefined? {
      assert Trim("") == "";
    }
  }

  /** JavaScript truthiness of a form value. */
  predicate Truthy(f: Field)
  {
    match f
    case Undefined => false
    case Str(s) => s != ""
    case Num(x) => x != 0.0
    case FileObj(_) => true
  }

  /** The files step's validity: all three documents are truthy. */
  predicate FilesStepValid(v: Values)
  {
    Truthy(Get(v, PdfDpi)) && Truthy(Get(v, PdfContrato)) && Truthy(Get(v, PdfCertificadoProfesional))
  }

  /** Values the files schema accepts make the files step valid. */
  lemma FilesSchemaMakesStepValid(v: Values, isEmail: string -> bool)
    requires SchemaAccepts(Files, v, isEmail)
    ensures FilesStepValid(v)
  {
    FileRule(v, isEmail, PdfDpi);
    FileRule(v, isEmail, PdfContrato);
    FileRule(v, isEmail, PdfCertificadoProfesional);
  }

  /** The files schema wants a `File` under each of its three keys. */
  lemma FileRule(v: Values, isEmail: string -> bool, k: Key)
    requires SchemaAccepts(Files, v, isEmail)
    requires k == PdfDpi || k == PdfContrato || k == PdfCertificadoProfesional
    ensures Get(v, k).FileObj?
  {
    RuleHolds(Files, v, isEmail, k, FileInstance);
  }

  /** The step's own test is looser than the schema: any truthy value passes
      it, a non-empty string in place of the DPI document included. */
  lemma FilesStepLooserThanSchema(v: Values, isEmail: string -> bool)
    requires Get(v, PdfDpi).Str? && Get(v, PdfDpi).s != ""
    requires Truthy(Get(v, PdfContrato)) && Truthy(Get(v, PdfCertificadoProfesional))
    ensures FilesStepValid(v) && !SchemaAccepts(Files, v, isEmail)
  {
    if SchemaAccepts(Files, v, isEmail) {
      FileRule(v, isEmail, PdfDpi);
    }
  }

  // ------------------------------------------------------------ controls

  /** The footer buttons. */
  datatype ControlKind = Reset | Previous | PrefillNext | StepNext | Register

  datatype Control = Control(kind: ControlKind, caption: string, disabled: bool)

  /** What the footer shows: a heading in the completed view, and its buttons in order. */
  datatype Footer = Footer(heading: Option<string>, controls: seq<Control>)

  /** The validity each step's form last reported (`onValidityChange`). */
  datatype Reports = Reports(step1: bool, step2: bool, step3: bool, step4: bool, step5: bool)

  /** The footer for `activeStep`, given the step flags. */
  function FooterOf(activeStep: int, step0Valid: bool, r: Reports, isPrefilling: bool, isSubmitting: bool): Footer
  {
    if activeStep == Completed then
      Footer(Some("¡Todos los pasos completados!"), [Control(Reset, "Reiniciar", false)])
    else
      var back := Control(Previous, "Anterior", activeStep == 0);
      var forward :=
        if activeStep == 0 then [Control(PrefillNext, if isPrefilling then "Consultando..." else "Siguiente", !step0Valid || isPrefilling)]
        else if activeStep == 1 then [Control(StepNext, "Siguiente", !r.step1)]
        else if activeStep == 2 then [Control(StepNext, "Siguiente", !r.step2)]
        else if activeStep == 3 then [Control(StepNext, "Siguiente", !r.step3)]
        else if activeStep == 5 then [Control(Register, if isSubmitting then "Registrando..." else "Registrar Usuario", !r.step5 || isSubmitting)]
        else [];
      Footer(None, [back] + forward)
  }

  /** Some button of kind `kind` is shown and enabled. */
  predicate Enabled(f: Footer, kind: ControlKind)
  {
    exists i :: 0 <= i < |f.controls| && f.controls[i].kind == kind && !f.controls[i].disabled
  }

  /** Whether the step's own "next" gate is open (`if (!stepNValid) return`). */
  function StepReported(r: Reports, activeStep: int): bool
  {
    if activeStep == 1 then r.step1
    else if activeStep == 2 then r.step2
    else if activeStep == 3 then r.step3
    else if activeStep == 4 then r.step4
    else if activeStep == 5 then r.step5
    else false
  }

  /** Which forward button is enabled where: pre-fill at step 0 when the DPI
      is valid and no pre-fill runs, "next" at steps 1 to 3 when the step
      reported valid, submit at step 5 when the files step reported valid and
      no submission runs, and none at step 4 or in the completed view. */
  lemma ForwardGates(activeStep: int, step0Valid: bool, r: Reports, isPrefilling: bool, isSubmitting: bool)
    ensures var f := FooterOf(activeStep, step0Valid, r, isPrefilling, isSubmitting);
      (Enabled(f, PrefillNext) <==> activeStep == 0 && step0Valid && !isPrefilling) &&
      (Enabled(f, StepNext) <==> 1 <= activeStep <= 3 && StepReported(r, activeStep)) &&
      (Enabled(f, Register) <==> activeStep == 5 && r.step5 && !isSubmitting)
  {
    var f := FooterOf(activeStep, step0Valid, r, isPrefilling, isSubmitting);
    if activeStep != Completed {
      assert f.controls[0].kind == Previous;
      if activeStep == 0 || 1 <= activeStep <= 3 || activeStep == 5 {
        assert f.controls[1].kind != Previous;
      }
    }
  }

  /** "Anterior" is shown everywhere but the completed view and is disabled
      exactly at step 0; the completed view shows only the reset button. */
  lemma BackAndReset(activeStep: int, step0Valid: bool, r: Reports, isPrefilling: bool, isSubmitting: bool)
    ensures var f := FooterOf(activeStep, step0Valid, r, isPrefilling, isSubmitting);
      (activeStep == Completed <==> f.heading.Some?) &&
      (activeStep == Completed ==> |f.controls| == 1 && f.controls[0].kind == Reset && Enabled(f, Reset)) &&
      (activeStep != Completed ==> f.controls[0] == Control(Previous, "Anterior", activeStep == 0) && !Enabled(f, Reset)) &&
      (Enabled(f, Previous) <==> activeStep != Completed && activeStep != 0) &&
      (activeStep == 4 ==> |f.controls| == 1)
  {
    var f := FooterOf(activeStep, step0Valid, r, isPrefilling, isSubmitting);
    if activeStep != Completed && activeStep != 0 {
      assert f.controls[0].kind == Previous && !f.controls[0].disabled;
    }
    if activeStep == Completed {
      assert f.controls[0].kind == Reset && !f.controls[0].disabled;
    }
  }

  /** The footer with step 4's missing "next" button added, gated by the
      validity that step reports like steps 1 to 3. */
  function IntendedFooterOf(activeStep: int, step0Valid: bool, r: Reports, isPrefilling: bool, isSubmitting: bool): (f: Footer)
    ensures activeStep != 4 ==> f == FooterOf(activeStep, step0Valid, r, isPrefilling, isSubmitting)
    ensures activeStep == 4 ==> (Enabled(f, StepNext) <==> r.step4)
  {
    if activeStep == 4 then
      var f := Footer(None, [Control(Previous, "Anterior", false), Control(StepNext, "Siguiente", !r.step4)]);
      assert f.controls[0].kind == Previous;
      assert r.step4 ==> f.controls[1].kind == StepNext && !f.controls[1].disabled;
      f
    else FooterOf(activeStep, step0Valid, r, isPrefilling, isSubmitting)
  }

  /** With the intended footer every step before completion offers a forward
      button, and each opens once its step is valid. */
  lemma IntendedEveryStepAdvances(activeStep: int, step0Valid: bool, r: Reports)
    requires 0 <= activeStep < Completed
    requires step0Valid && r.step1 && r.step2 && r.step3 && r.step4 && r.step5
    ensures var f := IntendedFooterOf(activeStep, step0Valid, r, false, false);
      Enabled(f, PrefillNext) || Enabled(f, StepNext) || Enabled(f, Register)
  {
    ForwardGates(activeStep, step0Valid, r, false, false);
  }

  // ------------------------------------------------------------- handlers

  /** Everything the wizard's handlers read or write. */
  datatype State = State(
    step: int,
    values: Values,
    reports: Reports,
    isSubmitting: bool,
    isPrefilling: bool,
    isPrefilled: bool,
    prefilled: set<string>)

  function FooterIn(s: State, isEmail: string -> bool): Footer
  {
    FooterOf(s.step, Step0Valid(s.values), s.reports, s.isPrefilling, s.isSubmitting)
  }

  /** What the `onClick` of a button of kind `kind` does to `s`. */
  function Handle(s: State, kind: ControlKind, isEmail: string -> bool): State
  {
    match kind
    case Reset => s.(step := 0, isPrefilled := false, prefilled := {})
    case Previous => s.(step := Prev(s.step))
    case PrefillNext => s.(step := Next(s.step, Completed), isPrefilling := false)
    case StepNext => if StepReported(s.reports, s.step) then s.(step := Next(s.step, Completed)) else s
    case Register =>
      if SignupAllAccepts(s.values, isEmail) then
        s.(step := 0, isPrefilled := false, prefilled := {}, values := DefaultValues, isSubmitting := false)
      else s
  }

  /** Pressing a button: a hidden or disabled one does nothing. */
  function Pressed(s: State, kind: ControlKind, isEmail: string -> bool): State
  {
    if Enabled(FooterIn(s, isEmail), kind) then Handle(s, kind, isEmail) else s
  }

  /** No press leaves a pre-fill or a submission in flight, or takes the step
      out of `0..6`. */
  lemma PressKeepsRest(s: State, kind: ControlKind, isEmail: string -> bool)
    requires 0 <= s.step <= Completed && !s.isPrefilling && !s.isSubmitting
    ensures var t := Pressed(s, kind, isEmail);
      0 <= t.step <= Completed && !t.isPrefilling && !t.isSubmitting && t.reports == s.reports
  {
  }

  /** Only a successful submission changes the form values: it clears them,
      together with the step and the pre-fill marks, while an invalid one
      changes nothing. */
  lemma SubmitClears(s: State, isEmail: string -> bool)
    requires s.step == 5 && s.reports.step5 && !s.isSubmitting
    ensures var t := Pressed(s, Register, isEmail);
      if SignupAllAccepts(s.values, isEmail) then
        t.step == 0 && t.values == DefaultValues && !t.isPrefilled && t.prefilled == {}
      else t == s
  {
    ForwardGates(s.step, Step0Valid(s.values), s.reports, s.isPrefilling, s.isSubmitting);
  }

  /** Values change only through a successful submission. */
  lemma OnlySubmitClearsValues(s: State, kind: ControlKind, isEmail: string -> bool)
    requires kind != Register
    ensures Pressed(s, kind, isEmail).values == s.values
  {
  }

  /** The completed view's reset goes back to step 0 and clears the pre-fill
      marks but keeps the form values. */
  lemma CompletedResetKeepsValues(s: State, isEmail: string -> bool)
    requires s.step == Completed
    ensures Pressed(s, Reset, isEmail) == s.(step := 0, isPrefilled := false, prefilled := {})
  {
    BackAndReset(s.step, Step0Valid(s.values), s.reports, s.isPrefilling, s.isSubmitting);
  }

  /** The pre-fill button, when enabled, moves from step 0 to step 1 and
      touches nothing else. */
  lemma PrefillAdvancesOnce(s: State, isEmail: string -> bool)
    requires s.step == 0 && !s.isPrefilling && Step0Valid(s.values)
    ensures Pressed(s, PrefillNext, isEmail) == s.(step := 1)
  {
    ForwardGates(s.step, Step0Valid(s.values), s.reports, s.isPrefilling, s.isSubmitting);
  }

  /** Steps 1 to 3 move on by one exactly when they reported valid. */
  lemma NextNeedsReport(s: State, isEmail: string -> bool)
    requires 1 <= s.step <= 3
    ensures Pressed(s, StepNext, isEmail) == if StepReported(s.reports, s.step) then s.(step := s.step + 1) else s
  {
    ForwardGates(s.step, Step0Valid(s.values), s.reports, s.isPrefilling, s.isSubmitting);
  }

  /** No button leads past step 4 from a step at or below it: the files step,
      the submit button and the completed view are out of reach once a
      submission has reset the wizard. */
  lemma StuckBelowFiles(s: State, kind: ControlKind, isEmail: string -> bool)
    requires 0 <= s.step <= 4
    ensures 0 <= Pressed(s, kind, isEmail).step <= 4
  {
    ForwardGates(s.step, Step0Valid(s.values), s.reports, s.isPrefilling, s.isSubmitting);
    BackAndReset(s.step, Step0Valid(s.values), s.reports, s.isPrefilling, s.isSubmitting);
  }

  /** From the initial step no button reaches the completed view either. */
  lemma NeverCompleted(s: State, kind: ControlKind, isEmail: string -> bool)
    requires 0 <= s.step <= InitialStep
    ensures 0 <= Pressed(s, kind, isEmail).step <= InitialStep
  {
    ForwardGates(s.step, Step0Valid(s.values), s.reports, s.isPrefilling, s.isSubmitting);
    BackAndReset(s.step, Step0Valid(s.values), s.reports, s.isPrefilling, s.isSubmitting);
  }

  /** Pressing a button of the intended footer. */
  function IntendedPressed(s: State, kind: ControlKind, isEmail: string -> bool): State
  {
    if Enabled(IntendedFooterOf(s.step, Step0Valid(s.values), s.reports, s.isPrefilling, s.isSubmitting), kind) then
      Handle(s, kind, isEmail)
    else s
  }

  /** With the intended footer the files step is reached from step 4 once
      that step reported valid, and from there a valid submission; away from
      step 4 every press behaves as written. */
  lemma IntendedReachesFiles(s: State, kind: ControlKind, isEmail: string -> bool)
    ensures s.step != 4 ==> IntendedPressed(s, kind, isEmail) == Pressed(s, kind, isEmail)
    ensures s.step == 4 && s.reports.step4 ==> IntendedPressed(s, StepNext, isEmail).step == 5
    ensures s.step == 4 && !s.reports.step4 ==> IntendedPressed(s, StepNext, isEmail) == s
    ensures s.step == 5 && s.reports.step5 && !s.isSubmitting && SignupAllAccepts(s.values, isEmail) ==>
      IntendedPressed(s, Register, isEmail).values == DefaultValues
  {
    if s.step == 5 {
      ForwardGates(s.step, Step0Valid(s.values), s.reports, s.isPrefilling, s.isSubmitting);
    }
  }

  /** The wizard component's state cells. */
  class SignupWizard {
    const stepper: Stepper
    const form: Form
    var reports: Reports
    var isSubmitting: bool
    var isPrefilling: bool
    var isPrefilled: bool
    var prefilledFields: set<string>

    ghost predicate Valid()
      reads this, stepper
    {
      stepper.steps == WizardSteps && stepper.Valid() && !isSubmitting && !isPrefilling
    }

    function StateOf(): State
      reads this, stepper, form
    {
      State(stepper.activeStep, form.values, reports, isSubmitting, isPrefilling, isPrefilled, prefilledFields)
    }

    constructor ()
      ensures Valid() && fresh(stepper) && fresh(form)
      ensures StateOf() == State(InitialStep, DefaultValues, Reports(false, false, false, false, false), false, false, false, {})
    {
      stepper := new Stepper(InitialStep, WizardSteps);
      form := new Form();
      reports := Reports(false, false, false, false, false);
      isSubmitting := false;
      isPrefilling := false;
      isPrefilled := false;
      prefilledFields := {};
    }

    function CurrentFooter(isEmail: string -> bool): Footer
      reads this, stepper, form
    {
      FooterOf(stepper.activeStep, Step0Valid(form.values), reports, isPrefilling, isSubmitting)
    }

    /** A step form's `onValidityChange(valid)`. */
    method ReportValidity(step: nat, valid: bool)
      requires 1 <= step <= 5
      modifies this
      ensures reports == match step
        case 1 => old(reports).(step1 := valid)
        case 2 => old(reports).(step2 := valid)
        case 3 => old(reports).(step3 := valid)
        case 4 => old(reports).(step4 := valid)
        case _ => old(reports).(step5 := valid)
      ensures StepReported(reports, step) == valid
      ensures isSubmitting == old(isSubmitting) && isPrefilling == old(isPrefilling)
      ensures isPrefilled == old(isPrefilled) && prefilledFields == old(prefilledFields)
    {
      match step
      case 1 => reports := reports.(step1 := valid);
      case 2 => reports := reports.(step2 := valid);
      case 3 => reports := reports.(step3 := valid);
      case 4 => reports := reports.(step4 := valid);
      case _ => reports := reports.(step5 := valid);
    }

    /** `handlePrefill` (mock): no lookup, one step forward. */
    method HandlePrefill()
      requires Valid()
      modifies this, stepper
      ensures Valid()
      ensures StateOf() == Handle(old(StateOf()), PrefillNext, _ => true)
    {
      isPrefilling := true;
      stepper.NextStep();
      isPrefilling := false;
    }

    /** `handleSubmit` (mock), reached only with values the combined schema accepts. */
    method HandleSubmit()
      requires Valid()
      modifies this, stepper, form
      ensures Valid()
      ensures StateOf() == old(StateOf()).(step := 0, isPrefilled := false, prefilled := {}, values := DefaultValues)
    {
      isSubmitting := true;
      stepper.ResetSteps();
      isPrefilled := false;
      prefilledFields := {};
      form.Reset();
      isSubmitting := false;
    }

    /** Pressing a footer button. */
    method Press(kind: ControlKind, isEmail: string -> bool)
      requires Valid()
      modifies this, stepper, form
      ensures Valid()
      ensures StateOf() == Pressed(old(StateOf()), kind, isEmail)
    {
      var f := CurrentFooter(isEmail);
      if !Enabled(f, kind) {
        return;
      }
      match kind
      case Reset =>
        stepper.ResetSteps();
        isPrefilled := false;
        prefilledFields := {};
      case Previous =>
        stepper.PrevStep();
      case PrefillNext =>
        HandlePrefill();
      case StepNext =>
        if StepReported(reports, stepper.activeStep) {
          stepper.NextStep();
        }
      case Register =>
        if SignupAllAccepts(form.values, isEmail) {
          HandleSubmit();
        }
    }
  }
}
