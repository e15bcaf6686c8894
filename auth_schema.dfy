/** The sign-in and sign-up validation schemas, as predicates over the form's
    values. Each schema gives some keys a field rule; a schema accepts a record
    when every key it names holds a value its rule accepts (keys it does not name
    are ignored). The account schema adds three equality refinements, and the
    combined schema spreads the field rules of the six sign-up schemas in order.
    The e-mail format check is the parameter `isEmail`. */
module AuthSchema {
  import opened Wrappers
  import opened Text
  import opened FormValues
  import OptionTables

  // ------------------------------------------------------------ field rules

  /** The rules the schemas put on single fields. */
  datatype Rule =
    | TrimmedDigits(count: nat)          // string().trim().regex(/^\d{count}$/)
    | Length(min: nat, max: Option<nat>) // string().min(min).max(max)
    | OptionalText                       // string().optional()
    | EmailText                          // string().email(), email()
    | StrongText                         // string().regex(StrongPassword)
    | OptionalRange(lo: int, hi: int)    // number().min(lo).max(hi).optional()
    | OneOf(choices: seq<string>)        // enum(choices)
    | EmptyOrMin(min: nat)               // union([literal(""), string().min(min)])
    | FileInstance                       // instanceof(File)

  /** Whether `rule` accepts the field value `f`. Lengths are JavaScript lengths. */
  predicate Accepts(rule: Rule, f: Field, isEmail: string -> bool)
  {
    match rule
    case TrimmedDigits(n) => f.Str? && |Trim(f.s)| == n && AllDigits(Trim(f.s))
    case Length(lo, hi) => f.Str? && lo <= Utf16Length(f.s) && (hi.Some? ==> Utf16Length(f.s) <= hi.value)
    case OptionalText => f.Undefined? || f.Str?
    case EmailText => f.Str? && isEmail(f.s)
    case StrongText => f.Str? && StrongPattern(f.s)
    case OptionalRange(lo, hi) => f.Undefined? || (f.Num? && lo as real <= f.x <= hi as real)
    case OneOf(choices) => f.Str? && f.s in choices
    case EmptyOrMin(n) => f.Str? && (f.s == "" || n <= Utf16Length(f.s))
    case FileInstance => f.FileObj?
  }

  // ------------------------------------------------------- strong password

  /** The character classes the password pattern looks ahead for. */
  datatype CharClass = Lowercase | Uppercase | Digit | NeitherLetterNorNumber

  predicate InClass(c: char, k: CharClass)
  {
    match k
    case Lowercase => IsLowerLetter(c)
    case Uppercase => IsUpperLetter(c)
    case Digit => IsDigit(c)
    case NeitherLetterNorNumber => !IsLetter(c) && !IsNumber(c)
  }

  /** `(?=.*X)` at the start of `s`: some character of class `k` comes after a
      run of characters `.` matches. */
  predicate LooksAhead(s: string, k: CharClass)
  {
    exists j :: 0 <= j < |s| && InClass(s[j], k) && NoLineTerminator(s, j)
  }

  /** No line terminator among the first `j` characters. */
  predicate NoLineTerminator(s: string, j: nat)
    requires j <= |s|
  {
    forall i :: 0 <= i < j ==> !IsLineTerminator(s[i])
  }

  /** `/^(?=.*\p{Ll})(?=.*\p{Lu})(?=.*\d)(?=.*[^\p{L}\p{N}]).{8,}$/u`. */
  predicate StrongPattern(s: string)
  {
    LooksAhead(s, Lowercase) && LooksAhead(s, Uppercase) && LooksAhead(s, Digit) &&
    LooksAhead(s, NeitherLetterNorNumber) && |s| >= 8 && NoLineTerminator(s, |s|)
  }

  /** The rule as written next to it: at least 8 characters, an uppercase
      letter, a lowercase letter, a digit and a symbol, where "symbol" is any
      character that is neither a letter nor a number (a space counts) and no
      character may be a line terminator. */
  predicate StrongPassword(s: string)
  {
    |s| >= 8 && (forall i :: 0 <= i < |s| ==> !IsLineTerminator(s[i])) &&
    (exists i :: 0 <= i < |s| && IsLowerLetter(s[i])) &&
    (exists i :: 0 <= i < |s| && IsUpperLetter(s[i])) &&
    (exists i :: 0 <= i < |s| && IsDigit(s[i])) &&
    (exists i :: 0 <= i < |s| && !IsLetter(s[i]) && !IsNumber(s[i]))
  }

  /** Once the whole string is free of line terminators, a look-ahead finds a
      class exactly when some character belongs to it. */
  lemma LooksAheadAnywhere(s: string, k: CharClass)
    requires NoLineTerminator(s, |s|)
    ensures LooksAhead(s, k) <==> exists j :: 0 <= j < |s| && InClass(s[j], k)
  {
    if j :| 0 <= j < |s| && InClass(s[j], k) {
      assert NoLineTerminator(s, j);
    }
  }

  /** The pattern means exactly the stated rule. */
  lemma StrongPatternMeans(s: string)
    ensures StrongPattern(s) <==> StrongPassword(s)
  {
    if NoLineTerminator(s, |s|) {
      LooksAheadAnywhere(s, Lowercase);
      LooksAheadAnywhere(s, Uppercase);
      LooksAheadAnywhere(s, Digit);
      LooksAheadAnywhere(s, NeitherLetterNorNumber);
    }
  }

  /** A strong password is always long enough for the confirmation's `min(8)`. */
  lemma StrongIsLongEnough(s: string)
    requires StrongPattern(s)
    ensures Accepts(Length(8, None), Str(s), _ => true)
  {
  }

  /** Sample passwords: one of each class passes, ... */
  lemma StrongSample()
    ensures StrongPattern("Abcdef1!")
  {
    var p := "Abcdef1!";
    assert InClass(p[1], Lowercase) && NoLineTerminator(p, 1);
    assert InClass(p[0], Uppercase) && NoLineTerminator(p, 0);
    assert InClass(p[6], Digit) && NoLineTerminator(p, 6);
    assert InClass(p[7], NeitherLetterNorNumber) && NoLineTerminator(p, 7);
  }

  /** ... and accented capitals count as uppercase and a space as a symbol. */
  lemma StrongAccentedSample()
    ensures StrongPattern("\U{00D1}and\U{00FA} 2024")
  {
    var n := "\U{00D1}and\U{00FA} 2024";
    assert NoLineTerminator(n, |n|) by {
      forall i | 0 <= i < |n| ensures !IsLineTerminator(n[i]) {
        assert n[i] in "\U{00D1}and\U{00FA} 2024";
      }
    }
    FoundAt(n, 1, Lowercase);
    FoundAt(n, 0, Uppercase);
    FoundAt(n, 6, Digit);
    FoundAt(n, 5, NeitherLetterNorNumber);
  }

  /** A character of class `k` with no line terminator anywhere is found. */
  lemma FoundAt(s: string, j: nat, k: CharClass)
    requires j < |s| && InClass(s[j], k) && NoLineTerminator(s, |s|)
    ensures LooksAhead(s, k)
  {
    assert NoLineTerminator(s, j);
  }

  /** A password without an uppercase letter, or without a symbol, fails. */
  lemma WeakSamples()
    ensures !StrongPattern("abcdef1!")
    ensures !StrongPattern("Abcdefg1")
  {
    var p := "abcdef1!";
    assert forall j :: 0 <= j < |p| ==> !InClass(p[j], Uppercase);
    var q := "Abcdefg1";
    assert forall j :: 0 <= j < |q| ==> !InClass(q[j], NeitherLetterNorNumber);
  }

  // ---------------------------------------------------------------- schemas

  /** The schemas of the sign-in and sign-up forms. */
  datatype Schema =
    | Signin           // SigninSchema
    | SigninInternal   // SigninInternalSchema
    | PreFill          // SignupPreFillSchema
    | Complete         // SignupCompleteSchema (its field shape)
    | Demographic      // SignupDemographicSchema
    | Institution      // SignupInstitutionSchema
    | Professional     // SignupProfessionalInfoSchema
    | Files            // SignupFilesFormSchema

  /** The six sign-up schemas in the order the combined schema spreads them. */
  const SignupParts: seq<Schema> := [PreFill, Complete, Demographic, Institution, Professional, Files]

  /** The values `etnia` may take. */
  const EtniaChoices: seq<string> := ["MAYA", "XINCA", "GARIFUNA", "LADINOS", "EXTRANJERO", "OTRA"]

  /** The rule schema `s` gives key `k`, if any. */
  function Shape(s: Schema, k: Key): Option<Rule>
  {
    match s
    case Signin =>
      (match k
       case Dpi => Some(TrimmedDigits(13))
       case Password => Some(Length(6, None))
       case _ => None)
    case SigninInternal =>
      (match k
       case Email => Some(EmailText)
       case Password => Some(Length(8, None))
       case _ => None)
    case PreFill =>
      (match k
       case Dpi => Some(TrimmedDigits(13))
       case _ => None)
    case Complete =>
      (match k
       case Dpi => Some(Length(13, Some(13)))
       case CorreoPersonal => Some(EmailText)
       case ConfirmCorreoPersonal => Some(EmailText)
       case CorreoInstitucional => Some(EmailText)
       case ConfirmCorreoInstitucional => Some(EmailText)
       case PrimerNombre => Some(Length(2, None))
       case SegundoNombre => Some(OptionalText)
       case PrimerApellido => Some(Length(2, None))
       case SegundoApellido => Some(Length(2, None))
       case Password => Some(StrongText)
       case ConfirmPassword => Some(Length(8, None))
       case Pais => Some(Length(2, None))
       case Ciudad => Some(Length(2, None))
       case _ => None)
    case Demographic =>
      (match k
       case Cui => Some(Length(13, Some(13)))
       case Nit => Some(Length(8, Some(9)))
       case Sexo => Some(Length(2, None))
       case FechaNacimiento => Some(OptionalText)
       case Edad => Some(OptionalRange(18, 100))
       case DepartamentoResidencia => Some(Length(2, None))
       case MunicipioResidencia => Some(Length(2, None))
       case Etnia => Some(OneOf(EtniaChoices))
       case Telefono => Some(Length(8, None))
       case _ => None)
    case Institution =>
      (match k
       case Entidad => Some(Length(2, None))
       case Institucion => Some(Length(2, None))
       case Dependencia => Some(OptionalText)
       case Renglon => Some(Length(2, None))
       case _ => None)
    case Professional =>
      (match k
       case Profesion => Some(EmptyOrMin(2))
       case Puesto => Some(EmptyOrMin(2))
       case Sector => Some(EmptyOrMin(2))
       case Colegio => Some(Length(2, None))
       case NumeroColegiado => Some(Length(1, None))
       case _ => None)
    case Files =>
      (match k
       case PdfDpi => Some(FileInstance)
       case PdfContrato => Some(FileInstance)
       case PdfCertificadoProfesional => Some(FileInstance)
       case _ => None)
  }

  /** A later key overrides an earlier one, as in `{ ...a, ...b }`. */
  function Over(earlier: Option<Rule>, later: Option<Rule>): (r: Option<Rule>)
    ensures later.Some? ==> r == later
    ensures later.None? ==> r == earlier
  {
    if later.Some? then later else earlier
  }

  /** The rule for `k` in `{ ...parts[0].shape, ..., ...parts[n-1].shape }`. */
  function Spread(parts: seq<Schema>, k: Key): Option<Rule>
  {
    if parts == [] then None else Over(Spread(parts[..|parts| - 1], k), Shape(parts[|parts| - 1], k))
  }

  /** The value `f` under key `k` passes the rule the spread schemas give
      `k`, if they give it one. */
  predicate FieldConforms(parts: seq<Schema>, k: Key, f: Field, isEmail: string -> bool)
  {
    Spread(parts, k).Some? ==> Accepts(Spread(parts, k).value, f, isEmail)
  }

  /** Every key named by the spread schemas holds a value its rule accepts. */
  predicate FieldsConform(parts: seq<Schema>, v: Values, isEmail: string -> bool)
  {
    forall k :: FieldConforms(parts, k, Get(v, k), isEmail)
  }

  /** The refinements of the account schema. */
  predicate ConfirmationsMatch(v: Values)
  {
    Get(v, CorreoPersonal) == Get(v, ConfirmCorreoPersonal) &&
    Get(v, CorreoInstitucional) == Get(v, ConfirmCorreoInstitucional) &&
    Get(v, Password) == Get(v, ConfirmPassword)
  }

  /** `s.safeParse(v).success`. */
  predicate SchemaAccepts(s: Schema, v: Values, isEmail: string -> bool)
  {
    FieldsConform([s], v, isEmail) && (s == Complete ==> ConfirmationsMatch(v))
  }

  /** `SignupAllSchema.safeParse(v).success`. */
  predicate SignupAllAccepts(v: Values, isEmail: string -> bool)
  {
    FieldsConform(SignupParts, v, isEmail)
  }

  // ------------------------------------------------------- spread semantics

  /** The spread takes a key's rule from the last part that names it, and
      names exactly the keys some part names. */
  lemma {:induction false} SpreadLast(parts: seq<Schema>, k: Key, j: nat)
    requires j < |parts| && Shape(parts[j], k).Some?
    requires forall i :: j < i < |parts| ==> Shape(parts[i], k).None?
    ensures Spread(parts, k) == Shape(parts[j], k)
    decreases |parts|
  {
    if j < |parts| - 1 {
      SpreadLast(parts[..|parts| - 1], k, j);
    }
  }

  lemma {:induction false} SpreadNone(parts: seq<Schema>, k: Key)
    requires forall i :: 0 <= i < |parts| ==> Shape(parts[i], k).None?
    ensures Spread(parts, k).None?
    decreases |parts|
  {
    if parts != [] {
      SpreadNone(parts[..|parts| - 1], k);
    }
  }

  /** A single schema's spread is its own shape. */
  lemma SpreadOne(s: Schema, k: Key)
    ensures Spread([s], k) == Shape(s, k)
  {
    assert [s][..0] == [];
  }

  lemma SpreadSingles()
    ensures forall s, k :: Spread([s], k) == Shape(s, k)
  {
    forall s, k ensures Spread([s], k) == Shape(s, k) {
      SpreadOne(s, k);
    }
  }

  /** The rule the combined schema gives each key. */
  lemma SignupAllRule(k: Key)
    ensures Spread(SignupParts, k) ==
      Over(Over(Over(Over(Over(Shape(PreFill, k), Shape(Complete, k)), Shape(Demographic, k)),
        Shape(Institution, k)), Shape(Professional, k)), Shape(Files, k))
  {
    var p := SignupParts;
    SpreadOne(PreFill, k);
    assert p[..1] == [PreFill];
    assert p[..2][..1] == p[..1];
    assert Spread(p[..2], k) == Over(Shape(PreFill, k), Shape(Complete, k));
    assert p[..3][..2] == p[..2];
    assert Spread(p[..3], k) == Over(Spread(p[..2], k), Shape(Demographic, k));
    assert p[..4][..3] == p[..3];
    assert Spread(p[..4], k) == Over(Spread(p[..3], k), Shape(Institution, k));
    assert p[..5][..4] == p[..4];
    assert Spread(p[..5], k) == Over(Spread(p[..4], k), Shape(Professional, k));
    assert p[..5] == p[..|p| - 1];
  }

  lemma SignupAllRules()
    ensures forall k :: (Spread(SignupParts, k) ==
      Over(Over(Over(Over(Over(Shape(PreFill, k), Shape(Complete, k)), Shape(Demographic, k)),
        Shape(Institution, k)), Shape(Professional, k)), Shape(Files, k)))
  {
    forall k ensures Spread(SignupParts, k) ==
      Over(Over(Over(Over(Over(Shape(PreFill, k), Shape(Complete, k)), Shape(Demographic, k)),
        Shape(Institution, k)), Shape(Professional, k)), Shape(Files, k)) {
      SignupAllRule(k);
    }
  }

  /** In the combined schema `dpi` carries the account schema's length-13
      rule, not the pre-fill schema's trimmed 13-digit rule. */
  lemma SignupAllDpi()
    ensures Spread(SignupParts, Dpi) == Some(Length(13, Some(13)))
    ensures Spread(SignupParts, Dpi) != Shape(PreFill, Dpi)
  {
    SignupAllRule(Dpi);
  }

  /** The combined schema accepts exactly the records every sign-up field
      shape accepts after the pre-fill `dpi` rule is overridden; the
      refinements of the account schema are not part of it. */
  lemma SignupAllIsShapes(v: Values, isEmail: string -> bool)
    ensures SignupAllAccepts(v, isEmail) <==>
      FieldsConform([Complete], v, isEmail) && FieldsConform([Demographic], v, isEmail) &&
      FieldsConform([Institution], v, isEmail) && FieldsConform([Professional], v, isEmail) &&
      FieldsConform([Files], v, isEmail)
  {
    SignupAllRules();
    SpreadSingles();
  }

  // ------------------------------------------------------ schema properties

  /** Pre-fill and sign-in `dpi`: after trimming, exactly 13 ASCII digits. */
  lemma PreFillAccepts(v: Values, isEmail: string -> bool)
    ensures SchemaAccepts(PreFill, v, isEmail) <==>
      Get(v, Dpi).Str? && |Trim(Get(v, Dpi).s)| == 13 && AllDigits(Trim(Get(v, Dpi).s))
  {
    SpreadSingles();
  }

  /** The pre-fill `dpi` rule trims surrounding whitespace before it counts
      digits. */
  lemma DpiRuleTrims(w1: string, d: string, w2: string, isEmail: string -> bool)
    requires forall i :: 0 <= i < |w1| ==> IsSpace(w1[i])
    requires forall i :: 0 <= i < |w2| ==> IsSpace(w2[i])
    ensures Accepts(TrimmedDigits(13), Str(w1 + d + w2), isEmail) <== |d| == 13 && AllDigits(d)
  {
    if |d| == 13 && AllDigits(d) {
      TrimPadded(w1, d, w2);
    }
  }

  /** A string without surrounding whitespace passes the `dpi` rule only if it
      is 13 ASCII digits. */
  lemma DpiRuleRejects(d: string, isEmail: string -> bool)
    requires Trimmed(d)
    ensures Accepts(TrimmedDigits(13), Str(d), isEmail) <==> |d| == 13 && AllDigits(d)
  {
    TrimOfTrimmed(d);
  }

  /** The sign-in schema checks `dpi` as the pre-fill schema does and adds a
      password of at least 6 characters. */
  lemma SigninImpliesPreFill(v: Values, isEmail: string -> bool)
    ensures SchemaAccepts(Signin, v, isEmail) <==>
      SchemaAccepts(PreFill, v, isEmail) && Get(v, Password).Str? && Utf16Length(Get(v, Password).s) >= 6
  {
    SpreadSingles();
  }

  /** The account schema fails unless each e-mail and the password equal their
      confirmations, and with its fields valid, equal pairs are all it needs. */
  lemma CompleteNeedsConfirmations(v: Values, isEmail: string -> bool)
    ensures SchemaAccepts(Complete, v, isEmail) <==> FieldsConform([Complete], v, isEmail) && ConfirmationsMatch(v)
    ensures Get(v, Password) != Get(v, ConfirmPassword) ==> !SchemaAccepts(Complete, v, isEmail)
    ensures Get(v, CorreoPersonal) != Get(v, ConfirmCorreoPersonal) ==> !SchemaAccepts(Complete, v, isEmail)
    ensures Get(v, CorreoInstitucional) != Get(v, ConfirmCorreoInstitucional) ==> !SchemaAccepts(Complete, v, isEmail)
  {
  }

  /** A key's rule in the single schema `s`. */
  lemma RuleHolds(s: Schema, v: Values, isEmail: string -> bool, k: Key, r: Rule)
    requires FieldsConform([s], v, isEmail) && Shape(s, k) == Some(r)
    ensures Accepts(r, Get(v, k), isEmail)
  {
    SpreadOne(s, k);
  }

  /** The bounds of the account schema: names of at least 2 characters, ... */
  lemma CompleteNameBounds(v: Values, isEmail: string -> bool)
    requires SchemaAccepts(Complete, v, isEmail)
    ensures Get(v, PrimerNombre).Str? && Utf16Length(Get(v, PrimerNombre).s) >= 2
    ensures Get(v, PrimerApellido).Str? && Utf16Length(Get(v, PrimerApellido).s) >= 2
    ensures Get(v, SegundoApellido).Str? && Utf16Length(Get(v, SegundoApellido).s) >= 2
  {
    CompleteNameBound(v, isEmail, PrimerNombre);
    CompleteNameBound(v, isEmail, PrimerApellido);
    CompleteNameBound(v, isEmail, SegundoApellido);
  }

  lemma CompleteNameBound(v: Values, isEmail: string -> bool, k: Key)
    requires SchemaAccepts(Complete, v, isEmail)
    requires k == PrimerNombre || k == PrimerApellido || k == SegundoApellido
    ensures Get(v, k).Str? && Utf16Length(Get(v, k).s) >= 2
  {
    assert Shape(Complete, k) == Some(Length(2, None));
    LengthRuleHolds(Complete, v, isEmail, k, 2, None);
  }

  /** A length rule of the single schema `s`, spelled out. */
  lemma LengthRuleHolds(s: Schema, v: Values, isEmail: string -> bool, k: Key, lo: nat, hi: Option<nat>)
    requires FieldsConform([s], v, isEmail) && Shape(s, k) == Some(Length(lo, hi))
    ensures Get(v, k).Str? && lo <= Utf16Length(Get(v, k).s)
    ensures hi.Some? ==> Utf16Length(Get(v, k).s) <= hi.value
  {
    RuleHolds(s, v, isEmail, k, Length(lo, hi));
  }

  /** ... a `dpi` of exactly 13 and a strong password, ... */
  lemma CompleteAccountBounds(v: Values, isEmail: string -> bool)
    requires SchemaAccepts(Complete, v, isEmail)
    ensures Get(v, Dpi).Str? && Utf16Length(Get(v, Dpi).s) == 13
    ensures Get(v, Password).Str? && StrongPassword(Get(v, Password).s)
  {
    RuleHolds(Complete, v, isEmail, Dpi, Length(13, Some(13)));
    RuleHolds(Complete, v, isEmail, Password, StrongText);
    StrongPatternMeans(Get(v, Password).s);
  }

  /** ... a confirmation of at least 8 and well-formed e-mails. */
  lemma CompleteContactBounds(v: Values, isEmail: string -> bool)
    requires SchemaAccepts(Complete, v, isEmail)
    ensures Get(v, ConfirmPassword).Str? && Utf16Length(Get(v, ConfirmPassword).s) >= 8
    ensures Get(v, CorreoPersonal).Str? && isEmail(Get(v, CorreoPersonal).s)
    ensures Get(v, CorreoInstitucional).Str? && isEmail(Get(v, CorreoInstitucional).s)
  {
    CompleteConfirmation(v, isEmail);
    CompleteEmail(v, isEmail, CorreoPersonal);
    CompleteEmail(v, isEmail, CorreoInstitucional);
  }

  lemma CompleteConfirmation(v: Values, isEmail: string -> bool)
    requires SchemaAccepts(Complete, v, isEmail)
    ensures Get(v, ConfirmPassword).Str? && Utf16Length(Get(v, ConfirmPassword).s) >= 8
  {
    assert Shape(Complete, ConfirmPassword) == Some(Length(8, None));
    LengthRuleHolds(Complete, v, isEmail, ConfirmPassword, 8, None);
  }

  lemma CompleteEmail(v: Values, isEmail: string -> bool, k: Key)
    requires SchemaAccepts(Complete, v, isEmail)
    requires k == CorreoPersonal || k == CorreoInstitucional
    ensures Get(v, k).Str? && isEmail(Get(v, k).s)
  {
    assert Shape(Complete, k) == Some(EmailText);
    RuleHolds(Complete, v, isEmail, k, EmailText);
  }

  /** The bounds of the demographics schema: identifiers and phone, ... */
  lemma DemographicNumberBounds(v: Values, isEmail: string -> bool)
    requires SchemaAccepts(Demographic, v, isEmail)
    ensures Get(v, Cui).Str? && Utf16Length(Get(v, Cui).s) == 13
    ensures Get(v, Nit).Str? && 8 <= Utf16Length(Get(v, Nit).s) <= 9
    ensures Get(v, Telefono).Str? && Utf16Length(Get(v, Telefono).s) >= 8
  {
    LengthRuleHolds(Demographic, v, isEmail, Cui, 13, Some(13));
    LengthRuleHolds(Demographic, v, isEmail, Nit, 8, Some(9));
    LengthRuleHolds(Demographic, v, isEmail, Telefono, 8, None);
  }

  /** ... and an optional age in range and an ethnicity from the enum. */
  lemma DemographicChoiceBounds(v: Values, isEmail: string -> bool)
    requires SchemaAccepts(Demographic, v, isEmail)
    ensures Get(v, Edad).Undefined? || (Get(v, Edad).Num? && 18.0 <= Get(v, Edad).x <= 100.0)
    ensures Get(v, Etnia).Str? && Get(v, Etnia).s in EtniaChoices
  {
    RuleHolds(Demographic, v, isEmail, Edad, OptionalRange(18, 100));
    RuleHolds(Demographic, v, isEmail, Etnia, OneOf(EtniaChoices));
  }

  /** `edad` may be absent; a present age must lie in [18, 100]. */
  lemma EdadRule(x: Field, isEmail: string -> bool)
    ensures Accepts(Shape(Demographic, Edad).value, x, isEmail) <==>
      x.Undefined? || (x.Num? && 18.0 <= x.x <= 100.0)
  {
    assert Shape(Demographic, Edad) == Some(OptionalRange(18, 100));
  }

  /** The union of `""` and `min(2)` rejects exactly the strings of length 1. */
  lemma EmptyOrMinRejectsOne(s: string, isEmail: string -> bool)
    ensures Accepts(EmptyOrMin(2), Str(s), isEmail) <==> Utf16Length(s) != 1
  {
    if Utf16Length(s) == 0 {
      assert s == "";
    }
  }

  /** The spread schemas judge each key on its own: a record that agrees
      with a conforming one away from `k`, and whose value under `k` passes
      `k`'s rule, conforms too. */
  lemma ConformsOffKey(parts: seq<Schema>, v: Values, w: Values, k: Key, isEmail: string -> bool)
    requires FieldsConform(parts, v, isEmail) && FieldConforms(parts, k, Get(w, k), isEmail)
    requires forall j :: j != k ==> Get(w, j) == Get(v, j)
    ensures FieldsConform(parts, w, isEmail)
  {
    forall j ensures FieldConforms(parts, j, Get(w, j), isEmail) {
      if j != k {
        assert FieldConforms(parts, j, Get(v, j), isEmail);
      }
    }
  }

  /** Two records that differ at most in an optional-text `dependencia`
      fare alike under the institution schema, ... */
  lemma InstitutionOffDependencia(v: Values, w: Values, isEmail: string -> bool)
    requires Get(w, Dependencia).Undefined? || Get(w, Dependencia).Str?
    requires forall j :: j != Dependencia ==> Get(w, j) == Get(v, j)
    requires FieldsConform([Institution], v, isEmail)
    ensures FieldsConform([Institution], w, isEmail)
  {
    assert Spread([Institution], Dependencia) == Some(OptionalText) by { SpreadOne(Institution, Dependencia); }
    assert FieldConforms([Institution], Dependencia, Get(w, Dependencia), isEmail);
    ConformsOffKey([Institution], v, w, Dependencia, isEmail);
  }

  /** ... so the institution step's validity never depends on it, ... */
  lemma DependenciaIrrelevant(v: Values, x: Field, isEmail: string -> bool)
    requires x.Undefined? || x.Str?
    requires Get(v, Dependencia).Undefined? || Get(v, Dependencia).Str?
    ensures SchemaAccepts(Institution, Set(v, Dependencia, x), isEmail) <==> SchemaAccepts(Institution, v, isEmail)
  {
    var w := Set(v, Dependencia, x);
    if FieldsConform([Institution], v, isEmail) {
      InstitutionOffDependencia(v, w, isEmail);
    }
    if FieldsConform([Institution], w, isEmail) {
      InstitutionOffDependencia(w, v, isEmail);
    }
  }

  /** ... and likewise for the account schema and `segundoNombre`, ... */
  lemma CompleteOffSegundoNombre(v: Values, w: Values, isEmail: string -> bool)
    requires Get(w, SegundoNombre).Undefined? || Get(w, SegundoNombre).Str?
    requires forall j :: j != SegundoNombre ==> Get(w, j) == Get(v, j)
    requires FieldsConform([Complete], v, isEmail)
    ensures FieldsConform([Complete], w, isEmail)
  {
    assert Spread([Complete], SegundoNombre) == Some(OptionalText) by { SpreadOne(Complete, SegundoNombre); }
    assert FieldConforms([Complete], SegundoNombre, Get(w, SegundoNombre), isEmail);
    ConformsOffKey([Complete], v, w, SegundoNombre, isEmail);
  }

  /** ... so the account step's validity never depends on `segundoNombre`. */
  lemma SegundoNombreIrrelevant(v: Values, x: Field, isEmail: string -> bool)
    requires x.Undefined? || x.Str?
    requires Get(v, SegundoNombre).Undefined? || Get(v, SegundoNombre).Str?
    ensures SchemaAccepts(Complete, Set(v, SegundoNombre, x), isEmail) <==> SchemaAccepts(Complete, v, isEmail)
  {
    var w := Set(v, SegundoNombre, x);
    if FieldsConform([Complete], v, isEmail) {
      CompleteOffSegundoNombre(v, w, isEmail);
    }
    if FieldsConform([Complete], w, isEmail) {
      CompleteOffSegundoNombre(w, v, isEmail);
    }
    assert ConfirmationsMatch(w) == ConfirmationsMatch(v);
  }

  /** The `etnia` enum is exactly the value column of the ethnicity table. */
  lemma EtniaChoicesMatchTable()
    ensures |EtniaChoices| == |OptionTables.EtniaOptions|
    ensures forall i :: 0 <= i < |EtniaChoices| ==>
      EtniaChoices[i] == OptionTables.EtniaCode(OptionTables.EtniaOptions[i].value)
  {
  }

  /** The default values pass neither the pre-fill schema nor the combined one. */
  lemma DefaultsRejected(isEmail: string -> bool)
    ensures !SchemaAccepts(PreFill, DefaultValues, isEmail)
    ensures !SignupAllAccepts(DefaultValues, isEmail)
  {
    PreFillAccepts(DefaultValues, isEmail);
    SignupAllRule(Dpi);
  }

  /** The combined schema checks each key on its own: replacing one value by
      another its rule accepts keeps a record valid. */
  lemma SignupAllPerKey(v: Values, k: Key, x: Field, isEmail: string -> bool)
    requires SignupAllAccepts(v, isEmail)
    requires Spread(SignupParts, k).Some? ==> Accepts(Spread(SignupParts, k).value, x, isEmail)
    ensures SignupAllAccepts(Set(v, k, x), isEmail)
  {
    var w := Set(v, k, x);
    forall j ensures FieldConforms(SignupParts, j, Get(w, j), isEmail) {
      if j != k {
        assert Get(w, j) == Get(v, j);
      }
    }
  }

  /** So the combined schema keeps neither the password refinement nor the
      digit rule: a valid record stays valid with any confirmation of at least
      8 characters, even one that differs from its password, ... */
  lemma SignupAllSkipsConfirmation(v: Values, c: string, isEmail: string -> bool)
    requires SignupAllAccepts(v, isEmail)
    requires Utf16Length(c) >= 8
    ensures SignupAllAccepts(Set(v, ConfirmPassword, Str(c)), isEmail)
  {
    SignupAllRule(ConfirmPassword);
    assert Spread(SignupParts, ConfirmPassword) == Some(Length(8, None));
    assert Accepts(Length(8, None), Str(c), isEmail);
    SignupAllPerKey(v, ConfirmPassword, Str(c), isEmail);
  }

  /** ... and with any 13 characters as `dpi`, digits or not. */
  lemma SignupAllSkipsDigits(v: Values, d: string, isEmail: string -> bool)
    requires SignupAllAccepts(v, isEmail)
    requires Utf16Length(d) == 13
    ensures SignupAllAccepts(Set(v, Dpi, Str(d)), isEmail)
  {
    SignupAllDpi();
    assert Accepts(Length(13, Some(13)), Str(d), isEmail);
    SignupAllPerKey(v, Dpi, Str(d), isEmail);
  }
}
