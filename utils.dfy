/** The helpers of `src/lib/utils.ts`: the `norm` normalisation, the keyword
    cascade of `mapColegioApiToValue`, `fullName` and `maskDPI`. */
module Utils {
  import opened Wrappers
  import opened Text
  import opened Normalization
  import opened OptionTables

  // ------------------------------------------------------------------ norm

  /** `norm`: absent becomes empty; decomposed, diacritics dropped,
      whitespace runs collapsed, trimmed, upper-cased. */
  function Norm(input: Option<string>): string
  {
    Upper(Canon(input.GetOr("")))
  }

  lemma UpperTwice(t: string)
    ensures Upper(Upper(t)) == Upper(t)
  {
    forall i | 0 <= i < |t| ensures Upper(Upper(t))[i] == Upper(t)[i] {
      CaseFacts(t[i]);
    }
  }

  lemma UpperOfLower(t: string)
    ensures Upper(Lower(t)) == Upper(t)
  {
    forall i | 0 <= i < |t| ensures Upper(Lower(t))[i] == Upper(t)[i] {
      CaseFacts(t[i]);
    }
  }

  /** What `norm` gives back is canonical and already upper case. */
  lemma NormIsNormal(input: Option<string>)
    ensures Canonical(Norm(input)) && Upper(Norm(input)) == Norm(input)
  {
    var t := Canon(input.GetOr(""));
    CanonIsCanonical(input.GetOr(""));
    UpperIsCaseLike();
    MapKeepsCanonical(ToUpper, t);
    UpperTwice(t);
  }

  /** Normalising twice is normalising once. */
  lemma NormIdempotent(input: Option<string>)
    ensures Norm(Some(Norm(input))) == Norm(input)
  {
    var t := Canon(input.GetOr(""));
    CanonIsCanonical(input.GetOr(""));
    UpperIsCaseLike();
    MapCanon(ToUpper, t);
    CanonOfCanonical(t);
    UpperTwice(t);
  }

  /** Inputs that differ only in letter case normalise alike. */
  lemma NormIgnoresCase(s: string)
    ensures Norm(Some(Lower(s))) == Norm(Some(s))
    ensures Norm(Some(Upper(s))) == Norm(Some(s))
  {
    LowerIsCaseLike();
    MapCanon(ToLower, s);
    UpperOfLower(Canon(s));
    UpperIsCaseLike();
    MapCanon(ToUpper, s);
    UpperTwice(Canon(s));
  }

  /** A whitespace run of any length and kind normalises like one space. */
  lemma NormIgnoresSpaceRuns(a: string, w: string, b: string)
    requires |w| > 0 && forall i :: 0 <= i < |w| ==> IsSpace(w[i])
    ensures Norm(Some(a + w + b)) == Norm(Some(a + " " + b))
  {
    CanonSpaceRun(a, w, b);
  }

  /** A diacritic anywhere is ignored. */
  lemma NormIgnoresDiacritic(a: string, m: char, b: string)
    requires IsDiacritic(m)
    ensures Norm(Some(a + [m] + b)) == Norm(Some(a + b))
  {
    CanonDropsDiacritic(a, m, b);
  }

  /** A combining mark without the Diacritic property is kept: the combining
      Latin small letter a (U+0363) survives `norm`. */
  lemma NormKeepsCombiningLetter()
    ensures Norm(Some("A\U{0363}")) == "A\U{0363}"
  {
    NormOfPlainPair('\U{0363}');
    assert ['A', '\U{0363}'] == "A\U{0363}";
  }

  /** So does the combining grapheme joiner (U+034F). */
  lemma NormKeepsGraphemeJoiner()
    ensures Norm(Some("A\U{034F}")) == "A\U{034F}"
  {
    NormOfPlainPair('\U{034F}');
    assert ['A', '\U{034F}'] == "A\U{034F}";
  }

  /** "A" followed by a plain character that is not a space and that
      upper-casing leaves alone is its own normal form. */
  lemma NormOfPlainPair(m: char)
    requires Plain(m) && !IsSpace(m) && ToUpper(m) == m
    ensures Norm(Some(['A', m])) == ['A', m]
  {
    var t := ['A', m];
    assert Plain(t[0]);
    assert Canonical(t);
    CanonOfCanonical(t);
    assert Upper(t) == t by {
      assert Upper(t)[0] == t[0] && Upper(t)[1] == t[1];
    }
  }

  // ---------------------------------------------------- the keyword cascade

  /** `hasAny(s, ...words)`. */
  predicate HasAny(s: string, words: seq<string>)
  {
    exists w :: w in words && Contains(s, w)
  }

  /** `hasAll(s, ...words)`. */
  predicate HasAll(s: string, words: seq<string>)
  {
    forall w :: w in words ==> Contains(s, w)
  }

  /** The guard of one early return of `mapColegioApiToValue`. */
  datatype Test =
      Any(words: seq<string>)
    | All(words: seq<string>)
    | Or(left: Test, right: Test)
    | And(left: Test, right: Test)
    | Not(inner: Test)

  predicate Holds(t: Test, s: string)
  {
    match t
    case Any(ws) => HasAny(s, ws)
    case All(ws) => HasAll(s, ws)
    case Or(a, b) => Holds(a, s) || Holds(b, s)
    case And(a, b) => Holds(a, s) && Holds(b, s)
    case Not(a) => !Holds(a, s)
  }

  /** One early return: its guard and the college it returns. */
  datatype Rule = Rule(test: Test, colegio: Colegio)

  // The acronym shortcuts (utils.ts:29-55).
  const CceeAcronym := Rule(Any(["CCEE"]), Ccee)
  const CpaAcronym := Rule(Any(["CPA"]), Cpa)
  const CofaquiAcronym := Rule(Any(["COFAQUI"]), Cofaqui)
  const CigAcronym := Rule(And(Any(["CIG"]), Not(Any(["CIQ", "CIAG"]))), Cig)
  const CiagAcronym := Rule(Any(["CIAG"]), Ciag)
  const CiqAcronym := Rule(Any(["CIQ"]), Ciq)
  const CmvzAcronym := Rule(Any(["CMVZ"]), Cmvz)
  const ColmedAcronym := Rule(Any(["COLMED"]), Colmed)
  const CangAcronym := Rule(Any(["CANG"]), Cang)

  // The keyword rules (utils.ts:58-130).
  const EconomistsWords := Rule(
    Or(Or(Any(["ECONOMISTA", "ECONOMISTAS"]),
          And(All(["CONTADORES", "PUBLICOS"]), Any(["AUDITORES", "AUDITOR"]))),
       All(["ADMINISTRADORES", "EMPRESAS"])),
    Ccee)
  const AccountantsWords := Rule(Any(["CONTADOR PUBLICO", "CONTADORES PUBLICOS", "AUDITOR", "AUDITORES"]), Cpa)
  const PharmacistsWords := Rule(Any(["FARMACEUTICO", "FARMACEUTICOS", "QUIMICO", "QUIMICOS"]), Cofaqui)
  const AgronomistsWords := Rule(Or(All(["INGENIEROS", "AGRONOMOS"]), All(["INGENIERO", "AGRONOMO"])), Ciag)
  const ChemicalEngineersWords := Rule(Or(All(["INGENIEROS", "QUIMICOS"]), All(["INGENIERO", "QUIMICO"])), Ciq)
  const EngineersWords := Rule(Any(["INGENIERO", "INGENIEROS"]), Cig)
  const VeterinariansWords := Rule(Or(All(["MEDICOS", "VETERINARIOS"]), All(["ZOOTECNISTAS"])), Cmvz)
  const PhysiciansWords := Rule(Or(All(["MEDICOS", "CIRUJANOS"]), All(["MEDICO", "CIRUJANO"])), Colmed)
  const PsychologistsWords := Rule(Any(["PSICOLOGO", "PSICOLOGOS", "PSICOLOGIA"]), Psicologos)
  const DentistsWords := Rule(Any(["ESTOMATOLOGICO", "ESTOMATOLOGIA", "ODONTOLOGO", "ODONTOLOGOS", "ODONTOLOGIA"]), Estomatologico)
  const LawyersWords := Rule(Any(["ABOGADO", "ABOGADOS", "NOTARIO", "NOTARIOS"]), Cang)
  const NursesWords := Rule(Any(["ENFERMERIA", "ENFERMERA", "ENFERMERO"]), Enfermeria)
  const HumanitiesWords := Rule(Any(["HUMANIDADES", "HUMANISTA"]), Humanidades)

  /** What the nested guards say, spelled out. */
  lemma CigAcronymMeans(s: string)
    ensures Holds(CigAcronym.test, s) <==> Contains(s, "CIG") && !Contains(s, "CIQ") && !Contains(s, "CIAG")
  {
    assert Holds(CigAcronym.test, s) <==> Holds(Any(["CIG"]), s) && !Holds(Any(["CIQ", "CIAG"]), s);
  }

  lemma AuditorsClauseMeans(s: string)
    ensures Holds(And(All(["CONTADORES", "PUBLICOS"]), Any(["AUDITORES", "AUDITOR"])), s) <==>
      Contains(s, "CONTADORES") && Contains(s, "PUBLICOS") && (Contains(s, "AUDITORES") || Contains(s, "AUDITOR"))
  {
    assert HasAll(s, ["CONTADORES", "PUBLICOS"]) <==> Contains(s, "CONTADORES") && Contains(s, "PUBLICOS");
  }

  lemma EconomistsMeans(s: string)
    ensures Holds(EconomistsWords.test, s) <==>
      Contains(s, "ECONOMISTA") || Contains(s, "ECONOMISTAS") ||
      (Contains(s, "CONTADORES") && Contains(s, "PUBLICOS") && (Contains(s, "AUDITORES") || Contains(s, "AUDITOR"))) ||
      (Contains(s, "ADMINISTRADORES") && Contains(s, "EMPRESAS"))
  {
    AuditorsClauseMeans(s);
    var a := And(All(["CONTADORES", "PUBLICOS"]), Any(["AUDITORES", "AUDITOR"]));
    assert HasAll(s, ["ADMINISTRADORES", "EMPRESAS"]) <==> Contains(s, "ADMINISTRADORES") && Contains(s, "EMPRESAS");
    assert Holds(EconomistsWords.test, s) <==>
      Holds(Any(["ECONOMISTA", "ECONOMISTAS"]), s) || Holds(a, s) || Holds(All(["ADMINISTRADORES", "EMPRESAS"]), s);
  }

  lemma ChemicalEngineersMeans(s: string)
    ensures Holds(ChemicalEngineersWords.test, s) <==>
      (Contains(s, "INGENIEROS") && Contains(s, "QUIMICOS")) || (Contains(s, "INGENIERO") && Contains(s, "QUIMICO"))
  {
    assert Holds(ChemicalEngineersWords.test, s) <==>
      Holds(All(["INGENIEROS", "QUIMICOS"]), s) || Holds(All(["INGENIERO", "QUIMICO"]), s);
  }

  /** The early returns in the order the source tries them. */
  const WrittenRules: seq<Rule> := [
    CceeAcronym, CpaAcronym, CofaquiAcronym, CigAcronym, CiagAcronym, CiqAcronym,
    CmvzAcronym, ColmedAcronym, CangAcronym,
    EconomistsWords, AccountantsWords, PharmacistsWords, AgronomistsWords,
    ChemicalEngineersWords, EngineersWords, VeterinariansWords, PhysiciansWords,
    PsychologistsWords, DentistsWords, LawyersWords, NursesWords, HumanitiesWords]

  /** The same rules with the chemical engineers' keywords tried before the
      pharmacists' ones, which they are more specific than. */
  const IntendedRules: seq<Rule> := [
    CceeAcronym, CpaAcronym, CofaquiAcronym, CigAcronym, CiagAcronym, CiqAcronym,
    CmvzAcronym, ColmedAcronym, CangAcronym,
    EconomistsWords, AccountantsWords, ChemicalEngineersWords, PharmacistsWords,
    AgronomistsWords, EngineersWords, VeterinariansWords, PhysiciansWords,
    PsychologistsWords, DentistsWords, LawyersWords, NursesWords, HumanitiesWords]

  /** The position of the first rule whose guard holds. */
  function FirstMatch(rules: seq<Rule>, s: string): (r: Option<nat>)
    ensures r.Some? ==> r.value < |rules| && Holds(rules[r.value].test, s)
    ensures r.Some? ==> forall j :: 0 <= j < r.value ==> !Holds(rules[j].test, s)
    ensures r.None? <==> forall j :: 0 <= j < |rules| ==> !Holds(rules[j].test, s)
  {
    if rules == [] then None
    else if Holds(rules[0].test, s) then Some(0)
    else
      match FirstMatch(rules[1..], s)
      case None => None
      case Some(i) => Some(i + 1)
  }

  /** The cascade on an already normalised string: empty or "NO APLICA"
      first, then the first rule that holds, else nothing. */
  function Classify(rules: seq<Rule>, s: string): (r: Option<Colegio>)
    ensures s == "" || s == "NO APLICA" ==> r == Some(Colegio.NoAplica)
    ensures s != "" && s != "NO APLICA" ==> (r.None? <==> FirstMatch(rules, s).None?)
  {
    if s == "" || s == "NO APLICA" then Some(Colegio.NoAplica)
    else
      match FirstMatch(rules, s)
      case None => None
      case Some(i) => Some(rules[i].colegio)
  }

  lemma RulesSkipArquitectos()
    ensures forall i :: 0 <= i < |WrittenRules| ==> WrittenRules[i].colegio != Arquitectos
    ensures forall i :: 0 <= i < |IntendedRules| ==> IntendedRules[i].colegio != Arquitectos
  {
  }

  /** No input reaches the architects' college, under either rule order. */
  lemma NeverArquitectos(s: string)
    ensures Classify(WrittenRules, s) != Some(Arquitectos)
    ensures Classify(IntendedRules, s) != Some(Arquitectos)
  {
    RulesSkipArquitectos();
  }

  /** The name `mapColegioApiToValue` returns for a college: "NO APLICA",
      or "COLEGIO " and the rest of the college's name. */
  function WrittenName(c: Colegio): (r: string)
    requires c != Arquitectos
  {
    if c == Colegio.NoAplica then "NO APLICA" else "COLEGIO " + NameAfterColegio(c)
  }

  function NameAfterColegio(c: Colegio): string
  {
    match c
    case Ccee => "DE ECONOMISTAS, CONTADORES PUBLICOS Y AUDITORES Y ADMINISTRADORES DE EMPRESAS"
    case Cpa => "DE CONTADORES PUBLICOS Y AUDITORES DE GUATEMALA"
    case Cofaqui => "DE FARMACEUTICOS Y QUIMICOS DE GUATEMALA"
    case Cig => "DE INGENIEROS DE GUATEMALA"
    case Ciag => "DE INGENIEROS AGRONOMOS DE GUATEMALA"
    case Ciq => "DE INGENIEROS QUIMICOS DE GUATEMALA"
    case Cmvz => "DE MEDICOS VETERINARIOS Y ZOOTECNISTAS DE GUATEMALA"
    case Colmed => "DE MEDICOS Y CIRUJANOS DE GUATEMALA"
    case Cang => "DE ABOGADOS Y NOTARIOS DE GUATEMALA"
    case Psicologos => "DE PSICOLOGOS DE GUATEMALA"
    case Estomatologico => "ESTOMATOLOGICO DE GUATEMALA"
    case Enfermeria => "PROFESIONAL DE ENFERMERIA DE GUATEMALA"
    case Humanidades => "PROFESIONAL DE HUMANIDADES DE GUATEMALA"
    case _ => ""
  }

  /** `mapColegioApiToValue` as written: it returns the college's display
      name (and "NO APLICA" with a space), not the `ColegioValue` code. */
  function MapColegioApiToValue(input: Option<string>): (r: Option<string>)
    ensures Norm(input) == "" || Norm(input) == "NO APLICA" ==> r == Some("NO APLICA")
    ensures r.None? <==> Classify(WrittenRules, Norm(input)).None?
  {
    var c := Classify(WrittenRules, Norm(input));
    NeverArquitectos(Norm(input));
    match c
    case None => None
    case Some(v) => Some(WrittenName(v))
  }

  /** The corrected mapping: rules in the intended order, and the result is
      the college itself, whose `ColegioValue` code is `ColegioCode`. */
  function MapColegio(input: Option<string>): (r: Option<Colegio>)
    ensures Norm(input) == "" || Norm(input) == "NO APLICA" ==> r == Some(Colegio.NoAplica)
    ensures r != Some(Arquitectos)
  {
    NeverArquitectos(Norm(input));
    Classify(IntendedRules, Norm(input))
  }

  lemma CodeHasNoSpace(v: Colegio)
    ensures ' ' !in ColegioCode(v)
  {
  }

  lemma WrittenNameHasSpace(c: Colegio)
    requires c != Arquitectos
    ensures ' ' in WrittenName(c)
  {
    if c == Colegio.NoAplica {
      assert WrittenName(c)[2] == ' ';
    } else {
      assert WrittenName(c)[7] == ("COLEGIO " + NameAfterColegio(c))[7];
    }
  }

  lemma WrittenIndices()
    ensures WrittenRules[3] == CigAcronym && WrittenRules[5] == CiqAcronym && WrittenRules[9] == EconomistsWords
    ensures WrittenRules[10] == AccountantsWords && WrittenRules[11] == PharmacistsWords
    ensures WrittenRules[13] == ChemicalEngineersWords
  {
  }

  /** The two orders agree up to the pharmacists' keywords. */
  lemma SharedPrefix()
    ensures forall j :: 0 <= j < 11 ==> IntendedRules[j] == WrittenRules[j]
    ensures IntendedRules[11] == ChemicalEngineersWords
  {
  }

  lemma WrittenPositions(i: nat)
    requires i < |WrittenRules|
    ensures WrittenRules[i].colegio == Ciq ==> i == 5 || i == 13
    ensures WrittenRules[i].colegio == Cig ==> i == 3 || i == 14
  {
  }

  lemma QuimicosHasQuimico(s: string)
    ensures Contains(s, "QUIMICOS") ==> Contains(s, "QUIMICO")
  {
    if Contains(s, "QUIMICOS") {
      ContainsPrefix(s, "QUIMICOS", "QUIMICO");
    }
  }

  /** Nothing `mapColegioApiToValue` returns is a `ColegioValue` code: every
      name it returns holds a space and no code does. */
  lemma WrittenNeverACode(input: Option<string>)
    ensures MapColegioApiToValue(input).Some? ==> forall v :: MapColegioApiToValue(input).value != ColegioCode(v)
  {
    var c := Classify(WrittenRules, Norm(input));
    NeverArquitectos(Norm(input));
    if c.Some? {
      WrittenNameHasSpace(c.value);
      forall v ensures WrittenName(c.value) != ColegioCode(v) {
        CodeHasNoSpace(v);
      }
    }
  }

  /** An absent input: the source returns "NO APLICA", which is not the
      code "NO_APLICA" of the "not applicable" option; the corrected mapping
      returns that option. */
  lemma AbsentInput()
    ensures MapColegioApiToValue(None) == Some("NO APLICA")
    ensures ColegioCode(Colegio.NoAplica) == "NO_APLICA" != "NO APLICA"
    ensures MapColegio(None) == Some(Colegio.NoAplica)
  {
    assert Norm(None) == "";
  }

  /** The rule at `i` decides when it holds and none before it does. */
  lemma Decides(rules: seq<Rule>, s: string, i: nat)
    requires s != "" && s != "NO APLICA"
    requires i < |rules| && Holds(rules[i].test, s)
    requires forall j :: 0 <= j < i ==> !Holds(rules[j].test, s)
    ensures Classify(rules, s) == Some(rules[i].colegio)
  {
  }

  /** Without any of the acronyms the nine shortcuts stay silent. */
  lemma AcronymsSilent(s: string)
    requires !Contains(s, "CCEE") && !Contains(s, "CPA") && !Contains(s, "COFAQUI") && !Contains(s, "CIG")
    requires !Contains(s, "CIAG") && !Contains(s, "CIQ") && !Contains(s, "CMVZ") && !Contains(s, "COLMED") && !Contains(s, "CANG")
    ensures forall j :: 0 <= j < 9 ==> !Holds(WrittenRules[j].test, s)
  {
    CigAcronymMeans(s);
  }

  lemma FirstThreeSilent(s: string)
    requires !Contains(s, "CCEE") && !Contains(s, "CPA") && !Contains(s, "COFAQUI")
    ensures forall j :: 0 <= j < 3 ==> !Holds(WrittenRules[j].test, s)
  {
  }

  /** "CCEE" anywhere wins, whatever else the input holds ("CPA" included). */
  lemma CceeWins(s: string)
    requires Contains(s, "CCEE")
    ensures Classify(WrittenRules, s) == Some(Ccee)
  {
    MissingChar("NO APLICA", "CCEE", 'E');
    assert Holds(WrittenRules[0].test, s);
  }

  /** "CIG" gives the engineers' college when no earlier acronym and neither
      "CIQ" nor "CIAG" occurs ... */
  lemma CigAlone(s: string)
    requires Contains(s, "CIG") && !Contains(s, "CIQ") && !Contains(s, "CIAG")
    requires !Contains(s, "CCEE") && !Contains(s, "CPA") && !Contains(s, "COFAQUI")
    ensures Classify(WrittenRules, s) == Some(Cig)
  {
    MissingChar("NO APLICA", "CIG", 'G');
    CigAcronymMeans(s);
    WrittenIndices();
    FirstThreeSilent(s);
    Decides(WrittenRules, s, 3);
  }

  /** ... and an input holding "CIQ" or "CIAG" never gets it. */
  lemma CigExcluded(s: string)
    requires Contains(s, "CIQ") || Contains(s, "CIAG")
    ensures Classify(WrittenRules, s) != Some(Cig)
  {
    if s != "" && s != "NO APLICA" {
      var k := if Contains(s, "CIAG") then 4 else 5;
      assert Holds(WrittenRules[k].test, s);
      var i := FirstMatch(WrittenRules, s).value;
      assert i <= k;
      WrittenPositions(i);
      CigAcronymMeans(s);
    }
  }

  /** Whatever the chemical engineers' keywords accept, the pharmacists'
      keywords accept too: both spellings contain "QUIMICO". */
  lemma ChemicalEngineersArePharmacists(s: string)
    ensures Holds(ChemicalEngineersWords.test, s) ==> Holds(PharmacistsWords.test, s)
  {
    ChemicalEngineersMeans(s);
    QuimicosHasQuimico(s);
    assert Contains(s, "QUIMICO") ==> Holds(PharmacistsWords.test, s);
  }

  /** The chemical engineers' keyword rule never fires as written: the
      pharmacists' rule before it takes every input it accepts. Only the
      "CIQ" acronym reaches that college. */
  lemma CiqOnlyByAcronym(s: string)
    ensures Classify(WrittenRules, s) == Some(Ciq) ==> Contains(s, "CIQ")
  {
    if s != "" && s != "NO APLICA" && FirstMatch(WrittenRules, s).Some? {
      var i := FirstMatch(WrittenRules, s).value;
      WrittenPositions(i);
      ChemicalEngineersArePharmacists(s);
      WrittenIndices();
    }
  }

  /** "CONTADORES PUBLICOS ... AUDITORES" without an acronym goes to the
      economists' college, not to the accountants' one. */
  lemma AccountantsAuditorsToCcee(s: string)
    requires Contains(s, "CONTADORES") && Contains(s, "PUBLICOS") && Contains(s, "AUDITORES")
    requires !Contains(s, "CCEE") && !Contains(s, "CPA") && !Contains(s, "COFAQUI") && !Contains(s, "CIG")
    requires !Contains(s, "CIAG") && !Contains(s, "CIQ") && !Contains(s, "CMVZ") && !Contains(s, "COLMED") && !Contains(s, "CANG")
    ensures Classify(WrittenRules, s) == Some(Ccee)
  {
    MissingChar("NO APLICA", "CONTADORES", 'T');
    EconomistsMeans(s);
    AcronymsSilent(s);
    WrittenIndices();
    Decides(WrittenRules, s, 9);
  }

  // Inputs without certain letters, and the input "INGENIEROS QUIMICOS".

  /** Every 'C' is followed by an 'O'. */
  predicate COnlyBeforeO(s: string)
  {
    forall i :: 0 <= i < |s| && s[i] == 'C' ==> i + 1 < |s| && s[i + 1] == 'O'
  }

  lemma CWordAbsent(s: string, w: string)
    requires COnlyBeforeO(s) && |w| >= 2 && w[0] == 'C' && w[1] != 'O'
    ensures !Contains(s, w)
  {
  }

  /** Without 'A', 'F', 'L', 'P' or 'V', and with every 'C' before an 'O',
      none of the acronyms occurs. */
  lemma NoAcronyms(s: string)
    requires COnlyBeforeO(s) && 'A' !in s && 'F' !in s && 'L' !in s && 'P' !in s && 'V' !in s
    ensures !Contains(s, "CCEE") && !Contains(s, "CPA") && !Contains(s, "COFAQUI") && !Contains(s, "CIG")
    ensures !Contains(s, "CIAG") && !Contains(s, "CIQ") && !Contains(s, "CMVZ") && !Contains(s, "COLMED") && !Contains(s, "CANG")
  {
    CWordAbsent(s, "CCEE");
    CWordAbsent(s, "CIG");
    CWordAbsent(s, "CIQ");
    MissingChar(s, "CPA", 'P');
    MissingChar(s, "COFAQUI", 'F');
    MissingChar(s, "CIAG", 'A');
    MissingChar(s, "CMVZ", 'V');
    MissingChar(s, "COLMED", 'L');
    MissingChar(s, "CANG", 'A');
  }

  /** Every keyword of the economists' and the accountants' rules has a 'T'. */
  lemma NoAccountingWithoutT(s: string)
    requires 'T' !in s
    ensures !Holds(EconomistsWords.test, s) && !Holds(AccountantsWords.test, s)
  {
    MissingChar(s, "ECONOMISTA", 'T');
    MissingChar(s, "ECONOMISTAS", 'T');
    MissingChar(s, "CONTADORES", 'T');
    MissingChar(s, "ADMINISTRADORES", 'T');
    EconomistsMeans(s);
    MissingChar(s, "CONTADOR PUBLICO", 'T');
    MissingChar(s, "CONTADORES PUBLICOS", 'T');
    MissingChar(s, "AUDITOR", 'T');
    MissingChar(s, "AUDITORES", 'T');
  }

  lemma OneC(i: nat)
    requires i < |"INGENIEROS QUIMICOS"| && "INGENIEROS QUIMICOS"[i] == 'C'
    ensures i == 16
  {
  }

  lemma EngineersInputCs()
    ensures COnlyBeforeO("INGENIEROS QUIMICOS")
  {
    forall i | 0 <= i < |"INGENIEROS QUIMICOS"| && "INGENIEROS QUIMICOS"[i] == 'C'
      ensures i + 1 < |"INGENIEROS QUIMICOS"| && "INGENIEROS QUIMICOS"[i + 1] == 'O'
    {
      OneC(i);
    }
  }

  lemma EngineersInputLacksAFL()
    ensures 'A' !in "INGENIEROS QUIMICOS" && 'F' !in "INGENIEROS QUIMICOS" && 'L' !in "INGENIEROS QUIMICOS"
  {
  }

  lemma EngineersInputLacksPTV()
    ensures 'P' !in "INGENIEROS QUIMICOS" && 'T' !in "INGENIEROS QUIMICOS" && 'V' !in "INGENIEROS QUIMICOS"
  {
  }

  /** None of the guards before the pharmacists' keywords holds on it. */
  lemma EngineersInputSilent()
    ensures forall j :: 0 <= j < 11 ==> !Holds(WrittenRules[j].test, "INGENIEROS QUIMICOS")
  {
    EngineersInputCs();
    EngineersInputLacksAFL();
    EngineersInputLacksPTV();
    NoAcronyms("INGENIEROS QUIMICOS");
    AcronymsSilent("INGENIEROS QUIMICOS");
    NoAccountingWithoutT("INGENIEROS QUIMICOS");
    WrittenIndices();
  }

  lemma EngineersInputWords()
    ensures Contains("INGENIEROS QUIMICOS", "INGENIEROS") && Contains("INGENIEROS QUIMICOS", "QUIMICOS")
  {
    var s := "INGENIEROS QUIMICOS";
    assert OccursAt(s, "INGENIEROS", 0);
    assert OccursAt(s, "QUIMICOS", 11);
  }

  /** Upper-case ASCII words separated by single spaces. */
  predicate AsciiUpperWords(s: string)
  {
    Trimmed(s) && Collapsed(s) && forall i :: 0 <= i < |s| ==> 'A' <= s[i] <= 'Z' || s[i] == ' '
  }

  /** Such a string is already what `norm` gives. */
  lemma NormOfAsciiUpperWords(s: string)
    requires AsciiUpperWords(s)
    ensures Norm(Some(s)) == s
  {
    forall i | 0 <= i < |s| ensures Plain(s[i]) {
      AsciiPlain(s[i]);
    }
    CanonOfCanonical(s);
    forall i | 0 <= i < |s| ensures Upper(s)[i] == s[i] {
      AsciiPlain(s[i]);
    }
  }

  lemma AsciiPlain(c: char)
    requires 'A' <= c <= 'Z' || c == ' '
    ensures Plain(c) && ToUpper(c) == c
  {
    assert Decompose(c) == [c];
  }

  lemma EngineersInputSpaces()
    ensures forall i :: 0 <= i < |"INGENIEROS QUIMICOS"| && IsSpace("INGENIEROS QUIMICOS"[i]) ==> i == 10
  {
  }

  lemma EngineersInputIsNormal()
    ensures AsciiUpperWords("INGENIEROS QUIMICOS")
  {
    EngineersInputSpaces();
  }

  /** As written, "INGENIEROS QUIMICOS" goes to the pharmacists' college. */
  lemma ChemicalEngineersAsWritten()
    ensures Classify(WrittenRules, "INGENIEROS QUIMICOS") == Some(Cofaqui)
  {
    EngineersInputSilent();
    EngineersInputWords();
    QuimicosHasQuimico("INGENIEROS QUIMICOS");
    WrittenIndices();
    assert Holds(PharmacistsWords.test, "INGENIEROS QUIMICOS");
    Decides(WrittenRules, "INGENIEROS QUIMICOS", 11);
  }

  /** The same through the functions on the raw input: as written the
      result is the pharmacists' college name, corrected the chemical
      engineers' college. */
  lemma EngineersInputNorm()
    ensures Norm(Some("INGENIEROS QUIMICOS")) == "INGENIEROS QUIMICOS"
  {
    EngineersInputIsNormal();
    NormOfAsciiUpperWords("INGENIEROS QUIMICOS");
  }

  /** As written, the raw input "INGENIEROS QUIMICOS" is mapped to the pharmacists' college. */
  lemma ChemicalEngineersInput()
    ensures MapColegioApiToValue(Some("INGENIEROS QUIMICOS")) == Some(WrittenName(Cofaqui))
  {
    EngineersInputNorm();
    ChemicalEngineersAsWritten();
  }

  /** With the rules in their intended order, the same raw input reaches the chemists' college. */
  lemma ChemicalEngineersInputIntended()
    ensures MapColegio(Some("INGENIEROS QUIMICOS")) == Some(Ciq)
  {
    EngineersInputNorm();
    ChemicalEngineersIntended();
  }

  /** With the intended order it goes to the chemical engineers' college. */
  lemma ChemicalEngineersIntended()
    ensures Classify(IntendedRules, "INGENIEROS QUIMICOS") == Some(Ciq)
  {
    EngineersInputSilent();
    EngineersInputWords();
    ChemicalEngineersMeans("INGENIEROS QUIMICOS");
    SharedPrefix();
    Decides(IntendedRules, "INGENIEROS QUIMICOS", 11);
  }

  // ------------------------------------------------------------- maskDPI

  /** `\d(?=\d{4})` matches at `i`: a digit followed by four more. */
  predicate MaskedAt(s: string, i: nat)
  {
    i + 4 < |s| && forall k :: i <= k <= i + 4 ==> IsDigit(s[k])
  }

  lemma MaskedShift(s: string, i: nat)
    requires 1 <= i < |s|
    ensures MaskedAt(s, i) <==> MaskedAt(s[1..], i - 1)
  {
    if MaskedAt(s[1..], i - 1) {
      forall k | i <= k <= i + 4 ensures IsDigit(s[k]) {
        assert s[k] == s[1..][k - 1];
      }
    }
  }

  lemma MaskedHead(s: string, run: nat)
    requires s != [] && run <= |s| - 1
    requires forall k :: 1 <= k <= run ==> IsDigit(s[k])
    requires run < |s| - 1 ==> !IsDigit(s[run + 1])
    ensures MaskedAt(s, 0) <==> IsDigit(s[0]) && run >= 4
  {
  }

  /** The masked string together with the length of the digit run `s`
      starts with, built from the right so the look-ahead is a counter. */
  function MaskScan(s: string): (r: (string, nat))
    ensures |r.0| == |s| && r.1 <= |s|
    ensures forall k :: 0 <= k < r.1 ==> IsDigit(s[k])
    ensures r.1 < |s| ==> !IsDigit(s[r.1])
    ensures forall i :: 0 <= i < |s| ==> r.0[i] == (if MaskedAt(s, i) then '•' else s[i])
  {
    if s == [] then ("", 0)
    else
      var (t, run) := MaskScan(s[1..]);
      var r := ([if IsDigit(s[0]) && run >= 4 then '•' else s[0]] + t, if IsDigit(s[0]) then run + 1 else 0);
      MaskStep(s, t, run, r);
      r
  }

  /** One step of the scan: the result for `s[1..]` extends to `s`. */
  lemma MaskStep(s: string, t: string, run: nat, r: (string, nat))
    requires s != [] && |t| == |s| - 1 && run <= |s| - 1
    requires forall k :: 0 <= k < run ==> IsDigit(s[1..][k])
    requires run < |s| - 1 ==> !IsDigit(s[1..][run])
    requires forall i :: 0 <= i < |s| - 1 ==> t[i] == (if MaskedAt(s[1..], i) then '•' else s[1..][i])
    requires r == ([if IsDigit(s[0]) && run >= 4 then '•' else s[0]] + t, if IsDigit(s[0]) then run + 1 else 0)
    ensures |r.0| == |s| && r.1 <= |s|
    ensures forall k :: 0 <= k < r.1 ==> IsDigit(s[k])
    ensures r.1 < |s| ==> !IsDigit(s[r.1])
    ensures forall i :: 0 <= i < |s| ==> r.0[i] == (if MaskedAt(s, i) then '•' else s[i])
  {
    forall k | 1 <= k <= run ensures IsDigit(s[k]) { assert s[k] == s[1..][k - 1]; }
    if run < |s| - 1 { assert s[run + 1] == s[1..][run]; }
    MaskedHead(s, run);
    var c := if IsDigit(s[0]) && run >= 4 then '•' else s[0];
    var u := [c] + t;
    forall i | 1 <= i < |s| ensures u[i] == (if MaskedAt(s, i) then '•' else s[i]) {
      MaskedShift(s, i);
      assert u[i] == t[i - 1];
      assert s[i] == s[1..][i - 1];
    }
  }

  /** `maskDPI`: every digit followed by four more digits becomes '•'. */
  function MaskDpi(dpi: string): (r: string)
    ensures |r| == |dpi|
    ensures forall i :: 0 <= i < |dpi| ==> r[i] == (if MaskedAt(dpi, i) then '•' else dpi[i])
    ensures forall i :: 0 <= i < |dpi| && (i + 4 >= |dpi| || !IsDigit(dpi[i])) ==> r[i] == dpi[i]
  {
    MaskScan(dpi).0
  }

  /** A thirteen-digit DPI shows only its last four digits. */
  lemma MaskThirteenDigits(dpi: string)
    requires |dpi| == 13 && AllDigits(dpi)
    ensures MaskDpi(dpi) == "•••••••••" + dpi[9..]
  {
    var m := MaskDpi(dpi);
    forall i | 0 <= i < 13 ensures m[i] == ("•••••••••" + dpi[9..])[i] {
      if i < 9 { assert MaskedAt(dpi, i); } else { assert !MaskedAt(dpi, i); }
    }
  }

  /** Masking a masked DPI changes nothing: '•' is not a digit. */
  lemma MaskIdempotent(dpi: string)
    ensures MaskDpi(MaskDpi(dpi)) == MaskDpi(dpi)
  {
    var m := MaskDpi(dpi);
    forall i | 0 <= i < |m| ensures !MaskedAt(m, i) {
      if MaskedAt(dpi, i) {
        assert m[i] == '•';
      } else if i + 4 < |dpi| {
        var k :| i <= k <= i + 4 && !IsDigit(dpi[k]);
        assert !IsDigit(m[k]);
      }
    }
  }

  // ------------------------------------------------------------- fullName

  /** The name fields of an `ApplicationRow`. */
  datatype NameParts = NameParts(
    primerNombre: string,
    segundoNombre: Option<string>,
    primerApellido: string,
    segundoApellido: Option<string>)

  /** `filter(Boolean)`: the parts that are present and non-empty, in order. */
  function Present(parts: seq<Option<string>>): (r: seq<string>)
    ensures |r| <= |parts|
    ensures forall k :: 0 <= k < |r| ==> r[k] != ""
    ensures forall x :: x in r <==> x != "" && Some(x) in parts
  {
    if parts == [] then []
    else
      var rest := Present(parts[1..]);
      assert forall x :: Some(x) in parts <==> Some(x) == parts[0] || Some(x) in parts[1..];
      if parts[0].Some? && parts[0].value != "" then [parts[0].value] + rest else rest
  }

  /** What `filter(Boolean)` keeps of one part: its value when present and
      non-empty, nothing otherwise. */
  function Kept(o: Option<string>): seq<string>
  {
    if o.Some? && o.value != "" then [o.value] else []
  }

  /** `filter(Boolean)` keeps each part on its own, in place: the result is
      the parts' kept values concatenated in order. */
  lemma {:induction false} PresentAppend(a: seq<Option<string>>, b: seq<Option<string>>)
    ensures Present(a + b) == Present(a) + Present(b)
  {
    if a != [] {
      assert (a + b)[0] == a[0];
      assert (a + b)[1..] == a[1..] + b;
      PresentAppend(a[1..], b);
    } else {
      assert a + b == b;
    }
  }

  lemma PresentSingle(o: Option<string>)
    ensures Present([o]) == Kept(o)
  {
    assert [o][1..] == [];
  }

  function Fields(n: NameParts): seq<Option<string>>
  {
    [Some(n.primerNombre), n.segundoNombre, Some(n.primerApellido), n.segundoApellido]
  }

  /** `fullName`: the present parts joined with single spaces. */
  function FullName(n: NameParts): string
  {
    Join(Present(Fields(n)), " ")
  }

  /** The present parts are the first name, second name, first surname and
      second surname, in that order, each kept once when non-empty. */
  lemma FieldsInOrder(n: NameParts)
    ensures Present(Fields(n)) ==
      Kept(Some(n.primerNombre)) + Kept(n.segundoNombre) + Kept(Some(n.primerApellido)) + Kept(n.segundoApellido)
  {
    var f := Fields(n);
    assert f == [f[0]] + [f[1]] + [f[2]] + [f[3]];
    PresentAppend([f[0]] + [f[1]] + [f[2]], [f[3]]);
    PresentAppend([f[0]] + [f[1]], [f[2]]);
    PresentAppend([f[0]], [f[1]]);
    PresentSingle(f[0]);
    PresentSingle(f[1]);
    PresentSingle(f[2]);
    PresentSingle(f[3]);
  }

  /** When no part holds a space, splitting the full name at spaces gives
      back exactly the present parts, in order; with none present it is empty. */
  lemma FullNameSplits(n: NameParts)
    requires forall x :: Some(x) in Fields(n) ==> ' ' !in x
    ensures Present(Fields(n)) ==
      Kept(Some(n.primerNombre)) + Kept(n.segundoNombre) + Kept(Some(n.primerApellido)) + Kept(n.segundoApellido)
    ensures Present(Fields(n)) == [] ==> FullName(n) == ""
    ensures Present(Fields(n)) != [] ==> Split(FullName(n), ' ') == Present(Fields(n))
  {
    FieldsInOrder(n);
    var p := Present(Fields(n));
    if p != [] {
      assert forall k :: 0 <= k < |p| ==> Some(p[k]) in Fields(n) by {
        forall k | 0 <= k < |p| ensures Some(p[k]) in Fields(n) { assert p[k] in p; }
      }
      SplitJoin(p, ' ');
    }
  }
}
