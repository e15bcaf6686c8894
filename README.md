# Sign-up wizard logic, modelled in Dafny

This project models the logic beneath the sign-up and review web app: the
pieces that can be stated exactly once the rendering and the network
plumbing are set aside.

- **Step sequencer** (`StepperHook`, `StepsView`). The `useStepper` hook is a
  class holding one counter, `activeStep`, over `0..n`; `n` is the
  "completed" pseudo-step. The `Steps` view is a pure function from the
  active step and the children to headers, connectors and one content panel.
- **Sign-up wizard** (`Wizard`).
  - The six step descriptors; the initial step is 5.
  - `calculateAge`: its date-format dispatch, then the completed-years arithmetic.
  - The step-0 validity.
  - The footer's buttons and their gates at each step.
  - The mock pre-fill and submit handlers, and the completed-view reset.
  - A `SignupWizard` class holding the component's state cells.
- **Validation schemas** (`AuthSchema`, over `FormValues`). Each zod schema is a
  predicate over a record with one field per form key. The combined schema
  spreads the step schemas' shapes in order, and the model keeps that order.
  The option tables (`OptionTables`) are constant sequences over one
  datatype per value union.
- **String normalisers and matchers**:
  - `Utils`: `norm`, the ordered keyword cascade `mapColegioApiToValue`,
    `maskDPI` and `fullName`;
  - `Demographics`: `fmtGT`, `normalize` / `stripDescriptors` / `normKey`,
    the `stateIndex` loop, the tolerant department lookup and the effects
    that clear dependent fields.
  - Both rest on `Normalization` (NFD, diacritic removal, whitespace
    collapse, trim) and on `Text`, the JavaScript string primitives over
    `seq<char>`.
- **Small UI state**:
  - `PdfViewer`: the page state of the PDF viewer;
  - `FilterSelect`: the filtered list, current option and popover state of
    the filter select;
  - `ApiUtils`: the normalisation of a thrown value into the API error shape.

Modelling choices:
- A JavaScript `undefined` is `None` of `Wrappers.Option`.
- String lengths are UTF-16 lengths (`Text.Utf16Length`) wherever the source
  compares `.length`.
- Things outside the code's own logic are function parameters:
  - zod's e-mail format (`isEmail`);
  - the JavaScript `Date` constructor and `new Date(string)` (`makeDate`, `parseDate`);
  - today's date (`today`);
  - the country, state and city datasets (`alpha2Es`, `alpha2En`,
    `statesOfCountry`, `citiesOfState`).

Three places where the code's behaviour is easy to misread:
- **Initial step.** The wizard starts at step 5, the files step, not at
  step 0 (`src/app/auth/signup/components/SignupWizard.tsx:79`).
- **Pre-fill and submit.** The real pre-fill, with its has-real-data check
  and field mapping, is commented out; so is the real submit. The live
  handlers are the mocks at `SignupWizard.tsx:279-316`, and those are
  modelled.
- **`normKey` order.** It strips the descriptor words before removing
  diacritics. So an accented "Región" is not recognised as a descriptor
  (`SignupDemographicsForm.tsx:105-115`).

## Model

| member | source | states |
|---|---|---|
| Text.Utf16Length | src/app/auth/signup/components/SignupWizard.tsx:135 | `.length` counts UTF-16 code units: between one and two per character |
| Text.Utf16LengthBmp | src/app/auth/signup/components/SignupWizard.tsx:135 | on Basic Multilingual Plane text the UTF-16 length is the character count |
| Text.Trim | src/features/auth/schemas/auth.schema.ts:15 | `trim` gives a contiguous slice of the input with no whitespace at either end |
| Text.TrimPadded | src/features/auth/schemas/auth.schema.ts:15 | trimming whitespace around a trimmed non-empty string gives that string back |
| Text.TrimOfTrimmed | src/lib/utils.ts:15 | `trim` leaves a trimmed string alone |
| Text.Collapse | src/lib/utils.ts:14 | `replace(/\s+/g, " ")` never lengthens and keeps or replaces the first character |
| Text.CollapseIsCollapsed | src/lib/utils.ts:14 | after collapsing, the only whitespace left is single plain spaces |
| Text.CollapseOfCollapsed | src/lib/utils.ts:14 | collapsing an already collapsed string changes nothing |
| Text.IndexOf | src/app/auth/signup/components/SignupWizard.tsx:145 | `indexOf` is -1 exactly when the character is absent, else its first position |
| Text.Split | src/app/auth/signup/components/SignupWizard.tsx:136 | `split` gives at least one piece and no piece holds the separator |
| Text.SplitJoin | src/app/auth/signup/components/SignupWizard.tsx:136 | splitting a join at a separator no part holds gives the parts back |
| Text.MapChars | src/lib/utils.ts:16 | a per-character map keeps the length and maps each position |
| Text.CaseFacts | src/lib/utils.ts:16 | upper- and lower-casing are idempotent, absorb each other and keep whitespace |
| Text.LowerKeepsDecomposition | src/app/auth/signup/components/forms/SignupDemographicsForm.tsx:99-103 | lower-casing commutes with canonical decomposition and keeps diacritics |
| Text.UpperKeepsDecomposition | src/lib/utils.ts:12-16 | upper-casing commutes with canonical decomposition and keeps diacritics |
| Text.StripDiacritics | src/lib/utils.ts:13 | removing diacritics never lengthens |
| Text.Nfd | src/lib/utils.ts:12 | definition of `normalize("NFD")` on the modelled letters; characterised by Normalization.NfdIdempotent, Normalization.CanonOfNfd and Text.UpperKeepsDecomposition |
| Text.IsDiacritic | src/lib/utils.ts:13 | definition of `\p{Diacritic}`: the Latin-1 spacing accents and U+0300..U+034E, U+0350..U+0357, U+035D..U+0362; characterised by Utils.NormIgnoresDiacritic and Utils.NormKeepsCombiningLetter |
| Text.ToUpper | src/lib/utils.ts:16 | definition of `toUpperCase` on one character; characterised by Text.CaseFacts and Normalization.UpperIsCaseLike |
| Text.ToLower | src/app/auth/signup/components/forms/SignupDemographicsForm.tsx:103 | definition of `toLowerCase` on one character; characterised by Text.CaseFacts and Normalization.LowerIsCaseLike |
| Text.ClassesNest | src/features/auth/schemas/auth.schema.ts:9-10 | `\p{Ll}` and `\p{Lu}` are disjoint, a digit is a number, and letters are not numbers |
| Normalization.CanonIsCanonical | src/lib/utils.ts:10-15 | the NFD / strip / collapse / trim pipeline yields a canonical string |
| Normalization.CanonOfCanonical | src/lib/utils.ts:10-15 | the pipeline leaves a canonical string unchanged, so it is idempotent |
| Normalization.CanonSpaceRun | src/lib/utils.ts:14 | any whitespace run normalises like one space |
| Normalization.CanonDropsDiacritic | src/lib/utils.ts:13 | a diacritic anywhere is ignored |
| Normalization.CanonOfNfd | src/lib/utils.ts:12 | decomposed and precomposed spellings normalise alike |
| Normalization.NfdIdempotent | src/lib/utils.ts:12 | `normalize("NFD")` is idempotent |
| Normalization.MapCanon | src/lib/utils.ts:16 | the pipeline commutes with a case mapping |
| Normalization.MapKeepsCanonical | src/lib/utils.ts:16 | case-mapping a canonical string keeps it canonical |
| Normalization.UpperIsCaseLike | src/lib/utils.ts:16 | `toUpperCase` keeps spaces, whitespace and diacritics and commutes with NFD |
| Normalization.LowerIsCaseLike | src/app/auth/signup/components/forms/SignupDemographicsForm.tsx:103 | `toLowerCase` keeps spaces, whitespace and diacritics and commutes with NFD |
| Utils.Norm | src/lib/utils.ts:10-16 | definition of `norm`; characterised by Utils.NormIsNormal, Utils.NormIdempotent and the Utils.NormIgnores* lemmas |
| Utils.NormIsNormal | src/lib/utils.ts:10-16 | `norm` gives a canonical, already upper-case string |
| Utils.NormIdempotent | src/lib/utils.ts:10-16 | `norm(norm(s)) == norm(s)` |
| Utils.NormIgnoresCase | src/lib/utils.ts:10-16 | inputs differing only in letter case normalise alike |
| Utils.NormIgnoresSpaceRuns | src/lib/utils.ts:14 | inputs differing only in whitespace runs normalise alike |
| Utils.NormIgnoresDiacritic | src/lib/utils.ts:13 | inputs differing only by a diacritic normalise alike |
| Utils.NormKeepsCombiningLetter | src/lib/utils.ts:13 | the combining Latin small letter a (U+0363), which lacks the Diacritic property, survives `norm` |
| Utils.NormKeepsGraphemeJoiner | src/lib/utils.ts:13 | the combining grapheme joiner (U+034F), which lacks the Diacritic property, survives `norm` |
| Utils.NormOfPlainPair | src/lib/utils.ts:10-16 | "A" followed by a plain, non-space character that upper-casing keeps is its own `norm` |
| Utils.CigAcronymMeans | src/lib/utils.ts:38 | the CIG guard holds iff "CIG" occurs and neither "CIQ" nor "CIAG" does |
| Utils.AuditorsClauseMeans | src/lib/utils.ts:60-61 | the nested hasAll/hasAny clause, spelled out |
| Utils.EconomistsMeans | src/lib/utils.ts:58-63 | the economists' keyword guard, spelled out |
| Utils.ChemicalEngineersMeans | src/lib/utils.ts:84-87 | the chemical engineers' keyword guard, spelled out |
| Utils.FirstMatch | src/lib/utils.ts:29-130 | the early returns are tried in order: the result is the first rule whose guard holds, or none |
| Utils.Classify | src/lib/utils.ts:26-133 | "" and "NO APLICA" give NO APLICA; otherwise the result is undefined iff no rule fires |
| Utils.Decides | src/lib/utils.ts:29-130 | a rule that holds, with no earlier rule holding, decides the result |
| Utils.MapColegioApiToValue | src/lib/utils.ts:23-134 | the function as written depends only on `norm(input)`; an empty or NO APLICA input gives "NO APLICA"; undefined iff no rule fires |
| Utils.MapColegio | src/lib/utils.ts:23-134 | the corrected mapping: rules in intended order, results are college codes, never the architects' |
| Utils.RulesSkipArquitectos | src/lib/utils.ts:29-130 | no rule in either order returns the architects' college |
| Utils.NeverArquitectos | src/lib/utils.ts:29-133 | no input is mapped to the architects' college |
| Utils.WrittenNeverACode | src/lib/utils.ts:23-134 | as written, nothing returned is one of the `ColegioValue` codes the function's type promises |
| Utils.AbsentInput | src/lib/utils.ts:26 | an absent input gives "NO APLICA", which is not the code "NO_APLICA" |
| Utils.CodeHasNoSpace | src/app/auth/signup/components/forms/types.ts:364-379 | no `ColegioValue` code contains a space |
| Utils.WrittenNameHasSpace | src/lib/utils.ts:30-129 | every name the function returns contains a space |
| Utils.CceeWins | src/lib/utils.ts:29-34 | any input containing "CCEE" maps to the economists' college, "CPA" or not |
| Utils.CigAlone | src/lib/utils.ts:38-40 | "CIG" without "CIQ"/"CIAG" or earlier acronyms maps to the engineers' college |
| Utils.CigExcluded | src/lib/utils.ts:38-46 | an input with "CIQ" or "CIAG" never maps to the engineers' college by acronym or otherwise |
| Utils.ChemicalEngineersArePharmacists | src/lib/utils.ts:73-89 | whatever the chemical engineers' guard accepts, the earlier chemists' guard accepts |
| Utils.CiqOnlyByAcronym | src/lib/utils.ts:44-89 | as written, the chemical engineers' college is returned only for inputs containing "CIQ" |
| Utils.AccountantsAuditorsToCcee | src/lib/utils.ts:58-65 | "CONTADORES PUBLICOS ... AUDITORES" without acronyms maps to the economists' college |
| Utils.ChemicalEngineersAsWritten | src/lib/utils.ts:73-75 | as written, "INGENIEROS QUIMICOS" is classified as the pharmacists' college |
| Utils.ChemicalEngineersInput | src/lib/utils.ts:23-134 | the raw input "INGENIEROS QUIMICOS" is mapped to the pharmacists' college name |
| Utils.ChemicalEngineersIntended | src/lib/utils.ts:84-89 | with the intended order "INGENIEROS QUIMICOS" is classified as the chemical engineers' college |
| Utils.ChemicalEngineersInputIntended | src/lib/utils.ts:84-89 | the corrected mapping sends the raw input "INGENIEROS QUIMICOS" to the chemical engineers |
| Utils.MaskScan | src/lib/utils.ts:145 | the regex scan keeps length and masks exactly the digits followed by four digits |
| Utils.MaskDpi | src/lib/utils.ts:143-146 | `maskDPI` keeps length, replaces a character with a bullet iff it is a digit followed by four digits, and never masks the last four or a non-digit |
| Utils.MaskThirteenDigits | src/lib/utils.ts:143-146 | a 13-digit DPI shows only its last four digits |
| Utils.MaskIdempotent | src/lib/utils.ts:143-146 | masking twice is masking once |
| Utils.Present | src/lib/utils.ts:139 | `filter(Boolean)` keeps exactly the present, non-empty parts, in order |
| Utils.FullName | src/lib/utils.ts:137-141 | definition of `fullName`; characterised by Utils.FieldsInOrder and Utils.FullNameSplits |
| Utils.PresentAppend | src/lib/utils.ts:139 | `filter(Boolean)` keeps each part on its own and in place: filtering a concatenation concatenates the filtered halves |
| Utils.PresentSingle | src/lib/utils.ts:139 | one part is kept as its value when present and non-empty, and dropped otherwise |
| Utils.FieldsInOrder | src/lib/utils.ts:137-141 | the present parts are first name, second name, first surname and second surname, in that order, each once when non-empty |
| Utils.FullNameSplits | src/lib/utils.ts:137-141 | `fullName` joins the present parts with single spaces, in name order: splitting it at spaces gives them back |
| Demographics.Digits | src/app/auth/signup/components/forms/SignupDemographicsForm.tsx:153 | `replace(/\D/g, "")` keeps only ASCII digits, never lengthening |
| Demographics.DigitsAppend | src/app/auth/signup/components/forms/SignupDemographicsForm.tsx:153 | digit extraction distributes over concatenation |
| Demographics.FmtGT | src/app/auth/signup/components/forms/SignupDemographicsForm.tsx:152-155 | at most 9 characters; its digits are the first 8 input digits; a single "-" at index 4 iff more than 4 digits; digits elsewhere |
| Demographics.FmtGTIdempotent | src/app/auth/signup/components/forms/SignupDemographicsForm.tsx:152-155 | formatting a formatted number changes nothing |
| Demographics.OnTelefonoChange | src/app/auth/signup/components/forms/SignupDemographicsForm.tsx:157-171 | the watcher rewrites `telefono` only when it differs from its format, and afterwards it is stable |
| Demographics.Normalize | src/app/auth/signup/components/forms/SignupDemographicsForm.tsx:97-103 | definition of `normalize`; characterised by Demographics.NormalizeIsNormal and Demographics.NormalizeIdempotent |
| Demographics.StripDescriptors | src/app/auth/signup/components/forms/SignupDemographicsForm.tsx:105-110 | definition of `stripDescriptors`; characterised by Demographics.StripFromNone, Demographics.StripFromPrefix and Demographics.StripTrailingWord |
| Demographics.NormKey | src/app/auth/signup/components/forms/SignupDemographicsForm.tsx:112-115 | definition of `normKey`; characterised by Demographics.NormKeyDropsDescriptor |
| Demographics.NormalizeIsNormal | src/app/auth/signup/components/forms/SignupDemographicsForm.tsx:97-103 | `normalize` gives a canonical, lower-case string |
| Demographics.NormalizeIdempotent | src/app/auth/signup/components/forms/SignupDemographicsForm.tsx:97-103 | normalising twice is normalising once |
| Demographics.FirstWordAt | src/app/auth/signup/components/forms/SignupDemographicsForm.tsx:108 | the first alternative of the descriptor pattern matching at a position, or none |
| Demographics.StripFromNone | src/app/auth/signup/components/forms/SignupDemographicsForm.tsx:105-110 | text with no descriptor word passes through the replace unchanged |
| Demographics.StripFromPrefix | src/app/auth/signup/components/forms/SignupDemographicsForm.tsx:105-110 | the global replace works piecewise across a non-word boundary |
| Demographics.StripTrailingWord | src/app/auth/signup/components/forms/SignupDemographicsForm.tsx:105-110 | a trailing descriptor word, in any ASCII case, after a space is removed |
| Demographics.NormKeyDropsDescriptor | src/app/auth/signup/components/forms/SignupDemographicsForm.tsx:105-115 | "X departamento", "X State" ... give the same key as "X" |
| Demographics.Put | src/app/auth/signup/components/forms/SignupDemographicsForm.tsx:121-122 | `Map.set`: the key now maps to the value, other keys unchanged, a new key appended in insertion order |
| Demographics.KeyedStates | src/app/auth/signup/components/forms/SignupDemographicsForm.tsx:119-120 | the two keys of each state, in dataset order |
| Demographics.BuildStateIndex | src/app/auth/signup/components/forms/SignupDemographicsForm.tsx:117-123 | the loop builds exactly the index of the visited states |
| Demographics.AddState | src/app/auth/signup/components/forms/SignupDemographicsForm.tsx:119-122 | definition of one loop turn; characterised by Demographics.AddStateMeans and Demographics.IndexState |
| Demographics.StateIndex | src/app/auth/signup/components/forms/SignupDemographicsForm.tsx:117-123 | definition of the finished `stateIndex`; characterised by Demographics.StateIndexValid, Demographics.StateIndexAbsent, Demographics.StateIndexLast and Demographics.BuildStateIndex |
| Demographics.IndexState | src/app/auth/signup/components/forms/SignupDemographicsForm.tsx:119-122 | one loop turn: the stripped key, and the full name when non-empty and distinct |
| Demographics.AddStateMeans | src/app/auth/signup/components/forms/SignupDemographicsForm.tsx:119-122 | one state maps its own non-empty keys to its code and leaves others alone |
| Demographics.StateIndexValid | src/app/auth/signup/components/forms/SignupDemographicsForm.tsx:117-123 | the index is a well-formed map |
| Demographics.StateIndexAbsent | src/app/auth/signup/components/forms/SignupDemographicsForm.tsx:117-123 | a key no state contributes is absent |
| Demographics.StateIndexLast | src/app/auth/signup/components/forms/SignupDemographicsForm.tsx:117-123 | a key maps to the code of the last state contributing it |
| Demographics.FirstRelated | src/app/auth/signup/components/forms/SignupDemographicsForm.tsx:134-136 | `find`: the first key in insertion order containing or contained in the target, or none |
| Demographics.ResolvedCode | src/app/auth/signup/components/forms/SignupDemographicsForm.tsx:129-138 | exact key first; otherwise, for a non-empty target, the code of the first related key; no fuzzy lookup for an empty target |
| Demographics.ResolveStateCode | src/app/auth/signup/components/forms/SignupDemographicsForm.tsx:132-138 | the reassigning statements compute exactly that code |
| Demographics.DepartmentResolves | src/app/auth/signup/components/forms/SignupDemographicsForm.tsx:117-138 | a department named like a state resolves to that state's code |
| Demographics.EmptyDepartmentUnresolved | src/app/auth/signup/components/forms/SignupDemographicsForm.tsx:129-138 | an empty department resolves to nothing |
| Demographics.CountryCode | src/app/auth/signup/components/forms/SignupDemographicsForm.tsx:50-55 | Spanish lookup first, then English, else ""; no country gives "" |
| Demographics.StatesOf | src/app/auth/signup/components/forms/SignupDemographicsForm.tsx:95 | no states without a country code |
| Demographics.CityList | src/app/auth/signup/components/forms/SignupDemographicsForm.tsx:140-143 | the city list is empty unless both codes are truthy, and then is the dataset's |
| Demographics.OnPaisChange | src/app/auth/signup/components/forms/SignupDemographicsForm.tsx:175-178 | changing the country clears department and municipality and nothing else |
| Demographics.OnDepartamentoChange | src/app/auth/signup/components/forms/SignupDemographicsForm.tsx:180-184 | changing the department clears only the municipality |
| FormValues.Build | src/app/auth/signup/components/SignupWizard.tsx:84-118 | the record holds the given value under every key |
| FormValues.Set | src/app/auth/signup/components/SignupWizard.tsx:84-118 | replacing one key's value leaves every other key's value |
| FormValues.Form.SetValue | src/app/auth/signup/components/forms/SignupDemographicsForm.tsx:163-166 | `setValue` replaces one field and nothing else |
| FormValues.Form.Reset | src/app/auth/signup/components/SignupWizard.tsx:310 | `methods.reset()` restores the default values |
| FormValues.Form.constructor | src/app/auth/signup/components/SignupWizard.tsx:84-118 | a fresh form holds the default values |
| OptionTables.EtniaTable | src/app/auth/signup/components/forms/types.ts:14-21 | six entries, every member of the union exactly once, pairwise distinct values |
| OptionTables.EtniaCodeInjective | src/app/auth/signup/components/forms/types.ts:14-21 | distinct members of the union stand for distinct value strings |
| OptionTables.EtniaCaptions | src/app/auth/signup/components/forms/types.ts:14-21 | every label is non-empty |
| OptionTables.SectorTable | src/app/auth/signup/components/forms/types.ts:27-71 | ten entries, every member once, values distinct |
| OptionTables.SectorCodeInjective | src/app/auth/signup/components/forms/types.ts:27-71 | distinct members of the union stand for distinct value strings |
| OptionTables.SectorCaptions | src/app/auth/signup/components/forms/types.ts:39-71 | every label is non-empty |
| OptionTables.InstitucionTable | src/app/auth/signup/components/forms/types.ts:76-174 | 33 entries, every member once, values distinct |
| OptionTables.InstitucionCodeInjective | src/app/auth/signup/components/forms/types.ts:76-174 | distinct members of the union stand for distinct value strings |
| OptionTables.UbicacionTable | src/app/auth/signup/components/forms/types.ts:179-341 | 41 entries, every member once, values distinct |
| OptionTables.RenglonTable | src/app/auth/signup/components/forms/types.ts:346-359 | five entries, every member once, values distinct |
| OptionTables.RenglonCodeInjective | src/app/auth/signup/components/forms/types.ts:346-359 | distinct members of the union stand for distinct value strings |
| OptionTables.RenglonCaptions | src/app/auth/signup/components/forms/types.ts:353-359 | every label is non-empty |
| OptionTables.ColegioTable | src/app/auth/signup/components/forms/types.ts:364-428 | 15 entries, every member once, values distinct |
| OptionTables.ColegioCodeInjective | src/app/auth/signup/components/forms/types.ts:364-428 | distinct members of the union stand for distinct value strings |
| OptionTables.NoAplicaPlacement | src/app/auth/signup/components/forms/types.ts:112-382 | NO_APLICA heads the institution, location and college tables, is fourth among budget lines, and is not a sector |
| AuthSchema.LooksAheadAnywhere | src/features/auth/schemas/auth.schema.ts:10 | on text without line terminators a look-ahead finds a class iff some character has it |
| AuthSchema.StrongPattern | src/features/auth/schemas/auth.schema.ts:9-10 | definition of the `StrongPassword` regular expression as look-aheads; characterised by AuthSchema.StrongPatternMeans |
| AuthSchema.StrongPatternMeans | src/features/auth/schemas/auth.schema.ts:9-10 | the pattern means: at least 8 characters, no line terminator, a lower, an upper, a digit and a symbol |
| AuthSchema.StrongIsLongEnough | src/features/auth/schemas/auth.schema.ts:46-53 | a strong password also meets the confirmation's minimum of 8 |
| AuthSchema.StrongSample | src/features/auth/schemas/auth.schema.ts:9-10 | "Abcdef1!" passes |
| AuthSchema.StrongAccentedSample | src/features/auth/schemas/auth.schema.ts:9-10 | accented capitals count as upper case and a space as a symbol |
| AuthSchema.WeakSamples | src/features/auth/schemas/auth.schema.ts:9-10 | a password without an upper-case letter, or without a symbol, fails |
| AuthSchema.Over | src/features/auth/schemas/auth.schema.ts:130-137 | in an object spread a later key overrides an earlier one |
| AuthSchema.SpreadLast | src/features/auth/schemas/auth.schema.ts:130-137 | a key's rule comes from the last spread part that names it |
| AuthSchema.SpreadNone | src/features/auth/schemas/auth.schema.ts:130-137 | a key no part names has no rule |
| AuthSchema.SignupAllRule | src/features/auth/schemas/auth.schema.ts:130-137 | the rule of each key in the combined schema |
| AuthSchema.SignupAllDpi | src/features/auth/schemas/auth.schema.ts:130-137 | the combined `dpi` is the length-13 rule, not the digit regex |
| AuthSchema.SignupAllIsShapes | src/features/auth/schemas/auth.schema.ts:130-137 | the combined schema accepts exactly the records each spread key's rule accepts |
| AuthSchema.PreFillAccepts | src/features/auth/schemas/auth.schema.ts:20-25 | pre-fill accepts iff `dpi` is a string that, trimmed, is exactly 13 ASCII digits |
| AuthSchema.DpiRuleTrims | src/features/auth/schemas/auth.schema.ts:21-24 | surrounding whitespace is trimmed before the digit check |
| AuthSchema.DpiRuleRejects | src/features/auth/schemas/auth.schema.ts:21-24 | a trimmed string passes iff it is 13 ASCII digits |
| AuthSchema.SigninImpliesPreFill | src/features/auth/schemas/auth.schema.ts:12-18 | sign-in checks `dpi` as pre-fill does, plus a password of at least 6 |
| AuthSchema.CompleteNeedsConfirmations | src/features/auth/schemas/auth.schema.ts:58-72 | the account schema fails unless both e-mails and the password equal their confirmations |
| AuthSchema.CompleteNameBounds | src/features/auth/schemas/auth.schema.ts:40-43 | first name and both surnames have at least 2 characters |
| AuthSchema.CompleteAccountBounds | src/features/auth/schemas/auth.schema.ts:29-51 | `dpi` has exactly 13 characters and the password is strong |
| AuthSchema.CompleteContactBounds | src/features/auth/schemas/auth.schema.ts:34-53 | the confirmation has at least 8 characters and both e-mails are well-formed |
| AuthSchema.DemographicNumberBounds | src/features/auth/schemas/auth.schema.ts:75-95 | `cui` exactly 13, `nit` 8 to 9, `telefono` at least 8 |
| AuthSchema.DemographicChoiceBounds | src/features/auth/schemas/auth.schema.ts:85-94 | `edad` absent or in [18, 100]; `etnia` one of the six values |
| AuthSchema.EdadRule | src/features/auth/schemas/auth.schema.ts:85-89 | `edad` passes iff absent or a number in [18, 100] |
| AuthSchema.EmptyOrMinRejectsOne | src/features/auth/schemas/auth.schema.ts:106-117 | `"" or min(2)` rejects exactly the strings of length 1 |
| AuthSchema.RuleHolds | src/features/auth/schemas/auth.schema.ts:27-137 | a record passing a schema satisfies every key's rule |
| AuthSchema.Accepts | src/features/auth/schemas/auth.schema.ts:27-137 | definition of what each zod rule accepts; characterised by AuthSchema.RuleHolds and the AuthSchema.*Bounds lemmas |
| AuthSchema.Shape | src/features/auth/schemas/auth.schema.ts:27-137 | definition of each schema's shape, key by key; characterised by AuthSchema.SignupAllRule and AuthSchema.SignupAllIsShapes |
| AuthSchema.ConformsOffKey | src/features/auth/schemas/auth.schema.ts:130-137 | each key is judged on its own |
| AuthSchema.DependenciaIrrelevant | src/features/auth/schemas/auth.schema.ts:98-103 | institution validity does not depend on `dependencia` |
| AuthSchema.SegundoNombreIrrelevant | src/features/auth/schemas/auth.schema.ts:41 | account validity does not depend on `segundoNombre` |
| AuthSchema.EtniaChoicesMatchTable | src/features/auth/schemas/auth.schema.ts:92 | the `etnia` enum is exactly the value column of the ethnicity table, in order |
| AuthSchema.DefaultsRejected | src/app/auth/signup/components/SignupWizard.tsx:84-118 | the default values pass neither the pre-fill schema nor the combined one |
| AuthSchema.SignupAllPerKey | src/features/auth/schemas/auth.schema.ts:130-137 | replacing one value by one its rule accepts keeps the combined schema satisfied |
| AuthSchema.SignupAllSkipsConfirmation | src/features/auth/schemas/auth.schema.ts:130-137 | the combined schema drops the refinements: any confirmation of 8 or more passes |
| AuthSchema.SignupAllSkipsDigits | src/features/auth/schemas/auth.schema.ts:130-137 | the combined schema accepts any 13 characters as `dpi` |
| StepperHook.Next | src/components/reusable/step/hooks/use-stepper.ts:20-22 | increments only below the step count, keeps the bound, and prev undoes it |
| StepperHook.Prev | src/components/reusable/step/hooks/use-stepper.ts:24-26 | decrements only above 0 and stays within `0..s` |
| StepperHook.Jump | src/components/reusable/step/hooks/use-stepper.ts:28-35 | `setStep(i)` sets `i` iff it is in `0..n`, else leaves the step unchanged |
| StepperHook.PrevNextRoundTrip | src/components/reusable/step/hooks/use-stepper.ts:20-26 | above 0, next after prev returns to the step |
| StepperHook.Stepper.constructor | src/components/reusable/step/hooks/use-stepper.ts:11-12 | the initial step is taken unchecked; the bound holds iff it is in range |
| StepperHook.Stepper.IsOptionalStep | src/components/reusable/step/hooks/use-stepper.ts:17 | false when completed or out of range, else the step's flag defaulting to false |
| StepperHook.Stepper.NextStep | src/components/reusable/step/hooks/use-stepper.ts:20-22 | applies the next updater and keeps the bound |
| StepperHook.Stepper.PrevStep | src/components/reusable/step/hooks/use-stepper.ts:24-26 | applies the prev updater and keeps the bound |
| StepperHook.Stepper.SetStep | src/components/reusable/step/hooks/use-stepper.ts:28-35 | applies `setStep` and keeps the bound |
| StepperHook.Stepper.ResetSteps | src/components/reusable/step/hooks/use-stepper.ts:37-39 | the step becomes 0 whatever it was |
| StepperHook.FlagsAgree | src/components/reusable/step/hooks/use-stepper.ts:14-18 | completed iff at the count; completed is neither last nor optional; disabled iff first |
| StepsView.StatusOf | src/components/reusable/step/stepper.tsx:37-42 | complete iff active > i, current iff active == i, upcoming iff active < i |
| StepsView.BadgeOf | src/components/reusable/step/stepper.tsx:97-128 | a check mark iff complete, else the 1-based number, highlighted iff current |
| StepsView.Fragments | src/components/reusable/step/stepper.tsx:35-70 | one header per child with its label, optional suffix iff the flag is set, and badge; a connector after all but the last, highlighted iff that step is complete |
| StepsView.RenderStep | src/components/reusable/step/stepper.tsx:130-134 | `Step` renders nothing outside a provider and its children inside |
| StepsView.StatusPartition | src/components/reusable/step/stepper.tsx:37-42 | below completion exactly one step is current; at or past it every step is complete |
| StepsView.ConnectorsBetweenPairs | src/components/reusable/step/stepper.tsx:57-67 | exactly `total - 1` connectors are drawn |
| StepsView.ActiveChildrenFrom | src/components/reusable/step/stepper.tsx:75-83 | the mapped children reduce to the active one, if any |
| StepsView.ContentShown | src/components/reusable/step/stepper.tsx:74-90 | only the active child below completion, only the completion message at or past it |
| Wizard.StepsShape | src/app/auth/signup/components/SignupWizard.tsx:26-33 | six descriptors without optional flags; the initial step 5 (line 79) is the last step |
| Wizard.DigitRun | src/app/auth/signup/components/SignupWizard.tsx:137 | `parseInt` reads the longest run of digits of the radix |
| Wizard.ParseDecimal | src/app/auth/signup/components/SignupWizard.tsx:137 | `parseInt` of a non-empty digit string is its decimal value |
| Wizard.ParseInt | src/app/auth/signup/components/SignupWizard.tsx:137 | definition of `parseInt(_, 10)`; characterised by Wizard.ParseDecimal and Wizard.ParseUndefined |
| Wizard.JsIndexOf | src/app/auth/signup/components/SignupWizard.tsx:145 | definition of `indexOf` in UTF-16 units; characterised by Text.IndexOf |
| Wizard.ParseUndefined | src/app/auth/signup/components/SignupWizard.tsx:136-137 | `parseInt` of a missing piece is NaN |
| Wizard.FormatDispatch | src/app/auth/signup/components/SignupWizard.tsx:135-147 | a 10-unit string with "-" is day-first; year-first iff "-" occurs, length is not 10 and the first "-" is at 4; "/" day-first and no-match characterised |
| Wizard.FormatOf | src/app/auth/signup/components/SignupWizard.tsx:135-147 | definition of the branch chosen for a birth-date string; characterised by Wizard.FormatDispatch and Wizard.IsoDateReadDayFirst |
| Wizard.DateOf | src/app/auth/signup/components/SignupWizard.tsx:135-147 | definition of the date read in each branch; characterised by Wizard.DayFirstPieces |
| Wizard.DayFirstPieces | src/app/auth/signup/components/SignupWizard.tsx:136-142 | a day-first string is read as `new Date(year, month - 1, day)` from its three pieces |
| Wizard.AgeIsCompletedYears | src/app/auth/signup/components/SignupWizard.tsx:151-160 | the age is the number of completed years: that birthday has passed, the next has not |
| Wizard.AgeAt | src/app/auth/signup/components/SignupWizard.tsx:149-162 | undefined for no date or a negative age, otherwise the non-negative age |
| Wizard.Age | src/app/auth/signup/components/SignupWizard.tsx:151-161 | definition of the completed-years arithmetic; characterised by Wizard.AgeIsCompletedYears |
| Wizard.AgeOf | src/app/auth/signup/components/SignupWizard.tsx:128-163 | "" gives undefined; otherwise the age of the date read by the format dispatch |
| Wizard.ReadBirthDate | src/app/auth/signup/components/SignupWizard.tsx:132-147 | the reassigning branches compute the dispatched date |
| Wizard.YearsSince | src/app/auth/signup/components/SignupWizard.tsx:151-160 | the decrementing statements compute the completed-years age |
| Wizard.CalculateAge | src/app/auth/signup/components/SignupWizard.tsx:128-163 | the method computes exactly `AgeOf` |
| Wizard.IsoDateReadDayFirst | src/app/auth/signup/components/SignupWizard.tsx:135-138 | as written, "1990-01-15" is read as `new Date(15, 0, 1990)` |
| Wizard.IntendedFormatOf | src/app/auth/signup/components/SignupWizard.tsx:135-147 | corrected dispatch: a first "-" at 4 is year-first; the slash case is unchanged |
| Wizard.IntendedDateOf | src/app/auth/signup/components/SignupWizard.tsx:132-147 | corrected reading: year-first strings go to `new Date(s)`, and it agrees with the written one wherever the dispatches agree |
| Wizard.IntendedReadsIso | src/app/auth/signup/components/SignupWizard.tsx:135-147 | with the corrected order an ISO date is year-first and a dd-mm-yyyy date is still day-first |
| Wizard.Step0ValidIsPreFill | src/app/auth/signup/components/SignupWizard.tsx:122-125 | step 0 is valid iff the watched DPI, or "", passes the pre-fill schema |
| Wizard.FilesSchemaMakesStepValid | src/app/auth/signup/components/forms/6_SignupFilesForm.tsx:33-36 | records the files schema accepts make the files step valid |
| Wizard.FilesStepLooserThanSchema | src/app/auth/signup/components/forms/6_SignupFilesForm.tsx:33-36 | a non-empty string in `pdf_dpi` makes the step valid although the schema rejects it |
| Wizard.ForwardGates | src/app/auth/signup/components/SignupWizard.tsx:417-466 | pre-fill enabled iff step 0, valid DPI and no pre-fill running; next iff steps 1 to 3 and reported valid; submit iff step 5, files valid and not submitting |
| Wizard.FooterOf | src/app/auth/signup/components/SignupWizard.tsx:391-466 | definition of the footer shown at each step, as written; characterised by Wizard.ForwardGates, Wizard.BackAndReset and Wizard.StuckBelowFiles |
| Wizard.Handle | src/app/auth/signup/components/SignupWizard.tsx:279-414 | definition of each button's `onClick` effect; characterised by Wizard.PressKeepsRest, Wizard.SubmitClears and Wizard.PrefillAdvancesOnce |
| Wizard.Pressed | src/app/auth/signup/components/SignupWizard.tsx:391-466 | definition of a press: a hidden or disabled button does nothing; characterised by Wizard.NextNeedsReport, Wizard.OnlySubmitClearsValues and Wizard.NeverCompleted |
| Wizard.BackAndReset | src/app/auth/signup/components/SignupWizard.tsx:391-414 | the completed view shows only reset; "Anterior" disabled exactly at step 0; step 4 shows only "Anterior" |
| Wizard.IntendedFooterOf | src/app/auth/signup/components/SignupWizard.tsx:417-466 | corrected footer: step 4 gets a next button gated by its own report (`step4Valid`, lines 39 and 378); elsewhere unchanged |
| Wizard.IntendedEveryStepAdvances | src/app/auth/signup/components/SignupWizard.tsx:417-466 | with the corrected footer every step before completion can advance once valid |
| Wizard.PressKeepsRest | src/app/auth/signup/components/SignupWizard.tsx:279-466 | no press leaves a pre-fill or submission running or leaves `0..6` |
| Wizard.SubmitClears | src/app/auth/signup/components/SignupWizard.tsx:291-316 | a valid submit resets the step, values and pre-fill marks; an invalid one changes nothing |
| Wizard.OnlySubmitClearsValues | src/app/auth/signup/components/SignupWizard.tsx:307-401 | only the submit changes the form values |
| Wizard.CompletedResetKeepsValues | src/app/auth/signup/components/SignupWizard.tsx:397-401 | the completed-view reset clears step and pre-fill marks but keeps the values |
| Wizard.PrefillAdvancesOnce | src/app/auth/signup/components/SignupWizard.tsx:279-289 | the mock pre-fill moves from step 0 to 1 and changes nothing else |
| Wizard.NextNeedsReport | src/app/auth/signup/components/SignupWizard.tsx:425-456 | steps 1 to 3 advance by one exactly when they reported valid |
| Wizard.StuckBelowFiles | src/app/auth/signup/components/SignupWizard.tsx:417-466 | as written, no press takes a step at or below 4 above 4 |
| Wizard.NeverCompleted | src/app/auth/signup/components/SignupWizard.tsx:391-466 | from the initial step no press reaches the completed view |
| Wizard.IntendedReachesFiles | src/app/auth/signup/components/SignupWizard.tsx:417-466 | with the corrected footer step 4 advances to 5 once valid, and a valid submit follows |
| Wizard.SignupWizard.constructor | src/app/auth/signup/components/SignupWizard.tsx:36-119 | all reports false, no flags set, step 5, default values |
| Wizard.SignupWizard.ReportValidity | src/app/auth/signup/components/SignupWizard.tsx:359-383 | a step's `onValidityChange` sets only that step's report |
| Wizard.SignupWizard.HandlePrefill | src/app/auth/signup/components/SignupWizard.tsx:279-289 | the mock pre-fill advances the step and ends with no pre-fill running |
| Wizard.SignupWizard.HandleSubmit | src/app/auth/signup/components/SignupWizard.tsx:291-316 | the mock submit resets step, pre-fill marks and values and ends with no submission running |
| Wizard.SignupWizard.Press | src/app/auth/signup/components/SignupWizard.tsx:391-466 | pressing a button has exactly the effect of `Pressed`; a hidden or disabled one does nothing |
| PdfViewer.Clamped | src/components/reusable/PDFViewer.tsx:43-48 | definition of `changePage`'s clamp; characterised by PdfViewer.ClampedBounds, PdfViewer.ClampedIdempotent and PdfViewer.EndsAreFixed |
| PdfViewer.ClampedBounds | src/components/reusable/PDFViewer.tsx:43-48 | with pages the page stays within them; before load it is 0; an in-range target is taken as is |
| PdfViewer.ClampedIdempotent | src/components/reusable/PDFViewer.tsx:46 | clamping a clamped page changes nothing |
| PdfViewer.EndsAreFixed | src/components/reusable/PDFViewer.tsx:50-56 | previous on the first page and next on the last are no-ops |
| PdfViewer.CountShown | src/components/reusable/PDFViewer.tsx:90 | "?" iff there are no pages, else the count |
| PdfViewer.Viewer.constructor | src/components/reusable/PDFViewer.tsx:27-30 | no pages, page 1, loading |
| PdfViewer.Viewer.OnLoadSuccess | src/components/reusable/PDFViewer.tsx:32-36 | sets the count, page 1, not loading |
| PdfViewer.Viewer.OnLoadError | src/components/reusable/PDFViewer.tsx:38-41 | only clears the loading flag |
| PdfViewer.Viewer.ChangePage | src/components/reusable/PDFViewer.tsx:43-48 | the page becomes `min(max(1, page + offset), numPages)`; nothing else changes |
| PdfViewer.Viewer.PreviousPage | src/components/reusable/PDFViewer.tsx:50-52 | is `changePage(-1)` |
| PdfViewer.Viewer.NextPage | src/components/reusable/PDFViewer.tsx:54-56 | is `changePage(1)` |
| PdfViewer.ButtonsAgreeWithClamp | src/components/reusable/PDFViewer.tsx:50-96 | an enabled button moves exactly one page; a disabled one's action would keep the page |
| PdfViewer.BeforeLoad | src/components/reusable/PDFViewer.tsx:46-96 | before load both buttons are disabled and a page change gives page 0 |
| PdfViewer.LoadedButtons | src/components/reusable/PDFViewer.tsx:84-96 | previous disabled iff on page 1, next iff on the last page |
| FilterSelect.Matches | src/components/reusable/filters/FilterSelect.tsx:50-51 | definition of the lower-cased `includes` test; characterised by FilterSelect.Keep and FilterSelect.KeepCounts |
| FilterSelect.Keep | src/components/reusable/filters/FilterSelect.tsx:50-51 | `filter` keeps exactly the options whose lowercased label contains the lowercased query |
| FilterSelect.Filtered | src/components/reusable/filters/FilterSelect.tsx:48-52 | all options when not searchable or the query is empty, otherwise exactly the matching ones |
| FilterSelect.KeepAppend | src/components/reusable/filters/FilterSelect.tsx:50-51 | `filter` works entry by entry: filtering a concatenation concatenates the filtered halves |
| FilterSelect.KeepCounts | src/components/reusable/filters/FilterSelect.tsx:50-51 | every copy of a matching option is kept and every other dropped, so duplicates keep their multiplicity |
| FilterSelect.KeepIsSubsequence | src/components/reusable/filters/FilterSelect.tsx:51 | the kept options are a subsequence of the options |
| FilterSelect.FilteredIsSubsequence | src/components/reusable/filters/FilterSelect.tsx:48-52 | `filtered` is always a subsequence of `options` |
| FilterSelect.Current | src/components/reusable/filters/FilterSelect.tsx:54 | `find`: none iff no option has the value, otherwise the first that has it |
| FilterSelect.TriggerCaption | src/components/reusable/filters/FilterSelect.tsx:71 | the placeholder when no option has the value, else that option's label |
| FilterSelect.Items | src/components/reusable/filters/FilterSelect.tsx:89-115 | definition of the entries handed to `<Command>`; characterised by FilterSelect.ItemsShape |
| FilterSelect.ItemsShape | src/components/reusable/filters/FilterSelect.tsx:89-115 | the clear entry appears iff the value is truthy and only first; then the filtered options in order, checked iff equal to the value |
| FilterSelect.Emitted | src/components/reusable/filters/FilterSelect.tsx:94-105 | the clear entry emits undefined, an option its value |
| FilterSelect.Popover.constructor | src/components/reusable/filters/FilterSelect.tsx:45-46 | closed, empty query |
| FilterSelect.Popover.OnOpenChange | src/components/reusable/filters/FilterSelect.tsx:57 | sets only `open` |
| FilterSelect.Popover.OnQueryChange | src/components/reusable/filters/FilterSelect.tsx:82 | sets only the query |
| FilterSelect.Popover.Choose | src/components/reusable/filters/FilterSelect.tsx:93-107 | emits what the entry stands for and closes the popover; the query stays |
| ApiUtils.IsRecordMeans | src/lib/api-utils.ts:6-7 | a record is exactly a plain object: neither null nor an array |
| ApiUtils.StringProp | src/lib/api-utils.ts:19-21 | `typeof v[key] === "string"` holds iff the object has a string under the key |
| ApiUtils.ParseAxiosError | src/lib/api-utils.ts:10-35 | axios: status or 500; message from a record's string `message`, a non-blank string body, or `e.message`; `error` from a non-empty `error`, else `name`, only for records; details the body or `toJSON()` or null; other `Error`s and values give 500 |

## Left out

- Rendering, styling, toasts and console output. They have no effect on the state the model keeps.
- Network clients, fetch hooks, session handling and routing. They live in HTTP, storage and browser events.
- The commented-out real pre-fill and real submit of the wizard. They are not live code.
- PDF zoom. It steps floating-point scales (0.2 steps, clamped to 0.5 and 3.0).
- `formatDateShort` and `cn`. They are Intl formatting and class-name merging.
- `Intl.Collator` sorting of department and municipality options. It is locale data.
- The per-step form components (`SignupCompleteForm` and the rest). They are effect wiring around the schemas.
  - The files step's validity rule is kept, as `Wizard.FilesStepValid`.
- The React effects' timing, batching and stale closures. Each handler is modelled as one atomic state change.
  - `changePage` reads `numPages` from the last render; the model uses the current field.
- Submitting with the Enter key while the submit button is disabled. The model takes a submit only from the enabled button.
- `src/components/reusable/step/stepper-types.ts` is not part of this model. `StepConfig` is modelled from how it is used: a label and an optional flag.
- Text.ToUpper, Text.ToLower, Text.Nfd, Text.IsDiacritic: only ASCII and Latin-1 are modelled: the precomposed Latin-1 letters, `Ÿ`, the spacing accents, and the combining marks of U+0300 to U+036F. Of those marks, only the ones with the Diacritic property count as diacritics: U+0300 to U+034E, U+0350 to U+0357 and U+035D to U+0362. Other Unicode tables, such as the modifier letters from U+02B0, are out of scope.
  - Two Latin-1 letters are exceptions: `ToUpper` leaves `ß` and `µ` as they are. JavaScript upper-cases `ß` to the two characters "SS", so `toUpperCase` does not keep the length, and it maps `µ` to Greek `Μ` (U+039C).
- Text.IsLowerLetter, Text.IsUpperLetter, Text.IsLetter, Text.IsNumber: `\p{Ll}`, `\p{Lu}`, `\p{L}` and `\p{N}` are modelled for ASCII and Latin-1, plus `Ÿ`. Every other letter or number, such as `ő` (U+0151) or the Arabic-Indic digit `٣` (U+0663), falls outside all four classes.
- ClassesNest (Text.ClassesNest): states the nesting of the four class predicates only as they are modelled, for ASCII and Latin-1. It does not speak of Unicode's full categories.
- StrongPatternMeans (AuthSchema.StrongPatternMeans): the equivalence uses the modelled letter and number classes. A character that is a letter or number in Unicode but not in Latin-1 counts here as a symbol. So the model accepts "Abcdefg1ő", which the source's `\p{L}`/`\p{N}` pattern rejects for lack of a symbol.
- FilterSelect.ItemsShape, FilterSelect.Items: the model stops at the entries the component hands to `<Command>`. cmdk filters and re-sorts the rendered `CommandItem`s a second time, by its own fuzzy score of each item's `value` against the search: the option's label, or "__clear__" for the clear entry. So the list on screen can be a re-ordered subset of these entries, and a non-empty query can hide the clear entry. That filter is library code and is not modelled.
- Wizard.DateOf: the JavaScript `Date` constructor, its overflow and two-digit-year rules, and `new Date(string)` are parameters, not modelled.
- Wizard.AgeOf: today's date is a parameter rather than the clock.
- AuthSchema.Accepts: zod's e-mail format is the parameter `isEmail`. `z.instanceof(File)` is modelled as a file value.
- Demographics.CountryCode, Demographics.StatesOf, Demographics.CityList: the `i18n-iso-countries` and country/state/city datasets are parameters.
- OptionTables: "every label is non-empty" is proved only for the ethnicity, sector and budget-line tables. For the larger tables the labels are long literals and the proof costs more than it is worth; their labels are visibly non-empty in the source.
- ApiUtils.ParseAxiosError: `axios.isAxiosError` and `instanceof Error` are modelled as the variants of the thrown value. What `toJSON()` returns is a field of the axios variant.
- Wizard.SignupWizard.Press: the React state cells become class fields. A press changes them all at once; React would render between the `set` calls.

## Findings

| source | as written | input that shows it | evidently intended | confidence | as-written member | corrected member |
|---|---|---|---|---|---|---|
| src/lib/utils.ts:23-134 | `mapColegioApiToValue` is typed to return a `ColegioValue` code. It returns college display names, and "NO APLICA" with a space. | `mapColegioApiToValue(undefined)` gives "NO APLICA", not the code "NO_APLICA"; any recognised college gives a name, not a code | return the `ColegioValue` code of the college | high, not executed | Utils.MapColegioApiToValue, Utils.WrittenNeverACode, Utils.AbsentInput | Utils.MapColegio |
| src/lib/utils.ts:73-89 | the "FARMACEUTICO/QUIMICO" rule comes before the "INGENIEROS QUIMICOS" rule and its keywords cover it, so the latter never fires | "INGENIEROS QUIMICOS" maps to the pharmacists' college | the chemical engineers' rule tried first, as the comment "more specific first" says | medium, not executed | Utils.ChemicalEngineersAsWritten, Utils.ChemicalEngineersInput, Utils.CiqOnlyByAcronym | Utils.ChemicalEngineersIntended, Utils.ChemicalEngineersInputIntended, Utils.MapColegio |
| src/app/auth/signup/components/SignupWizard.tsx:135-147 | the DD-MM-YYYY test (contains "-", length 10) comes first and also catches every ISO date, so the YYYY-MM-DD branch only sees lengths other than 10 | "1990-01-15" is read as `new Date(15, 0, 1990)` | ISO dates read by `new Date(s)` | medium, not executed | Wizard.IsoDateReadDayFirst, Wizard.FormatDispatch | Wizard.IntendedFormatOf, Wizard.IntendedDateOf, Wizard.IntendedReadsIso |
| src/app/auth/signup/components/SignupWizard.tsx:417-466 | step 4 has no advance button, and `step4Valid` (:39, :378) is never read. Once a submit resets the wizard to step 0, the files step and the submit button cannot be reached. | a fresh wizard: submit at step 5, then any sequence of presses | a "Siguiente" button at step 4 gated by `step4Valid`, like steps 1 to 3 | medium, not executed | Wizard.FooterOf, Wizard.StuckBelowFiles | Wizard.IntendedFooterOf, Wizard.IntendedEveryStepAdvances, Wizard.IntendedReachesFiles |

The `SignupWizard` class and `CalculateAge` model the component as written. The corrected definitions sit beside them, each with its intended property proved.
