/** The option tables of the sign-up forms (`ETNIA_OPTIONS` ... `COLEGIO_OPTIONS`).
    Each value union is a datatype; `...Code` gives the string the member stands
    for, `...Label` its caption, and `...Options` is the table in source order. */
module OptionTables {
  /** One `{ value, label }` entry. */
  datatype Entry<V> = Entry(value: V, caption: string)

  /** The `EtniaValue` union. */
  datatype Etnia =
      Maya
    | Xinca
    | Garifuna
    | Ladinos
    | Extranjero
    | Otra

  /** The string each member stands for. */
  function EtniaCode(v: Etnia): string
  {
    match v
    case Maya => "MAYA"
    case Xinca => "XINCA"
    case Garifuna => "GARIFUNA"
    case Ladinos => "LADINOS"
    case Extranjero => "EXTRANJERO"
    case Otra => "OTRA"
  }

  function EtniaLabel(v: Etnia): string
  {
    match v
    case Maya => "Maya"
    case Xinca => "Xinca"
    case Garifuna => "Gar\U{00ED}funa"
    case Ladinos => "Ladinos"
    case Extranjero => "Extranjero"
    case Otra => "Otra"
  }

  /** Position of each member in `ETNIA_OPTIONS`. */
  function EtniaIndex(v: Etnia): nat
  {
    match v
    case Maya => 0
    case Xinca => 1
    case Garifuna => 2
    case Ladinos => 3
    case Extranjero => 4
    case Otra => 5
  }

  /** The values of `ETNIA_OPTIONS`, in table order. */
  const EtniaValues: seq<Etnia> := [Etnia.Maya, Etnia.Xinca, Etnia.Garifuna, Etnia.Ladinos, Etnia.Extranjero, Etnia.Otra]

  /** `ETNIA_OPTIONS`. */
  const EtniaOptions: seq<Entry<Etnia>> := seq(|EtniaValues|, i requires 0 <= i < |EtniaValues| => Entry(EtniaValues[i], EtniaLabel(EtniaValues[i])))

  /** Each table position holds the member whose index it is. */
  lemma EtniaIndexAgrees()
    ensures forall i :: 0 <= i < |EtniaValues| ==> EtniaIndex(EtniaValues[i]) == i
  {
  }

  /** Each member sits at its own index. */
  lemma EtniaValuesCover(v: Etnia)
    ensures EtniaIndex(v) < |EtniaValues| && EtniaValues[EtniaIndex(v)] == v
  {
  }

  /** Distinct members stand for distinct strings, so the table's values are
      distinct as the source's strings too. */
  lemma EtniaCodeInjective(v: Etnia, w: Etnia)
    ensures EtniaCode(v) == EtniaCode(w) ==> v == w
  {
  }

  /** `ETNIA_OPTIONS` has 6 entries, lists every member of the union exactly once, in
      the order of the union. */
  lemma EtniaTable()
    ensures |EtniaOptions| == 6
    ensures forall v: Etnia :: EtniaIndex(v) < |EtniaOptions| && EtniaOptions[EtniaIndex(v)].value == v
    ensures forall i, j :: 0 <= i < j < |EtniaOptions| ==> EtniaOptions[i].value != EtniaOptions[j].value
  {
    EtniaIndexAgrees();
    forall v: Etnia ensures EtniaIndex(v) < |EtniaOptions| && EtniaOptions[EtniaIndex(v)].value == v {
      EtniaValuesCover(v);
    }
    forall i, j | 0 <= i < j < |EtniaOptions| ensures EtniaOptions[i].value != EtniaOptions[j].value {
      assert EtniaIndex(EtniaValues[i]) != EtniaIndex(EtniaValues[j]);
    }
  }

  /** Every entry of `ETNIA_OPTIONS` has a non-empty caption. */
  lemma EtniaCaptions()
    ensures forall i :: 0 <= i < |EtniaOptions| ==> |EtniaOptions[i].caption| > 0
  {
  }

  /** The `SectorValue` union. */
  datatype Sector =
      Cgc
    | SociedadCivil
    | Fideicomisos
    | DefensaSeguridadJusticia
    | EconomiaFinanzasTrabajoPrevision
    | EducacionCienciaCulturaDeportes
    | GobiernosLocalesYConsejos
    | MedioAmbienteYRecursosNaturales
    | OrganismosEInstitucionesApoyo
    | SaludYSeguridadSocial

  /** The string each member stands for. */
  function SectorCode(v: Sector): string
  {
    match v
    case Cgc => "CGC"
    case SociedadCivil => "SOCIEDAD_CIVIL"
    case Fideicomisos => "FIDEICOMISOS"
    case DefensaSeguridadJusticia => "DEFENSA_SEGURIDAD_JUSTICIA"
    case EconomiaFinanzasTrabajoPrevision => "ECONOMIA_FINANZAS_TRABAJO_PREVISION"
    case EducacionCienciaCulturaDeportes => "EDUCACION_CIENCIA_CULTURA_DEPORTES"
    case GobiernosLocalesYConsejos => "GOBIERNOS_LOCALES_Y_CONSEJOS"
    case MedioAmbienteYRecursosNaturales => "MEDIO_AMBIENTE_Y_RECURSOS_NATURALES"
    case OrganismosEInstitucionesApoyo => "ORGANISMOS_E_INSTITUCIONES_APOYO"
    case SaludYSeguridadSocial => "SALUD_Y_SEGURIDAD_SOCIAL"
  }

  function SectorLabel(v: Sector): string
  {
    match v
    case Cgc => "Contralor\U{00ED}a General de Cuentas"
    case SociedadCivil => "Sociedad Civil"
    case Fideicomisos => "Sector Fideicomisos"
    case DefensaSeguridadJusticia => "Sector Defensa, Seguridad y Justicia"
    case EconomiaFinanzasTrabajoPrevision => "Sector Econom\U{00ED}a, Finanzas, Trabajo y Previsi\U{00F3}n Social"
    case EducacionCienciaCulturaDeportes => "Sector Educaci\U{00F3}n, Ciencia, Cultura y Deportes"
    case GobiernosLocalesYConsejos => "Sector Gobiernos Locales y Consejos de Desarrollo"
    case MedioAmbienteYRecursosNaturales => "Sector Medio Ambiente y Recursos Naturales"
    case OrganismosEInstitucionesApoyo => "Sector Organismos e Instituciones de Apoyo"
    case SaludYSeguridadSocial => "Sector Salud y Seguridad Social"
  }

  /** Position of each member in `SECTOR_OPTIONS`. */
  function SectorIndex(v: Sector): nat
  {
    match v
    case Cgc => 0
    case SociedadCivil => 1
    case Fideicomisos => 2
    case DefensaSeguridadJusticia => 3
    case EconomiaFinanzasTrabajoPrevision => 4
    case EducacionCienciaCulturaDeportes => 5
    case GobiernosLocalesYConsejos => 6
    case MedioAmbienteYRecursosNaturales => 7
    case OrganismosEInstitucionesApoyo => 8
    case SaludYSeguridadSocial => 9
  }

  /** The values of `SECTOR_OPTIONS`, in table order. */
  const SectorValues: seq<Sector> := [Sector.Cgc, Sector.SociedadCivil, Sector.Fideicomisos, Sector.DefensaSeguridadJusticia, Sector.EconomiaFinanzasTrabajoPrevision, Sector.EducacionCienciaCulturaDeportes, Sector.GobiernosLocalesYConsejos, Sector.MedioAmbienteYRecursosNaturales, Sector.OrganismosEInstitucionesApoyo, Sector.SaludYSeguridadSocial]

  /** `SECTOR_OPTIONS`. */
  const SectorOptions: seq<Entry<Sector>> := seq(|SectorValues|, i requires 0 <= i < |SectorValues| => Entry(SectorValues[i], SectorLabel(SectorValues[i])))

  /** Each table position holds the member whose index it is. */
  lemma SectorIndexAgrees()
    ensures forall i :: 0 <= i < |SectorValues| ==> SectorIndex(SectorValues[i]) == i
  {
  }

  /** Each member sits at its own index. */
  lemma SectorValuesCover(v: Sector)
    ensures SectorIndex(v) < |SectorValues| && SectorValues[SectorIndex(v)] == v
  {
  }

  /** Distinct members stand for distinct strings, so the table's values are
      distinct as the source's strings too. */
  lemma SectorCodeInjective(v: Sector, w: Sector)
    ensures SectorCode(v) == SectorCode(w) ==> v == w
  {
  }

  /** `SECTOR_OPTIONS` has 10 entries, lists every member of the union exactly once, in
      the order of the union. */
  lemma SectorTable()
    ensures |SectorOptions| == 10
    ensures forall v: Sector :: SectorIndex(v) < |SectorOptions| && SectorOptions[SectorIndex(v)].value == v
    ensures forall i, j :: 0 <= i < j < |SectorOptions| ==> SectorOptions[i].value != SectorOptions[j].value
  {
    SectorIndexAgrees();
    forall v: Sector ensures SectorIndex(v) < |SectorOptions| && SectorOptions[SectorIndex(v)].value == v {
      SectorValuesCover(v);
    }
    forall i, j | 0 <= i < j < |SectorOptions| ensures SectorOptions[i].value != SectorOptions[j].value {
      assert SectorIndex(SectorValues[i]) != SectorIndex(SectorValues[j]);
    }
  }

  /** Every entry of `SECTOR_OPTIONS` has a non-empty caption. */
  lemma SectorCaptions()
    ensures forall i :: 0 <= i < |SectorOptions| ==> |SectorOptions[i].caption| > 0
  {
  }

  /** The `InstitucionValue` union. */
  datatype Institucion =
      NoAplica
    | Almg
    | Anadie
    | Cvb
    | Cnee
    | Cog
    | Congreso
    | Cna
    | Conadi
    | Cgc
    | Conred
    | Cc
    | Empagua
    | EpnStc
    | Enca
    | Fna
    | Idpp
    | Inguat
    | Inap
    | Inab
    | Intecap
    | MancomunidadConoSurJutiapa
    | Mspas
    | Mineduc
    | Mingob
    | MuniGuatemala
    | Pdh
    | Rgp
    | Renap
    | Sat
    | Tse
    | Usac
    | Igss

  /** The string each member stands for. */
  function InstitucionCode(v: Institucion): string
  {
    match v
    case NoAplica => "NO_APLICA"
    case Almg => "ALMG"
    case Anadie => "ANADIE"
    case Cvb => "CVB"
    case Cnee => "CNEE"
    case Cog => "COG"
    case Congreso => "CONGRESO"
    case Cna => "CNA"
    case Conadi => "CONADI"
    case Cgc => "CGC"
    case Conred => "CONRED"
    case Cc => "CC"
    case Empagua => "EMPAGUA"
    case EpnStc => "EPN_STC"
    case Enca => "ENCA"
    case Fna => "FNA"
    case Idpp => "IDPP"
    case Inguat => "INGUAT"
    case Inap => "INAP"
    case Inab => "INAB"
    case Intecap => "INTECAP"
    case MancomunidadConoSurJutiapa => "MANCOMUNIDAD_CONO_SUR_JUTIAPA"
    case Mspas => "MSPAS"
    case Mineduc => "MINEDUC"
    case Mingob => "MINGOB"
    case MuniGuatemala => "MUNI_GUATEMALA"
    case Pdh => "PDH"
    case Rgp => "RGP"
    case Renap => "RENAP"
    case Sat => "SAT"
    case Tse => "TSE"
    case Usac => "USAC"
    case Igss => "IGSS"
  }

  function InstitucionLabel(v: Institucion): string
  {
    match v
    case NoAplica => "NO APLICA"
    case Almg => "Academia de Lenguas Mayas de Guatemala"
    case Anadie => "Agencia Nacional de Alianza para el Desarrollo de Infraestructura Econ\U{00F3}mica (ANADIE)"
    case Cvb => "Benem\U{00E9}rito Cuerpo Voluntario de Bomberos de Guatemala (CVB)"
    case Cnee => "Comisi\U{00F3}n Nacional de Energ\U{00ED}a El\U{00E9}ctrica"
    case Cog => "Comit\U{00E9} Ol\U{00ED}mpico Guatemalteco (COG)"
    case Congreso => "Congreso de la Rep\U{00FA}blica de Guatemala"
    case Cna => "Consejo Nacional de Adopciones (CNA)"
    case Conadi => "Consejo Nacional para la Atenci\U{00F3}n de las Personas con Discapacidad (CONADI)"
    case Cgc => "Contralor\U{00ED}a General de Cuentas"
    case Conred => "Coordinadora Nacional para la Reducci\U{00F3}n de Desastres (CONRED)"
    case Cc => "Corte de Constitucionalidad"
    case Empagua => "Empresa Municipal de Agua \U{2013} EMPAGUA"
    case EpnStc => "Empresa Portuaria Nacional Santo Tom\U{00E1}s de Castilla"
    case Enca => "Escuela Nacional Central de Agricultura (ENCA)"
    case Fna => "Federaci\U{00F3}n Nacional de Ajedrez de Guatemala"
    case Idpp => "Instituto de la Defensa P\U{00FA}blica Penal (IDPP)"
    case Inguat => "Instituto Guatemalteco de Turismo (INGUAT)"
    case Inap => "Instituto Nacional de Administraci\U{00F3}n P\U{00FA}blica (INAP)"
    case Inab => "Instituto Nacional de Bosques (INAB)"
    case Intecap => "Instituto T\U{00E9}cnico de Capacitaci\U{00F3}n y Productividad (INTECAP)"
    case MancomunidadConoSurJutiapa => "Mancomunidad de Municipios del Cono Sur Jutiapa"
    case Mspas => "Ministerio de Salud P\U{00FA}blica y Asistencia Social"
    case Mineduc => "Ministerio de Educaci\U{00F3}n"
    case Mingob => "Ministerio de Gobernaci\U{00F3}n"
    case MuniGuatemala => "Municipalidad de Guatemala"
    case Pdh => "Procuradur\U{00ED}a de los Derechos Humanos (PDH)"
    case Rgp => "Registro General de la Propiedad (RGP)"
    case Renap => "Registro Nacional de las Personas (RENAP)"
    case Sat => "Superintendencia de Administraci\U{00F3}n Tributaria (SAT)"
    case Tse => "Tribunal Supremo Electoral (TSE)"
    case Usac => "Universidad de San Carlos de Guatemala (USAC)"
    case Igss => "Instituto Guatemalteco de Seguridad Social (IGSS)"
  }

  /** Position of each member in `INSTITUCION_OPTIONS`. */
  function InstitucionIndex(v: Institucion): nat
  {
    match v
    case NoAplica => 0
    case Almg => 1
    case Anadie => 2
    case Cvb => 3
    case Cnee => 4
    case Cog => 5
    case Congreso => 6
    case Cna => 7
    case Conadi => 8
    case Cgc => 9
    case Conred => 10
    case Cc => 11
    case Empagua => 12
    case EpnStc => 13
    case Enca => 14
    case Fna => 15
    case Idpp => 16
    case Inguat => 17
    case Inap => 18
    case Inab => 19
    case Intecap => 20
    case MancomunidadConoSurJutiapa => 21
    case Mspas => 22
    case Mineduc => 23
    case Mingob => 24
    case MuniGuatemala => 25
    case Pdh => 26
    case Rgp => 27
    case Renap => 28
    case Sat => 29
    case Tse => 30
    case Usac => 31
    case Igss => 32
  }

  /** The values of `INSTITUCION_OPTIONS`, in table order. */
  const InstitucionValues: seq<Institucion> := [Institucion.NoAplica, Institucion.Almg, Institucion.Anadie, Institucion.Cvb, Institucion.Cnee, Institucion.Cog, Institucion.Congreso, Institucion.Cna, Institucion.Conadi, Institucion.Cgc, Institucion.Conred, Institucion.Cc, Institucion.Empagua, Institucion.EpnStc, Institucion.Enca, Institucion.Fna, Institucion.Idpp, Institucion.Inguat, Institucion.Inap, Institucion.Inab, Institucion.Intecap, Institucion.MancomunidadConoSurJutiapa, Institucion.Mspas, Institucion.Mineduc, Institucion.Mingob, Institucion.MuniGuatemala, Institucion.Pdh, Institucion.Rgp, Institucion.Renap, Institucion.Sat, Institucion.Tse, Institucion.Usac, Institucion.Igss]

  /** `INSTITUCION_OPTIONS`. */
  const InstitucionOptions: seq<Entry<Institucion>> := seq(|InstitucionValues|, i requires 0 <= i < |InstitucionValues| => Entry(InstitucionValues[i], InstitucionLabel(InstitucionValues[i])))

  lemma InstitucionIndexAgrees0()
    ensures forall i :: 0 <= i < 10 ==> InstitucionIndex(InstitucionValues[i]) == i
  {
  }

  lemma InstitucionIndexAgrees10()
    ensures forall i :: 10 <= i < 20 ==> InstitucionIndex(InstitucionValues[i]) == i
  {
  }

  lemma InstitucionIndexAgrees20()
    ensures forall i :: 20 <= i < 30 ==> InstitucionIndex(InstitucionValues[i]) == i
  {
  }

  lemma InstitucionIndexAgrees30()
    ensures forall i :: 30 <= i < 33 ==> InstitucionIndex(InstitucionValues[i]) == i
  {
  }

  /** Each table position holds the member whose index it is. */
  lemma InstitucionIndexAgrees()
    ensures forall i :: 0 <= i < |InstitucionValues| ==> InstitucionIndex(InstitucionValues[i]) == i
  {
    InstitucionIndexAgrees0();
    InstitucionIndexAgrees10();
    InstitucionIndexAgrees20();
    InstitucionIndexAgrees30();
  }

  lemma InstitucionValuesCover0(v: Institucion)
    requires 0 <= InstitucionIndex(v) < 10
    ensures InstitucionValues[InstitucionIndex(v)] == v
  {
    match v
    case NoAplica =>
    case Almg =>
    case Anadie =>
    case Cvb =>
    case Cnee =>
    case Cog =>
    case Congreso =>
    case Cna =>
    case Conadi =>
    case Cgc =>
    case _ =>
  }

  lemma InstitucionValuesCover10(v: Institucion)
    requires 10 <= InstitucionIndex(v) < 20
    ensures InstitucionValues[InstitucionIndex(v)] == v
  {
    match v
    case Conred =>
    case Cc =>
    case Empagua =>
    case EpnStc =>
    case Enca =>
    case Fna =>
    case Idpp =>
    case Inguat =>
    case Inap =>
    case Inab =>
    case _ =>
  }

  lemma InstitucionValuesCover20(v: Institucion)
    requires 20 <= InstitucionIndex(v) < 30
    ensures InstitucionValues[InstitucionIndex(v)] == v
  {
    match v
    case Intecap =>
    case MancomunidadConoSurJutiapa =>
    case Mspas =>
    case Mineduc =>
    case Mingob =>
    case MuniGuatemala =>
    case Pdh =>
    case Rgp =>
    case Renap =>
    case Sat =>
    case _ =>
  }

  lemma InstitucionValuesCover30(v: Institucion)
    requires 30 <= InstitucionIndex(v) < 33
    ensures InstitucionValues[InstitucionIndex(v)] == v
  {
    match v
    case Tse =>
    case Usac =>
    case Igss =>
    case _ =>
  }

  /** Each member sits at its own index. */
  lemma InstitucionValuesCover(v: Institucion)
    ensures InstitucionIndex(v) < |InstitucionValues| && InstitucionValues[InstitucionIndex(v)] == v
  {
    if InstitucionIndex(v) < 10 { InstitucionValuesCover0(v); return; }
    if InstitucionIndex(v) < 20 { InstitucionValuesCover10(v); return; }
    if InstitucionIndex(v) < 30 { InstitucionValuesCover20(v); return; }
    InstitucionValuesCover30(v);
  }

  /** Distinct members stand for distinct strings, so the table's values are
      distinct as the source's strings too. */
  lemma InstitucionCodeInjective(v: Institucion, w: Institucion)
    ensures InstitucionCode(v) == InstitucionCode(w) ==> v == w
  {
  }

  /** `INSTITUCION_OPTIONS` has 33 entries, lists every member of the union exactly once, in
      the order of the union. */
  lemma InstitucionTable()
    ensures |InstitucionOptions| == 33
    ensures forall v: Institucion :: InstitucionIndex(v) < |InstitucionOptions| && InstitucionOptions[InstitucionIndex(v)].value == v
    ensures forall i, j :: 0 <= i < j < |InstitucionOptions| ==> InstitucionOptions[i].value != InstitucionOptions[j].value
  {
    InstitucionIndexAgrees();
    forall v: Institucion ensures InstitucionIndex(v) < |InstitucionOptions| && InstitucionOptions[InstitucionIndex(v)].value == v {
      InstitucionValuesCover(v);
    }
    forall i, j | 0 <= i < j < |InstitucionOptions| ensures InstitucionOptions[i].value != InstitucionOptions[j].value {
      assert InstitucionIndex(InstitucionValues[i]) != InstitucionIndex(InstitucionValues[j]);
    }
  }

  /** The `UbicacionCGCValue` union. */
  datatype Ubicacion =
      NoAplica
    | DespachoGeneral
    | SubPobridad
    | SubCalidadGasto
    | SubAdministrativa
    | InspeccionGeneral
    | SecretariaGeneral
    | Dai
    | Daj
    | Dsi
    | Dtsa
    | Dcom
    | Dprobidad
    | Dcvi
    | Ddelegaciones
    | DaSalud
    | DaEducacion
    | DaDefensa
    | DaAmbiente
    | DaEconomia
    | DaComunicaciones
    | DaMunicipalidades
    | DaOrganismosApoyo
    | DaFideicomisos
    | DaObraPublica
    | DaSistemasNominas
    | DaDenuncias
    | DacAuditoria
    | DAnalisisGestion
    | DContraRevisiones
    | DaPueblosIndigenasVulnerables
    | DAdministrativa
    | DFinanciera
    | DRrhh
    | DPlanificacion
    | DTic
    | DFormacionCapacitacion
    | DCooperacionRrii
    | DDelegaciones2
    | DFortControlInternoUdai
    | DaDesempeno

  /** The string each member stands for. */
  function UbicacionCode(v: Ubicacion): string
  {
    match v
    case NoAplica => "NO_APLICA"
    case DespachoGeneral => "DESPACHO_GENERAL"
    case SubPobridad => "SUB_POBRIDAD"
    case SubCalidadGasto => "SUB_CALIDAD_GASTO"
    case SubAdministrativa => "SUB_ADMINISTRATIVA"
    case InspeccionGeneral => "INSPECCION_GENERAL"
    case SecretariaGeneral => "SECRETARIA_GENERAL"
    case Dai => "DAI"
    case Daj => "DAJ"
    case Dsi => "DSI"
    case Dtsa => "DTSA"
    case Dcom => "DCOM"
    case Dprobidad => "DPROBIDAD"
    case Dcvi => "DCVI"
    case Ddelegaciones => "DDELEGACIONES"
    case DaSalud => "DA_SALUD"
    case DaEducacion => "DA_EDUCACION"
    case DaDefensa => "DA_DEFENSA"
    case DaAmbiente => "DA_AMBIENTE"
    case DaEconomia => "DA_ECONOMIA"
    case DaComunicaciones => "DA_COMUNICACIONES"
    case DaMunicipalidades => "DA_MUNICIPALIDADES"
    case DaOrganismosApoyo => "DA_ORGANISMOS_APOYO"
    case DaFideicomisos => "DA_FIDEICOMISOS"
    case DaObraPublica => "DA_OBRA_PUBLICA"
    case DaSistemasNominas => "DA_SISTEMAS_NOMINAS"
    case DaDenuncias => "DA_DENUNCIAS"
    case DacAuditoria => "DAC_AUDITORIA"
    case DAnalisisGestion => "D_ANALISIS_GESTION"
    case DContraRevisiones => "D_CONTRA_REVISIONES"
    case DaPueblosIndigenasVulnerables => "DA_PUEBLOS_INDIGENAS_VULNERABLES"
    case DAdministrativa => "D_ADMINISTRATIVA"
    case DFinanciera => "D_FINANCIERA"
    case DRrhh => "D_RRHH"
    case DPlanificacion => "D_PLANIFICACION"
    case DTic => "D_TIC"
    case DFormacionCapacitacion => "D_FORMACION_CAPACITACION"
    case DCooperacionRrii => "D_COOPERACION_RRII"
    case DDelegaciones2 => "D_DELEGACIONES_2"
    case DFortControlInternoUdai => "D_FORT_CONTROL_INTERNO_UDAI"
    case DaDesempeno => "DA_DESEMPENO"
  }

  function UbicacionLabel(v: Ubicacion): string
  {
    match v
    case NoAplica => "NO APLICA"
    case DespachoGeneral => "Despacho General"
    case SubPobridad => "Subcontralor\U{00ED}a de Probidad"
    case SubCalidadGasto => "Subcontralor\U{00ED}a de Calidad de Gasto P\U{00FA}blico"
    case SubAdministrativa => "Subcontralor\U{00ED}a Administrativa"
    case InspeccionGeneral => "Inspecci\U{00F3}n General"
    case SecretariaGeneral => "Secretar\U{00ED}a General"
    case Dai => "Direcci\U{00F3}n de Auditor\U{00ED}a Interna"
    case Daj => "Direcci\U{00F3}n de Asuntos Jur\U{00ED}dicos"
    case Dsi => "Direcci\U{00F3}n de Seguridad Integral"
    case Dtsa => "Direcci\U{00F3}n T\U{00E9}cnica Sectorial de Auditor\U{00ED}a"
    case Dcom => "Direcci\U{00F3}n de Comunicaci\U{00F3}n"
    case Dprobidad => "Direcci\U{00F3}n de Probidad"
    case Dcvi => "Direcci\U{00F3}n de Control y Verificaci\U{00F3}n Interinstitucional"
    case Ddelegaciones => "Direcci\U{00F3}n de Delegaciones Departamentales"
    case DaSalud => "Direcci\U{00F3}n de Auditor\U{00ED}a al Sector Salud y Seguridad Social"
    case DaEducacion => "Direcci\U{00F3}n de Auditor\U{00ED}a al Sector Educaci\U{00F3}n, Ciencia, Cultura y Deportes"
    case DaDefensa => "Direcci\U{00F3}n de Auditor\U{00ED}a al Sector Defensa, Seguridad y Justicia"
    case DaAmbiente => "Direcci\U{00F3}n de Auditor\U{00ED}a al Sector Medio Ambiente y Recursos Naturales"
    case DaEconomia => "Direcci\U{00F3}n de Auditor\U{00ED}a al Sector Econom\U{00ED}a, Finanzas, Trabajo y Previsi\U{00F3}n Social"
    case DaComunicaciones => "Direcci\U{00F3}n de Auditor\U{00ED}a al Sector Comunicaciones, Infraestructura P\U{00FA}blica y Vivienda"
    case DaMunicipalidades => "Direcci\U{00F3}n de Auditor\U{00ED}a al Sector Municipalidades y Consejos de Desarrollo"
    case DaOrganismosApoyo => "Direcci\U{00F3}n de Auditor\U{00ED}a al Sector Organismos e Instituciones de Apoyo"
    case DaFideicomisos => "Direcci\U{00F3}n de Auditor\U{00ED}a a Fideicomisos"
    case DaObraPublica => "Direcci\U{00F3}n de Auditor\U{00ED}a a Obra P\U{00FA}blica y Gesti\U{00F3}n Ambiental"
    case DaSistemasNominas => "Direcci\U{00F3}n de Auditor\U{00ED}a a Sistemas Inform\U{00E1}ticos y N\U{00F3}minas de Gobierno"
    case DaDenuncias => "Direcci\U{00F3}n de Auditor\U{00ED}a para Atenci\U{00F3}n a Denuncias"
    case DacAuditoria => "Direcci\U{00F3}n de Aseguramiento de la Calidad de Auditor\U{00ED}a"
    case DAnalisisGestion => "Direcci\U{00F3}n de An\U{00E1}lisis de la Gesti\U{00F3}n P\U{00FA}blica, Monitoreo y Alerta Temprana"
    case DContraRevisiones => "Direcci\U{00F3}n de Contra Revisiones"
    case DaPueblosIndigenasVulnerables => "Direcci\U{00F3}n de Auditor\U{00ED}a a Recursos P\U{00FA}blicos destinados a Pueblos Ind\U{00ED}genas y Pueblos Vulnerables"
    case DAdministrativa => "Direcci\U{00F3}n Administrativa"
    case DFinanciera => "Direcci\U{00F3}n Financiera"
    case DRrhh => "Direcci\U{00F3}n de Recursos Humanos"
    case DPlanificacion => "Direcci\U{00F3}n de Planificaci\U{00F3}n"
    case DTic => "Direcci\U{00F3}n de Tecnolog\U{00ED}as de la Informaci\U{00F3}n y Comunicaci\U{00F3}n"
    case DFormacionCapacitacion => "Direcci\U{00F3}n de Formaci\U{00F3}n y Capacitaci\U{00F3}n en Fiscalizaci\U{00F3}n y de Control Gubernamental"
    case DCooperacionRrii => "Direcci\U{00F3}n de Cooperaci\U{00F3}n y Relaciones Interinstitucionales"
    case DDelegaciones2 => "Direcci\U{00F3}n de Delegaciones Departamentales (duplicada de la 14)"
    case DFortControlInternoUdai => "Direcci\U{00F3}n de Fortalecimiento al Control Interno y de Gesti\U{00F3}n de las Unidades de Auditor\U{00ED}a Interna \U{2013} UDAI"
    case DaDesempeno => "Direcci\U{00F3}n de Auditor\U{00ED}a de Desempe\U{00F1}o"
  }

  /** Position of each member in `UBICACION_CGC_OPTIONS`. */
  function UbicacionIndex(v: Ubicacion): nat
  {
    match v
    case NoAplica => 0
    case DespachoGeneral => 1
    case SubPobridad => 2
    case SubCalidadGasto => 3
    case SubAdministrativa => 4
    case InspeccionGeneral => 5
    case SecretariaGeneral => 6
    case Dai => 7
    case Daj => 8
    case Dsi => 9
    case Dtsa => 10
    case Dcom => 11
    case Dprobidad => 12
    case Dcvi => 13
    case Ddelegaciones => 14
    case DaSalud => 15
    case DaEducacion => 16
    case DaDefensa => 17
    case DaAmbiente => 18
    case DaEconomia => 19
    case DaComunicaciones => 20
    case DaMunicipalidades => 21
    case DaOrganismosApoyo => 22
    case DaFideicomisos => 23
    case DaObraPublica => 24
    case DaSistemasNominas => 25
    case DaDenuncias => 26
    case DacAuditoria => 27
    case DAnalisisGestion => 28
    case DContraRevisiones => 29
    case DaPueblosIndigenasVulnerables => 30
    case DAdministrativa => 31
    case DFinanciera => 32
    case DRrhh => 33
    case DPlanificacion => 34
    case DTic => 35
    case DFormacionCapacitacion => 36
    case DCooperacionRrii => 37
    case DDelegaciones2 => 38
    case DFortControlInternoUdai => 39
    case DaDesempeno => 40
  }

  /** The values of `UBICACION_CGC_OPTIONS`, in table order. */
  const UbicacionValues: seq<Ubicacion> := [Ubicacion.NoAplica, Ubicacion.DespachoGeneral, Ubicacion.SubPobridad, Ubicacion.SubCalidadGasto, Ubicacion.SubAdministrativa, Ubicacion.InspeccionGeneral, Ubicacion.SecretariaGeneral, Ubicacion.Dai, Ubicacion.Daj, Ubicacion.Dsi, Ubicacion.Dtsa, Ubicacion.Dcom, Ubicacion.Dprobidad, Ubicacion.Dcvi, Ubicacion.Ddelegaciones, Ubicacion.DaSalud, Ubicacion.DaEducacion, Ubicacion.DaDefensa, Ubicacion.DaAmbiente, Ubicacion.DaEconomia, Ubicacion.DaComunicaciones, Ubicacion.DaMunicipalidades, Ubicacion.DaOrganismosApoyo, Ubicacion.DaFideicomisos, Ubicacion.DaObraPublica, Ubicacion.DaSistemasNominas, Ubicacion.DaDenuncias, Ubicacion.DacAuditoria, Ubicacion.DAnalisisGestion, Ubicacion.DContraRevisiones, Ubicacion.DaPueblosIndigenasVulnerables, Ubicacion.DAdministrativa, Ubicacion.DFinanciera, Ubicacion.DRrhh, Ubicacion.DPlanificacion, Ubicacion.DTic, Ubicacion.DFormacionCapacitacion, Ubicacion.DCooperacionRrii, Ubicacion.DDelegaciones2, Ubicacion.DFortControlInternoUdai, Ubicacion.DaDesempeno]

  /** `UBICACION_CGC_OPTIONS`. */
  const UbicacionOptions: seq<Entry<Ubicacion>> := seq(|UbicacionValues|, i requires 0 <= i < |UbicacionValues| => Entry(UbicacionValues[i], UbicacionLabel(UbicacionValues[i])))

  lemma UbicacionIndexAgrees0()
    ensures forall i :: 0 <= i < 10 ==> UbicacionIndex(UbicacionValues[i]) == i
  {
  }

  lemma UbicacionIndexAgrees10()
    ensures forall i :: 10 <= i < 20 ==> UbicacionIndex(UbicacionValues[i]) == i
  {
  }

  lemma UbicacionIndexAgrees20()
    ensures forall i :: 20 <= i < 30 ==> UbicacionIndex(UbicacionValues[i]) == i
  {
  }

  lemma UbicacionIndexAgrees30()
    ensures forall i :: 30 <= i < 40 ==> UbicacionIndex(UbicacionValues[i]) == i
  {
  }

  lemma UbicacionIndexAgrees40()
    ensures forall i :: 40 <= i < 41 ==> UbicacionIndex(UbicacionValues[i]) == i
  {
  }

  /** Each table position holds the member whose index it is. */
  lemma UbicacionIndexAgrees()
    ensures forall i :: 0 <= i < |UbicacionValues| ==> UbicacionIndex(UbicacionValues[i]) == i
  {
    UbicacionIndexAgrees0();
    UbicacionIndexAgrees10();
    UbicacionIndexAgrees20();
    UbicacionIndexAgrees30();
    UbicacionIndexAgrees40();
  }

  lemma UbicacionValuesCover0(v: Ubicacion)
    requires 0 <= UbicacionIndex(v) < 10
    ensures UbicacionValues[UbicacionIndex(v)] == v
  {
    match v
    case NoAplica =>
    case DespachoGeneral =>
    case SubPobridad =>
    case SubCalidadGasto =>
    case SubAdministrativa =>
    case InspeccionGeneral =>
    case SecretariaGeneral =>
    case Dai =>
    case Daj =>
    case Dsi =>
    case _ =>
  }

  lemma UbicacionValuesCover10(v: Ubicacion)
    requires 10 <= UbicacionIndex(v) < 20
    ensures UbicacionValues[UbicacionIndex(v)] == v
  {
    match v
    case Dtsa =>
    case Dcom =>
    case Dprobidad =>
    case Dcvi =>
    case Ddelegaciones =>
    case DaSalud =>
    case DaEducacion =>
    case DaDefensa =>
    case DaAmbiente =>
    case DaEconomia =>
    case _ =>
  }

  lemma UbicacionValuesCover20(v: Ubicacion)
    requires 20 <= UbicacionIndex(v) < 30
    ensures UbicacionValues[UbicacionIndex(v)] == v
  {
    match v
    case DaComunicaciones =>
    case DaMunicipalidades =>
    case DaOrganismosApoyo =>
    case DaFideicomisos =>
    case DaObraPublica =>
    case DaSistemasNominas =>
    case DaDenuncias =>
    case DacAuditoria =>
    case DAnalisisGestion =>
    case DContraRevisiones =>
    case _ =>
  }

  lemma UbicacionValuesCover30(v: Ubicacion)
    requires 30 <= UbicacionIndex(v) < 40
    ensures UbicacionValues[UbicacionIndex(v)] == v
  {
    match v
    case DaPueblosIndigenasVulnerables =>
    case DAdministrativa =>
    case DFinanciera =>
    case DRrhh =>
    case DPlanificacion =>
    case DTic =>
    case DFormacionCapacitacion =>
    case DCooperacionRrii =>
    case DDelegaciones2 =>
    case DFortControlInternoUdai =>
    case _ =>
  }

  lemma UbicacionValuesCover40(v: Ubicacion)
    requires 40 <= UbicacionIndex(v) < 41
    ensures UbicacionValues[UbicacionIndex(v)] == v
  {
    match v
    case DaDesempeno =>
    case _ =>
  }

  /** Each member sits at its own index. */
  lemma UbicacionValuesCover(v: Ubicacion)
    ensures UbicacionIndex(v) < |UbicacionValues| && UbicacionValues[UbicacionIndex(v)] == v
  {
    if UbicacionIndex(v) < 10 { UbicacionValuesCover0(v); return; }
    if UbicacionIndex(v) < 20 { UbicacionValuesCover10(v); return; }
    if UbicacionIndex(v) < 30 { UbicacionValuesCover20(v); return; }
    if UbicacionIndex(v) < 40 { UbicacionValuesCover30(v); return; }
    UbicacionValuesCover40(v);
  }

  /** `UBICACION_CGC_OPTIONS` has 41 entries, lists every member of the union exactly once, in
      the order of the union. */
  lemma UbicacionTable()
    ensures |UbicacionOptions| == 41
    ensures forall v: Ubicacion :: UbicacionIndex(v) < |UbicacionOptions| && UbicacionOptions[UbicacionIndex(v)].value == v
    ensures forall i, j :: 0 <= i < j < |UbicacionOptions| ==> UbicacionOptions[i].value != UbicacionOptions[j].value
  {
    UbicacionIndexAgrees();
    forall v: Ubicacion ensures UbicacionIndex(v) < |UbicacionOptions| && UbicacionOptions[UbicacionIndex(v)].value == v {
      UbicacionValuesCover(v);
    }
    forall i, j | 0 <= i < j < |UbicacionOptions| ensures UbicacionOptions[i].value != UbicacionOptions[j].value {
      assert UbicacionIndex(UbicacionValues[i]) != UbicacionIndex(UbicacionValues[j]);
    }
  }

  /** The `RenglonValue` union. */
  datatype Renglon =
      R011PersonalPermanente
    | R029Grupo
    | Subgrupo18022
    | NoAplica
    | R021Renglon

  /** The string each member stands for. */
  function RenglonCode(v: Renglon): string
  {
    match v
    case R011PersonalPermanente => "011_PERSONAL_PERMANENTE"
    case R029Grupo => "029_GRUPO"
    case Subgrupo18022 => "SUBGRUPO_18_022"
    case NoAplica => "NO_APLICA"
    case R021Renglon => "021_RENGLON"
  }

  function RenglonLabel(v: Renglon): string
  {
    match v
    case R011PersonalPermanente => "Personal Permanente (011)"
    case R029Grupo => "Grupo (029)"
    case Subgrupo18022 => "Subgrupo 18 y 022"
    case NoAplica => "NO APLICA"
    case R021Renglon => "Rengl\U{00F3}n 021"
  }

  /** Position of each member in `RENGLON_OPTIONS`. */
  function RenglonIndex(v: Renglon): nat
  {
    match v
    case R011PersonalPermanente => 0
    case R029Grupo => 1
    case Subgrupo18022 => 2
    case NoAplica => 3
    case R021Renglon => 4
  }

  /** The values of `RENGLON_OPTIONS`, in table order. */
  const RenglonValues: seq<Renglon> := [Renglon.R011PersonalPermanente, Renglon.R029Grupo, Renglon.Subgrupo18022, Renglon.NoAplica, Renglon.R021Renglon]

  /** `RENGLON_OPTIONS`. */
  const RenglonOptions: seq<Entry<Renglon>> := seq(|RenglonValues|, i requires 0 <= i < |RenglonValues| => Entry(RenglonValues[i], RenglonLabel(RenglonValues[i])))

  /** Each table position holds the member whose index it is. */
  lemma RenglonIndexAgrees()
    ensures forall i :: 0 <= i < |RenglonValues| ==> RenglonIndex(RenglonValues[i]) == i
  {
  }

  /** Each member sits at its own index. */
  lemma RenglonValuesCover(v: Renglon)
    ensures RenglonIndex(v) < |RenglonValues| && RenglonValues[RenglonIndex(v)] == v
  {
  }

  /** Distinct members stand for distinct strings, so the table's values are
      distinct as the source's strings too. */
  lemma RenglonCodeInjective(v: Renglon, w: Renglon)
    ensures RenglonCode(v) == RenglonCode(w) ==> v == w
  {
  }

  /** `RENGLON_OPTIONS` has 5 entries, lists every member of the union exactly once, in
      the order of the union. */
  lemma RenglonTable()
    ensures |RenglonOptions| == 5
    ensures forall v: Renglon :: RenglonIndex(v) < |RenglonOptions| && RenglonOptions[RenglonIndex(v)].value == v
    ensures forall i, j :: 0 <= i < j < |RenglonOptions| ==> RenglonOptions[i].value != RenglonOptions[j].value
  {
    RenglonIndexAgrees();
    forall v: Renglon ensures RenglonIndex(v) < |RenglonOptions| && RenglonOptions[RenglonIndex(v)].value == v {
      RenglonValuesCover(v);
    }
    forall i, j | 0 <= i < j < |RenglonOptions| ensures RenglonOptions[i].value != RenglonOptions[j].value {
      assert RenglonIndex(RenglonValues[i]) != RenglonIndex(RenglonValues[j]);
    }
  }

  /** Every entry of `RENGLON_OPTIONS` has a non-empty caption. */
  lemma RenglonCaptions()
    ensures forall i :: 0 <= i < |RenglonOptions| ==> |RenglonOptions[i].caption| > 0
  {
  }

  /** The `ColegioValue` union. */
  datatype Colegio =
      NoAplica
    | Humanidades
    | Arquitectos
    | Cpa
    | Ccee
    | Cofaqui
    | Ciag
    | Cig
    | Ciq
    | Cmvz
    | Colmed
    | Psicologos
    | Estomatologico
    | Cang
    | Enfermeria

  /** The string each member stands for. */
  function ColegioCode(v: Colegio): string
  {
    match v
    case NoAplica => "NO_APLICA"
    case Humanidades => "HUMANIDADES"
    case Arquitectos => "ARQUITECTOS"
    case Cpa => "CPA"
    case Ccee => "CCEE"
    case Cofaqui => "COFAQUI"
    case Ciag => "CIAG"
    case Cig => "CIG"
    case Ciq => "CIQ"
    case Cmvz => "CMVZ"
    case Colmed => "COLMED"
    case Psicologos => "PSICOLOGOS"
    case Estomatologico => "ESTOMATOLOGICO"
    case Cang => "CANG"
    case Enfermeria => "ENFERMERIA"
  }

  function ColegioLabel(v: Colegio): string
  {
    match v
    case NoAplica => "NO APLICA"
    case Humanidades => "Colegio Profesional de Humanidades de Guatemala"
    case Arquitectos => "Colegio de Arquitectos de Guatemala"
    case Cpa => "Colegio de Contadores P\U{00FA}blicos y Auditores de Guatemala (CPA)"
    case Ccee => "Colegio de Economistas, Contadores P\U{00FA}blicos y Auditores y Administradores de Empresas (CCEE)"
    case Cofaqui => "Colegio de Farmac\U{00E9}uticos y Qu\U{00ED}micos de Guatemala (COFAQUI)"
    case Ciag => "Colegio de Ingenieros Agr\U{00F3}nomos de Guatemala (CIAG)"
    case Cig => "Colegio de Ingenieros de Guatemala (CIG)"
    case Ciq => "Colegio de Ingenieros Qu\U{00ED}micos de Guatemala (CIQ)"
    case Cmvz => "Colegio de M\U{00E9}dicos Veterinarios y Zootecnistas de Guatemala (CMVZ)"
    case Colmed => "Colegio de M\U{00E9}dicos y Cirujanos de Guatemala (COLMED)"
    case Psicologos => "Colegio de Psic\U{00F3}logos de Guatemala"
    case Estomatologico => "Colegio Estomatol\U{00F3}gico de Guatemala (CEG)"
    case Cang => "Colegio de Abogados y Notarios de Guatemala (CANG)"
    case Enfermeria => "Colegio Profesional de Enfermer\U{00ED}a de Guatemala"
  }

  /** Position of each member in `COLEGIO_OPTIONS`. */
  function ColegioIndex(v: Colegio): nat
  {
    match v
    case NoAplica => 0
    case Humanidades => 1
    case Arquitectos => 2
    case Cpa => 3
    case Ccee => 4
    case Cofaqui => 5
    case Ciag => 6
    case Cig => 7
    case Ciq => 8
    case Cmvz => 9
    case Colmed => 10
    case Psicologos => 11
    case Estomatologico => 12
    case Cang => 13
    case Enfermeria => 14
  }

  /** The values of `COLEGIO_OPTIONS`, in table order. */
  const ColegioValues: seq<Colegio> := [Colegio.NoAplica, Colegio.Humanidades, Colegio.Arquitectos, Colegio.Cpa, Colegio.Ccee, Colegio.Cofaqui, Colegio.Ciag, Colegio.Cig, Colegio.Ciq, Colegio.Cmvz, Colegio.Colmed, Colegio.Psicologos, Colegio.Estomatologico, Colegio.Cang, Colegio.Enfermeria]

  /** `COLEGIO_OPTIONS`. */
  const ColegioOptions: seq<Entry<Colegio>> := seq(|ColegioValues|, i requires 0 <= i < |ColegioValues| => Entry(ColegioValues[i], ColegioLabel(ColegioValues[i])))

  lemma ColegioIndexAgrees0()
    ensures forall i :: 0 <= i < 10 ==> ColegioIndex(ColegioValues[i]) == i
  {
  }

  lemma ColegioIndexAgrees10()
    ensures forall i :: 10 <= i < 15 ==> ColegioIndex(ColegioValues[i]) == i
  {
  }

  /** Each table position holds the member whose index it is. */
  lemma ColegioIndexAgrees()
    ensures forall i :: 0 <= i < |ColegioValues| ==> ColegioIndex(ColegioValues[i]) == i
  {
    ColegioIndexAgrees0();
    ColegioIndexAgrees10();
  }

  lemma ColegioValuesCover0(v: Colegio)
    requires 0 <= ColegioIndex(v) < 10
    ensures ColegioValues[ColegioIndex(v)] == v
  {
    match v
    case NoAplica =>
    case Humanidades =>
    case Arquitectos =>
    case Cpa =>
    case Ccee =>
    case Cofaqui =>
    case Ciag =>
    case Cig =>
    case Ciq =>
    case Cmvz =>
    case _ =>
  }

  lemma ColegioValuesCover10(v: Colegio)
    requires 10 <= ColegioIndex(v) < 15
    ensures ColegioValues[ColegioIndex(v)] == v
  {
    match v
    case Colmed =>
    case Psicologos =>
    case Estomatologico =>
    case Cang =>
    case Enfermeria =>
    case _ =>
  }

  /** Each member sits at its own index. */
  lemma ColegioValuesCover(v: Colegio)
    ensures ColegioIndex(v) < |ColegioValues| && ColegioValues[ColegioIndex(v)] == v
  {
    if ColegioIndex(v) < 10 { ColegioValuesCover0(v); return; }
    ColegioValuesCover10(v);
  }

  /** Distinct members stand for distinct strings, so the table's values are
      distinct as the source's strings too. */
  lemma ColegioCodeInjective(v: Colegio, w: Colegio)
    ensures ColegioCode(v) == ColegioCode(w) ==> v == w
  {
  }

  /** `COLEGIO_OPTIONS` has 15 entries, lists every member of the union exactly once, in
      the order of the union. */
  lemma ColegioTable()
    ensures |ColegioOptions| == 15
    ensures forall v: Colegio :: ColegioIndex(v) < |ColegioOptions| && ColegioOptions[ColegioIndex(v)].value == v
    ensures forall i, j :: 0 <= i < j < |ColegioOptions| ==> ColegioOptions[i].value != ColegioOptions[j].value
  {
    ColegioIndexAgrees();
    forall v: Colegio ensures ColegioIndex(v) < |ColegioOptions| && ColegioOptions[ColegioIndex(v)].value == v {
      ColegioValuesCover(v);
    }
    forall i, j | 0 <= i < j < |ColegioOptions| ensures ColegioOptions[i].value != ColegioOptions[j].value {
      assert ColegioIndex(ColegioValues[i]) != ColegioIndex(ColegioValues[j]);
    }
  }

  /** The tables that offer "no aplica" put it first, except the budget-line
      table, which lists it fourth; the sector table has no such entry. */
  lemma NoAplicaPlacement()
    ensures InstitucionOptions[0].value == Institucion.NoAplica
    ensures UbicacionOptions[0].value == Ubicacion.NoAplica
    ensures ColegioOptions[0].value == Colegio.NoAplica
    ensures RenglonOptions[3].value == Renglon.NoAplica
    ensures forall v: Sector :: SectorCode(v) != "NO_APLICA"
  {
  }

}
