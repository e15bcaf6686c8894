/** The values held by the sign-up form: one record with a field per form key.
    Keys absent from the form's default values start out `undefined`. */
module FormValues {
  /** A value of one form field as the form library holds it. */
  datatype Field = Undefined | Str(s: string) | Num(x: real) | FileObj(name: string)

  /** The form's keys (the sign-up schemas' keys plus `email` and `confirm_email`,
      which only the default values mention). */
  datatype Key =
      Dpi
    | Email
    | ConfirmEmail
    | CorreoPersonal
    | ConfirmCorreoPersonal
    | CorreoInstitucional
    | ConfirmCorreoInstitucional
    | PrimerNombre
    | SegundoNombre
    | PrimerApellido
    | SegundoApellido
    | Password
    | ConfirmPassword
    | Pais
    | Ciudad
    | Cui
    | Nit
    | Sexo
    | FechaNacimiento
    | Edad
    | DepartamentoResidencia
    | MunicipioResidencia
    | Etnia
    | Telefono
    | Entidad
    | Institucion
    | Dependencia
    | Renglon
    | Profesion
    | Puesto
    | Sector
    | Colegio
    | NumeroColegiado
    | PdfDpi
    | PdfContrato
    | PdfCertificadoProfesional

  datatype Values = Values(
    dpi: Field,
    email: Field,
    confirmEmail: Field,
    correoPersonal: Field,
    confirmCorreoPersonal: Field,
    correoInstitucional: Field,
    confirmCorreoInstitucional: Field,
    primerNombre: Field,
    segundoNombre: Field,
    primerApellido: Field,
    segundoApellido: Field,
    password: Field,
    confirmPassword: Field,
    pais: Field,
    ciudad: Field,
    cui: Field,
    nit: Field,
    sexo: Field,
    fechaNacimiento: Field,
    edad: Field,
    departamentoResidencia: Field,
    municipioResidencia: Field,
    etnia: Field,
    telefono: Field,
    entidad: Field,
    institucion: Field,
    dependencia: Field,
    renglon: Field,
    profesion: Field,
    puesto: Field,
    sector: Field,
    colegio: Field,
    numeroColegiado: Field,
    pdfDpi: Field,
    pdfContrato: Field,
    pdfCertificadoProfesional: Field)

  /** The value held under key `k`. */
  function Get(v: Values, k: Key): Field
  {
    match k
    case Dpi => v.dpi
    case Email => v.email
    case ConfirmEmail => v.confirmEmail
    case CorreoPersonal => v.correoPersonal
    case ConfirmCorreoPersonal => v.confirmCorreoPersonal
    case CorreoInstitucional => v.correoInstitucional
    case ConfirmCorreoInstitucional => v.confirmCorreoInstitucional
    case PrimerNombre => v.primerNombre
    case SegundoNombre => v.segundoNombre
    case PrimerApellido => v.primerApellido
    case SegundoApellido => v.segundoApellido
    case Password => v.password
    case ConfirmPassword => v.confirmPassword
    case Pais => v.pais
    case Ciudad => v.ciudad
    case Cui => v.cui
    case Nit => v.nit
    case Sexo => v.sexo
    case FechaNacimiento => v.fechaNacimiento
    case Edad => v.edad
    case DepartamentoResidencia => v.departamentoResidencia
    case MunicipioResidencia => v.municipioResidencia
    case Etnia => v.etnia
    case Telefono => v.telefono
    case Entidad => v.entidad
    case Institucion => v.institucion
    case Dependencia => v.dependencia
    case Renglon => v.renglon
    case Profesion => v.profesion
    case Puesto => v.puesto
    case Sector => v.sector
    case Colegio => v.colegio
    case NumeroColegiado => v.numeroColegiado
    case PdfDpi => v.pdfDpi
    case PdfContrato => v.pdfContrato
    case PdfCertificadoProfesional => v.pdfCertificadoProfesional
  }

  /** The record that holds `f(k)` under every key `k`. */
  function Build(f: Key -> Field): (r: Values)
    ensures forall j :: Get(r, j) == f(j)
  {
    Values(
      f(Dpi),
      f(Email),
      f(ConfirmEmail),
      f(CorreoPersonal),
      f(ConfirmCorreoPersonal),
      f(CorreoInstitucional),
      f(ConfirmCorreoInstitucional),
      f(PrimerNombre),
      f(SegundoNombre),
      f(PrimerApellido),
      f(SegundoApellido),
      f(Password),
      f(ConfirmPassword),
      f(Pais),
      f(Ciudad),
      f(Cui),
      f(Nit),
      f(Sexo),
      f(FechaNacimiento),
      f(Edad),
      f(DepartamentoResidencia),
      f(MunicipioResidencia),
      f(Etnia),
      f(Telefono),
      f(Entidad),
      f(Institucion),
      f(Dependencia),
      f(Renglon),
      f(Profesion),
      f(Puesto),
      f(Sector),
      f(Colegio),
      f(NumeroColegiado),
      f(PdfDpi),
      f(PdfContrato),
      f(PdfCertificadoProfesional))
  }

  /** `v` with the value under `k` replaced by `x`. */
  function Set(v: Values, k: Key, x: Field): (r: Values)
    ensures Get(r, k) == x
    ensures forall j :: j != k ==> Get(r, j) == Get(v, j)
  {
    Build(j => if j == k then x else Get(v, j))
  }

  /** The form's `defaultValues`. */
  const DefaultValues: Values := Values(
    Str(""),
    Str(""),
    Str(""),
    Undefined,
    Undefined,
    Undefined,
    Undefined,
    Str(""),
    Str(""),
    Str(""),
    Str(""),
    Str(""),
    Str(""),
    Str(""),
    Str(""),
    Str(""),
    Str(""),
    Str(""),
    Undefined,
    Undefined,
    Str(""),
    Str(""),
    Undefined,
    Str(""),
    Str(""),
    Str(""),
    Str(""),
    Str(""),
    Undefined,
    Undefined,
    Undefined,
    Str(""),
    Str(""),
    Undefined,
    Undefined,
    Undefined)

  /** The form instance: the one cell of values the wizard's steps share. */
  class Form {
    var values: Values

    /** A fresh form holds the default values. */
    constructor()
      ensures values == DefaultValues
    {
      values := DefaultValues;
    }

    /** `setValue(k, x)`: replaces one field and leaves every other field as it was. */
    method SetValue(k: Key, x: Field)
      modifies this
      ensures values == Set(old(values), k, x)
      ensures Get(values, k) == x
      ensures forall j :: j != k ==> Get(values, j) == Get(old(values), j)
    {
      values := Set(values, k, x);
    }

    /** `reset()`: back to the default values. */
    method Reset()
      modifies this
      ensures values == DefaultValues
    {
      values := DefaultValues;
    }
  }
}
