/** The rows of the agency's tables, as the application reads and writes
    them. Ids are the backend's generated keys, money is in integer cents
    and calendar days are day numbers. */
module Records {
  import opened Wrappers

  type Id = string

  /** An amount of money in euro cents. */
  type Cents = int

  /** A calendar day as a day number (days since a fixed epoch). */
  type Day = int

  /** The seven states of a case file, in the order the state selector offers them. */
  datatype Estado =
    | PendienteDocumentos
    | DocumentosCompletos
    | Presentado
    | EnTramite
    | Aprobado
    | Denegado
    | Archivado

  /** The value stored in the `estado` column. */
  function EstadoKey(e: Estado): string {
    match e
    case PendienteDocumentos => "pendiente_documentos"
    case DocumentosCompletos => "documentos_completos"
    case Presentado => "presentado"
    case EnTramite => "en_tramite"
    case Aprobado => "aprobado"
    case Denegado => "denegado"
    case Archivado => "archivado"
  }

  /** Reads a stored `estado` value; anything else is not a state. */
  function ParseEstado(s: string): Option<Estado> {
    if s == "pendiente_documentos" then Some(PendienteDocumentos)
    else if s == "documentos_completos" then Some(DocumentosCompletos)
    else if s == "presentado" then Some(Presentado)
    else if s == "en_tramite" then Some(EnTramite)
    else if s == "aprobado" then Some(Aprobado)
    else if s == "denegado" then Some(Denegado)
    else if s == "archivado" then Some(Archivado)
    else None
  }

  /** The label the case-file page shows for a state. */
  function EstadoLabel(e: Estado): string {
    match e
    case PendienteDocumentos => "Pendiente Documentos"
    case DocumentosCompletos => "Documentos Completos"
    case Presentado => "Presentado"
    case EnTramite => "En Trámite"
    case Aprobado => "Aprobado"
    case Denegado => "Denegado"
    case Archivado => "Archivado"
  }

  /** Stored values and states are in one-to-one correspondence. */
  lemma EstadoKeyRoundTrip(e: Estado, s: string)
    ensures ParseEstado(EstadoKey(e)) == Some(e)
    ensures ParseEstado(s) == Some(e) ==> s == EstadoKey(e)
  {
  }

  /** Distinct states are stored and shown differently. */
  lemma EstadoKeyInjective(e1: Estado, e2: Estado)
    ensures EstadoKey(e1) == EstadoKey(e2) ==> e1 == e2
    ensures EstadoLabel(e1) == EstadoLabel(e2) ==> e1 == e2
  {
  }

  /** The state of one checklist item. */
  datatype DocEstado = Pendiente | Recibido

  /** A row of `clients`. */
  datatype Client = Client(
    id: Id,
    nombre: string,
    apellidos: string,
    email: Option<string>,
    telefono: Option<string>,
    nacionalidad: Option<string>,
    niePasaporte: string,
    fechaVencimientoNie: Option<Day>,
    fechaNacimiento: Option<Day>,
    calle: Option<string>,
    numero: Option<string>,
    piso: Option<string>,
    puerta: Option<string>,
    observaciones: Option<string>)

  /** A row of `tipos_tramite`: one kind of service the agency offers. */
  datatype TipoTramite = TipoTramite(
    id: Id,
    nombre: string,
    codigo: string,
    precioBase: Option<Cents>,
    active: Option<bool>)

  /** A row of `documentos_requeridos`: one item of a tipo's checklist template. */
  datatype DocumentoRequerido = DocumentoRequerido(
    id: Id,
    tipoTramiteId: Option<Id>,
    nombreDocumento: string,
    descripcion: Option<string>,
    orden: Option<int>,
    active: Option<bool>)

  /** A row of `expedientes`: one case file. */
  datatype Expediente = Expediente(
    id: Id,
    numero: string,
    clienteId: Id,
    tipoTramiteId: Id,
    fechaInicio: Day,
    precioAcordado: Option<Cents>,
    observaciones: Option<string>,
    estado: Estado,
    updatedAt: Day)

  /** A row of `expediente_documentos`: one checklist item of a case file. */
  datatype ExpedienteDocumento = ExpedienteDocumento(
    id: Id,
    expedienteId: Id,
    documentoRequeridoId: Option<Id>,
    estado: DocEstado,
    fechaRecibido: Option<string>)

  /** A row of `historial_estados`: one recorded state change. */
  datatype HistorialEntry = HistorialEntry(
    expedienteId: Id,
    anterior: Option<Estado>,
    nuevo: Estado,
    usuarioId: Option<Id>)

  /** A row of `payments`. */
  datatype Payment = Payment(
    id: Id,
    expedienteId: Id,
    clienteId: Id,
    fechaPago: Day,
    importe: Cents,
    metodoPago: Option<string>,
    concepto: Option<string>,
    observaciones: Option<string>)
}
