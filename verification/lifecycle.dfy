/** The life of a case file: creation from the new-case form (number,
    initial state, seeded checklist, first history row), ticking checklist
    documents with the one automatic state change, and manual state changes. */
module Lifecycle {
  import opened Wrappers
  import opened Text
  import opened Records
  import opened Seqs
  import Numbering

  /** The three tables the case-file screens write. */
  datatype Db = Db(
    expedientes: seq<Expediente>,
    documentos: seq<ExpedienteDocumento>,
    historial: seq<HistorialEntry>)

  // ---------------------------------------------------------------------
  // Lookups
  // ---------------------------------------------------------------------

  /** The first case file with the given id (`.eq("id", id).single()`). */
  function FindExpediente(es: seq<Expediente>, id: Id): (r: Option<Expediente>)
    ensures r.None? <==> forall i :: 0 <= i < |es| ==> es[i].id != id
    ensures r.Some? ==> r.value in es && r.value.id == id
  {
    if es == [] then None
    else if es[0].id == id then Some(es[0])
    else FindExpediente(es[1..], id)
  }

  /** The current state of a case file, if it exists. */
  function EstadoOf(es: seq<Expediente>, id: Id): Option<Estado> {
    match FindExpediente(es, id)
    case Some(e) => Some(e.estado)
    case None => None
  }

  predicate HasCase(es: seq<Expediente>, id: Id) {
    FindExpediente(es, id).Some?
  }

  /** The checklist of one case file, in insertion order. */
  function ChecklistOf(docs: seq<ExpedienteDocumento>, caseId: Id): seq<ExpedienteDocumento> {
    Filter(docs, DocOfCase(caseId))
  }

  /** The test "this checklist row belongs to case file `caseId`". */
  function DocOfCase(caseId: Id): ExpedienteDocumento -> bool {
    (d: ExpedienteDocumento) => d.expedienteId == caseId
  }

  /** The test "this history row belongs to case file `caseId`". */
  function EntryOfCase(caseId: Id): HistorialEntry -> bool {
    (e: HistorialEntry) => e.expedienteId == caseId
  }

  /** The history rows of one case file, oldest first. */
  function HistoryOf(h: seq<HistorialEntry>, caseId: Id): seq<HistorialEntry> {
    Filter(h, EntryOfCase(caseId))
  }

  /** `allDocs.every(d => d.estado_documento === "recibido")` over the case's checklist. */
  predicate AllReceived(docs: seq<ExpedienteDocumento>, caseId: Id) {
    forall i :: 0 <= i < |docs| && docs[i].expedienteId == caseId ==> docs[i].estado == Recibido
  }

  /** The case numbers in creation order. */
  function Numeros(es: seq<Expediente>): seq<string> {
    seq(|es|, i requires 0 <= i < |es| => es[i].numero)
  }

  // ---------------------------------------------------------------------
  // Invariants of the tables
  // ---------------------------------------------------------------------

  /** Every checklist item and history row belongs to an existing case file,
      and every case file has a history whose first row has no previous state. */
  predicate Consistent(db: Db) {
    (forall i :: 0 <= i < |db.documentos| ==> HasCase(db.expedientes, db.documentos[i].expedienteId))
    && (forall i :: 0 <= i < |db.historial| ==> HasCase(db.expedientes, db.historial[i].expedienteId))
    && (forall i :: 0 <= i < |db.expedientes| ==> StartsHistory(HistoryOf(db.historial, db.expedientes[i].id)))
  }

  predicate StartsHistory(h: seq<HistorialEntry>) {
    h != [] && h[0].anterior == None
  }

  /** The newest history row of every case file names its current state. */
  predicate HistoryTracksEstado(db: Db) {
    forall i :: 0 <= i < |db.expedientes| ==> EndsIn(HistoryOf(db.historial, db.expedientes[i].id), db.expedientes[i].estado)
  }

  predicate EndsIn(h: seq<HistorialEntry>, e: Estado) {
    h != [] && h[|h| - 1].nuevo == e
  }

  // ---------------------------------------------------------------------
  // State changes
  // ---------------------------------------------------------------------

  /** `update({ estado: nuevo }).eq("id", expId)` on the case-file table. */
  function SetEstadoRows(es: seq<Expediente>, expId: Id, nuevo: Estado): (r: seq<Expediente>)
    ensures |r| == |es|
    ensures forall i :: 0 <= i < |es| ==> r[i].id == es[i].id
    ensures forall i :: 0 <= i < |es| ==>
      r[i].estado == (if es[i].id == expId then nuevo else es[i].estado) && r[i] == es[i].(estado := r[i].estado)
  {
    seq(|es|, i requires 0 <= i < |es| => if es[i].id == expId then es[i].(estado := nuevo) else es[i])
  }

  /** A state change of one case file. The client only updates the state
      column; `records` says whether the backend appends the history row
      (previous state, new state, acting user) alongside that update. */
  function ChangeEstado(db: Db, expId: Id, nuevo: Estado, user: Option<Id>, records: bool): (r: Db)
    ensures r.documentos == db.documentos
    ensures |r.historial| == |db.historial| + (if records && HasCase(db.expedientes, expId) then 1 else 0)
  {
    var es := SetEstadoRows(db.expedientes, expId, nuevo);
    var anterior := EstadoOf(db.expedientes, expId);
    if records && anterior.Some? then
      Db(es, db.documentos, db.historial + [HistorialEntry(expId, anterior, nuevo, user)])
    else
      Db(es, db.documentos, db.historial)
  }

  lemma {:induction false} FindSetEstado(es: seq<Expediente>, expId: Id, nuevo: Estado, id: Id)
    ensures FindExpediente(SetEstadoRows(es, expId, nuevo), id)
         == (match FindExpediente(es, id)
             case None => None
             case Some(e) => Some(if id == expId then e.(estado := nuevo) else e))
    decreases |es|
  {
    if es != [] {
      assert SetEstadoRows(es, expId, nuevo)[1..] == SetEstadoRows(es[1..], expId, nuevo);
      FindSetEstado(es[1..], expId, nuevo, id);
    }
  }

  /** A state change sets the state of the named case file, when it exists,
      and leaves every other case file's state as it was. */
  lemma ChangeEstadoEffect(db: Db, expId: Id, nuevo: Estado, user: Option<Id>, records: bool, id: Id)
    ensures var r := ChangeEstado(db, expId, nuevo, user, records);
      EstadoOf(r.expedientes, id)
        == (if id == expId && HasCase(db.expedientes, id) then Some(nuevo) else EstadoOf(db.expedientes, id))
  {
    FindSetEstado(db.expedientes, expId, nuevo, id);
  }

  /** With the backend recording, a state change appends exactly one row to
      the case file's history, naming the previous and the new state; other
      case files' histories are untouched. */
  lemma ChangeEstadoHistory(db: Db, expId: Id, nuevo: Estado, user: Option<Id>, id: Id)
    requires HasCase(db.expedientes, expId)
    ensures var r := ChangeEstado(db, expId, nuevo, user, true);
      HistoryOf(r.historial, id)
        == HistoryOf(db.historial, id)
         + (if id == expId then [HistorialEntry(expId, EstadoOf(db.expedientes, expId), nuevo, user)] else [])
  {
    var x := HistorialEntry(expId, EstadoOf(db.expedientes, expId), nuevo, user);
    FilterAppend(db.historial, [x], EntryOfCase(id));
  }

  /** Setting a case file to the state it already has still appends a history row. */
  lemma SameEstadoStillRecorded(db: Db, expId: Id, user: Option<Id>)
    requires HasCase(db.expedientes, expId)
    ensures var r := ChangeEstado(db, expId, EstadoOf(db.expedientes, expId).value, user, true);
      |HistoryOf(r.historial, expId)| == |HistoryOf(db.historial, expId)| + 1
      && EstadoOf(r.expedientes, expId) == EstadoOf(db.expedientes, expId)
  {
    var n := EstadoOf(db.expedientes, expId).value;
    ChangeEstadoHistory(db, expId, n, user, expId);
    ChangeEstadoEffect(db, expId, n, user, true, expId);
  }

  lemma HasCaseAfterSetEstado(es: seq<Expediente>, expId: Id, nuevo: Estado, id: Id)
    ensures HasCase(SetEstadoRows(es, expId, nuevo), id) == HasCase(es, id)
  {
    FindSetEstado(es, expId, nuevo, id);
  }

  /** A history that starts properly keeps its first row when rows are appended. */
  lemma StartsHistoryAppend(h: seq<HistorialEntry>, x: HistorialEntry, id: Id)
    requires StartsHistory(HistoryOf(h, id))
    ensures StartsHistory(HistoryOf(h + [x], id))
  {
    FilterAppend(h, [x], EntryOfCase(id));
  }

  /** State changes keep the tables consistent, whether or not the backend records them. */
  lemma ChangeEstadoKeepsConsistent(db: Db, expId: Id, nuevo: Estado, user: Option<Id>, records: bool)
    requires Consistent(db)
    ensures Consistent(ChangeEstado(db, expId, nuevo, user, records))
  {
    var r := ChangeEstado(db, expId, nuevo, user, records);
    forall id: Id ensures HasCase(r.expedientes, id) == HasCase(db.expedientes, id) {
      HasCaseAfterSetEstado(db.expedientes, expId, nuevo, id);
    }
    forall i | 0 <= i < |r.historial| ensures HasCase(r.expedientes, r.historial[i].expedienteId) {
      if i < |db.historial| {
        assert r.historial[i] == db.historial[i];
      } else {
        assert r.historial[i].expedienteId == expId;
      }
    }
    forall i | 0 <= i < |r.expedientes| ensures StartsHistory(HistoryOf(r.historial, r.expedientes[i].id)) {
      var id := db.expedientes[i].id;
      if r.historial != db.historial {
        StartsHistoryAppend(db.historial, r.historial[|r.historial| - 1], id);
        assert r.historial == db.historial + [r.historial[|r.historial| - 1]];
      }
    }
  }

  /** With the backend recording, state changes keep each case file's newest
      history row in step with its state. */
  lemma RecordedChangeTracksEstado(db: Db, expId: Id, nuevo: Estado, user: Option<Id>)
    requires HistoryTracksEstado(db)
    ensures HistoryTracksEstado(ChangeEstado(db, expId, nuevo, user, true))
  {
    var r := ChangeEstado(db, expId, nuevo, user, true);
    forall i | 0 <= i < |r.expedientes| ensures EndsIn(HistoryOf(r.historial, r.expedientes[i].id), r.expedientes[i].estado) {
      RecordedChangeTracksRow(db, expId, nuevo, user, i);
    }
  }

  lemma RecordedChangeTracksRow(db: Db, expId: Id, nuevo: Estado, user: Option<Id>, i: nat)
    requires i < |db.expedientes|
    requires EndsIn(HistoryOf(db.historial, db.expedientes[i].id), db.expedientes[i].estado)
    ensures var r := ChangeEstado(db, expId, nuevo, user, true);
      EndsIn(HistoryOf(r.historial, r.expedientes[i].id), r.expedientes[i].estado)
  {
    var r := ChangeEstado(db, expId, nuevo, user, true);
    var id := db.expedientes[i].id;
    if !HasCase(db.expedientes, expId) {
      assert r.historial == db.historial;
      assert r.expedientes[i] == db.expedientes[i];
    } else {
      ChangeEstadoHistory(db, expId, nuevo, user, id);
      ChangedRowEstado(db, expId, nuevo, user, i);
      EndsInAppended(HistoryOf(db.historial, id), id == expId,
                     HistorialEntry(expId, EstadoOf(db.expedientes, expId), nuevo, user),
                     HistoryOf(r.historial, id), db.expedientes[i].estado);
    }
  }

  lemma ChangedRowEstado(db: Db, expId: Id, nuevo: Estado, user: Option<Id>, i: nat)
    requires i < |db.expedientes|
    ensures var r := ChangeEstado(db, expId, nuevo, user, true);
      i < |r.expedientes| && r.expedientes[i].id == db.expedientes[i].id
      && r.expedientes[i].estado == if db.expedientes[i].id == expId then nuevo else db.expedientes[i].estado
  {
  }

  /** A history that ends in `e` ends in the appended row's state, or in `e`
      when nothing is appended. */
  lemma EndsInAppended(h: seq<HistorialEntry>, appended: bool, x: HistorialEntry, h2: seq<HistorialEntry>, e: Estado)
    requires EndsIn(h, e)
    requires h2 == h + (if appended then [x] else [])
    ensures EndsIn(h2, if appended then x.nuevo else e)
  {
  }

  /** Without the backend recording, a state change to a different state
      leaves the case file's newest history row behind its state. */
  lemma UnrecordedChangeLosesTrack(db: Db, expId: Id, nuevo: Estado, user: Option<Id>)
    requires HistoryTracksEstado(db)
    requires EstadoOf(db.expedientes, expId).Some? && EstadoOf(db.expedientes, expId) != Some(nuevo)
    ensures !HistoryTracksEstado(ChangeEstado(db, expId, nuevo, user, false))
  {
    var r := ChangeEstado(db, expId, nuevo, user, false);
    var e := FindExpediente(db.expedientes, expId).value;
    var i :| 0 <= i < |db.expedientes| && db.expedientes[i] == e;
    assert EndsIn(HistoryOf(db.historial, expId), e.estado);
    assert r.expedientes[i].estado == nuevo;
  }

  // ---------------------------------------------------------------------
  // Ticking checklist documents
  // ---------------------------------------------------------------------

  /** One checklist item after being ticked (received today) or unticked. */
  function Marked(d: ExpedienteDocumento, checked: bool, now: string): ExpedienteDocumento {
    d.(estado := if checked then Recibido else Pendiente,
       fechaRecibido := if checked then Some(now) else None)
  }

  /** The checklist update `update(...).eq("id", docId)`. */
  function MarkDocumento(docs: seq<ExpedienteDocumento>, docId: Id, checked: bool, now: string): (r: seq<ExpedienteDocumento>)
    ensures |r| == |docs|
    ensures forall i :: 0 <= i < |docs| && docs[i].id != docId ==> r[i] == docs[i]
    ensures forall i :: 0 <= i < |docs| && docs[i].id == docId ==>
      r[i].estado == (if checked then Recibido else Pendiente)
      && r[i].fechaRecibido == (if checked then Some(now) else None)
      && r[i].(estado := docs[i].estado, fechaRecibido := docs[i].fechaRecibido) == docs[i]
  {
    seq(|docs|, i requires 0 <= i < |docs| => if docs[i].id == docId then Marked(docs[i], checked, now) else docs[i])
  }

  /** Ticking or unticking a checklist document on a case-file page. `shown`
      is the case file's state as the page last loaded it; when afterwards
      every item of the case's checklist is received and `shown` is
      pending-documents, the page moves the case file to documents-complete. */
  function ToggleDocumento(db: Db, expId: Id, shown: Estado, docId: Id, checked: bool, now: string,
                           user: Option<Id>, records: bool): (r: Db)
    ensures |r.documentos| == |db.documentos|
    ensures forall i :: 0 <= i < |db.documentos| && db.documentos[i].id != docId ==> r.documentos[i] == db.documentos[i]
    ensures forall i :: 0 <= i < |db.documentos| && db.documentos[i].id == docId ==>
      r.documentos[i].estado == (if checked then Recibido else Pendiente)
      && r.documentos[i].fechaRecibido == (if checked then Some(now) else None)
      && r.documentos[i].(estado := db.documentos[i].estado, fechaRecibido := db.documentos[i].fechaRecibido) == db.documentos[i]
  {
    var docs := MarkDocumento(db.documentos, docId, checked, now);
    var db1 := db.(documentos := docs);
    if AllReceived(docs, expId) && shown == PendienteDocumentos then
      ChangeEstado(db1, expId, DocumentosCompletos, user, records)
    else
      db1
  }

  /** With the page showing the current state, the case file's state after a
      tick is documents-complete exactly when it was pending-documents and the
      whole checklist is now received; otherwise it is what it was. Other case
      files keep their states. */
  lemma ToggleEstado(db: Db, expId: Id, docId: Id, checked: bool, now: string, user: Option<Id>, records: bool, id: Id)
    requires EstadoOf(db.expedientes, expId).Some?
    ensures var shown := EstadoOf(db.expedientes, expId).value;
      var r := ToggleDocumento(db, expId, shown, docId, checked, now, user, records);
      EstadoOf(r.expedientes, id)
        == if id == expId && shown == PendienteDocumentos && AllReceived(r.documentos, expId)
           then Some(DocumentosCompletos)
           else EstadoOf(db.expedientes, id)
  {
    var shown := EstadoOf(db.expedientes, expId).value;
    var db1 := db.(documentos := MarkDocumento(db.documentos, docId, checked, now));
    ChangeEstadoEffect(db1, expId, DocumentosCompletos, user, records, id);
  }

  /** The automatic transition writes exactly one history row, from
      pending-documents to documents-complete, when the backend records. */
  lemma ToggleHistory(db: Db, expId: Id, docId: Id, checked: bool, now: string, user: Option<Id>)
    requires EstadoOf(db.expedientes, expId) == Some(PendienteDocumentos)
    ensures var r := ToggleDocumento(db, expId, PendienteDocumentos, docId, checked, now, user, true);
      HistoryOf(r.historial, expId)
        == HistoryOf(db.historial, expId)
         + (if AllReceived(r.documentos, expId)
            then [HistorialEntry(expId, Some(PendienteDocumentos), DocumentosCompletos, user)]
            else [])
  {
    var db1 := db.(documentos := MarkDocumento(db.documentos, docId, checked, now));
    if AllReceived(db1.documentos, expId) {
      ChangeEstadoHistory(db1, expId, DocumentosCompletos, user, expId);
    }
  }

  /** Unticking one of the case's own documents never changes any state:
      the transition is one-way. */
  lemma UntickNeverReverts(db: Db, expId: Id, shown: Estado, docId: Id, now: string, user: Option<Id>, records: bool, k: nat)
    requires k < |db.documentos| && db.documentos[k].id == docId && db.documentos[k].expedienteId == expId
    ensures ToggleDocumento(db, expId, shown, docId, false, now, user, records)
         == db.(documentos := MarkDocumento(db.documentos, docId, false, now))
  {
    var docs := MarkDocumento(db.documentos, docId, false, now);
    assert docs[k].estado == Pendiente && docs[k].expedienteId == expId;
  }

  /** While another document of the case is still pending, ticking leaves every state unchanged. */
  lemma PendingDocumentBlocks(db: Db, expId: Id, shown: Estado, docId: Id, checked: bool, now: string,
                              user: Option<Id>, records: bool, k: nat)
    requires k < |db.documentos| && db.documentos[k].id != docId
    requires db.documentos[k].expedienteId == expId && db.documentos[k].estado == Pendiente
    ensures ToggleDocumento(db, expId, shown, docId, checked, now, user, records).expedientes == db.expedientes
  {
    var docs := MarkDocumento(db.documentos, docId, checked, now);
    assert docs[k] == db.documentos[k];
  }

  /** Ticking and then unticking a document that was pending restores the checklist. */
  lemma UntickUndoesTick(docs: seq<ExpedienteDocumento>, docId: Id, now: string, later: string)
    requires forall i :: 0 <= i < |docs| && docs[i].id == docId ==> docs[i].estado == Pendiente && docs[i].fechaRecibido == None
    ensures MarkDocumento(MarkDocumento(docs, docId, true, now), docId, false, later) == docs
  {
    var r := MarkDocumento(MarkDocumento(docs, docId, true, now), docId, false, later);
    forall i | 0 <= i < |docs| ensures r[i] == docs[i] {
    }
  }

  /** Ticking documents keeps the tables consistent. */
  lemma ToggleKeepsConsistent(db: Db, expId: Id, shown: Estado, docId: Id, checked: bool, now: string,
                              user: Option<Id>, records: bool)
    requires Consistent(db)
    ensures Consistent(ToggleDocumento(db, expId, shown, docId, checked, now, user, records))
  {
    var db1 := db.(documentos := MarkDocumento(db.documentos, docId, checked, now));
    assert Consistent(db1);
    ChangeEstadoKeepsConsistent(db1, expId, DocumentosCompletos, user, records);
  }

  // ---------------------------------------------------------------------
  // The new-case form
  // ---------------------------------------------------------------------

  /** The new-case form's fields; the start date is the picked day, absent
      until one is picked. */
  datatype ExpedienteValues = ExpedienteValues(
    clienteId: string,
    tipoTramiteId: string,
    fechaInicio: Option<Day>,
    precioAcordado: string,
    observaciones: string)

  datatype ExpedienteField = ClienteField | TipoTramiteField | FechaInicioField

  /** The form as it opens. */
  function ExpedienteDefaults(): ExpedienteValues {
    ExpedienteValues("", "", None, "0", "")
  }

  /** The fields the form's schema rejects: a client and a tipo must be
      chosen and a start date picked; the price (`min(0)` on a string) and
      the notes accept anything. */
  function ExpedienteErrors(v: ExpedienteValues): (errs: set<ExpedienteField>)
    ensures errs == {} <==> v.clienteId != "" && v.tipoTramiteId != "" && v.fechaInicio.Some?
  {
    (if v.clienteId == "" then {ClienteField} else {})
    + (if v.tipoTramiteId == "" then {TipoTramiteField} else {})
    + (if v.fechaInicio.None? then {FechaInicioField} else {})
  }

  /** The form as it opens cannot be submitted, and the price and notes never block it. */
  lemma ExpedienteDefaultsRejected(v: ExpedienteValues, precio: string, obs: string)
    ensures ExpedienteErrors(ExpedienteDefaults()) == {ClienteField, TipoTramiteField, FechaInicioField}
    ensures ExpedienteErrors(v.(precioAcordado := precio, observaciones := obs)) == ExpedienteErrors(v)
  {
  }

  /** The tipos the form offers: the active ones. */
  function ActiveTipos(tipos: seq<TipoTramite>): seq<TipoTramite> {
    Filter(tipos, (t: TipoTramite) => t.active == Some(true))
  }

  /** `tiposTramite.find((t) => t.id === tipoTramiteId)`. */
  function FindTipo(tipos: seq<TipoTramite>, id: Id): (r: Option<TipoTramite>)
    ensures r.None? <==> forall i :: 0 <= i < |tipos| ==> tipos[i].id != id
    ensures r.Some? ==> r.value in tipos && r.value.id == id
  {
    if tipos == [] then None
    else if tipos[0].id == id then Some(tipos[0])
    else FindTipo(tipos[1..], id)
  }

  /** Choosing a tipo copies its base price into the price field, but only
      when the price is set and non-zero (`precio_base` must be truthy);
      `show` writes a price the way the field displays it. */
  function TipoTramiteChange(tipos: seq<TipoTramite>, tipoId: Id, precio: string, show: Cents -> string): (r: string)
    ensures r == precio
         || exists t :: t in tipos && t.id == tipoId && t.active == Some(true) && t.precioBase.Some? && t.precioBase.value != 0 && r == show(t.precioBase.value)
  {
    match FindTipo(ActiveTipos(tipos), tipoId)
    case Some(t) => if t.precioBase.Some? && t.precioBase.value != 0 then show(t.precioBase.value) else precio
    case None => precio
  }

  /** A tipo whose base price is zero, unset or inactive leaves the typed price alone. */
  lemma TipoTramiteChangeKeeps(tipos: seq<TipoTramite>, tipoId: Id, precio: string, show: Cents -> string)
    requires forall i :: 0 <= i < |tipos| && tipos[i].id == tipoId ==>
      tipos[i].active != Some(true) || tipos[i].precioBase.None? || tipos[i].precioBase == Some(0)
    ensures TipoTramiteChange(tipos, tipoId, precio, show) == precio
  {
    var f := FindTipo(ActiveTipos(tipos), tipoId);
    if f.Some? {
      assert f.value in tipos;
    }
  }

  /** Choosing an offered tipo with a non-zero base price copies that price
      into the field (ids are unique, being the table's primary key). */
  lemma TipoTramiteChangeCopies(tipos: seq<TipoTramite>, i: nat, precio: string, show: Cents -> string)
    requires i < |tipos|
    requires forall j :: 0 <= j < |tipos| && tipos[j].id == tipos[i].id ==> j == i
    requires tipos[i].active == Some(true) && tipos[i].precioBase.Some? && tipos[i].precioBase.value != 0
    ensures TipoTramiteChange(tipos, tipos[i].id, precio, show) == show(tipos[i].precioBase.value)
  {
  }

  // ---------------------------------------------------------------------
  // Creating a case file
  // ---------------------------------------------------------------------

  /** The four backend calls of a submission, in order, plus the read of the
      latest number; a failing call aborts the submission, and what earlier
      calls wrote stays written. */
  datatype CreateStep = ReadLatest | InsertCase | ReadRequirements | SeedChecklist | InsertHistory

  /** The tables after a submission, and whether it completed. */
  datatype Written = Written(db: Db, ok: bool)

  /** The active checklist template of a tipo (`.eq("tipo_tramite_id", tipo).eq("active", true)`). */
  function ActiveRequirements(reqs: seq<DocumentoRequerido>, tipoId: Id): seq<DocumentoRequerido> {
    Filter(reqs, (q: DocumentoRequerido) => q.tipoTramiteId == Some(tipoId) && q.active == Some(true))
  }

  /** One pending checklist item per template entry; `docId` stands for the
      backend's generated ids. */
  function Seed(active: seq<DocumentoRequerido>, caseId: Id, docId: nat -> Id): seq<ExpedienteDocumento> {
    seq(|active|, k requires 0 <= k < |active| => ExpedienteDocumento(docId(k), caseId, Some(active[k].id), Pendiente, None))
  }

  /** The number the next case file of `year` gets. */
  function NextNumero(es: seq<Expediente>, year: int): string {
    Numbering.NextNumero(Numeros(es), year)
  }

  /** A case-file row carries the form's client, tipo and start date, the
      price as `parsePrice` reads it and the notes or null. */
  predicate InsertedFrom(e: Expediente, v: ExpedienteValues, parsePrice: string -> Option<Cents>) {
    e.clienteId == v.clienteId && e.tipoTramiteId == v.tipoTramiteId
    && v.fechaInicio == Some(e.fechaInicio)
    && e.precioAcordado == parsePrice(v.precioAcordado)
    && e.observaciones == OrNull(v.observaciones)
  }

  /** The inserted case-file row: the next number, the chosen client and tipo,
      the parsed price, notes or null, pending documents. */
  function NewCase(es: seq<Expediente>, v: ExpedienteValues, year: int, caseId: Id, now: Day,
                   parsePrice: string -> Option<Cents>): (e: Expediente)
    requires v.fechaInicio.Some?
    ensures e.id == caseId && e.estado == PendienteDocumentos && e.numero == NextNumero(es, year)
    ensures InsertedFrom(e, v, parsePrice)
  {
    Expediente(caseId, NextNumero(es, year), v.clienteId, v.tipoTramiteId, v.fechaInicio.value,
               parsePrice(v.precioAcordado), OrNull(v.observaciones), PendienteDocumentos, now)
  }

  /** Submitting the new-case form: number the case file, insert it as
      pending-documents, seed its checklist from the tipo's active template
      (no insert when the template is empty) and write the first history row.
      `parsePrice` is `parseFloat` on the price field (absent for NaN),
      `failAt` the call that fails, if any. */
  function CreateExpediente(db: Db, v: ExpedienteValues, year: int, caseId: Id, now: Day,
                            reqs: seq<DocumentoRequerido>, docId: nat -> Id, user: Option<Id>,
                            parsePrice: string -> Option<Cents>, failAt: Option<CreateStep>): (w: Written)
    ensures w.ok <==> ExpedienteErrors(v) == {} && failAt != Some(ReadLatest) && failAt != Some(InsertCase)
                      && failAt != Some(ReadRequirements) && failAt != Some(InsertHistory)
                      && !(failAt == Some(SeedChecklist) && ActiveRequirements(reqs, v.tipoTramiteId) != [])
    ensures !w.ok && (ExpedienteErrors(v) != {} || failAt == Some(ReadLatest) || failAt == Some(InsertCase)) ==> w.db == db
  {
    if ExpedienteErrors(v) != {} || failAt == Some(ReadLatest) || failAt == Some(InsertCase) then
      Written(db, false)
    else
      var e := NewCase(db.expedientes, v, year, caseId, now, parsePrice);
      var db1 := db.(expedientes := db.expedientes + [e]);
      var seeded := Seed(ActiveRequirements(reqs, v.tipoTramiteId), caseId, docId);
      if failAt == Some(ReadRequirements) || (seeded != [] && failAt == Some(SeedChecklist)) then
        Written(db1, false)
      else
        var db2 := db1.(documentos := db1.documentos + seeded);
        if failAt == Some(InsertHistory) then
          Written(db2, false)
        else
          Written(db2.(historial := db2.historial + [HistorialEntry(caseId, None, PendienteDocumentos, user)]), true)
  }

  lemma {:induction false} FindAppend(es: seq<Expediente>, e: Expediente, id: Id)
    ensures FindExpediente(es + [e], id)
         == if HasCase(es, id) then FindExpediente(es, id) else if e.id == id then Some(e) else None
    decreases |es|
  {
    if es == [] {
      assert es + [e] == [e];
    } else {
      assert (es + [e])[1..] == es[1..] + [e];
      FindAppend(es[1..], e, id);
    }
  }

  /** A fresh id has no checklist and no history in consistent tables. */
  lemma FreshCaseIsBare(db: Db, caseId: Id)
    requires Consistent(db) && !HasCase(db.expedientes, caseId)
    ensures ChecklistOf(db.documentos, caseId) == []
    ensures HistoryOf(db.historial, caseId) == []
  {
    FilterNone(db.documentos, DocOfCase(caseId));
    FilterNone(db.historial, EntryOfCase(caseId));
  }

  /** A submission refused by the schema or failing before the case insert
      leaves the case files alone; one that gets past it adds exactly one
      case file, carrying the form's values, numbered by the numbering scheme
      and pending documents; the numbers of each year stay consecutive from
      001. */
  lemma CreateInsertsCase(db: Db, v: ExpedienteValues, year: int, caseId: Id, now: Day,
                          reqs: seq<DocumentoRequerido>, docId: nat -> Id, user: Option<Id>,
                          parsePrice: string -> Option<Cents>, failAt: Option<CreateStep>)
    requires !HasCase(db.expedientes, caseId)
    requires Numbering.Sequential(Numeros(db.expedientes), Numbering.YearPrefix(year))
    ensures var w := CreateExpediente(db, v, year, caseId, now, reqs, docId, user, parsePrice, failAt);
      var refused := ExpedienteErrors(v) != {} || failAt == Some(ReadLatest) || failAt == Some(InsertCase);
      (refused ==> w.db.expedientes == db.expedientes)
      && (!refused ==>
          |w.db.expedientes| == |db.expedientes| + 1
          && w.db.expedientes[..|db.expedientes|] == db.expedientes
          && w.db.expedientes[|db.expedientes|].id == caseId
          && InsertedFrom(w.db.expedientes[|db.expedientes|], v, parsePrice)
          && EstadoOf(w.db.expedientes, caseId) == Some(PendienteDocumentos)
          && w.db.expedientes[|db.expedientes|].numero == NextNumero(db.expedientes, year)
          && Numbering.Sequential(Numeros(w.db.expedientes), Numbering.YearPrefix(year)))
  {
    var w := CreateExpediente(db, v, year, caseId, now, reqs, docId, user, parsePrice, failAt);
    if !(ExpedienteErrors(v) != {} || failAt == Some(ReadLatest) || failAt == Some(InsertCase)) {
      CreateCaseRow(db, v, year, caseId, now, reqs, docId, user, parsePrice, failAt);
      var e := NewCase(db.expedientes, v, year, caseId, now, parsePrice);
      AppendNumbered(db.expedientes, e, year);
      assert (db.expedientes + [e])[..|db.expedientes|] == db.expedientes;
    }
  }

  /** Past the case insert, the case-file table gains exactly the new row. */
  lemma CreateCaseRow(db: Db, v: ExpedienteValues, year: int, caseId: Id, now: Day,
                      reqs: seq<DocumentoRequerido>, docId: nat -> Id, user: Option<Id>,
                      parsePrice: string -> Option<Cents>, failAt: Option<CreateStep>)
    requires ExpedienteErrors(v) == {} && failAt != Some(ReadLatest) && failAt != Some(InsertCase)
    ensures v.fechaInicio.Some?
    ensures CreateExpediente(db, v, year, caseId, now, reqs, docId, user, parsePrice, failAt).db.expedientes
         == db.expedientes + [NewCase(db.expedientes, v, year, caseId, now, parsePrice)]
  {
  }

  /** Appending a pending case file numbered by the scheme under a fresh id. */
  lemma AppendNumbered(es: seq<Expediente>, e: Expediente, year: int)
    requires !HasCase(es, e.id) && e.estado == PendienteDocumentos && e.numero == NextNumero(es, year)
    requires Numbering.Sequential(Numeros(es), Numbering.YearPrefix(year))
    ensures EstadoOf(es + [e], e.id) == Some(PendienteDocumentos)
    ensures Numbering.Sequential(Numeros(es + [e]), Numbering.YearPrefix(year))
  {
    FindAppend(es, e, e.id);
    NumerosAppend(es, e);
    Numbering.GenerateKeepsSequential(Numeros(es), year);
  }

  lemma NumerosAppend(es: seq<Expediente>, e: Expediente)
    ensures Numeros(es + [e]) == Numeros(es) + [e.numero]
  {
  }

  /** A completed submission seeds one pending item per active template
      entry of the chosen tipo, in the order the requirements are read, and nothing else for the
      new case file. */
  lemma CreateSeedsChecklist(db: Db, v: ExpedienteValues, year: int, caseId: Id, now: Day,
                             reqs: seq<DocumentoRequerido>, docId: nat -> Id, user: Option<Id>,
                             parsePrice: string -> Option<Cents>, failAt: Option<CreateStep>)
    requires Consistent(db) && !HasCase(db.expedientes, caseId)
    ensures var w := CreateExpediente(db, v, year, caseId, now, reqs, docId, user, parsePrice, failAt);
      var active := ActiveRequirements(reqs, v.tipoTramiteId);
      var c := ChecklistOf(w.db.documentos, caseId);
      w.ok ==>
        |c| == |active|
        && forall k :: 0 <= k < |c| ==>
             c[k].estado == Pendiente && c[k].fechaRecibido == None
             && c[k].documentoRequeridoId == Some(active[k].id)
  {
    var w := CreateExpediente(db, v, year, caseId, now, reqs, docId, user, parsePrice, failAt);
    if w.ok {
      var active := ActiveRequirements(reqs, v.tipoTramiteId);
      var seeded := Seed(active, caseId, docId);
      assert w.db.documentos == db.documentos + seeded;
      FreshCaseIsBare(db, caseId);
      SeedShape(active, caseId, docId);
      ChecklistOfAppended(db.documentos, seeded, caseId);
    }
  }

  /** The seeded checklist: one pending, not-yet-received row of the case
      file per template entry, in the order the requirements are read. */
  lemma SeedShape(active: seq<DocumentoRequerido>, caseId: Id, docId: nat -> Id)
    ensures var c := Seed(active, caseId, docId);
      |c| == |active|
      && forall k :: 0 <= k < |c| ==>
           c[k].expedienteId == caseId && c[k].estado == Pendiente && c[k].fechaRecibido == None
           && c[k].documentoRequeridoId == Some(active[k].id)
  {
  }

  lemma ChecklistOfAppended(docs: seq<ExpedienteDocumento>, seeded: seq<ExpedienteDocumento>, caseId: Id)
    requires ChecklistOf(docs, caseId) == []
    requires forall k :: 0 <= k < |seeded| ==> seeded[k].expedienteId == caseId
    ensures ChecklistOf(docs + seeded, caseId) == seeded
  {
    FilterAppend(docs, seeded, DocOfCase(caseId));
    FilterAll(seeded, DocOfCase(caseId));
  }

  /** A completed submission gives the new case file a one-row history:
      no previous state, now pending documents, by the submitting user. */
  lemma CreateStartsHistory(db: Db, v: ExpedienteValues, year: int, caseId: Id, now: Day,
                            reqs: seq<DocumentoRequerido>, docId: nat -> Id, user: Option<Id>,
                            parsePrice: string -> Option<Cents>, failAt: Option<CreateStep>)
    requires Consistent(db) && !HasCase(db.expedientes, caseId)
    ensures var w := CreateExpediente(db, v, year, caseId, now, reqs, docId, user, parsePrice, failAt);
      w.ok ==> HistoryOf(w.db.historial, caseId) == [HistorialEntry(caseId, None, PendienteDocumentos, user)]
  {
    var w := CreateExpediente(db, v, year, caseId, now, reqs, docId, user, parsePrice, failAt);
    if w.ok {
      var x := HistorialEntry(caseId, None, PendienteDocumentos, user);
      assert w.db.historial == db.historial + [x];
      FreshCaseIsBare(db, caseId);
      FilterAppend(db.historial, [x], EntryOfCase(caseId));
    }
  }

  /** Adding a pending case file under a fresh id, its checklist and its
      first history row keeps the tables consistent and in step. */
  lemma AddCaseKeepsConsistent(db: Db, e: Expediente, seeded: seq<ExpedienteDocumento>, x: HistorialEntry)
    requires Consistent(db) && !HasCase(db.expedientes, e.id)
    requires forall k :: 0 <= k < |seeded| ==> seeded[k].expedienteId == e.id
    requires x.expedienteId == e.id && x.anterior == None && x.nuevo == e.estado
    ensures var r := Db(db.expedientes + [e], db.documentos + seeded, db.historial + [x]);
      Consistent(r) && (HistoryTracksEstado(db) ==> HistoryTracksEstado(r))
  {
    var r := Db(db.expedientes + [e], db.documentos + seeded, db.historial + [x]);
    AddedDocsBelong(db, e, seeded);
    AddedHistoryBelongs(db, e, x);
    forall i | 0 <= i < |r.expedientes|
      ensures StartsHistory(HistoryOf(r.historial, r.expedientes[i].id))
      ensures HistoryTracksEstado(db) ==> EndsIn(HistoryOf(r.historial, r.expedientes[i].id), r.expedientes[i].estado)
    {
      AddCaseHistoryRow(db, e, x, i);
    }
  }

  /** Every case file on record is still on record after one is appended. */
  lemma AppendKeepsCases(es: seq<Expediente>, e: Expediente)
    ensures forall id :: HasCase(es, id) ==> HasCase(es + [e], id)
    ensures HasCase(es + [e], e.id)
  {
    forall id | HasCase(es, id) ensures HasCase(es + [e], id) {
      FindAppend(es, e, id);
    }
    FindAppend(es, e, e.id);
  }

  lemma AddedDocsBelong(db: Db, e: Expediente, seeded: seq<ExpedienteDocumento>)
    requires forall i :: 0 <= i < |db.documentos| ==> HasCase(db.expedientes, db.documentos[i].expedienteId)
    requires forall k :: 0 <= k < |seeded| ==> seeded[k].expedienteId == e.id
    ensures var ds := db.documentos + seeded;
      forall i :: 0 <= i < |ds| ==> HasCase(db.expedientes + [e], ds[i].expedienteId)
  {
    var ds := db.documentos + seeded;
    AppendKeepsCases(db.expedientes, e);
    forall i | 0 <= i < |ds| ensures HasCase(db.expedientes + [e], ds[i].expedienteId) {
      if i < |db.documentos| {
        assert ds[i] == db.documentos[i];
      } else {
        assert ds[i] == seeded[i - |db.documentos|];
      }
    }
  }

  lemma AddedHistoryBelongs(db: Db, e: Expediente, x: HistorialEntry)
    requires forall i :: 0 <= i < |db.historial| ==> HasCase(db.expedientes, db.historial[i].expedienteId)
    requires x.expedienteId == e.id
    ensures var h := db.historial + [x];
      forall i :: 0 <= i < |h| ==> HasCase(db.expedientes + [e], h[i].expedienteId)
  {
    var h := db.historial + [x];
    AppendKeepsCases(db.expedientes, e);
    forall i | 0 <= i < |h| ensures HasCase(db.expedientes + [e], h[i].expedienteId) {
      if i < |db.historial| {
        assert h[i] == db.historial[i];
      }
    }
  }

  lemma AddCaseHistoryRow(db: Db, e: Expediente, x: HistorialEntry, i: nat)
    requires Consistent(db) && !HasCase(db.expedientes, e.id)
    requires x.expedienteId == e.id && x.anterior == None && x.nuevo == e.estado
    requires i <= |db.expedientes|
    ensures var es := db.expedientes + [e];
      var h := HistoryOf(db.historial + [x], es[i].id);
      StartsHistory(h) && (HistoryTracksEstado(db) ==> EndsIn(h, es[i].estado))
  {
    var es := db.expedientes + [e];
    var id := es[i].id;
    FilterAppend(db.historial, [x], EntryOfCase(id));
    if i < |db.expedientes| {
      assert es[i] == db.expedientes[i];
      assert id != e.id;
      assert HistoryOf(db.historial + [x], id) == HistoryOf(db.historial, id);
    } else {
      FreshCaseIsBare(db, e.id);
      assert HistoryOf(db.historial + [x], id) == [x];
    }
  }

  /** A completed submission keeps the tables consistent, and keeps each case
      file's newest history row in step with its state. */
  lemma CreateKeepsConsistent(db: Db, v: ExpedienteValues, year: int, caseId: Id, now: Day,
                              reqs: seq<DocumentoRequerido>, docId: nat -> Id, user: Option<Id>,
                              parsePrice: string -> Option<Cents>, failAt: Option<CreateStep>)
    requires Consistent(db) && !HasCase(db.expedientes, caseId)
    ensures var w := CreateExpediente(db, v, year, caseId, now, reqs, docId, user, parsePrice, failAt);
      w.ok ==> Consistent(w.db) && (HistoryTracksEstado(db) ==> HistoryTracksEstado(w.db))
  {
    var w := CreateExpediente(db, v, year, caseId, now, reqs, docId, user, parsePrice, failAt);
    if w.ok {
      var e := NewCase(db.expedientes, v, year, caseId, now, parsePrice);
      var seeded := Seed(ActiveRequirements(reqs, v.tipoTramiteId), caseId, docId);
      var x := HistorialEntry(caseId, None, PendienteDocumentos, user);
      assert w.db == Db(db.expedientes + [e], db.documentos + seeded, db.historial + [x]);
      AddCaseKeepsConsistent(db, e, seeded, x);
    }
  }

  /** A submission that fails after the case insert leaves a case file
      without a history: the tables are no longer consistent. (A failing
      checklist insert only matters when there is something to insert.) */
  lemma PartialCreateBreaksHistory(db: Db, v: ExpedienteValues, year: int, caseId: Id, now: Day,
                                   reqs: seq<DocumentoRequerido>, docId: nat -> Id, user: Option<Id>,
                                   parsePrice: string -> Option<Cents>, failAt: Option<CreateStep>)
    requires Consistent(db) && !HasCase(db.expedientes, caseId)
    requires ExpedienteErrors(v) == {}
    requires failAt == Some(ReadRequirements) || failAt == Some(InsertHistory)
          || (failAt == Some(SeedChecklist) && ActiveRequirements(reqs, v.tipoTramiteId) != [])
    ensures var w := CreateExpediente(db, v, year, caseId, now, reqs, docId, user, parsePrice, failAt);
      !w.ok && HasCase(w.db.expedientes, caseId) && HistoryOf(w.db.historial, caseId) == []
      && !Consistent(w.db)
  {
    var w := CreateExpediente(db, v, year, caseId, now, reqs, docId, user, parsePrice, failAt);
    var e := NewCase(db.expedientes, v, year, caseId, now, parsePrice);
    assert w.db.expedientes == db.expedientes + [e];
    assert w.db.historial == db.historial;
    FreshCaseIsBare(db, caseId);
    CaseWithoutHistory(db.expedientes, e, w.db.documentos, db.historial);
  }

  lemma CaseWithoutHistory(es: seq<Expediente>, e: Expediente, docs: seq<ExpedienteDocumento>, h: seq<HistorialEntry>)
    requires HistoryOf(h, e.id) == []
    ensures HasCase(es + [e], e.id)
    ensures !Consistent(Db(es + [e], docs, h))
  {
    FindAppend(es, e, e.id);
    assert (es + [e])[|es|] == e;
  }

  /** A tipo without active template entries gives the new case file an empty
      checklist, which counts as complete, yet the case file stays pending
      documents: nothing re-evaluates the checklist until a document is ticked. */
  lemma EmptyTemplateStaysPending(db: Db, v: ExpedienteValues, year: int, caseId: Id, now: Day,
                                  reqs: seq<DocumentoRequerido>, docId: nat -> Id, user: Option<Id>,
                                  parsePrice: string -> Option<Cents>, failAt: Option<CreateStep>)
    requires Consistent(db) && !HasCase(db.expedientes, caseId)
    requires ActiveRequirements(reqs, v.tipoTramiteId) == []
    ensures var w := CreateExpediente(db, v, year, caseId, now, reqs, docId, user, parsePrice, failAt);
      w.ok ==> AllReceived(w.db.documentos, caseId) && EstadoOf(w.db.expedientes, caseId) == Some(PendienteDocumentos)
  {
    var w := CreateExpediente(db, v, year, caseId, now, reqs, docId, user, parsePrice, failAt);
    if w.ok {
      var e := NewCase(db.expedientes, v, year, caseId, now, parsePrice);
      assert w.db.expedientes == db.expedientes + [e];
      assert w.db.documentos == db.documentos;
      FindAppend(db.expedientes, e, caseId);
    }
  }
}
