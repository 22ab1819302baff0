/** The two ways to record a payment: the standalone payments form, which
    picks a case file and validates the amount strictly, and the form on a
    case-file page, which validates only that fields are filled in. */
module PaymentForms {
  import opened Wrappers
  import opened Text
  import opened Records
  import opened Rollups
  import Lifecycle

  /** The fields of a payment form; the payment date is the picked day,
      absent until one is picked. */
  datatype PagoValues = PagoValues(
    expedienteId: string,
    fechaPago: Option<Day>,
    importe: string,
    metodo: string,
    concepto: string,
    observaciones: string)

  datatype PagoField = ExpedienteField | FechaPagoField | ImporteField | MetodoField

  /** Both forms open empty. */
  function PagoDefaults(): PagoValues {
    PagoValues("", None, "", "", "", "")
  }

  /** `parseFloat(s) > 0`, with `parseAmount` standing for `parseFloat` in cents (absent for NaN). */
  predicate PositiveAmount(s: string, parseAmount: string -> Option<Cents>) {
    parseAmount(s).Some? && parseAmount(s).value > 0
  }

  /** The standalone form's schema: a case file, a date, a non-empty amount
      that parses to more than zero, and a payment method. */
  function StandaloneErrors(v: PagoValues, parseAmount: string -> Option<Cents>): (errs: set<PagoField>)
    ensures errs == {} <==> v.expedienteId != "" && v.fechaPago.Some? && v.importe != ""
                             && PositiveAmount(v.importe, parseAmount) && v.metodo != ""
  {
    (if v.expedienteId == "" then {ExpedienteField} else {})
    + (if v.fechaPago.None? then {FechaPagoField} else {})
    + (if v.importe == "" || !PositiveAmount(v.importe, parseAmount) then {ImporteField} else {})
    + (if v.metodo == "" then {MetodoField} else {})
  }

  /** The case-file page's schema: a date and a non-empty amount; nothing
      checks what the amount parses to, and the method is optional. */
  function LaxErrors(v: PagoValues): (errs: set<PagoField>)
    ensures errs == {} <==> v.fechaPago.Some? && v.importe != ""
  {
    (if v.fechaPago.None? then {FechaPagoField} else {})
    + (if v.importe == "" then {ImporteField} else {})
  }

  /** What the standalone form shows about the chosen case file. */
  datatype CaseInfo = CaseInfo(numero: string, clienteId: Id, precioAcordado: Cents, totalPagado: int)

  /** The details fetched when a case file is chosen; nothing when it cannot be read. */
  function CaseDetails(es: seq<Expediente>, ps: seq<Payment>, expId: Id): (r: Option<CaseInfo>)
    ensures r.Some? <==> Lifecycle.HasCase(es, expId)
    ensures r.Some? ==>
      var e := Lifecycle.FindExpediente(es, expId).value;
      r.value.clienteId == e.clienteId
      && r.value.totalPagado == PaidForCase(ps, expId)
      && r.value.precioAcordado == PriceOrZero(e.precioAcordado)
      && r.value.precioAcordado - r.value.totalPagado == Pending(e.precioAcordado, PaidForCase(ps, expId))
  {
    match Lifecycle.FindExpediente(es, expId)
    case None => None
    case Some(e) => Some(CaseInfo(e.numero, e.clienteId, PriceOrZero(e.precioAcordado), PaidForCase(ps, expId)))
  }

  datatype SubmitError =
    | Invalid(fields: set<PagoField>)
    | NoCaseSelected
    | AmountNotNumber

  /** Submitting the standalone form: refused when the schema fails or no
      case details are loaded; otherwise one payment is inserted for the
      case file's client. */
  function SubmitStandalone(ps: seq<Payment>, v: PagoValues, info: Option<CaseInfo>, id: Id,
                            parseAmount: string -> Option<Cents>): (r: Result<seq<Payment>, SubmitError>)
    ensures r.Failure? <==> StandaloneErrors(v, parseAmount) != {} || info.None?
    ensures r.Success? ==>
      |r.value| == |ps| + 1 && r.value[..|ps|] == ps
      && var p := r.value[|ps|];
         p.expedienteId == v.expedienteId && p.clienteId == info.value.clienteId
         && p.importe > 0 && Some(p.importe) == parseAmount(v.importe)
         && Some(p.fechaPago) == v.fechaPago && p.metodoPago == Some(v.metodo)
         && p.concepto == OrNull(v.concepto) && p.observaciones == OrNull(v.observaciones)
  {
    var errs := StandaloneErrors(v, parseAmount);
    if errs != {} then Failure(Invalid(errs))
    else if info.None? then Failure(NoCaseSelected)
    else
      var p := Payment(id, v.expedienteId, info.value.clienteId, v.fechaPago.value,
                       parseAmount(v.importe).value, Some(v.metodo), OrNull(v.concepto), OrNull(v.observaciones));
      Success(ps + [p])
  }

  /** Submitting the case-file page's form for the page's case file and
      client. An amount that does not parse would be stored as null, which
      the amount column refuses. */
  function SubmitPagoForm(ps: seq<Payment>, v: PagoValues, expId: Id, clienteId: Id, id: Id,
                          parseAmount: string -> Option<Cents>): (r: Result<seq<Payment>, SubmitError>)
    ensures r.Failure? <==> LaxErrors(v) != {} || parseAmount(v.importe).None?
    ensures r.Success? ==>
      |r.value| == |ps| + 1 && r.value[..|ps|] == ps
      && var p := r.value[|ps|];
         p.expedienteId == expId && p.clienteId == clienteId
         && Some(p.importe) == parseAmount(v.importe) && Some(p.fechaPago) == v.fechaPago
         && p.metodoPago == OrNull(v.metodo)
         && p.concepto == OrNull(v.concepto) && p.observaciones == OrNull(v.observaciones)
  {
    var errs := LaxErrors(v);
    if errs != {} then Failure(Invalid(errs))
    else if parseAmount(v.importe).None? then Failure(AmountNotNumber)
    else
      var p := Payment(id, expId, clienteId, v.fechaPago.value, parseAmount(v.importe).value,
                       OrNull(v.metodo), OrNull(v.concepto), OrNull(v.observaciones));
      Success(ps + [p])
  }

  /** Whatever the standalone form accepts, the case-file page's form accepts too. */
  lemma StrictImpliesLax(v: PagoValues, parseAmount: string -> Option<Cents>)
    ensures StandaloneErrors(v, parseAmount) == {} ==> LaxErrors(v) == {}
  {
  }

  /** An amount that parses to zero or less is refused by the standalone
      form and stored as it is by the case-file page's form. */
  lemma NonPositiveAmountOnlyThroughCasePage(ps: seq<Payment>, v: PagoValues, info: Option<CaseInfo>,
                                             expId: Id, clienteId: Id, id: Id, parseAmount: string -> Option<Cents>)
    requires v.fechaPago.Some? && v.importe != ""
    requires parseAmount(v.importe).Some? && parseAmount(v.importe).value <= 0
    ensures SubmitStandalone(ps, v, info, id, parseAmount) == Failure(Invalid(StandaloneErrors(v, parseAmount)))
    ensures ImporteField in StandaloneErrors(v, parseAmount)
    ensures var r := SubmitPagoForm(ps, v, expId, clienteId, id, parseAmount);
      r.Success? && r.value[|ps|].importe <= 0
  {
  }

  /** Neither form can be submitted as it opens. */
  lemma DefaultsRejected(parseAmount: string -> Option<Cents>)
    ensures StandaloneErrors(PagoDefaults(), parseAmount) == {ExpedienteField, FechaPagoField, ImporteField, MetodoField}
    ensures LaxErrors(PagoDefaults()) == {FechaPagoField, ImporteField}
  {
  }

  /** A standalone payment for a case file whose details were loaded names
      that case file's client, so payments keep matching their case files. */
  lemma StandaloneKeepsPaymentsMatched(es: seq<Expediente>, ps: seq<Payment>, v: PagoValues, id: Id,
                                       parseAmount: string -> Option<Cents>)
    requires PaymentsMatchCases(es, ps)
    ensures var r := SubmitStandalone(ps, v, CaseDetails(es, ps, v.expedienteId), id, parseAmount);
      r.Success? ==> PaymentsMatchCases(es, r.value)
  {
    var r := SubmitStandalone(ps, v, CaseDetails(es, ps, v.expedienteId), id, parseAmount);
    if r.Success? {
      assert forall i :: 0 <= i < |ps| ==> r.value[i] == ps[i];
    }
  }

  /** Details left over from an earlier choice: when the fetch for the newly
      chosen case file fails, the form keeps the previous case file's details,
      and the payment is stored under the new case file with the old client. */
  lemma StaleDetailsBreakMatch(es: seq<Expediente>, ps: seq<Payment>, v: PagoValues, prev: Id, id: Id,
                               parseAmount: string -> Option<Cents>)
    requires StandaloneErrors(v, parseAmount) == {}
    requires Lifecycle.HasCase(es, prev) && Lifecycle.HasCase(es, v.expedienteId)
    requires Lifecycle.FindExpediente(es, prev).value.clienteId
          != Lifecycle.FindExpediente(es, v.expedienteId).value.clienteId
    ensures var r := SubmitStandalone(ps, v, CaseDetails(es, ps, prev), id, parseAmount);
      r.Success? && !PaymentsMatchCases(es, r.value)
  {
  }

  /** A payment recorded on a case-file page, for that page's case file and
      its client, keeps payments matching their case files. */
  lemma CasePageKeepsPaymentsMatched(es: seq<Expediente>, ps: seq<Payment>, v: PagoValues, expId: Id, id: Id,
                                     parseAmount: string -> Option<Cents>)
    requires PaymentsMatchCases(es, ps) && Lifecycle.HasCase(es, expId)
    ensures var clienteId := Lifecycle.FindExpediente(es, expId).value.clienteId;
      var r := SubmitPagoForm(ps, v, expId, clienteId, id, parseAmount);
      r.Success? ==> PaymentsMatchCases(es, r.value)
  {
    var clienteId := Lifecycle.FindExpediente(es, expId).value.clienteId;
    var r := SubmitPagoForm(ps, v, expId, clienteId, id, parseAmount);
    if r.Success? {
      assert forall i :: 0 <= i < |ps| ==> r.value[i] == ps[i];
    }
  }

  /** A standalone payment lowers the chosen case file's pending amount by
      its (positive) amount. */
  lemma StandaloneLowersPending(es: seq<Expediente>, ps: seq<Payment>, v: PagoValues, id: Id,
                                parseAmount: string -> Option<Cents>)
    requires Lifecycle.HasCase(es, v.expedienteId)
    ensures var e := Lifecycle.FindExpediente(es, v.expedienteId).value;
      var r := SubmitStandalone(ps, v, CaseDetails(es, ps, v.expedienteId), id, parseAmount);
      r.Success? ==>
        Pending(e.precioAcordado, PaidForCase(r.value, v.expedienteId))
          < Pending(e.precioAcordado, PaidForCase(ps, v.expedienteId))
  {
    var e := Lifecycle.FindExpediente(es, v.expedienteId).value;
    var r := SubmitStandalone(ps, v, CaseDetails(es, ps, v.expedienteId), id, parseAmount);
    if r.Success? {
      var p := r.value[|ps|];
      assert r.value == ps + [p];
      RecordPaymentTotals(ps, p, v.expedienteId, e.precioAcordado);
    }
  }
}
