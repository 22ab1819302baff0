/** Money roll-ups: what a case file has been paid, what a client has paid,
    and what is still pending against the agreed price. */
module Rollups {
  import opened Wrappers
  import opened Records
  import opened Seqs
  import Lifecycle

  function Importe(p: Payment): int {
    p.importe
  }

  /** The sum of the amounts of some payments, as the pages add them up. */
  function TotalPaid(ps: seq<Payment>): int {
    Sum(ps, Importe)
  }

  /** The payments of one case file (`.eq("expediente_id", id)`). */
  function PaymentsOfCase(ps: seq<Payment>, expId: Id): seq<Payment> {
    Filter(ps, (p: Payment) => p.expedienteId == expId)
  }

  /** The payments of one client (`.eq("cliente_id", id)`). */
  function PaymentsOfClient(ps: seq<Payment>, clienteId: Id): seq<Payment> {
    Filter(ps, (p: Payment) => p.clienteId == clienteId)
  }

  function PaidForCase(ps: seq<Payment>, expId: Id): int {
    TotalPaid(PaymentsOfCase(ps, expId))
  }

  function PaidByClient(ps: seq<Payment>, clienteId: Id): int {
    TotalPaid(PaymentsOfClient(ps, clienteId))
  }

  /** The agreed price, a missing one counting as zero. */
  function PriceOrZero(precio: Option<Cents>): Cents {
    precio.GetOr(0)
  }

  /** The amount still pending: price less payments, not clamped, so an
      overpaid case file shows a negative amount. */
  function Pending(precio: Option<Cents>, paid: int): (r: int)
    ensures r + paid == PriceOrZero(precio)
  {
    PriceOrZero(precio) - paid
  }

  /** The pending amount is highlighted only when something is still owed. */
  predicate Highlighted(precio: Option<Cents>, paid: int) {
    Pending(precio, paid) > 0
  }

  /** Recording a payment raises its case file's paid total by its amount,
      lowers the pending amount by as much, and leaves other case files' totals alone. */
  lemma RecordPaymentTotals(ps: seq<Payment>, p: Payment, expId: Id, precio: Option<Cents>)
    ensures PaidForCase(ps + [p], expId) == PaidForCase(ps, expId) + (if p.expedienteId == expId then p.importe else 0)
    ensures p.expedienteId == expId ==> Pending(precio, PaidForCase(ps + [p], expId)) == Pending(precio, PaidForCase(ps, expId)) - p.importe
  {
    FilterAppend(ps, [p], (q: Payment) => q.expedienteId == expId);
    SumAppend(PaymentsOfCase(ps, expId), PaymentsOfCase([p], expId), Importe);
  }

  /** With positive payments only, what is pending never exceeds the price. */
  lemma PendingAtMostPrice(ps: seq<Payment>, expId: Id, precio: Option<Cents>)
    requires forall i :: 0 <= i < |ps| ==> ps[i].importe > 0
    ensures Pending(precio, PaidForCase(ps, expId)) <= PriceOrZero(precio)
  {
    var c := PaymentsOfCase(ps, expId);
    SumNonNegative(c, Importe);
  }

  /** Paying exactly the price clears the highlight; paying more leaves a negative pending amount. */
  lemma OverpaymentNotHighlighted(precio: Option<Cents>, paid: int)
    requires paid >= PriceOrZero(precio)
    ensures !Highlighted(precio, paid)
    ensures paid > PriceOrZero(precio) ==> Pending(precio, paid) < 0
  {
  }

  // ---------------------------------------------------------------------
  // A client's total against the totals of its case files
  // ---------------------------------------------------------------------

  /** The paid totals of a list of case files, added up. */
  function CasesTotal(ps: seq<Payment>, ids: seq<Id>): int {
    if ids == [] then 0 else PaidForCase(ps, ids[0]) + CasesTotal(ps, ids[1..])
  }

  predicate Distinct(ids: seq<Id>) {
    forall i, j :: 0 <= i < j < |ids| ==> ids[i] != ids[j]
  }

  lemma {:induction false} CasesTotalCons(p: Payment, ps: seq<Payment>, ids: seq<Id>)
    requires Distinct(ids)
    ensures CasesTotal([p] + ps, ids) == (if p.expedienteId in ids then p.importe else 0) + CasesTotal(ps, ids)
    decreases |ids|
  {
    if ids != [] {
      assert ([p] + ps)[1..] == ps;
      CasesTotalCons(p, ps, ids[1..]);
      assert p.expedienteId in ids[1..] ==> p.expedienteId != ids[0] by {
        if p.expedienteId in ids[1..] {
          var j :| 0 <= j < |ids[1..]| && ids[1..][j] == p.expedienteId;
          assert ids[j + 1] == p.expedienteId;
        }
      }
      assert p.expedienteId in ids <==> p.expedienteId == ids[0] || p.expedienteId in ids[1..] by {
        assert ids == [ids[0]] + ids[1..];
      }
    }
  }

  /** When a client's payments are exactly the payments of a list of
      distinct case files, the client's total is the sum of those case
      files' totals. */
  lemma {:induction false} ClientTotalIsCasesTotal(ps: seq<Payment>, clienteId: Id, ids: seq<Id>)
    requires Distinct(ids)
    requires forall i :: 0 <= i < |ps| ==> (ps[i].clienteId == clienteId <==> ps[i].expedienteId in ids)
    ensures PaidByClient(ps, clienteId) == CasesTotal(ps, ids)
    decreases |ps|
  {
    if ps == [] {
      CasesTotalEmpty(ids);
    } else {
      assert ps == [ps[0]] + ps[1..];
      CasesTotalCons(ps[0], ps[1..], ids);
      ClientTotalIsCasesTotal(ps[1..], clienteId, ids);
    }
  }

  lemma {:induction false} CasesTotalEmpty(ids: seq<Id>)
    ensures CasesTotal([], ids) == 0
    decreases |ids|
  {
    if ids != [] {
      CasesTotalEmpty(ids[1..]);
    }
  }

  /** Every payment names an existing case file and that case file's client. */
  predicate PaymentsMatchCases(es: seq<Expediente>, ps: seq<Payment>) {
    forall i :: 0 <= i < |ps| ==>
      var f := Lifecycle.FindExpediente(es, ps[i].expedienteId);
      f.Some? && f.value.clienteId == ps[i].clienteId
  }

  predicate UniqueCaseIds(es: seq<Expediente>) {
    forall i, j :: 0 <= i < j < |es| ==> es[i].id != es[j].id
  }

  /** The ids of a client's case files, in creation order. */
  function CaseIdsOf(es: seq<Expediente>, clienteId: Id): (ids: seq<Id>)
    ensures forall id :: id in ids <==> exists i :: 0 <= i < |es| && es[i].id == id && es[i].clienteId == clienteId
  {
    if es == [] then []
    else if es[0].clienteId == clienteId then [es[0].id] + CaseIdsOf(es[1..], clienteId)
    else CaseIdsOf(es[1..], clienteId)
  }

  /** Distinct case files give distinct ids. */
  lemma {:induction false} CaseIdsDistinct(es: seq<Expediente>, clienteId: Id)
    requires UniqueCaseIds(es)
    ensures Distinct(CaseIdsOf(es, clienteId))
    decreases |es|
  {
    if es != [] {
      var rest := CaseIdsOf(es[1..], clienteId);
      CaseIdsDistinct(es[1..], clienteId);
      forall k | 0 <= k < |rest| ensures rest[k] != es[0].id {
        assert rest[k] in rest;
        var i :| 0 <= i < |es[1..]| && es[1..][i].id == rest[k] && es[1..][i].clienteId == clienteId;
        assert es[1..][i] == es[i + 1];
      }
    }
  }

  /** With consistent tables, the client page's total equals the sum of the
      totals of the client's case files. */
  lemma ClientTotalMatchesCases(es: seq<Expediente>, ps: seq<Payment>, clienteId: Id)
    requires UniqueCaseIds(es) && PaymentsMatchCases(es, ps)
    ensures PaidByClient(ps, clienteId) == CasesTotal(ps, CaseIdsOf(es, clienteId))
  {
    var ids := CaseIdsOf(es, clienteId);
    CaseIdsDistinct(es, clienteId);
    forall i | 0 <= i < |ps| ensures ps[i].clienteId == clienteId <==> ps[i].expedienteId in ids {
      var e := Lifecycle.FindExpediente(es, ps[i].expedienteId).value;
      var k :| 0 <= k < |es| && es[k] == e;
      if ps[i].expedienteId in ids {
        var j :| 0 <= j < |es| && es[j].id == ps[i].expedienteId && es[j].clienteId == clienteId;
        assert j == k;
      }
    }
    ClientTotalIsCasesTotal(ps, clienteId, ids);
  }

  /** A case file agreed at 500.00 with payments of 200.00 and 150.00 has
      350.00 paid and 150.00 pending, highlighted. */
  lemma PendingExample(expId: Id, clienteId: Id, other: Payment)
    requires other.expedienteId != expId
    ensures var ps := [Payment("p1", expId, clienteId, 0, 20000, Some("efectivo"), None, None), other,
                       Payment("p2", expId, clienteId, 1, 15000, Some("bizum"), None, None)];
      PaidForCase(ps, expId) == 35000
      && Pending(Some(50000), PaidForCase(ps, expId)) == 15000
      && Highlighted(Some(50000), PaidForCase(ps, expId))
  {
    var p1 := Payment("p1", expId, clienteId, 0, 20000, Some("efectivo"), None, None);
    var p2 := Payment("p2", expId, clienteId, 1, 15000, Some("bizum"), None, None);
    RecordPaymentTotals([p1, other], p2, expId, Some(50000));
    RecordPaymentTotals([p1], other, expId, Some(50000));
    RecordPaymentTotals([], p1, expId, Some(50000));
    assert [p1, other] + [p2] == [p1, other, p2];
    assert [p1] + [other] == [p1, other];
    assert [] + [p1] == [p1];
  }
}
