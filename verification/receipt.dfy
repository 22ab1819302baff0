/** The printable payment receipt of a case-file page: its number, the
    client and method lines, and the totals block. */
module Receipt {
  import opened Wrappers
  import opened Text
  import opened Records
  import opened Seqs
  import opened Rollups

  /** The receipt number: the case number, a slash, and the first eight
      characters of the payment id. */
  function ReceiptNumber(numero: string, pagoId: Id): (r: string)
    ensures numero + "/" <= r
    ensures |r| == |numero| + 1 + (if |pagoId| <= 8 then |pagoId| else 8)
  {
    numero + "/" + Prefix(pagoId, 8)
  }

  /** Reads a receipt number back into case number and payment-id prefix,
      splitting at the last slash. */
  function SplitReceiptNumber(r: string): (string, string) {
    var k := LastIndexOf(r, '/');
    if k < 0 then ("", r) else (r[..k], r[k + 1..])
  }

  /** A receipt number gives back its case number and payment-id prefix,
      whatever slashes the case number holds, as long as the id prefix has none. */
  lemma ReceiptNumberRoundTrip(numero: string, pagoId: Id)
    requires '/' !in Prefix(pagoId, 8)
    ensures SplitReceiptNumber(ReceiptNumber(numero, pagoId)) == (numero, Prefix(pagoId, 8))
  {
    var q := Prefix(pagoId, 8);
    var r := ReceiptNumber(numero, pagoId);
    assert r == numero + ['/'] + q;
    LastIndexAfter(numero, q, '/');
    assert r[..|numero|] == numero;
    assert r[|numero| + 1..] == q;
  }

  /** Two payments whose ids differ in their first eight characters get
      different receipt numbers, and so do payments of different case files. */
  lemma ReceiptNumbersDiffer(n1: string, id1: Id, n2: string, id2: Id)
    requires '/' !in Prefix(id1, 8) && '/' !in Prefix(id2, 8)
    requires n1 != n2 || Prefix(id1, 8) != Prefix(id2, 8)
    ensures ReceiptNumber(n1, id1) != ReceiptNumber(n2, id2)
  {
    ReceiptNumberRoundTrip(n1, id1);
    ReceiptNumberRoundTrip(n2, id2);
  }

  /** The method line: the stored method, or cash when none is stored,
      with its first letter in upper case. */
  function MethodLabel(metodo: Option<string>): (r: string)
    ensures |r| == if Truthy(metodo) then |metodo.value| else 8
  {
    Capitalize(if Truthy(metodo) then metodo.value else "efectivo")
  }

  /** The four methods the payment forms offer print as their capitalised
      names, and a payment without a method prints as cash. */
  lemma MethodLabels()
    ensures MethodLabel(None) == "Efectivo" && MethodLabel(Some("")) == "Efectivo"
    ensures MethodLabel(Some("efectivo")) == "Efectivo"
    ensures MethodLabel(Some("transferencia")) == "Transferencia"
    ensures MethodLabel(Some("tarjeta")) == "Tarjeta"
    ensures MethodLabel(Some("bizum")) == "Bizum"
  {
  }

  /** The full-name line: surnames, a comma, the given name. */
  function ClientNameLine(c: Client): (r: string)
    ensures |r| == |c.apellidos| + 2 + |c.nombre|
    ensures r[..|c.apellidos|] == c.apellidos && r[|r| - |c.nombre|..] == c.nombre
  {
    c.apellidos + ", " + c.nombre
  }

  /** Reads a name line back into surnames and given name, splitting at
      the first comma and dropping the space after it. */
  function SplitNameLine(line: string): (string, string) {
    var k := Find(line, ',');
    if k + 2 <= |line| then (line[..k], line[k + 2..]) else (line, "")
  }

  /** A name line gives back the client's surnames and given name, as long
      as the surnames hold no comma. */
  lemma NameLineRoundTrip(c: Client)
    requires ',' !in c.apellidos
    ensures SplitNameLine(ClientNameLine(c)) == (c.apellidos, c.nombre)
  {
    var line := ClientNameLine(c);
    assert line == c.apellidos + [','] + (" " + c.nombre);
    FindAfter(c.apellidos, " " + c.nombre, ',');
    assert line[..|c.apellidos|] == c.apellidos;
    assert line[|c.apellidos| + 2..] == c.nombre;
  }

  /** The line reads "Efectivo" exactly when no method is stored or the
      stored method is cash, in either capitalisation. */
  lemma CashLabel(metodo: Option<string>)
    ensures MethodLabel(metodo) == "Efectivo"
        <==> !Truthy(metodo) || metodo.value == "efectivo" || metodo.value == "Efectivo"
  {
  }

  /** Stored methods written in lower case, as the payment forms write
      them, print as different lines when they differ. */
  lemma MethodLabelsDistinct(m1: string, m2: string)
    requires m1 != "" && m2 != "" && 'a' <= m1[0] <= 'z' && 'a' <= m2[0] <= 'z'
    requires m1 != m2
    ensures MethodLabel(Some(m1)) != MethodLabel(Some(m2))
  {
  }

  /** The totals block handed to the receipt. */
  datatype Totales = Totales(precioAcordado: Cents, totalPagado: int, pendiente: int, estePago: Cents)

  /** The "paid before" line: total paid less this payment. */
  function PreviouslyPaid(t: Totales): int {
    t.totalPagado - t.estePago
  }

  /** The totals as the case-file page builds them for the receipt of
      `pagos[i]`, where `pagos` are the case's payments newest first: the
      total is over all the case's payments. */
  function TotalesAsWritten(precio: Option<Cents>, pagos: seq<Payment>, i: nat): (t: Totales)
    requires i < |pagos|
    ensures t.pendiente + t.totalPagado == PriceOrZero(precio)
    ensures t.estePago == pagos[i].importe
  {
    var total := TotalPaid(pagos);
    Totales(PriceOrZero(precio), total, Pending(precio, total), pagos[i].importe)
  }

  /** The totals as of `pagos[i]`: only that payment and the older ones count. */
  function TotalesAt(precio: Option<Cents>, pagos: seq<Payment>, i: nat): (t: Totales)
    requires i < |pagos|
    ensures t.pendiente + t.totalPagado == PriceOrZero(precio)
    ensures t.estePago == pagos[i].importe
  {
    var total := TotalPaid(pagos[i..]);
    Totales(PriceOrZero(precio), total, Pending(precio, total), pagos[i].importe)
  }

  lemma TotalPaidSplit(pagos: seq<Payment>, i: nat)
    requires i < |pagos|
    ensures TotalPaid(pagos) == TotalPaid(pagos[..i]) + pagos[i].importe + TotalPaid(pagos[i + 1..])
  {
    assert pagos == pagos[..i] + pagos[i..];
    SumAppend(pagos[..i], pagos[i..], Importe);
    assert pagos[i..] == [pagos[i]] + pagos[i + 1..];
  }

  /** As written, the "paid before" line of a receipt adds up every other
      payment of the case file, the newer ones included. */
  lemma AsWrittenCountsLaterPayments(precio: Option<Cents>, pagos: seq<Payment>, i: nat)
    requires i < |pagos|
    ensures PreviouslyPaid(TotalesAsWritten(precio, pagos, i)) == TotalPaid(pagos[..i]) + TotalPaid(pagos[i + 1..])
  {
    TotalPaidSplit(pagos, i);
  }

  /** The receipt of the older of two payments, 100.00 paid before a later
      50.00, says 50.00 was paid before it, although nothing was. */
  lemma AsWrittenOlderReceipt(precio: Option<Cents>, newer: Payment, older: Payment)
    requires newer.importe == 5000 && older.importe == 10000
    ensures PreviouslyPaid(TotalesAsWritten(precio, [newer, older], 1)) == 5000
    ensures PreviouslyPaid(TotalesAt(precio, [newer, older], 1)) == 0
  {
    AsWrittenCountsLaterPayments(precio, [newer, older], 1);
    assert [newer, older][..1] == [newer];
    assert [newer, older][2..] == [];
    assert [newer, older][1..] == [older];
  }

  /** Corrected, the "paid before" line adds up exactly the older payments,
      and the receipt of the newest payment is unchanged. */
  lemma CorrectedCountsOlderPayments(precio: Option<Cents>, pagos: seq<Payment>, i: nat)
    requires i < |pagos|
    ensures PreviouslyPaid(TotalesAt(precio, pagos, i)) == TotalPaid(pagos[i + 1..])
    ensures i == |pagos| - 1 ==> PreviouslyPaid(TotalesAt(precio, pagos, i)) == 0
    ensures TotalesAt(precio, pagos, 0) == TotalesAsWritten(precio, pagos, 0)
  {
    assert pagos[i..] == [pagos[i]] + pagos[i + 1..];
    assert pagos[0..] == pagos;
  }

  /** Corrected, each receipt's total paid is the previous receipt's total
      plus this payment: the totals grow payment by payment. */
  lemma CorrectedTotalsChain(precio: Option<Cents>, pagos: seq<Payment>, i: nat)
    requires i + 1 < |pagos|
    ensures TotalesAt(precio, pagos, i).totalPagado == TotalesAt(precio, pagos, i + 1).totalPagado + pagos[i].importe
    ensures PreviouslyPaid(TotalesAt(precio, pagos, i)) == TotalesAt(precio, pagos, i + 1).totalPagado
  {
    assert pagos[i..] == [pagos[i]] + pagos[i + 1..];
  }
}
