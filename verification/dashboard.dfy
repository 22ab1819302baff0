/** The dashboard: the headline counters, the charts of case files by state,
    by month and by procedure type, the monthly income, the most recent case
    files, and the two alert lists (residence cards about to expire, case
    files without movement). Each panel is a function of the rows it reads;
    "today" enters through the month bounds and the day-difference
    functions the callers pass in. */
module Dashboard {
  import opened Records
  import opened Seqs
  import opened Sorting
  import opened Grouping
  import Rollups
  import Lifecycle

  // ---------------------------------------------------------------------
  // States

  /** The short label the state chart uses. */
  function DashboardLabel(e: Estado): string {
    match e
    case PendienteDocumentos => "Pendiente Docs"
    case DocumentosCompletos => "Docs Completos"
    case Presentado => "Presentado"
    case EnTramite => "En Trámite"
    case Aprobado => "Aprobado"
    case Denegado => "Denegado"
    case Archivado => "Archivado"
  }

  /** Two states never share a chart label, so no two slices merge. */
  lemma DashboardLabelsDistinct(a: Estado, b: Estado)
    ensures DashboardLabel(a) == DashboardLabel(b) ==> a == b
  {
  }

  /** A case file still in progress: one of the four states before a decision. */
  predicate IsActive(e: Estado) {
    e == PendienteDocumentos || e == DocumentosCompletos || e == Presentado || e == EnTramite
  }

  /** Active is exactly "not approved, refused or archived". */
  lemma ActiveMeansUndecided(e: Estado)
    ensures IsActive(e) <==> e != Aprobado && e != Denegado && e != Archivado
  {
  }

  predicate ActiveCase(x: Expediente) {
    IsActive(x.estado)
  }

  predicate ClosedCase(x: Expediente) {
    !IsActive(x.estado)
  }

  predicate AwaitingDocs(x: Expediente) {
    x.estado == PendienteDocumentos
  }

  // ---------------------------------------------------------------------
  // Headline counters

  datatype Stats = Stats(totalClientes: nat, activos: nat, pendientes: nat, ingresosMes: int)

  /** The payments dated within `[from, to]`, both days included. */
  function DatedBetween(from: Day, to: Day): Payment -> bool {
    (p: Payment) => from <= p.fechaPago <= to
  }

  /** What was paid within `[from, to]`. */
  function PaidBetween(ps: seq<Payment>, from: Day, to: Day): int {
    Rollups.TotalPaid(Filter(ps, DatedBetween(from, to)))
  }

  /** The four counters; `monthStart` and `monthEnd` are the first and last
      day of the current month. */
  function ComputeStats(cs: seq<Client>, es: seq<Expediente>, ps: seq<Payment>, monthStart: Day, monthEnd: Day): (s: Stats)
    ensures s.totalClientes == |cs|
    ensures s.pendientes == Count(es, AwaitingDocs)
    ensures s.pendientes <= s.activos <= |es|
    ensures s.ingresosMes == PaidBetween(ps, monthStart, monthEnd)
  {
    CountMonotone(es, AwaitingDocs, ActiveCase);
    Stats(|cs|, Count(es, ActiveCase), Count(es, AwaitingDocs), PaidBetween(ps, monthStart, monthEnd))
  }

  /** Every case file is either active or closed: the active counter plus
      the closed case files is the number of case files. */
  lemma ActivePlusClosed(cs: seq<Client>, es: seq<Expediente>, ps: seq<Payment>, monthStart: Day, monthEnd: Day)
    ensures ComputeStats(cs, es, ps, monthStart, monthEnd).activos + Count(es, ClosedCase) == |es|
  {
    CountPartition(es, ActiveCase, ClosedCase);
  }

  /** A payment dated inside the month raises the month's income by its
      amount; one dated outside leaves it alone. */
  lemma MonthIncomeAppend(ps: seq<Payment>, p: Payment, from: Day, to: Day)
    ensures PaidBetween(ps + [p], from, to) == PaidBetween(ps, from, to) + (if from <= p.fechaPago <= to then p.importe else 0)
  {
    FilterAppend(ps, [p], DatedBetween(from, to));
    SumAppend(Filter(ps, DatedBetween(from, to)), Filter([p], DatedBetween(from, to)), Rollups.Importe);
  }

  // ---------------------------------------------------------------------
  // Case files by state

  function EstadoOfCase(x: Expediente): Estado {
    x.estado
  }

  /** Buckets renamed through `label`, in the same order and with the same totals. */
  function Relabel<K>(g: seq<Bucket<K>>, name: K -> string): (r: seq<Bucket<string>>)
    ensures |r| == |g|
    ensures forall i :: 0 <= i < |g| ==> r[i] == Bucket(name(g[i].key), g[i].total)
  {
    if g == [] then [] else [Bucket(name(g[0].key), g[0].total)] + Relabel(g[1..], name)
  }

  lemma {:induction false} RelabelTotal<K>(g: seq<Bucket<K>>, name: K -> string)
    ensures TotalOf(Relabel(g, name)) == TotalOf(g)
    decreases |g|
  {
    if g != [] {
      RelabelTotal(g[1..], name);
    }
  }

  /** The state chart: one slice per state that some case file is in, in
      the order the states first occur, labelled and counted. */
  function EstadoChart(es: seq<Expediente>): (r: seq<Bucket<string>>)
    ensures forall i :: 0 <= i < |r| ==> r[i].total >= 1
  {
    CountBucketsPositive(es, EstadoOfCase);
    assert forall i :: 0 <= i < |GroupSum(es, EstadoOfCase, One)| ==> GroupSum(es, EstadoOfCase, One)[i].total >= 1;
    Relabel(GroupSum(es, EstadoOfCase, One), DashboardLabel)
  }

  /** How many case files are in state `e`. */
  function CasesIn(es: seq<Expediente>, e: Estado): nat {
    Count(es, HasKey(EstadoOfCase, e))
  }

  /** A state has a slice exactly when some case file is in it, and every
      slice with its label counts the case files in that state. */
  lemma EstadoChartCounts(es: seq<Expediente>, e: Estado)
    ensures var rows := EstadoChart(es);
      (exists i :: 0 <= i < |rows| && rows[i].key == DashboardLabel(e)) <==> CasesIn(es, e) > 0
    ensures var rows := EstadoChart(es);
      forall i :: 0 <= i < |rows| && rows[i].key == DashboardLabel(e) ==> rows[i].total == CasesIn(es, e)
  {
    var rows := EstadoChart(es);
    forall i | 0 <= i < |rows| && rows[i].key == DashboardLabel(e) ensures rows[i].total == CasesIn(es, e) {
      SliceTotal(es, e, i);
    }
    SliceExists(es, e);
  }

  /** A slice carrying the label of `e` is the bucket of `e`. */
  lemma LabelledSlice(g: seq<Bucket<Estado>>, e: Estado, i: nat)
    requires i < |g| && Relabel(g, DashboardLabel)[i].key == DashboardLabel(e)
    ensures g[i].key == e
  {
    DashboardLabelsDistinct(g[i].key, e);
  }

  lemma SliceTotal(es: seq<Expediente>, e: Estado, i: nat)
    requires i < |EstadoChart(es)| && EstadoChart(es)[i].key == DashboardLabel(e)
    ensures EstadoChart(es)[i].total == CasesIn(es, e)
  {
    var g := GroupSum(es, EstadoOfCase, One);
    LabelledSlice(g, e, i);
    GroupSumTotals(es, EstadoOfCase, One);
    assert g[i].total == KeyTotal(es, EstadoOfCase, One, e);
    SumOfOnes(Filter(es, HasKey(EstadoOfCase, e)));
  }

  lemma SliceExists(es: seq<Expediente>, e: Estado)
    ensures var rows := EstadoChart(es);
      (exists i :: 0 <= i < |rows| && rows[i].key == DashboardLabel(e)) <==> CasesIn(es, e) > 0
  {
    var g := GroupSum(es, EstadoOfCase, One);
    var rows := EstadoChart(es);
    HasBucketIffCounted(es, EstadoOfCase, One, e);
    if e in Keys(g) {
      var i :| 0 <= i < |g| && Keys(g)[i] == e;
      assert rows[i].key == DashboardLabel(e);
    }
    if exists i :: 0 <= i < |rows| && rows[i].key == DashboardLabel(e) {
      var i :| 0 <= i < |rows| && rows[i].key == DashboardLabel(e);
      LabelledSlice(g, e, i);
      assert Keys(g)[i] == e;
    }
  }

  /** The slices add up to the number of case files. */
  lemma EstadoChartTotal(es: seq<Expediente>)
    ensures TotalOf(EstadoChart(es)) == |es|
  {
    RelabelTotal(GroupSum(es, EstadoOfCase, One), DashboardLabel);
    GroupSumTotal(es, EstadoOfCase, One);
    SumOfOnes(es);
  }

  // ---------------------------------------------------------------------
  // Case files and income by month

  /** The case files started on or after `since` (five months back). */
  function StartedSince(since: Day): Expediente -> bool {
    (x: Expediente) => x.fechaInicio >= since
  }

  function FechaInicioOf(x: Expediente): int {
    x.fechaInicio
  }

  /** The month label of a case file's start day; `monthKey` writes a day
      as its abbreviated month and two-digit year. */
  function MonthOfCase(monthKey: Day -> string): Expediente -> string {
    (x: Expediente) => monthKey(x.fechaInicio)
  }

  /** The "case files per month" chart: the recent case files in order of
      start day, counted per month label. */
  function CasesByMonth(es: seq<Expediente>, since: Day, monthKey: Day -> string): (r: seq<Bucket<string>>)
    ensures DistinctKeys(r)
    ensures forall i :: 0 <= i < |r| ==> r[i].total >= 1
  {
    var sorted := SortBy(Filter(es, StartedSince(since)), FechaInicioOf);
    GroupSumDistinct(sorted, MonthOfCase(monthKey), One);
    CountBucketsPositive(sorted, MonthOfCase(monthKey));
    assert forall i :: 0 <= i < |GroupSum(sorted, MonthOfCase(monthKey), One)| ==>
      GroupSum(sorted, MonthOfCase(monthKey), One)[i].total >= 1;
    GroupSum(sorted, MonthOfCase(monthKey), One)
  }

  /** Each month's bar counts the recent case files started in that month,
      no month appears twice, and the bars add up to the recent case files. */
  lemma CasesByMonthCounts(es: seq<Expediente>, since: Day, monthKey: Day -> string)
    ensures var recent := Filter(es, StartedSince(since));
      var g := CasesByMonth(es, since, monthKey);
      TotalsMatch(g, recent, MonthOfCase(monthKey), One)
      && DistinctKeys(g)
      && TotalOf(g) == |recent|
  {
    var recent := Filter(es, StartedSince(since));
    GroupSumPermutation(recent, SortBy(recent, FechaInicioOf), MonthOfCase(monthKey), One);
    SumOfOnes(recent);
  }

  function FechaPagoOf(p: Payment): int {
    p.fechaPago
  }

  /** The payments dated on or after `since`. */
  function PaidSince(since: Day): Payment -> bool {
    (p: Payment) => p.fechaPago >= since
  }

  function MonthOfPayment(monthKey: Day -> string): Payment -> string {
    (p: Payment) => monthKey(p.fechaPago)
  }

  /** The "income per month" chart: the recent payments in order of date,
      their amounts added per month label. */
  function IncomeByMonth(ps: seq<Payment>, since: Day, monthKey: Day -> string): (r: seq<Bucket<string>>)
    ensures DistinctKeys(r)
  {
    GroupSumDistinct(SortBy(Filter(ps, PaidSince(since)), FechaPagoOf), MonthOfPayment(monthKey), Rollups.Importe);
    GroupSum(SortBy(Filter(ps, PaidSince(since)), FechaPagoOf), MonthOfPayment(monthKey), Rollups.Importe)
  }

  /** Each month's bar is the amount paid in that month, no month appears
      twice, and the bars add up to everything paid since `since`. */
  lemma IncomeByMonthTotals(ps: seq<Payment>, since: Day, monthKey: Day -> string)
    ensures var recent := Filter(ps, PaidSince(since));
      var g := IncomeByMonth(ps, since, monthKey);
      TotalsMatch(g, recent, MonthOfPayment(monthKey), Rollups.Importe)
      && DistinctKeys(g)
      && TotalOf(g) == Rollups.TotalPaid(recent)
  {
    var recent := Filter(ps, PaidSince(since));
    GroupSumPermutation(recent, SortBy(recent, FechaPagoOf), MonthOfPayment(monthKey), Rollups.Importe);
  }

  // ---------------------------------------------------------------------
  // Most requested procedure types

  /** The procedure-type name of each case file whose type is found (an
      inner join: case files of a missing type are dropped). */
  function TipoNames(es: seq<Expediente>, tipos: seq<TipoTramite>): (names: seq<string>)
    ensures |names| <= |es|
  {
    if es == [] then []
    else
      var rest := TipoNames(es[1..], tipos);
      match Lifecycle.FindTipo(tipos, es[0].tipoTramiteId)
      case None => rest
      case Some(t) => [t.nombre] + rest
  }

  /** The case files whose procedure type is named `n`. */
  function TipoNamed(tipos: seq<TipoTramite>, n: string): Expediente -> bool {
    (x: Expediente) => var t := Lifecycle.FindTipo(tipos, x.tipoTramiteId); t.Some? && t.value.nombre == n
  }

  function Ident(s: string): string {
    s
  }

  lemma {:induction false} TipoNamesCount(es: seq<Expediente>, tipos: seq<TipoTramite>, n: string)
    ensures |Filter(TipoNames(es, tipos), HasKey(Ident, n))| == Count(es, TipoNamed(tipos, n))
    decreases |es|
  {
    if es != [] {
      TipoNamesCount(es[1..], tipos, n);
      var rest := TipoNames(es[1..], tipos);
      TipoNamedHead(tipos, n, es[0]);
      match Lifecycle.FindTipo(tipos, es[0].tipoTramiteId)
      case None => {
        assert TipoNames(es, tipos) == rest;
      }
      case Some(t) => {
        var names := [t.nombre] + rest;
        assert TipoNames(es, tipos) == names;
        assert names[0] == t.nombre && names[1..] == rest;
      }
    }
  }

  /** A case file of a missing type has no name; otherwise it is named by its type. */
  lemma TipoNamedHead(tipos: seq<TipoTramite>, n: string, x: Expediente)
    ensures var t := Lifecycle.FindTipo(tipos, x.tipoTramiteId);
      TipoNamed(tipos, n)(x) <==> t.Some? && HasKey(Ident, n)(t.value.nombre)
  {
    var t := Lifecycle.FindTipo(tipos, x.tipoTramiteId);
    assert TipoNamed(tipos, n)(x) == (t.Some? && t.value.nombre == n);
    if t.Some? {
      assert HasKey(Ident, n)(t.value.nombre) == (Ident(t.value.nombre) == n);
    }
  }

  function BucketTotal(b: Bucket<string>): int {
    b.total
  }

  /** The five procedure-type names with the most case files, most first. */
  function TopTipos(es: seq<Expediente>, tipos: seq<TipoTramite>): (r: seq<Bucket<string>>)
    ensures var n := |GroupSum(TipoNames(es, tipos), Ident, One)|; |r| == if n < 5 then n else 5
    ensures SortedDescBy(r, BucketTotal)
    ensures multiset(r) <= multiset(GroupSum(TipoNames(es, tipos), Ident, One))
  {
    var g := GroupSum(TipoNames(es, tipos), Ident, One);
    TakeOfSortDesc(g, BucketTotal, 5);
    Take(SortDescBy(g, BucketTotal), 5)
  }

  /** Each entry counts the case files of procedure types with that name. */
  lemma TopTiposCounts(es: seq<Expediente>, tipos: seq<TipoTramite>, i: nat)
    requires i < |TopTipos(es, tipos)|
    ensures var r := TopTipos(es, tipos);
      r[i].total == Count(es, TipoNamed(tipos, r[i].key)) && r[i].total >= 1
  {
    var names := TipoNames(es, tipos);
    var g := GroupSum(names, Ident, One);
    var b := TopTipos(es, tipos)[i];
    TopTiposFromBuckets(es, tipos, i);
    var j :| 0 <= j < |g| && g[j] == b;
    TipoBucketCount(es, tipos, j);
  }

  /** Every entry of the five is one of the buckets. */
  lemma TopTiposFromBuckets(es: seq<Expediente>, tipos: seq<TipoTramite>, i: nat)
    requires i < |TopTipos(es, tipos)|
    ensures TopTipos(es, tipos)[i] in GroupSum(TipoNames(es, tipos), Ident, One)
  {
    var g := GroupSum(TipoNames(es, tipos), Ident, One);
    TakeOfSortFromInput(g, BucketTotal, 5);
    assert TopTipos(es, tipos)[i] in multiset(g);
  }

  /** Every bucket of names counts the case files of types with that name. */
  lemma TipoBucketCount(es: seq<Expediente>, tipos: seq<TipoTramite>, j: nat)
    requires j < |GroupSum(TipoNames(es, tipos), Ident, One)|
    ensures var b := GroupSum(TipoNames(es, tipos), Ident, One)[j];
      b.total == Count(es, TipoNamed(tipos, b.key)) && b.total >= 1
  {
    var names := TipoNames(es, tipos);
    var b := GroupSum(names, Ident, One)[j];
    GroupSumTotals(names, Ident, One);
    CountBucketsPositive(names, Ident);
    SumOfOnes(Filter(names, HasKey(Ident, b.key)));
    TipoNamesCount(es, tipos, b.key);
  }

  /** A name with case files that is left out of the five has no more case
      files than any name shown. */
  lemma TopTiposAreTop(es: seq<Expediente>, tipos: seq<TipoTramite>, n: string)
    requires Count(es, TipoNamed(tipos, n)) > 0
    ensures var r := TopTipos(es, tipos);
      (exists i :: 0 <= i < |r| && r[i].key == n)
      || forall i :: 0 <= i < |r| ==> Count(es, TipoNamed(tipos, n)) <= r[i].total
  {
    var names := TipoNames(es, tipos);
    var g := GroupSum(names, Ident, One);
    var r := TopTipos(es, tipos);
    TipoNamesCount(es, tipos, n);
    HasBucketIffCounted(names, Ident, One, n);
    var k :| 0 <= k < |g| && Keys(g)[k] == n;
    TipoBucketCount(es, tipos, k);
    var y := g[k];
    TopOfSortDesc(g, BucketTotal, 5, y);
    if y in r {
      var i :| 0 <= i < |r| && r[i] == y;
      assert r[i].key == n;
    }
  }

  // ---------------------------------------------------------------------
  // Most recent case files

  function Reverse<T>(s: seq<T>): (r: seq<T>)
    ensures |r| == |s|
    ensures forall i :: 0 <= i < |s| ==> r[i] == s[|s| - 1 - i]
  {
    if s == [] then [] else Reverse(s[1..]) + [s[0]]
  }

  /** The ten newest case files, newest first. */
  function Recent(es: seq<Expediente>): (r: seq<Expediente>)
    ensures |r| == if |es| <= 10 then |es| else 10
    ensures forall i :: 0 <= i < |r| ==> r[i] == es[|es| - 1 - i]
  {
    Take(Reverse(es), 10)
  }

  /** A new case file heads the list and pushes the others down one place. */
  lemma RecentAfterCreate(es: seq<Expediente>, e: Expediente)
    ensures Recent(es + [e])[0] == e
    ensures Recent(es + [e])[1..] == Take(Recent(es), 9)
  {
    var r := Recent(es + [e]);
    var old_ := Recent(es);
    assert |r[1..]| == |Take(old_, 9)|;
    forall i | 0 <= i < |r[1..]| ensures r[1..][i] == Take(old_, 9)[i] {
      assert r[i + 1] == (es + [e])[|es| - 1 - i];
    }
  }

  // ---------------------------------------------------------------------
  // Residence cards about to expire

  datatype Alerta = Alerta(cliente: Client, diasRestantes: int)

  /** Every client with an expiry date, paired with the days left until it;
      `daysUntil` is the day difference from today. */
  function WithDaysLeft(cs: seq<Client>, daysUntil: Day -> int): (r: seq<Alerta>)
    ensures forall i :: 0 <= i < |r| ==>
      r[i].cliente in cs && r[i].cliente.fechaVencimientoNie.Some?
      && r[i].diasRestantes == daysUntil(r[i].cliente.fechaVencimientoNie.value)
    ensures forall j :: 0 <= j < |cs| && cs[j].fechaVencimientoNie.Some? ==>
      Alerta(cs[j], daysUntil(cs[j].fechaVencimientoNie.value)) in r
  {
    if cs == [] then []
    else
      var rest := WithDaysLeft(cs[1..], daysUntil);
      assert forall j :: 1 <= j < |cs| ==> cs[j] == cs[1..][j - 1];
      match cs[0].fechaVencimientoNie
      case None => rest
      case Some(f) => [Alerta(cs[0], daysUntil(f))] + rest
  }

  /** Within the next thirty days, today included. */
  predicate ExpiresSoon(a: Alerta) {
    0 <= a.diasRestantes <= 30
  }

  function DiasRestantes(a: Alerta): int {
    a.diasRestantes
  }

  /** The alerts, the closest expiry first. */
  function NieAlerts(cs: seq<Client>, daysUntil: Day -> int): (r: seq<Alerta>)
    ensures SortedBy(r, DiasRestantes)
  {
    SortBy(Filter(WithDaysLeft(cs, daysUntil), ExpiresSoon), DiasRestantes)
  }

  /** A client is listed, with its days left, exactly when it has an expiry
      date between today and thirty days from now. */
  lemma NieAlertsExact(cs: seq<Client>, daysUntil: Day -> int, c: Client, d: int)
    ensures Alerta(c, d) in NieAlerts(cs, daysUntil) <==>
      c in cs && c.fechaVencimientoNie.Some? && d == daysUntil(c.fechaVencimientoNie.value) && 0 <= d <= 30
  {
    var a := Alerta(c, d);
    if a in NieAlerts(cs, daysUntil) {
      ListedAlert(cs, daysUntil, a);
    }
    if c in cs && c.fechaVencimientoNie.Some? && d == daysUntil(c.fechaVencimientoNie.value) && 0 <= d <= 30 {
      DueAlertListed(cs, daysUntil, a);
    }
  }

  lemma ListedAlert(cs: seq<Client>, daysUntil: Day -> int, a: Alerta)
    requires a in NieAlerts(cs, daysUntil)
    ensures a.cliente in cs && a.cliente.fechaVencimientoNie.Some?
    ensures a.diasRestantes == daysUntil(a.cliente.fechaVencimientoNie.value) && 0 <= a.diasRestantes <= 30
  {
    var f := Filter(WithDaysLeft(cs, daysUntil), ExpiresSoon);
    assert multiset(NieAlerts(cs, daysUntil)) == multiset(f);
    assert a in multiset(f);
    var i :| 0 <= i < |f| && f[i] == a;
  }

  lemma DueAlertListed(cs: seq<Client>, daysUntil: Day -> int, a: Alerta)
    requires a.cliente in cs && a.cliente.fechaVencimientoNie.Some?
    requires a.diasRestantes == daysUntil(a.cliente.fechaVencimientoNie.value) && 0 <= a.diasRestantes <= 30
    ensures a in NieAlerts(cs, daysUntil)
  {
    var w := WithDaysLeft(cs, daysUntil);
    var f := Filter(w, ExpiresSoon);
    var j :| 0 <= j < |cs| && cs[j] == a.cliente;
    assert a in w;
    assert a in f;
    assert multiset(NieAlerts(cs, daysUntil)) == multiset(f);
    assert a in multiset(NieAlerts(cs, daysUntil));
  }

  // ---------------------------------------------------------------------
  // Case files without movement

  datatype Parado = Parado(expediente: Expediente, dias: int)

  /** Every active case file, paired with the days since it was last
      updated; `daysSince` is the day difference up to today. */
  function ActiveWithIdleDays(es: seq<Expediente>, daysSince: Day -> int): (r: seq<Parado>)
    ensures forall i :: 0 <= i < |r| ==>
      r[i].expediente in es && IsActive(r[i].expediente.estado) && r[i].dias == daysSince(r[i].expediente.updatedAt)
    ensures forall j :: 0 <= j < |es| && IsActive(es[j].estado) ==> Parado(es[j], daysSince(es[j].updatedAt)) in r
  {
    if es == [] then []
    else
      var rest := ActiveWithIdleDays(es[1..], daysSince);
      assert forall j :: 1 <= j < |es| ==> es[j] == es[1..][j - 1];
      if IsActive(es[0].estado) then [Parado(es[0], daysSince(es[0].updatedAt))] + rest else rest
  }

  /** More than thirty days without an update. */
  predicate Idle(p: Parado) {
    p.dias > 30
  }

  function Dias(p: Parado): int {
    p.dias
  }

  /** The five active case files longest without an update, longest first. */
  function StaleCases(es: seq<Expediente>, daysSince: Day -> int): (r: seq<Parado>)
    ensures var n := |Filter(ActiveWithIdleDays(es, daysSince), Idle)|; |r| == if n < 5 then n else 5
    ensures SortedDescBy(r, Dias)
    ensures forall i :: 0 <= i < |r| ==> r[i] in Filter(ActiveWithIdleDays(es, daysSince), Idle)
    ensures multiset(r) <= multiset(Filter(ActiveWithIdleDays(es, daysSince), Idle))
  {
    var f := Filter(ActiveWithIdleDays(es, daysSince), Idle);
    TakeOfSortDesc(f, Dias, 5);
    Take(SortDescBy(f, Dias), 5)
  }

  /** Every listed case file is an active one of `es`, shown with its idle
      days, and idle for more than thirty days. */
  lemma StaleCasesListed(es: seq<Expediente>, daysSince: Day -> int, i: nat)
    requires i < |StaleCases(es, daysSince)|
    ensures var p := StaleCases(es, daysSince)[i];
      p.expediente in es && IsActive(p.expediente.estado)
      && p.dias == daysSince(p.expediente.updatedAt) && p.dias > 30
  {
    var f := Filter(ActiveWithIdleDays(es, daysSince), Idle);
    var p := StaleCases(es, daysSince)[i];
    var k :| 0 <= k < |f| && f[k] == p;
  }

  /** An active case file idle for more than thirty days that is not listed
      has been idle no longer than any that is. */
  lemma StaleCasesAreTop(es: seq<Expediente>, daysSince: Day -> int, j: nat)
    requires j < |es| && IsActive(es[j].estado) && daysSince(es[j].updatedAt) > 30
    ensures var r := StaleCases(es, daysSince);
      Parado(es[j], daysSince(es[j].updatedAt)) in r
      || forall i :: 0 <= i < |r| ==> daysSince(es[j].updatedAt) <= r[i].dias
  {
    var y := Parado(es[j], daysSince(es[j].updatedAt));
    var w := ActiveWithIdleDays(es, daysSince);
    var f := Filter(w, Idle);
    var k :| 0 <= k < |w| && w[k] == y;
    assert y in f;
    TopOfSortDesc(f, Dias, 5, y);
  }
}
