/** The catalogue of procedure types and their required documents: moving a
    document up or down the checklist, switching types and documents on and
    off, the default selection, and the two edit forms. */
module Catalog {
  import opened Wrappers
  import opened Text
  import opened Records
  import Lifecycle

  // ---------------------------------------------------------------------
  // Reordering a type's documents

  datatype Direction = Up | Down

  /** `findIndex`: the position of the first document with `id`, or -1. */
  function FindDocIndex(docs: seq<DocumentoRequerido>, id: Id): (i: int)
    ensures -1 <= i < |docs|
    ensures i >= 0 ==> docs[i].id == id
    ensures forall j :: 0 <= j < |docs| && (i < 0 || j < i) ==> docs[j].id != id
  {
    if docs == [] then -1
    else if docs[0].id == id then 0
    else
      var k := FindDocIndex(docs[1..], id);
      if k < 0 then -1 else k + 1
  }

  /** `update({ orden }).eq("id", id)`: every row with that id gets the position `o`. */
  function SetOrden(docs: seq<DocumentoRequerido>, id: Id, o: Option<int>): (r: seq<DocumentoRequerido>)
    ensures |r| == |docs|
    ensures forall i :: 0 <= i < |docs| ==>
      r[i].orden == (if docs[i].id == id then o else docs[i].orden) && r[i] == docs[i].(orden := r[i].orden)
  {
    seq(|docs|, i requires 0 <= i < |docs| => if docs[i].id == id then docs[i].(orden := o) else docs[i])
  }

  /** Moving a document one place up or down the list the page shows: its
      position value and its neighbour's are exchanged by two updates. An
      unknown id, the first document moved up and the last moved down change
      nothing. */
  function ReorderDoc(docs: seq<DocumentoRequerido>, docId: Id, dir: Direction): (r: seq<DocumentoRequerido>)
    ensures |r| == |docs|
    ensures forall i :: 0 <= i < |docs| ==> r[i] == docs[i].(orden := r[i].orden)
    ensures forall i :: 0 <= i < |docs| ==> r[i].orden in Ordenes(docs)
  {
    assert forall i :: 0 <= i < |docs| ==> Ordenes(docs)[i] == docs[i].orden;
    var k := FindDocIndex(docs, docId);
    if k < 0 then docs
    else
      var s := if dir == Up then k - 1 else k + 1;
      if s < 0 || s >= |docs| then docs
      else
        var doc := docs[k];
        var swap := docs[s];
        SetOrden(SetOrden(docs, doc.id, swap.orden), swap.id, doc.orden)
  }

  predicate UniqueDocIds(docs: seq<DocumentoRequerido>) {
    forall i, j :: 0 <= i < j < |docs| ==> docs[i].id != docs[j].id
  }

  /** The position values of the list, in list order. */
  function Ordenes(docs: seq<DocumentoRequerido>): seq<Option<int>> {
    seq(|docs|, i requires 0 <= i < |docs| => docs[i].orden)
  }

  /** Moving an unknown document, the first one up or the last one down
      changes nothing. */
  lemma ReorderNoOp(docs: seq<DocumentoRequerido>, docId: Id, dir: Direction)
    requires (forall j :: 0 <= j < |docs| ==> docs[j].id != docId)
          || (|docs| > 0 && docs[0].id == docId && dir == Up)
          || (|docs| > 0 && docs[|docs| - 1].id == docId && dir == Down && UniqueDocIds(docs))
    ensures ReorderDoc(docs, docId, dir) == docs
  {
  }

  /** Otherwise, with distinct ids, exactly the two neighbours exchange
      their position values and nothing else changes. */
  lemma ReorderSwaps(docs: seq<DocumentoRequerido>, k: nat, dir: Direction)
    requires UniqueDocIds(docs) && k < |docs|
    requires var s := if dir == Up then k - 1 else k + 1; 0 <= s < |docs|
    ensures var s := if dir == Up then k - 1 else k + 1;
      var r := ReorderDoc(docs, docs[k].id, dir);
      |r| == |docs|
      && r[k] == docs[k].(orden := docs[s].orden)
      && r[s] == docs[s].(orden := docs[k].orden)
      && forall j :: 0 <= j < |docs| && j != k && j != s ==> r[j] == docs[j]
  {
    var s := if dir == Up then k - 1 else k + 1;
    assert FindDocIndex(docs, docs[k].id) == k;
  }

  /** A move keeps the multiset of position values. */
  lemma ReorderKeepsOrdenes(docs: seq<DocumentoRequerido>, docId: Id, dir: Direction)
    requires UniqueDocIds(docs)
    ensures multiset(Ordenes(ReorderDoc(docs, docId, dir))) == multiset(Ordenes(docs))
  {
    var k := FindDocIndex(docs, docId);
    var s := if dir == Up then k - 1 else k + 1;
    if k >= 0 && 0 <= s < |docs| {
      var r := ReorderDoc(docs, docId, dir);
      ReorderSwaps(docs, k, dir);
      assert Ordenes(r) == Ordenes(docs)[k := docs[s].orden][s := docs[k].orden];
      SwapMultiset(Ordenes(docs), k, s);
    }
  }

  lemma SwapMultiset<T>(xs: seq<T>, a: nat, b: nat)
    requires a < |xs| && b < |xs|
    ensures multiset(xs[a := xs[b]][b := xs[a]]) == multiset(xs)
  {
    var ys := xs[a := xs[b]];
    assert multiset(ys) == multiset(xs) - multiset{xs[a]} + multiset{xs[b]};
    assert ys[b] == (if a == b then xs[b] else xs[b]);
    assert multiset(ys[b := xs[a]]) == multiset(ys) - multiset{ys[b]} + multiset{xs[a]};
  }

  /** Moving a document up writes the same rows as moving its upper
      neighbour down, and the two updates of a move, applied again to the
      rows they produced at the same list positions, write the rows back:
      the swap of two position values is its own inverse. (The page itself
      re-reads the list sorted by position after each move, so a second
      click acts on a re-sorted list; this is a statement about the rows.) */
  lemma ReorderInverse(docs: seq<DocumentoRequerido>, k: nat)
    requires UniqueDocIds(docs) && 0 < k < |docs|
    ensures ReorderDoc(docs, docs[k].id, Up) == ReorderDoc(docs, docs[k - 1].id, Down)
    ensures ReorderDoc(ReorderDoc(docs, docs[k].id, Up), docs[k].id, Up) == docs
  {
    var r := ReorderDoc(docs, docs[k].id, Up);
    ReorderSwaps(docs, k, Up);
    ReorderSwaps(docs, k - 1, Down);
    assert r == ReorderDoc(docs, docs[k - 1].id, Down);
    assert UniqueDocIds(r) by {
      forall i, j | 0 <= i < j < |r| ensures r[i].id != r[j].id {
        assert r[i].id == docs[i].id && r[j].id == docs[j].id;
      }
    }
    ReorderSwaps(r, k, Up);
    assert r[k].id == docs[k].id;
  }

  // ---------------------------------------------------------------------
  // Switching types and documents on and off

  /** `update({ active }).eq("id", id)` on the types. */
  function SetTipoActive(tipos: seq<TipoTramite>, id: Id, active: bool): (r: seq<TipoTramite>)
    ensures |r| == |tipos|
    ensures forall i :: 0 <= i < |tipos| ==>
      r[i] == if tipos[i].id == id then tipos[i].(active := Some(active)) else tipos[i]
  {
    seq(|tipos|, i requires 0 <= i < |tipos| => if tipos[i].id == id then tipos[i].(active := Some(active)) else tipos[i])
  }

  /** `update({ active }).eq("id", id)` on the documents. */
  function SetDocActive(docs: seq<DocumentoRequerido>, id: Id, active: bool): (r: seq<DocumentoRequerido>)
    ensures |r| == |docs|
    ensures forall i :: 0 <= i < |docs| ==>
      r[i] == if docs[i].id == id then docs[i].(active := Some(active)) else docs[i]
  {
    seq(|docs|, i requires 0 <= i < |docs| => if docs[i].id == id then docs[i].(active := Some(active)) else docs[i])
  }

  /** Switching back restores a type whose flag was set, and the last
      switch wins. */
  lemma TipoToggleBack(tipos: seq<TipoTramite>, id: Id, a: bool, b: bool)
    requires forall i :: 0 <= i < |tipos| && tipos[i].id == id ==> tipos[i].active.Some?
    ensures forall i :: 0 <= i < |tipos| && tipos[i].id == id ==>
      SetTipoActive(SetTipoActive(tipos, id, a), id, tipos[i].active.value)[i] == tipos[i]
    ensures SetTipoActive(SetTipoActive(tipos, id, a), id, b) == SetTipoActive(tipos, id, b)
  {
  }

  /** Switching back restores a document whose flag was set, and the last
      switch wins. */
  lemma DocToggleBack(docs: seq<DocumentoRequerido>, id: Id, a: bool, b: bool)
    requires forall i :: 0 <= i < |docs| && docs[i].id == id ==> docs[i].active.Some?
    ensures forall i :: 0 <= i < |docs| && docs[i].id == id ==>
      SetDocActive(SetDocActive(docs, id, a), id, docs[i].active.value)[i] == docs[i]
    ensures SetDocActive(SetDocActive(docs, id, a), id, b) == SetDocActive(docs, id, b)
  {
  }

  /** A switched-off document is left out of the checklist a new case file
      of its type receives, and switching it on puts it in. */
  lemma DocToggleChecklist(docs: seq<DocumentoRequerido>, id: Id, tipoId: Id)
    ensures var off := Lifecycle.ActiveRequirements(SetDocActive(docs, id, false), tipoId);
      forall k :: 0 <= k < |off| ==> off[k].id != id
    ensures var on := SetDocActive(docs, id, true);
      forall i :: 0 <= i < |docs| && docs[i].id == id && docs[i].tipoTramiteId == Some(tipoId) ==>
        on[i] in Lifecycle.ActiveRequirements(on, tipoId)
  {
  }

  /** After the types are read (in name order), the first one is selected
      when nothing was; an earlier selection is kept as it is. */
  function SelectAfterFetch(byName: seq<TipoTramite>, selected: Option<Id>): (r: Option<Id>)
    ensures selected.Some? ==> r == selected
    ensures selected.None? && |byName| > 0 ==> r == Some(byName[0].id)
    ensures selected.None? && |byName| == 0 ==> r.None?
  {
    if |byName| > 0 && selected.None? then Some(byName[0].id) else selected
  }

  /** A selection is made whenever there is a type, and it is never
      replaced by a later read. */
  lemma SelectionSticks(byName: seq<TipoTramite>, later: seq<TipoTramite>, selected: Option<Id>)
    ensures |byName| > 0 ==> SelectAfterFetch(byName, selected).Some?
    ensures SelectAfterFetch(later, SelectAfterFetch(byName, selected)) == SelectAfterFetch(byName, selected)
            || (|byName| == 0 && selected.None?)
  {
  }

  // ---------------------------------------------------------------------
  // The required-document form

  datatype DocValues = DocValues(nombreDocumento: string, descripcion: string, orden: string, active: bool)

  datatype DocField = NombreDocumentoField

  /** `parseInt` as stored: NaN is written as null. */
  function IntOrNull(x: JsInt): Option<int> {
    match x
    case NaN => None
    case Num(n) => Some(n)
  }

  /** The form's starting values: an existing document's fields (a missing
      description as "", a missing position as "0", a missing flag as on),
      or an empty document that is on and at position "0". */
  function DocDefaults(d: Option<DocumentoRequerido>): (v: DocValues)
    ensures d.None? ==> v == DocValues("", "", "0", true)
    ensures d.Some? ==> v.nombreDocumento == d.value.nombreDocumento
    ensures d.Some? && d.value.active.Some? ==> v.active == d.value.active.value
    ensures d.Some? && d.value.active.None? ==> v.active
  {
    match d
    case None => DocValues("", "", "0", true)
    case Some(x) =>
      DocValues(x.nombreDocumento, OrEmpty(x.descripcion),
                if x.orden.Some? then IntToString(x.orden.value) else "0",
                x.active.GetOr(true))
  }

  /** Only the name is checked; the position check accepts any text. */
  function DocErrors(v: DocValues): (errs: set<DocField>)
    ensures errs == {} <==> v.nombreDocumento != ""
  {
    if v.nombreDocumento == "" then {NombreDocumentoField} else {}
  }

  /** The row the form writes, for the selected type; an empty description
      is stored as null and the position as `parseInt` reads it. */
  function DocRow(id: Id, tipoId: Id, v: DocValues): (d: DocumentoRequerido)
    ensures d.id == id && d.tipoTramiteId == Some(tipoId) && d.active == Some(v.active)
    ensures d.nombreDocumento == v.nombreDocumento
    ensures d.descripcion == OrNull(v.descripcion) && d.orden == IntOrNull(ParseInt(v.orden))
  {
    DocumentoRequerido(id, Some(tipoId), v.nombreDocumento, OrNull(v.descripcion), IntOrNull(ParseInt(v.orden)), Some(v.active))
  }

  /** Saving the form: refused when the name is empty; otherwise the edited
      document's row is rewritten in place, or a new row is added. */
  function SaveDoc(docs: seq<DocumentoRequerido>, tipoId: Id, editing: Option<DocumentoRequerido>, v: DocValues,
                   newId: Id): (r: Result<seq<DocumentoRequerido>, set<DocField>>)
    ensures r.Failure? <==> v.nombreDocumento == ""
    ensures r.Success? && editing.None? ==> r.value == docs + [DocRow(newId, tipoId, v)]
    ensures r.Success? && editing.Some? ==>
      |r.value| == |docs|
      && forall i :: 0 <= i < |docs| ==>
           r.value[i] == if docs[i].id == editing.value.id then DocRow(docs[i].id, tipoId, v) else docs[i]
  {
    var errs := DocErrors(v);
    if errs != {} then Failure(errs)
    else match editing
      case None => Success(docs + [DocRow(newId, tipoId, v)])
      case Some(e) =>
        Success(seq(|docs|, i requires 0 <= i < |docs| => if docs[i].id == e.id then DocRow(docs[i].id, tipoId, v) else docs[i]))
  }

  /** A new document's form is refused until it is named; a position of
      minus three is accepted and stored. */
  lemma DocFormEdges(v: DocValues)
    ensures DocErrors(DocDefaults(None)) == {NombreDocumentoField}
    ensures v.nombreDocumento != "" && v.orden == "-3" ==> DocErrors(v) == {} && DocRow("d", "t", v).orden == Some(-3)
  {
    if v.orden == "-3" {
      assert v.orden == IntToString(-3);
      ParseIntToString(-3);
    }
  }

  /** Opening an existing document and saving it unchanged writes back the
      same row, as long as its fields are set the way the form writes them. */
  lemma DocEditRoundTrip(d: DocumentoRequerido, tipoId: Id)
    requires d.tipoTramiteId == Some(tipoId) && d.descripcion != Some("")
    requires d.orden.Some? && d.active.Some?
    ensures DocRow(d.id, tipoId, DocDefaults(Some(d))) == d
  {
    ParseIntToString(d.orden.value);
  }

  // ---------------------------------------------------------------------
  // The procedure-type form

  datatype TipoValues = TipoValues(nombre: string, codigo: string, precioBase: string, active: bool)

  datatype TipoField = NombreField | CodigoField

  /** The form's starting values: an existing type's fields (a missing
      price as "0", a missing flag as on), or an empty type priced "0" and
      on. `show` writes a price the way the field displays it. */
  function TipoDefaults(t: Option<TipoTramite>, show: Cents -> string): (v: TipoValues)
    ensures t.None? ==> v == TipoValues("", "", "0", true)
    ensures t.Some? ==> v.nombre == t.value.nombre && v.codigo == t.value.codigo
    ensures t.Some? && t.value.active.Some? ==> v.active == t.value.active.value
    ensures t.Some? && t.value.active.None? ==> v.active
  {
    match t
    case None => TipoValues("", "", "0", true)
    case Some(x) =>
      var shown := if x.precioBase.Some? then show(x.precioBase.value) else "";
      TipoValues(x.nombre, x.codigo, if shown != "" then shown else "0", x.active.GetOr(true))
  }

  /** Name and code must be filled in; the price check accepts any text. */
  function TipoErrors(v: TipoValues): (errs: set<TipoField>)
    ensures errs == {} <==> v.nombre != "" && v.codigo != ""
  {
    (if v.nombre == "" then {NombreField} else {}) + (if v.codigo == "" then {CodigoField} else {})
  }

  /** The row the form writes: name, code, the parsed price (absent when
      it is not a number) and the flag. */
  function TipoRow(id: Id, v: TipoValues, parsePrice: string -> Option<Cents>): (t: TipoTramite)
    ensures t.id == id && t.nombre == v.nombre && t.codigo == v.codigo
    ensures t.precioBase == parsePrice(v.precioBase) && t.active == Some(v.active)
  {
    TipoTramite(id, v.nombre, v.codigo, parsePrice(v.precioBase), Some(v.active))
  }

  /** Saving the form: refused when name or code is empty; otherwise the
      edited type's row is rewritten in place, or a new row is added. */
  function SaveTipo(tipos: seq<TipoTramite>, editing: Option<TipoTramite>, v: TipoValues, newId: Id,
                    parsePrice: string -> Option<Cents>): (r: Result<seq<TipoTramite>, set<TipoField>>)
    ensures r.Failure? <==> v.nombre == "" || v.codigo == ""
    ensures r.Success? && editing.None? ==> r.value == tipos + [TipoRow(newId, v, parsePrice)]
    ensures r.Success? && editing.Some? ==>
      |r.value| == |tipos|
      && forall i :: 0 <= i < |tipos| ==>
           r.value[i] == if tipos[i].id == editing.value.id then TipoRow(tipos[i].id, v, parsePrice) else tipos[i]
  {
    var errs := TipoErrors(v);
    if errs != {} then Failure(errs)
    else match editing
      case None => Success(tipos + [TipoRow(newId, v, parsePrice)])
      case Some(e) =>
        Success(seq(|tipos|, i requires 0 <= i < |tipos| => if tipos[i].id == e.id then TipoRow(tipos[i].id, v, parsePrice) else tipos[i]))
  }

  /** A new type's form is refused until it has a name and a code, and is
      saved priced at whatever "0" parses to. */
  lemma TipoFormEdges(parsePrice: string -> Option<Cents>, show: Cents -> string)
    ensures TipoErrors(TipoDefaults(None, show)) == {NombreField, CodigoField}
    ensures TipoRow("t", TipoDefaults(None, show).(nombre := "n", codigo := "c"), parsePrice).precioBase == parsePrice("0")
  {
  }

  /** Opening an existing type and saving it unchanged writes back the same
      row, when the displayed price parses back to the stored one; a type
      without a price comes back priced at whatever "0" parses to. */
  lemma TipoEditRoundTrip(t: TipoTramite, parsePrice: string -> Option<Cents>, show: Cents -> string)
    requires t.active.Some?
    requires t.precioBase.Some? ==> show(t.precioBase.value) != "" && parsePrice(show(t.precioBase.value)) == t.precioBase
    ensures t.precioBase.Some? ==> TipoRow(t.id, TipoDefaults(Some(t), show), parsePrice) == t
    ensures t.precioBase.None? ==> TipoRow(t.id, TipoDefaults(Some(t), show), parsePrice) == t.(precioBase := parsePrice("0"))
  {
  }
}
