/** The client form (its validation and starting values), saving an edited
    client, and the address line of the client page. */
module Clients {
  import opened Wrappers
  import opened Text
  import opened Records

  // ---------------------------------------------------------------------
  // The client form

  /** The form's fields; the two dates are the picked days, absent when
      none is picked. */
  datatype ClienteValues = ClienteValues(
    nombre: string,
    apellidos: string,
    email: string,
    telefono: string,
    nacionalidad: string,
    niePasaporte: string,
    fechaVencimientoNie: Option<Day>,
    fechaNacimiento: Option<Day>,
    calle: string,
    numero: string,
    piso: string,
    puerta: string,
    observaciones: string)

  datatype ClienteField =
    | NombreField | ApellidosField | EmailField | TelefonoField | NacionalidadField | NiePasaporteField
    | CalleField | NumeroField | PisoField | PuertaField | ObservacionesField

  /** A required text: non-empty once trimmed, and at most `max` characters. */
  predicate RequiredText(s: string, max: nat) {
    1 <= |Trim(s)| <= max
  }

  /** An optional text: empty, or at most `max` characters once trimmed. */
  predicate OptionalText(s: string, max: nat) {
    s == "" || |Trim(s)| <= max
  }

  /** Whether one field passes the schema. `validEmail` is the e-mail
      format check, applied to the trimmed address; the two dates are never
      checked. */
  predicate FieldOk(v: ClienteValues, f: ClienteField, validEmail: string -> bool) {
    match f
    case NombreField => RequiredText(v.nombre, 255)
    case ApellidosField => RequiredText(v.apellidos, 255)
    case EmailField => validEmail(Trim(v.email)) && |Trim(v.email)| <= 255
    case TelefonoField => RequiredText(v.telefono, 50)
    case NacionalidadField => RequiredText(v.nacionalidad, 100)
    case NiePasaporteField => RequiredText(v.niePasaporte, 50)
    case CalleField => OptionalText(v.calle, 255)
    case NumeroField => OptionalText(v.numero, 20)
    case PisoField => OptionalText(v.piso, 20)
    case PuertaField => OptionalText(v.puerta, 20)
    case ObservacionesField => OptionalText(v.observaciones, 5000)
  }

  const AllFields: set<ClienteField> :=
    {NombreField, ApellidosField, EmailField, TelefonoField, NacionalidadField, NiePasaporteField,
     CalleField, NumeroField, PisoField, PuertaField, ObservacionesField}

  /** The fields the schema rejects. */
  function ClienteErrors(v: ClienteValues, validEmail: string -> bool): (errs: set<ClienteField>)
    ensures forall f :: f in errs <==> !FieldOk(v, f, validEmail)
    ensures errs == {} <==> ValidCliente(v, validEmail)
  {
    EveryFieldListed();
    set f | f in AllFields && !FieldOk(v, f, validEmail)
  }

  lemma EveryFieldListed()
    ensures forall f: ClienteField :: f in AllFields
  {
    forall f: ClienteField ensures f in AllFields {
      match f
      case NombreField =>
      case ApellidosField =>
      case EmailField =>
      case TelefonoField =>
      case NacionalidadField =>
      case NiePasaporteField =>
      case CalleField =>
      case NumeroField =>
      case PisoField =>
      case PuertaField =>
      case ObservacionesField =>
    }
  }

  /** Every field passes the schema. */
  predicate ValidCliente(v: ClienteValues, validEmail: string -> bool) {
    forall f :: FieldOk(v, f, validEmail)
  }

  /** The form's starting values: every text field of an existing client,
      a missing one as "", and its two dates; or all empty for a new client. */
  function ClienteDefaults(c: Option<Client>): (v: ClienteValues)
    ensures c.None? ==> v == ClienteValues("", "", "", "", "", "", None, None, "", "", "", "", "")
    ensures c.Some? ==>
      v.nombre == c.value.nombre && v.apellidos == c.value.apellidos && v.niePasaporte == c.value.niePasaporte
      && v.fechaVencimientoNie == c.value.fechaVencimientoNie && v.fechaNacimiento == c.value.fechaNacimiento
      && OrNull(v.email) == (if Truthy(c.value.email) then c.value.email else None)
      && OrNull(v.calle) == (if Truthy(c.value.calle) then c.value.calle else None)
  {
    match c
    case None => ClienteValues("", "", "", "", "", "", None, None, "", "", "", "", "")
    case Some(x) =>
      ClienteValues(x.nombre, x.apellidos, OrEmpty(x.email), OrEmpty(x.telefono), OrEmpty(x.nacionalidad),
                    x.niePasaporte, x.fechaVencimientoNie, x.fechaNacimiento,
                    OrEmpty(x.calle), OrEmpty(x.numero), OrEmpty(x.piso), OrEmpty(x.puerta), OrEmpty(x.observaciones))
  }

  /** A new client's form is refused until the six required fields are
      filled in. */
  lemma NewClientRejected(validEmail: string -> bool)
    ensures var errs := ClienteErrors(ClienteDefaults(None), validEmail);
      {NombreField, ApellidosField, TelefonoField, NacionalidadField, NiePasaporteField} <= errs
      && (EmailField in errs <==> !validEmail(""))
      && CalleField !in errs && ObservacionesField !in errs
  {
    var d := ClienteDefaults(None);
    assert Trim("") == "";
    assert !FieldOk(d, NombreField, validEmail) && !FieldOk(d, ApellidosField, validEmail);
    assert !FieldOk(d, TelefonoField, validEmail) && !FieldOk(d, NacionalidadField, validEmail);
    assert !FieldOk(d, NiePasaporteField, validEmail);
    assert FieldOk(d, EmailField, validEmail) <==> validEmail("");
    assert FieldOk(d, CalleField, validEmail) && FieldOk(d, ObservacionesField, validEmail);
  }

  /** Saving an edit: the validated (trimmed) values replace the client's
      fields, the id is kept, an empty optional text is stored as "" and a
      missing date as null. */
  function EditClient(c: Client, v: ClienteValues, validEmail: string -> bool): (r: Result<Client, set<ClienteField>>)
    ensures r.Failure? <==> ClienteErrors(v, validEmail) != {}
    ensures r.Success? ==>
      r.value.id == c.id
      && r.value.fechaVencimientoNie == v.fechaVencimientoNie && r.value.fechaNacimiento == v.fechaNacimiento
      && SavedTexts(v, r.value)
      && ValidCliente(ClienteDefaults(Some(r.value)), validEmail)
  {
    var errs := ClienteErrors(v, validEmail);
    if errs != {} then Failure(errs)
    else
      var saved := Client(c.id, Trim(v.nombre), Trim(v.apellidos), Some(Trim(v.email)), Some(Trim(v.telefono)),
                          Some(Trim(v.nacionalidad)), Trim(v.niePasaporte), v.fechaVencimientoNie, v.fechaNacimiento,
                          Some(Trim(v.calle)), Some(Trim(v.numero)), Some(Trim(v.piso)), Some(Trim(v.puerta)),
                          Some(Trim(v.observaciones)));
      SavedClientValid(v, saved, validEmail);
      Success(saved)
  }

  /** Trimming twice is trimming once. */
  lemma TrimIdempotent(s: string)
    ensures Trim(Trim(s)) == Trim(s)
  {
  }

  /** Every text of `saved` is the trimmed text of the form: the schema's
      `trim()` runs before the values reach the update, and the optional
      texts are stored as they come, "" included. */
  predicate SavedTexts(v: ClienteValues, saved: Client) {
    saved.nombre == Trim(v.nombre) && saved.apellidos == Trim(v.apellidos)
    && saved.email == Some(Trim(v.email)) && saved.telefono == Some(Trim(v.telefono))
    && saved.nacionalidad == Some(Trim(v.nacionalidad)) && saved.niePasaporte == Trim(v.niePasaporte)
    && saved.calle == Some(Trim(v.calle)) && saved.numero == Some(Trim(v.numero))
    && saved.piso == Some(Trim(v.piso)) && saved.puerta == Some(Trim(v.puerta))
    && saved.observaciones == Some(Trim(v.observaciones))
  }

  /** The saved values pass the schema again when the client is reopened. */
  lemma SavedClientValid(v: ClienteValues, saved: Client, validEmail: string -> bool)
    requires ValidCliente(v, validEmail)
    requires SavedTexts(v, saved)
    ensures ValidCliente(ClienteDefaults(Some(saved)), validEmail)
  {
    var w := ClienteDefaults(Some(saved));
    forall f ensures FieldOk(w, f, validEmail) {
      assert FieldOk(v, f, validEmail);
      match f
      case NombreField => RequiredStays(v.nombre, 255);
      case ApellidosField => RequiredStays(v.apellidos, 255);
      case EmailField => TrimIdempotent(v.email);
      case TelefonoField => RequiredStays(v.telefono, 50);
      case NacionalidadField => RequiredStays(v.nacionalidad, 100);
      case NiePasaporteField => RequiredStays(v.niePasaporte, 50);
      case CalleField => OptionalStays(v.calle, 255);
      case NumeroField => OptionalStays(v.numero, 20);
      case PisoField => OptionalStays(v.piso, 20);
      case PuertaField => OptionalStays(v.puerta, 20);
      case ObservacionesField => OptionalStays(v.observaciones, 5000);
    }
  }

  lemma RequiredStays(s: string, max: nat)
    requires RequiredText(s, max)
    ensures RequiredText(Trim(s), max) && RequiredText(OrEmpty(Some(Trim(s))), max)
  {
    TrimIdempotent(s);
  }

  lemma OptionalStays(s: string, max: nat)
    requires OptionalText(s, max)
    ensures OptionalText(OrEmpty(Some(Trim(s))), max)
  {
    TrimIdempotent(s);
    if s == "" {
      assert Trim(s) == "";
    }
  }

  /** A text with no white space at either end. */
  predicate Trimmed(s: string) {
    s == [] || (!IsSpace(s[0]) && !IsSpace(s[|s| - 1]))
  }

  lemma TrimmedFixed(s: string)
    requires Trimmed(s)
    ensures Trim(s) == s
  {
  }

  /** Opening a client and saving it unchanged writes back the same row,
      when its texts are already trimmed and its optional ones are stored. */
  lemma EditUnchangedRoundTrip(c: Client, validEmail: string -> bool)
    requires ValidCliente(ClienteDefaults(Some(c)), validEmail)
    requires Trimmed(c.nombre) && Trimmed(c.apellidos) && Trimmed(c.niePasaporte)
    requires c.email.Some? && Trimmed(c.email.value) && c.telefono.Some? && Trimmed(c.telefono.value)
    requires c.nacionalidad.Some? && Trimmed(c.nacionalidad.value)
    requires c.calle.Some? && Trimmed(c.calle.value) && c.numero.Some? && Trimmed(c.numero.value)
    requires c.piso.Some? && Trimmed(c.piso.value) && c.puerta.Some? && Trimmed(c.puerta.value)
    requires c.observaciones.Some? && Trimmed(c.observaciones.value)
    ensures EditClient(c, ClienteDefaults(Some(c)), validEmail) == Success(c)
  {
    var v := ClienteDefaults(Some(c));
    TrimmedFixed(c.nombre);
    TrimmedFixed(c.apellidos);
    TrimmedFixed(c.niePasaporte);
    TrimmedFixed(c.email.value);
    TrimmedFixed(c.telefono.value);
    TrimmedFixed(c.nacionalidad.value);
    TrimmedFixed(c.calle.value);
    TrimmedFixed(c.numero.value);
    TrimmedFixed(c.piso.value);
    TrimmedFixed(c.puerta.value);
    TrimmedFixed(c.observaciones.value);
    assert v.email == c.email.value && v.telefono == c.telefono.value && v.nacionalidad == c.nacionalidad.value;
    assert v.calle == c.calle.value && v.numero == c.numero.value;
    assert v.piso == c.piso.value && v.puerta == c.puerta.value && v.observaciones == c.observaciones.value;
  }

  /** A client without a street is saved with an empty street, not null. */
  lemma MissingStreetSavedEmpty(c: Client, validEmail: string -> bool)
    requires c.calle.None?
    ensures var r := EditClient(c, ClienteDefaults(Some(c)), validEmail);
      r.Success? ==> r.value.calle == Some("")
  {
    assert Trim("") == "";
  }

  // ---------------------------------------------------------------------
  // The address line

  /** What the address card shows: street and number separated by a
      space, then ", piso" and " puerta" when those are set; "No
      especificada" when there is neither street nor number. */
  function Direccion(c: Client): (r: string)
    ensures !(Truthy(c.calle) || Truthy(c.numero)) ==> r == "No especificada"
    ensures Truthy(c.calle) || Truthy(c.numero) ==>
      OrEmpty(c.calle) + " " + OrEmpty(c.numero) <= r
      && |r| == |OrEmpty(c.calle)| + 1 + |OrEmpty(c.numero)|
                + (if Truthy(c.piso) then 2 + |c.piso.value| else 0)
                + (if Truthy(c.puerta) then 1 + |c.puerta.value| else 0)
      && (Truthy(c.puerta) ==> r[|r| - |c.puerta.value| - 1..] == " " + c.puerta.value)
  {
    if Truthy(c.calle) || Truthy(c.numero) then
      var head := OrEmpty(c.calle) + " " + OrEmpty(c.numero);
      var mid := head + (if Truthy(c.piso) then ", " + c.piso.value else "");
      var r := mid + (if Truthy(c.puerta) then " " + c.puerta.value else "");
      assert r[..|head|] == head;
      r
    else "No especificada"
  }

  /** With an address shown, the floor follows street and number exactly
      when one is set, as ", " and the floor; otherwise only the door, if
      any, follows. */
  lemma DireccionFloor(c: Client)
    requires Truthy(c.calle) || Truthy(c.numero)
    ensures var r := Direccion(c);
      var h := |OrEmpty(c.calle) + " " + OrEmpty(c.numero)|;
      (|r| > h ==> (r[h] == ',' <==> Truthy(c.piso)))
      && (Truthy(c.piso) ==> r[h..h + 2 + |c.piso.value|] == ", " + c.piso.value)
      && (!Truthy(c.piso) ==> r[h..] == if Truthy(c.puerta) then " " + c.puerta.value else "")
  {
  }

  /** Examples: a full address, a number alone (shown after a space), and
      a floor without street or number (not shown). */
  lemma DireccionExamples(c: Client)
    ensures var full := c.(calle := Some("Mayor"), numero := Some("5"), piso := Some("2"), puerta := Some("B"));
      Direccion(full) == "Mayor 5, 2 B"
    ensures var bare := c.(calle := None, numero := Some("7"), piso := None, puerta := None);
      Direccion(bare) == " 7"
    ensures var floor := c.(calle := Some(""), numero := None, piso := Some("3"));
      Direccion(floor) == "No especificada"
  {
  }
}
