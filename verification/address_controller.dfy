/**
  The Address controller: the seven-field rule tables of its create and
  update schemas and its five handlers. Creation checks the syntax of the
  owning client's identifier first, then the body, then that the client
  exists.
*/
module AddressController {
  import opened Wrappers
  import opened Payload
  import opened Validation
  import opened Storage

  const CepFormat: string := "XxXxX-xXx"

  /**
    The seven fields, in declared order, with the rules of the create
    schema. Only `numero` overrides the empty-string message, with the text
    of its minimum; `complemento` is the one optional field.
  */
  const Fields: seq<FieldRule> := [
    FieldRule("logradouro", true, MinLength(5), DefaultEmpty),
    FieldRule("numero", true, MinLength(1), Text(MinMessage("numero", 1))),
    FieldRule("complemento", false, MinLength(3), DefaultEmpty),
    FieldRule("bairro", true, MinLength(3), DefaultEmpty),
    FieldRule("cidade", true, MinLength(3), DefaultEmpty),
    FieldRule("estado", true, MinLength(2), DefaultEmpty),
    FieldRule("cep", true, Pattern(Cep, CepFormat), DefaultEmpty)
  ]

  const MissingMessage: string :=
    "Pelo menos um dos campos 'logradouro', 'numero', 'complemento', 'bairro', 'cidade', 'estado' ou 'cep' deve conter uma informação nova."

  const CreateSchema: Schema := Schema(Fields, None)
  const UpdateSchema: Schema := Schema(Optional(Fields), Some(MissingMessage))

  const InvalidClientId: string := "Este ID de Cliente não é válido."
  const ClientNotFound: string := "Este Cliente não foi encontrado."
  const InvalidId: string := "Este ID de Endereço não é válido."
  const NotFound: string := "Este Endereço não foi encontrado."
  const CreateFailed: string := "Não foi possível adicionar o Endereço do Cliente."
  const Added: string := "O Endereço do Cliente foi adicionado com sucesso."
  const UpdateFailed: string := "Não foi possível atualizar o Endereço do Cliente."
  const Updated: string := "O Endereço do Cliente foi atualizado com sucesso."
  const Deleted: string := "O Endereço do Cliente foi excluído com sucesso."

  /** The record field named `f`, for the seven validated fields. */
  function Field(a: Address, f: string): string {
    match f
    case "logradouro" => a.logradouro
    case "numero" => a.numero
    case "complemento" => a.complemento
    case "bairro" => a.bairro
    case "cidade" => a.cidade
    case "estado" => a.estado
    case "cep" => a.cep
    case _ => ""
  }

  /** The body's `clientId` passes the identifier syntax check. */
  predicate ClientIdOk(p: Payload, validId: IdSyntax): (r: bool)
    ensures !Get(p, "clientId").Str? ==> !r
    ensures Get(p, "clientId").Str? ==> (r <==> validId(Get(p, "clientId").s))
  {
    Get(p, "clientId").Str? && validId(Get(p, "clientId").s)
  }

  /** The record `new Address({ ... })` builds; a falsy `complemento` becomes `''`. */
  function FromPayload(p: Payload): (a: Address)
    ensures Get(p, "clientId").Str? ==> Get(p, "clientId") == Str(a.clientId)
    ensures Get(p, "logradouro").Str? ==> Get(p, "logradouro") == Str(a.logradouro)
    ensures Get(p, "numero").Str? ==> Get(p, "numero") == Str(a.numero)
    ensures Truthy(Get(p, "complemento")) ==> Get(p, "complemento") == Str(a.complemento)
    ensures !Truthy(Get(p, "complemento")) ==> a.complemento == ""
    ensures Get(p, "bairro").Str? ==> Get(p, "bairro") == Str(a.bairro)
    ensures Get(p, "cidade").Str? ==> Get(p, "cidade") == Str(a.cidade)
    ensures Get(p, "estado").Str? ==> Get(p, "estado") == Str(a.estado)
    ensures Get(p, "cep").Str? ==> Get(p, "cep") == Str(a.cep)
  {
    Address(StringOf(Get(p, "clientId")),
            StringOf(Get(p, "logradouro")), StringOf(Get(p, "numero")),
            Pick(p, "complemento", ""),
            StringOf(Get(p, "bairro")), StringOf(Get(p, "cidade")),
            StringOf(Get(p, "estado")), StringOf(Get(p, "cep")))
  }

  /** The update step: truthy supplied fields overwrite; `clientId` is never touched. */
  function Merge(a: Address, p: Payload): (m: Address)
    ensures m.clientId == a.clientId
    ensures forall i :: 0 <= i < |Fields| ==>
      Field(m, Fields[i].name) == if Truthy(Get(p, Fields[i].name)) then Get(p, Fields[i].name).s else Field(a, Fields[i].name)
  {
    a.(logradouro := Pick(p, "logradouro", a.logradouro),
       numero := Pick(p, "numero", a.numero),
       complemento := Pick(p, "complemento", a.complemento),
       bairro := Pick(p, "bairro", a.bairro),
       cidade := Pick(p, "cidade", a.cidade),
       estado := Pick(p, "estado", a.estado),
       cep := Pick(p, "cep", a.cep))
  }

  lemma DistinctFields()
    ensures DistinctNames(Fields)
    ensures forall i :: 0 <= i < |Fields| ==> Fields[i].name != RequestField
  {
  }

  /** A valid create body holds a non-empty string in every required field, and `complemento` is absent or one too. */
  lemma ValidCreateBody(p: Payload)
    requires Validate(CreateSchema, p) == []
    ensures Truthy(Get(p, "logradouro")) && Truthy(Get(p, "numero")) && Truthy(Get(p, "bairro"))
    ensures Truthy(Get(p, "cidade")) && Truthy(Get(p, "estado")) && Truthy(Get(p, "cep"))
    ensures Get(p, "complemento").Absent? || Truthy(Get(p, "complemento"))
  {
    assert Accepts(Fields[0], Get(p, Fields[0].name));
    assert Accepts(Fields[1], Get(p, Fields[1].name));
    assert Accepts(Fields[2], Get(p, Fields[2].name));
    assert Accepts(Fields[3], Get(p, Fields[3].name));
    assert Accepts(Fields[4], Get(p, Fields[4].name));
    assert Accepts(Fields[5], Get(p, Fields[5].name));
    assert Accepts(Fields[6], Get(p, Fields[6].name));
  }

  /** In a valid update body every field is absent or a non-empty string. */
  lemma ValidUpdateBody(p: Payload)
    requires Validate(UpdateSchema, p) == []
    ensures forall i :: 0 <= i < |Fields| ==> Get(p, Fields[i].name).Absent? || Truthy(Get(p, Fields[i].name))
  {
    forall i | 0 <= i < |Fields|
      ensures Get(p, Fields[i].name).Absent? || Truthy(Get(p, Fields[i].name))
    {
      ValidUpdateFieldsTruthy(Fields, MissingMessage, p, i);
    }
  }

  /** On a body whose every field is absent or truthy, the merge is the reference overwrite. */
  lemma MergeIsOverwrite(a: Address, p: Payload)
    requires forall i :: 0 <= i < |Fields| ==> Get(p, Fields[i].name).Absent? || Truthy(Get(p, Fields[i].name))
    ensures Merge(a, p) == Overwrite(a, p)
  {
    assert Get(p, Fields[0].name).Absent? || Truthy(Get(p, Fields[0].name));
    assert Get(p, Fields[1].name).Absent? || Truthy(Get(p, Fields[1].name));
    assert Get(p, Fields[2].name).Absent? || Truthy(Get(p, Fields[2].name));
    assert Get(p, Fields[3].name).Absent? || Truthy(Get(p, Fields[3].name));
    assert Get(p, Fields[4].name).Absent? || Truthy(Get(p, Fields[4].name));
    assert Get(p, Fields[5].name).Absent? || Truthy(Get(p, Fields[5].name));
    assert Get(p, Fields[6].name).Absent? || Truthy(Get(p, Fields[6].name));
  }

  /**
    Reference reading of a partial update: every field the body supplies
    replaces the stored one, every other field stays.
  */
  function Overwrite(a: Address, p: Payload): Address {
    a.(logradouro := Supplied(p, "logradouro", a.logradouro),
       numero := Supplied(p, "numero", a.numero),
       complemento := Supplied(p, "complemento", a.complemento),
       bairro := Supplied(p, "bairro", a.bairro),
       cidade := Supplied(p, "cidade", a.cidade),
       estado := Supplied(p, "estado", a.estado),
       cep := Supplied(p, "cep", a.cep))
  }

  /**
    `POST /addresses`. The fresh `_id` the store generates is the parameter
    `newId`; the identifier syntax check is the parameter `validId`.
  */
  function Create(st: Store, p: Payload, newId: Id, validId: IdSyntax): (r: Outcome)
    requires newId !in st.addresses
    ensures r.status == 201 || r.status == 400
    ensures !ClientIdOk(p, validId) ==> r == Outcome(400, Msg(InvalidClientId), st)
    ensures ClientIdOk(p, validId) && Validate(CreateSchema, p) != [] ==>
      r == Outcome(400, Invalid(CreateFailed, Validate(CreateSchema, p)), st)
    ensures ClientIdOk(p, validId) && Validate(CreateSchema, p) == [] && Get(p, "clientId").s !in st.clients ==>
      r == Outcome(400, Msg(ClientNotFound), st)
    ensures r.status == 201 <==>
      ClientIdOk(p, validId) && Validate(CreateSchema, p) == [] && Get(p, "clientId").s in st.clients
    ensures r.status == 201 ==>
      && r.store.clients == st.clients
      && r.store.addresses.Keys == st.addresses.Keys + {newId}
      && |r.store.addresses| == |st.addresses| + 1
      && (forall id :: id in st.addresses ==> r.store.addresses[id] == st.addresses[id])
      && var a := r.store.addresses[newId];
      && r.reply == AddressCreated(Added, newId, a)
      && a.clientId in st.clients
      && Get(p, "clientId") == Str(a.clientId)
      && Get(p, "logradouro") == Str(a.logradouro)
      && Get(p, "numero") == Str(a.numero)
      && Get(p, "bairro") == Str(a.bairro)
      && Get(p, "cidade") == Str(a.cidade)
      && Get(p, "estado") == Str(a.estado)
      && Get(p, "cep") == Str(a.cep)
      && (if Get(p, "complemento").Absent? then a.complemento == ""
          else Get(p, "complemento") == Str(a.complemento))
  {
    if !ClientIdOk(p, validId) then Outcome(400, Msg(InvalidClientId), st)
    else
      var details := Validate(CreateSchema, p);
      if details != [] then Outcome(400, Invalid(CreateFailed, details), st)
      else if Get(p, "clientId").s !in st.clients then Outcome(400, Msg(ClientNotFound), st)
      else
        ValidCreateBody(p);
        var a := FromPayload(p);
        Outcome(201, AddressCreated(Added, newId, a), st.(addresses := st.addresses[newId := a]))
  }

  /** `GET /addresses`: every stored address; nothing changes. */
  function Read(st: Store): (r: Outcome)
    ensures r.status == 200 && r.store == st
    ensures r.reply.AddressList? && r.reply.addresses.Keys == st.addresses.Keys
    ensures forall id :: id in st.addresses ==> r.reply.addresses[id] == st.addresses[id]
  {
    Outcome(200, AddressList(st.addresses), st)
  }

  /** `GET /addresses/:id`. */
  function ReadOne(st: Store, id: Id, validId: IdSyntax): (r: Outcome)
    ensures r.store == st
    ensures r.status == 200 || r.status == 400
    ensures !validId(id) ==> r.reply == Msg(InvalidId)
    ensures validId(id) && id !in st.addresses ==> r.reply == Msg(NotFound)
    ensures r.status == 200 <==> validId(id) && id in st.addresses
    ensures r.status == 200 ==> r.reply == AddressFound(id, st.addresses[id])
  {
    if !validId(id) then Outcome(400, Msg(InvalidId), st)
    else if id !in st.addresses then Outcome(400, Msg(NotFound), st)
    else Outcome(200, AddressFound(id, st.addresses[id]), st)
  }

  /** `PUT /addresses/:id`: identifier syntax, then the body, then the lookup. */
  function Update(st: Store, id: Id, p: Payload, validId: IdSyntax): (r: Outcome)
    ensures r.status == 200 || r.status == 400
    ensures !validId(id) ==> r == Outcome(400, Msg(InvalidId), st)
    ensures validId(id) && Validate(UpdateSchema, p) != [] ==>
      r == Outcome(400, Invalid(UpdateFailed, Validate(UpdateSchema, p)), st)
    ensures validId(id) && Validate(UpdateSchema, p) == [] && id !in st.addresses ==>
      r == Outcome(400, Msg(NotFound), st)
    ensures r.status == 200 <==> validId(id) && Validate(UpdateSchema, p) == [] && id in st.addresses
    ensures r.status == 200 ==>
      && r.reply == Msg(Updated)
      && r.store.clients == st.clients
      && r.store.addresses.Keys == st.addresses.Keys
      && (forall other :: other in st.addresses && other != id ==> r.store.addresses[other] == st.addresses[other])
      && r.store.addresses[id] == Overwrite(st.addresses[id], p)
  {
    if !validId(id) then Outcome(400, Msg(InvalidId), st)
    else
      var details := Validate(UpdateSchema, p);
      if details != [] then Outcome(400, Invalid(UpdateFailed, details), st)
      else if id !in st.addresses then Outcome(400, Msg(NotFound), st)
      else
        ValidUpdateBody(p);
        MergeIsOverwrite(st.addresses[id], p);
        Outcome(200, Msg(Updated), st.(addresses := st.addresses[id := Merge(st.addresses[id], p)]))
  }

  /** `DELETE /addresses/:id`. */
  function Delete(st: Store, id: Id, validId: IdSyntax): (r: Outcome)
    ensures r.status == 200 || r.status == 400
    ensures !validId(id) ==> r == Outcome(400, Msg(InvalidId), st)
    ensures validId(id) && id !in st.addresses ==> r == Outcome(400, Msg(NotFound), st)
    ensures r.status == 200 <==> validId(id) && id in st.addresses
    ensures r.status == 200 ==>
      && r.reply == Msg(Deleted)
      && r.store.clients == st.clients
      && r.store.addresses.Keys == st.addresses.Keys - {id}
      && |r.store.addresses| == |st.addresses| - 1
      && (forall other :: other in r.store.addresses ==> r.store.addresses[other] == st.addresses[other])
  {
    if !validId(id) then Outcome(400, Msg(InvalidId), st)
    else if id !in st.addresses then Outcome(400, Msg(NotFound), st)
    else Outcome(200, Msg(Deleted), st.(addresses := st.addresses - {id}))
  }

  // ---------------------------------------------------------------------------
  // Properties of the rule tables

  /** The failure a required field reports when it is absent. */
  function AbsentReport(f: string): Detail {
    Detail(f, Text(RequiredMessage(f)))
  }

  /**
    A body with none of the seven fields: every field but the optional
    `complemento` reports that it is required, in declared order.
  */
  lemma NoFieldsDetails(p: Payload)
    requires NoneSupplied(Fields, p)
    ensures Validate(CreateSchema, p) == [
      AbsentReport("logradouro"), AbsentReport("numero"), AbsentReport("bairro"),
      AbsentReport("cidade"), AbsentReport("estado"), AbsentReport("cep")]
  {
    NoneSuppliedReportsRequired(Fields, p);
    RequiredStep(6);
    RequiredStep(5);
    RequiredStep(4);
    RequiredStep(3);
    RequiredStep(2);
    RequiredStep(1);
    RequiredStep(0);
    assert Fields[0..] == Fields;
  }

  lemma RequiredStep(k: nat)
    requires k < |Fields|
    ensures RequiredDetails(Fields[k..]) ==
      (if Fields[k].required then [AbsentReport(Fields[k].name)] else []) + RequiredDetails(Fields[k + 1..])
  {
    assert Fields[k..][1..] == Fields[k + 1..];
  }

  /**
    A create body holding a valid `clientId` and none of the seven fields
    reports exactly six failures: every field but the optional `complemento`
    is required, in declared order.
  */
  lemma CreateOnlyClientId(st: Store, p: Payload, newId: Id, validId: IdSyntax)
    requires newId !in st.addresses && ClientIdOk(p, validId) && NoneSupplied(Fields, p)
    ensures Create(st, p, newId, validId) == Outcome(400, Invalid(CreateFailed, [
      AbsentReport("logradouro"), AbsentReport("numero"), AbsentReport("bairro"),
      AbsentReport("cidade"), AbsentReport("estado"), AbsentReport("cep")]), st)
  {
    NoFieldsDetails(p);
  }

  /** An invalid `clientId` is reported before, and instead of, anything about the other fields. */
  lemma CreateInvalidClientIdFirst(st: Store, p: Payload, q: Payload, newId: Id, validId: IdSyntax)
    requires newId !in st.addresses && !ClientIdOk(p, validId)
    requires Get(q, "clientId") == Get(p, "clientId")
    ensures Create(st, p, newId, validId) == Create(st, q, newId, validId)
    ensures Create(st, p, newId, validId).reply == Msg("Este ID de Cliente não é válido.")
  {
  }

  /**
    With all seven fields non-strings, create and update both report seven
    type failures, one per field, in declared order.
  */
  lemma AllNonString(p: Payload)
    requires forall i :: 0 <= i < |Fields| ==> Get(p, Fields[i].name) == NonStr
    ensures |Validate(CreateSchema, p)| == 7 && |Validate(UpdateSchema, p)| == 7
    ensures forall k :: 0 <= k < 7 ==>
      && Validate(CreateSchema, p)[k] == Detail(Fields[k].name, Text(TypeMessage(Fields[k].name)))
      && Validate(UpdateSchema, p)[k] == Detail(Fields[k].name, Text(TypeMessage(Fields[k].name)))
  {
    FieldErrorsAllFail(Fields, p);
    var opt := Optional(Fields);
    FieldErrorsAllFail(opt, p);
    assert !NoneSupplied(opt, p) by {
      assert Get(p, opt[0].name) == NonStr;
    }
  }

  /** An empty `numero` reports the overriding minimum-1 message, and only that. */
  lemma EmptyNumero(p: Payload)
    requires Get(p, "numero") == Str("")
    ensures DetailsOf(Validate(CreateSchema, p), "numero") ==
      [Detail("numero", Text(MinMessage("numero", 1)))]
  {
    DistinctFields();
    ValidatePerField(CreateSchema, p, 1);
    assert Fields[1].name == "numero";
  }

  /**
    The minimum lengths: a non-empty string shorter than 5 for `logradouro`,
    3 for `complemento`, `bairro` and `cidade`, or 2 for `estado` reports the
    minimum message for that field alone.
  */
  lemma TooShort(p: Payload, i: nat, n: nat)
    requires (i, n) in {(0, 5), (2, 3), (3, 3), (4, 3), (5, 2)}
    requires Get(p, Fields[i].name).Str? && 0 < |Get(p, Fields[i].name).s| < n
    ensures var f := Fields[i].name;
      DetailsOf(Validate(CreateSchema, p), f) == [Detail(f, Text(MinMessage(f, n)))]
  {
    DistinctFields();
    TooShortReportsMinimum(CreateSchema, p, i, n);
  }

  /** A non-empty `cep` passes exactly when it contains `NNNNN-NNN`; otherwise it reports the format. */
  lemma CepReport(p: Payload)
    requires Get(p, "cep").Str? && Get(p, "cep").s != ""
    ensures DetailsOf(Validate(CreateSchema, p), "cep") ==
      if Patterns.CepMatches(Get(p, "cep").s) then []
      else [Detail("cep", Text(FormatMessage("cep", CepFormat)))]
  {
    DistinctFields();
    PatternReport(CreateSchema, p, 6, Cep, CepFormat);
    assert Fields[6].name == "cep";
  }

  /** An update body with none of the seven fields reports the single `Requisição` failure. */
  lemma UpdateEmptyBody(st: Store, id: Id, validId: IdSyntax)
    requires validId(id)
    ensures Update(st, id, map[], validId) ==
      Outcome(400, Invalid(UpdateFailed, [Detail("Requisição", Text(MissingMessage))]), st)
  {
    NothingToUpdate(Fields, MissingMessage, map[]);
  }

  // ---------------------------------------------------------------------------
  // Properties of the merge and of sequences of handlers

  /** The merge overwrites exactly the truthy supplied fields and keeps the owner. */
  lemma MergeFields(a: Address, p: Payload, i: nat)
    requires i < |Fields|
    ensures Merge(a, p).clientId == a.clientId
    ensures var f := Fields[i].name;
      Field(Merge(a, p), f) == if Truthy(Get(p, f)) then Get(p, f).s else Field(a, f)
  {
  }

  /** Applying the same update twice is the same as applying it once. */
  lemma MergeIdempotent(a: Address, p: Payload)
    ensures Merge(Merge(a, p), p) == Merge(a, p)
  {
  }

  /** Round trip: a created address reads back as the record the create returned. */
  lemma CreateThenReadOne(st: Store, p: Payload, newId: Id, validId: IdSyntax)
    requires newId !in st.addresses && validId(newId)
    requires Create(st, p, newId, validId).status == 201
    ensures var c := Create(st, p, newId, validId);
      ReadOne(c.store, newId, validId).reply == AddressFound(newId, c.reply.address)
  {
  }

  /** After a create, the list holds the new address next to every address it held before. */
  lemma CreateThenList(st: Store, p: Payload, newId: Id, validId: IdSyntax)
    requires newId !in st.addresses
    requires Create(st, p, newId, validId).status == 201
    ensures var c := Create(st, p, newId, validId);
      var r := Read(c.store);
      && r.reply.addresses.Keys == st.addresses.Keys + {newId}
      && r.reply.addresses[newId] == c.reply.address
      && (forall id :: id in st.addresses ==> r.reply.addresses[id] == st.addresses[id])
  {
  }

  /** Once deleted, an address is no longer found. */
  lemma DeleteThenReadOne(st: Store, id: Id, validId: IdSyntax)
    requires Delete(st, id, validId).status == 200
    ensures ReadOne(Delete(st, id, validId).store, id, validId).reply == Msg(NotFound)
  {
  }
}
