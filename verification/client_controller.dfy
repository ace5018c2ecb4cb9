/**
  The Client controller: the rule tables of its create and update schemas
  and its five handlers, each a transition from a store and a request to a
  status, a reply and the next store. Every handler follows the same
  pipeline: identifier syntax, then body validation, then lookup, then the
  mutation.
*/
module ClientController {
  import opened Wrappers
  import opened Payload
  import opened Validation
  import opened Storage
  import Patterns

  const CnpjFormat: string := "Xx.XxX.xXx/XxXx-Xx"
  const TelefoneFormat: string :=
    "(DDD) XxXx-XxXx para telefones fixos ou (DDD) 9XxXx-XxXx para celulares."

  /** The four fields, in declared order, with the rules of the create schema. */
  const Fields: seq<FieldRule> := [
    FieldRule("cnpj", true, Pattern(Cnpj, CnpjFormat), DefaultEmpty),
    FieldRule("razaoSocial", true, MinLength(2), DefaultEmpty),
    FieldRule("nomeContato", true, MinLength(2), DefaultEmpty),
    FieldRule("telefone", true, Pattern(Telefone, TelefoneFormat), DefaultEmpty)
  ]

  const MissingMessage: string :=
    "Pelo menos um dos campos 'cnpj', 'razaoSocial', 'nomeContato' ou 'telefone' deve conter uma informação nova."

  const CreateSchema: Schema := Schema(Fields, None)
  const UpdateSchema: Schema := Schema(Optional(Fields), Some(MissingMessage))

  const InvalidId: string := "Este ID de Cliente não é válido."
  const NotFound: string := "Este Cliente não foi encontrado."
  const CnpjTaken: string := "Este CNPJ já foi cadastrado."
  const CreateFailed: string := "Não foi possível adicionar o Cliente."
  const Created: string := "Cliente criado com sucesso."
  const UpdateFailed: string := "Não foi possível atualizar o Cliente."
  const Updated: string := "O Cliente foi atualizado com sucesso."
  const Deleted: string := "O Cliente foi excluído com sucesso."

  /** The record field named `f`. */
  function Field(c: Client, f: string): string {
    match f
    case "cnpj" => c.cnpj
    case "razaoSocial" => c.razaoSocial
    case "nomeContato" => c.nomeContato
    case "telefone" => c.telefone
    case _ => ""
  }

  /** Some stored client already has this cnpj (`Client.findOne({ cnpj })`). */
  predicate CnpjInUse(clients: map<Id, Client>, cnpj: string): (r: bool)
    ensures r <==> cnpj in (set id | id in clients :: clients[id].cnpj)
    ensures clients == map[] ==> !r
  {
    exists id :: id in clients && clients[id].cnpj == cnpj
  }

  /** The record `new Client({ ... })` builds from the request body. */
  function FromPayload(p: Payload): (c: Client)
    ensures Get(p, "cnpj").Str? ==> Get(p, "cnpj") == Str(c.cnpj)
    ensures Get(p, "razaoSocial").Str? ==> Get(p, "razaoSocial") == Str(c.razaoSocial)
    ensures Get(p, "nomeContato").Str? ==> Get(p, "nomeContato") == Str(c.nomeContato)
    ensures Get(p, "telefone").Str? ==> Get(p, "telefone") == Str(c.telefone)
  {
    Client(StringOf(Get(p, "cnpj")), StringOf(Get(p, "razaoSocial")),
           StringOf(Get(p, "nomeContato")), StringOf(Get(p, "telefone")))
  }

  /** The update step: each truthy supplied field overwrites, the others stay. */
  function Merge(c: Client, p: Payload): (m: Client)
    ensures Truthy(Get(p, "cnpj")) ==> Get(p, "cnpj") == Str(m.cnpj)
    ensures !Truthy(Get(p, "cnpj")) ==> m.cnpj == c.cnpj
    ensures Truthy(Get(p, "razaoSocial")) ==> Get(p, "razaoSocial") == Str(m.razaoSocial)
    ensures !Truthy(Get(p, "razaoSocial")) ==> m.razaoSocial == c.razaoSocial
    ensures Truthy(Get(p, "nomeContato")) ==> Get(p, "nomeContato") == Str(m.nomeContato)
    ensures !Truthy(Get(p, "nomeContato")) ==> m.nomeContato == c.nomeContato
    ensures Truthy(Get(p, "telefone")) ==> Get(p, "telefone") == Str(m.telefone)
    ensures !Truthy(Get(p, "telefone")) ==> m.telefone == c.telefone
  {
    Client(Pick(p, "cnpj", c.cnpj), Pick(p, "razaoSocial", c.razaoSocial),
           Pick(p, "nomeContato", c.nomeContato), Pick(p, "telefone", c.telefone))
  }

  /**
    Reference reading of a partial update: every field the body supplies
    replaces the stored one, every other field stays.
  */
  function Overwrite(c: Client, p: Payload): Client {
    Client(Supplied(p, "cnpj", c.cnpj), Supplied(p, "razaoSocial", c.razaoSocial),
           Supplied(p, "nomeContato", c.nomeContato), Supplied(p, "telefone", c.telefone))
  }

  /** A valid create body holds a non-empty string in each of the four fields. */
  lemma ValidCreateBody(p: Payload)
    requires Validate(CreateSchema, p) == []
    ensures Truthy(Get(p, "cnpj")) && Truthy(Get(p, "razaoSocial"))
    ensures Truthy(Get(p, "nomeContato")) && Truthy(Get(p, "telefone"))
  {
    assert Accepts(Fields[0], Get(p, Fields[0].name));
    assert Accepts(Fields[1], Get(p, Fields[1].name));
    assert Accepts(Fields[2], Get(p, Fields[2].name));
    assert Accepts(Fields[3], Get(p, Fields[3].name));
  }

  /** In a valid update body each of the four fields is absent or a non-empty string. */
  lemma ValidUpdateBody(p: Payload)
    requires Validate(UpdateSchema, p) == []
    ensures forall i :: 0 <= i < |Fields| ==> Get(p, Fields[i].name).Absent? || Truthy(Get(p, Fields[i].name))
  {
    forall i | 0 <= i < |Fields|
      ensures Get(p, Fields[i].name).Absent? || Truthy(Get(p, Fields[i].name))
    {
      ValidUpdateFieldsTruthy(Fields, MissingMessage, p, i);
    }
  }

  /** On a body whose every field is absent or truthy, the merge is the reference overwrite. */
  lemma MergeIsOverwrite(c: Client, p: Payload)
    requires forall i :: 0 <= i < |Fields| ==> Get(p, Fields[i].name).Absent? || Truthy(Get(p, Fields[i].name))
    ensures Merge(c, p) == Overwrite(c, p)
  {
    assert Get(p, Fields[0].name).Absent? || Truthy(Get(p, Fields[0].name));
    assert Get(p, Fields[1].name).Absent? || Truthy(Get(p, Fields[1].name));
    assert Get(p, Fields[2].name).Absent? || Truthy(Get(p, Fields[2].name));
    assert Get(p, Fields[3].name).Absent? || Truthy(Get(p, Fields[3].name));
  }

  lemma DistinctFields()
    ensures DistinctNames(Fields)
    ensures forall i :: 0 <= i < |Fields| ==> Fields[i].required && Fields[i].name != RequestField
  {
  }

  /** `POST /clients`. The fresh `_id` the store generates is the parameter `newId`. */
  function Create(st: Store, p: Payload, newId: Id): (r: Outcome)
    requires newId !in st.clients
    ensures r.status == 201 || r.status == 400
    ensures r.status == 201 <==>
      Validate(CreateSchema, p) == [] && !CnpjInUse(st.clients, StringOf(Get(p, "cnpj")))
    ensures Validate(CreateSchema, p) != [] ==>
      r.reply == Invalid(CreateFailed, Validate(CreateSchema, p))
    ensures Validate(CreateSchema, p) == [] && CnpjInUse(st.clients, StringOf(Get(p, "cnpj"))) ==>
      r.reply == Msg(CnpjTaken)
    ensures r.status == 400 ==> r.store == st
    ensures r.status == 201 ==>
      && r.reply == Msg(Created)
      && r.store.addresses == st.addresses
      && r.store.clients.Keys == st.clients.Keys + {newId}
      && |r.store.clients| == |st.clients| + 1
      && (forall id :: id in st.clients ==> r.store.clients[id] == st.clients[id])
      && var c := r.store.clients[newId];
      && Get(p, "cnpj") == Str(c.cnpj)
      && Get(p, "razaoSocial") == Str(c.razaoSocial)
      && Get(p, "nomeContato") == Str(c.nomeContato)
      && Get(p, "telefone") == Str(c.telefone)
  {
    var details := Validate(CreateSchema, p);
    if details != [] then
      Outcome(400, Invalid(CreateFailed, details), st)
    else if CnpjInUse(st.clients, StringOf(Get(p, "cnpj"))) then
      Outcome(400, Msg(CnpjTaken), st)
    else
      ValidCreateBody(p);
      Outcome(201, Msg(Created), st.(clients := st.clients[newId := FromPayload(p)]))
  }

  /** `GET /clients`: every stored client; nothing changes. */
  function Read(st: Store): (r: Outcome)
    ensures r.status == 200 && r.store == st
    ensures r.reply.ClientList? && r.reply.clients.Keys == st.clients.Keys
    ensures forall id :: id in st.clients ==> r.reply.clients[id] == st.clients[id]
  {
    Outcome(200, ClientList(st.clients), st)
  }

  /** `GET /clients/:id`. */
  function ReadOne(st: Store, id: Id, validId: IdSyntax): (r: Outcome)
    ensures r.store == st
    ensures r.status == 200 || r.status == 400
    ensures !validId(id) ==> r.reply == Msg(InvalidId)
    ensures validId(id) && id !in st.clients ==> r.reply == Msg(NotFound)
    ensures r.status == 200 <==> validId(id) && id in st.clients
    ensures r.status == 200 ==> r.reply == ClientFound(id, st.clients[id])
  {
    if !validId(id) then Outcome(400, Msg(InvalidId), st)
    else if id !in st.clients then Outcome(400, Msg(NotFound), st)
    else Outcome(200, ClientFound(id, st.clients[id]), st)
  }

  /**
    `PUT /clients/:id`. The identifier is checked before the body, the body
    before the lookup; the cnpj is not checked for uniqueness again.
  */
  function Update(st: Store, id: Id, p: Payload, validId: IdSyntax): (r: Outcome)
    ensures r.status == 200 || r.status == 400
    ensures !validId(id) ==> r == Outcome(400, Msg(InvalidId), st)
    ensures validId(id) && Validate(UpdateSchema, p) != [] ==>
      r == Outcome(400, Invalid(UpdateFailed, Validate(UpdateSchema, p)), st)
    ensures validId(id) && Validate(UpdateSchema, p) == [] && id !in st.clients ==>
      r == Outcome(400, Msg(NotFound), st)
    ensures r.status == 200 <==> validId(id) && Validate(UpdateSchema, p) == [] && id in st.clients
    ensures r.status == 200 ==>
      && r.reply == Msg(Updated)
      && r.store.addresses == st.addresses
      && r.store.clients.Keys == st.clients.Keys
      && (forall other :: other in st.clients && other != id ==> r.store.clients[other] == st.clients[other])
      && r.store.clients[id] == Overwrite(st.clients[id], p)
  {
    if !validId(id) then Outcome(400, Msg(InvalidId), st)
    else
      var details := Validate(UpdateSchema, p);
      if details != [] then Outcome(400, Invalid(UpdateFailed, details), st)
      else if id !in st.clients then Outcome(400, Msg(NotFound), st)
      else
        ValidUpdateBody(p);
        MergeIsOverwrite(st.clients[id], p);
        Outcome(200, Msg(Updated), st.(clients := st.clients[id := Merge(st.clients[id], p)]))
  }

  /** `DELETE /clients/:id`. Only the client goes; its addresses stay. */
  function Delete(st: Store, id: Id, validId: IdSyntax): (r: Outcome)
    ensures r.status == 200 || r.status == 400
    ensures !validId(id) ==> r == Outcome(400, Msg(InvalidId), st)
    ensures validId(id) && id !in st.clients ==> r == Outcome(400, Msg(NotFound), st)
    ensures r.status == 200 <==> validId(id) && id in st.clients
    ensures r.status == 200 ==>
      && r.reply == Msg(Deleted)
      && r.store.addresses == st.addresses
      && r.store.clients.Keys == st.clients.Keys - {id}
      && |r.store.clients| == |st.clients| - 1
      && (forall other :: other in r.store.clients ==> r.store.clients[other] == st.clients[other])
  {
    if !validId(id) then Outcome(400, Msg(InvalidId), st)
    else if id !in st.clients then Outcome(400, Msg(NotFound), st)
    else Outcome(200, Msg(Deleted), st.(clients := st.clients - {id}))
  }

  // ---------------------------------------------------------------------------
  // Properties of the rule tables

  /**
    A create body holding none of the four fields (the empty body of the
    test suite, or one with only unrelated keys) reports the four fields as
    required, in declared order.
  */
  lemma CreateEmptyBody(p: Payload)
    requires NoneSupplied(Fields, p)
    ensures Validate(CreateSchema, p) == [
      Detail("cnpj", Text(RequiredMessage("cnpj"))),
      Detail("razaoSocial", Text(RequiredMessage("razaoSocial"))),
      Detail("nomeContato", Text(RequiredMessage("nomeContato"))),
      Detail("telefone", Text(RequiredMessage("telefone")))]
  {
    DistinctFields();
    FieldErrorsAllFail(Fields, p);
    var r := FieldErrors(Fields, p);
    assert r == [r[0], r[1], r[2], r[3]];
  }

  /**
    A field holding a non-string reports only that it must be a string, on
    create and on update alike, whatever the other fields hold.
  */
  lemma NonStringField(p: Payload, i: nat)
    requires i < |Fields| && Get(p, Fields[i].name) == NonStr
    ensures var f := Fields[i].name;
      && DetailsOf(Validate(CreateSchema, p), f) == [Detail(f, Text(TypeMessage(f)))]
      && DetailsOf(Validate(UpdateSchema, p), f) == [Detail(f, Text(TypeMessage(f)))]
  {
    DistinctFields();
    NonStringReportsTypeOnly(CreateSchema, p, i);
    var opt := Optional(Fields);
    assert DistinctNames(opt);
    NonStringReportsTypeOnly(UpdateSchema, p, i);
  }

  /** A non-empty `razaoSocial` or `nomeContato` shorter than 2 reports the minimum-2 message alone. */
  lemma TooShortName(p: Payload, i: nat)
    requires i == 1 || i == 2
    requires Get(p, Fields[i].name).Str? && |Get(p, Fields[i].name).s| == 1
    ensures var f := Fields[i].name;
      DetailsOf(Validate(CreateSchema, p), f) == [Detail(f, Text(MinMessage(f, 2)))]
  {
    DistinctFields();
    TooShortReportsMinimum(CreateSchema, p, i, 2);
  }

  /** A non-empty `cnpj` passes exactly when it contains a cnpj-shaped run; otherwise it reports the format. */
  lemma CnpjReport(p: Payload)
    requires Get(p, "cnpj").Str? && Get(p, "cnpj").s != ""
    ensures DetailsOf(Validate(CreateSchema, p), "cnpj") ==
      if Patterns.CnpjMatches(Get(p, "cnpj").s) then []
      else [Detail("cnpj", Text(FormatMessage("cnpj", CnpjFormat)))]
  {
    DistinctFields();
    PatternReport(CreateSchema, p, 0, Cnpj, CnpjFormat);
    assert Fields[0].name == "cnpj";
  }

  /** A non-empty `telefone` passes exactly when the whole string is a phone number; otherwise it reports the format. */
  lemma TelefoneReport(p: Payload)
    requires Get(p, "telefone").Str? && Get(p, "telefone").s != ""
    ensures DetailsOf(Validate(CreateSchema, p), "telefone") ==
      if Patterns.TelefoneMatches(Get(p, "telefone").s) then []
      else [Detail("telefone", Text(FormatMessage("telefone", TelefoneFormat)))]
  {
    DistinctFields();
    PatternReport(CreateSchema, p, 3, Telefone, TelefoneFormat);
    assert Fields[3].name == "telefone";
  }

  /** An update body with none of the four fields reports the single `Requisição` failure. */
  lemma UpdateEmptyBody(st: Store, id: Id, validId: IdSyntax)
    requires validId(id)
    ensures Validate(UpdateSchema, map[]) == [Detail(RequestField, Text(MissingMessage))]
    ensures Update(st, id, map[], validId) ==
      Outcome(400, Invalid(UpdateFailed, [Detail("Requisição", Text(MissingMessage))]), st)
  {
    NothingToUpdate(Fields, MissingMessage, map[]);
  }

  /** The test suite's update with an id that fails the syntax check: rejected before the body is read. */
  lemma UpdateInvalidIdEmptyBody(st: Store, id: Id, validId: IdSyntax)
    requires !validId(id)
    ensures Update(st, id, map[], validId) == Outcome(400, Msg("Este ID de Cliente não é válido."), st)
  {
  }

  // ---------------------------------------------------------------------------
  // Properties of the merge and of sequences of handlers

  /** The merge overwrites exactly the truthy supplied fields. */
  lemma MergeFields(c: Client, p: Payload, i: nat)
    requires i < |Fields|
    ensures var f := Fields[i].name;
      Field(Merge(c, p), f) == if Truthy(Get(p, f)) then Get(p, f).s else Field(c, f)
  {
  }

  /** Applying the same update twice is the same as applying it once. */
  lemma MergeIdempotent(c: Client, p: Payload)
    ensures Merge(Merge(c, p), p) == Merge(c, p)
  {
  }

  /** An update whose fields are all absent or falsy leaves the record as it was. */
  lemma MergeNothingTruthy(c: Client, p: Payload)
    requires forall i :: 0 <= i < |Fields| ==> !Truthy(Get(p, Fields[i].name))
    ensures Merge(c, p) == c
  {
    assert !Truthy(Get(p, Fields[0].name)) && !Truthy(Get(p, Fields[1].name));
    assert !Truthy(Get(p, Fields[2].name)) && !Truthy(Get(p, Fields[3].name));
  }

  /** Create keeps cnpjs unique: a repeated cnpj is refused. */
  lemma CreatePreservesUniqueCnpj(st: Store, p: Payload, newId: Id)
    requires newId !in st.clients && UniqueCnpj(st.clients)
    ensures UniqueCnpj(Create(st, p, newId).store.clients)
  {
    var r := Create(st, p, newId);
    if r.status == 201 {
      var cs := r.store.clients;
      forall i, j | i in cs && j in cs && i != j
        ensures cs[i].cnpj != cs[j].cnpj
      {
        if i == newId {
          assert j in st.clients;
        } else if j == newId {
          assert i in st.clients;
        }
      }
    }
  }

  /**
    After a client is created, any later valid create with the same cnpj is
    refused with the duplicate message, whatever its other fields, and the
    store is left as it was.
  */
  lemma SecondCreateSameCnpj(st: Store, p: Payload, id1: Id, q: Payload, id2: Id)
    requires id1 !in st.clients
    requires Create(st, p, id1).status == 201
    requires id2 != id1 && id2 !in st.clients
    requires Validate(CreateSchema, q) == [] && Get(q, "cnpj") == Get(p, "cnpj")
    ensures var st1 := Create(st, p, id1).store;
      Create(st1, q, id2) == Outcome(400, Msg(CnpjTaken), st1)
  {
    var st1 := Create(st, p, id1).store;
    assert st1.clients[id1].cnpj == StringOf(Get(q, "cnpj"));
  }

  /** Round trip: a created client reads back with the four fields it was given. */
  lemma CreateThenReadOne(st: Store, p: Payload, newId: Id, validId: IdSyntax)
    requires newId !in st.clients && validId(newId)
    requires Create(st, p, newId).status == 201
    ensures var r := ReadOne(Create(st, p, newId).store, newId, validId);
      && r.status == 200
      && r.reply.ClientFound?
      && Get(p, "cnpj") == Str(r.reply.client.cnpj)
      && Get(p, "razaoSocial") == Str(r.reply.client.razaoSocial)
      && Get(p, "nomeContato") == Str(r.reply.client.nomeContato)
      && Get(p, "telefone") == Str(r.reply.client.telefone)
  {
  }

  /** Creating a client in an empty store and listing yields exactly that client. */
  lemma CreateThenList(p: Payload, newId: Id)
    requires Create(Store(map[], map[]), p, newId).status == 201
    ensures var r := Read(Create(Store(map[], map[]), p, newId).store);
      && r.reply.ClientList?
      && r.reply.clients.Keys == {newId}
      && Get(p, "cnpj") == Str(r.reply.clients[newId].cnpj)
      && Get(p, "razaoSocial") == Str(r.reply.clients[newId].razaoSocial)
      && Get(p, "nomeContato") == Str(r.reply.clients[newId].nomeContato)
      && Get(p, "telefone") == Str(r.reply.clients[newId].telefone)
  {
  }

  /** Once deleted, a client is no longer found. */
  lemma DeleteThenReadOne(st: Store, id: Id, validId: IdSyntax)
    requires Delete(st, id, validId).status == 200
    ensures ReadOne(Delete(st, id, validId).store, id, validId).reply == Msg(NotFound)
  {
  }

  /**
    Update does not re-check cnpj uniqueness: an update can give a client
    the cnpj another client already has.
  */
  lemma UpdateCanDuplicateCnpj(validId: IdSyntax)
    requires validId("a")
    ensures var st := Store(map["a" := Client("11.111.111/1111-11", "AB", "CD", "(19) 2113-8250"),
                                "b" := Client("05.570.714/0001-59", "EF", "GH", "(19) 2113-8250")], map[]);
      var r := Update(st, "a", map["cnpj" := Str("05.570.714/0001-59")], validId);
      UniqueCnpj(st.clients) && r.status == 200 && !UniqueCnpj(r.store.clients)
  {
    var st := Store(map["a" := Client("11.111.111/1111-11", "AB", "CD", "(19) 2113-8250"),
                        "b" := Client("05.570.714/0001-59", "EF", "GH", "(19) 2113-8250")], map[]);
    var p := map["cnpj" := Str("05.570.714/0001-59")];
    Patterns.CnpjAccepted();
    var opt := Optional(Fields);
    assert Accepts(opt[0], Get(p, opt[0].name));
    assert forall i :: 1 <= i < |opt| ==> Get(p, opt[i].name).Absent?;
    assert Validate(UpdateSchema, p) == [];
    var r := Update(st, "a", p, validId);
    assert r.status == 200;
    assert r.store.clients["a"] == Merge(st.clients["a"], p);
    assert r.store.clients["a"].cnpj == r.store.clients["b"].cnpj;
  }
}
