/**
  The in-memory picture of the two document collections and of the HTTP
  responses. Store-generated `createdAt`, `updatedAt` and `__v` are not
  modelled; the store-generated `_id` is the key of each map.
*/
module Storage {
  import opened Validation

  /** A document identifier, as it appears in a URL or a body. */
  type Id = string

  /**
    The syntactic identifier check (`mongoose.isValidObjectId`), taken as a
    parameter: the model does not fix the identifier format.
  */
  type IdSyntax = Id -> bool

  datatype Client = Client(cnpj: string, razaoSocial: string, nomeContato: string, telefone: string)

  datatype Address = Address(
    clientId: Id,
    logradouro: string,
    numero: string,
    complemento: string,
    bairro: string,
    cidade: string,
    estado: string,
    cep: string)

  /** The `clients` and `addresses` collections. */
  datatype Store = Store(clients: map<Id, Client>, addresses: map<Id, Address>)

  /** The JSON body of a response. */
  datatype Reply =
    | Msg(message: string)                                  // `{ message }`
    | Invalid(message: string, details: seq<Detail>)        // `{ message, details }`
    | ClientList(clients: map<Id, Client>)                  // `{ clients }`
    | ClientFound(id: Id, client: Client)                   // the bare record
    | AddressList(addresses: map<Id, Address>)              // `{ addresses }`
    | AddressFound(id: Id, address: Address)                // the bare record
    | AddressCreated(message: string, id: Id, address: Address) // `{ message, address }`

  /** What a handler produces: the HTTP status, the body, and the store afterwards. */
  datatype Outcome = Outcome(status: nat, reply: Reply, store: Store)

  /** Every address names a client that is in the store. */
  predicate AddressesReferenceClients(st: Store) {
    forall a :: a in st.addresses ==> st.addresses[a].clientId in st.clients
  }

  /** No two clients share a cnpj. */
  predicate UniqueCnpj(clients: map<Id, Client>) {
    forall i, j :: i in clients && j in clients && i != j ==> clients[i].cnpj != clients[j].cnpj
  }
}
