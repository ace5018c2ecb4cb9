/**
  Referential integrity across the two controllers: which handlers keep
  every stored address pointing at a stored client. Address creation checks
  the owner exists; client deletion does not remove the client's addresses,
  so it is the one handler that can leave an address without its client.
*/
module Integrity {
  import opened Payload
  import opened Storage
  import ClientController
  import AddressController

  /** A created address always names a client that is in the store. */
  lemma AddressCreateKeepsReferences(st: Store, p: Payload, newId: Id, validId: IdSyntax)
    requires newId !in st.addresses && AddressesReferenceClients(st)
    ensures AddressesReferenceClients(AddressController.Create(st, p, newId, validId).store)
  {
  }

  lemma AddressUpdateKeepsReferences(st: Store, id: Id, p: Payload, validId: IdSyntax)
    requires AddressesReferenceClients(st)
    ensures AddressesReferenceClients(AddressController.Update(st, id, p, validId).store)
  {
    var r := AddressController.Update(st, id, p, validId);
    if r.status == 200 {
      forall a | a in r.store.addresses
        ensures r.store.addresses[a].clientId in r.store.clients
      {
        if a != id {
          assert r.store.addresses[a] == st.addresses[a];
        }
      }
    }
  }

  lemma AddressDeleteKeepsReferences(st: Store, id: Id, validId: IdSyntax)
    requires AddressesReferenceClients(st)
    ensures AddressesReferenceClients(AddressController.Delete(st, id, validId).store)
  {
  }

  lemma ClientCreateKeepsReferences(st: Store, p: Payload, newId: Id)
    requires newId !in st.clients && AddressesReferenceClients(st)
    ensures AddressesReferenceClients(ClientController.Create(st, p, newId).store)
  {
  }

  lemma ClientUpdateKeepsReferences(st: Store, id: Id, p: Payload, validId: IdSyntax)
    requires AddressesReferenceClients(st)
    ensures AddressesReferenceClients(ClientController.Update(st, id, p, validId).store)
  {
  }

  /**
    Deleting a client keeps every one of its addresses: an address that named
    the deleted client still exists afterwards and names a client that no
    longer does.
  */
  lemma ClientDeleteLeavesAddresses(st: Store, id: Id, validId: IdSyntax, a: Id)
    requires validId(id) && id in st.clients
    requires a in st.addresses && st.addresses[a].clientId == id
    ensures var r := ClientController.Delete(st, id, validId);
      && r.status == 200
      && a in r.store.addresses
      && r.store.addresses[a].clientId !in r.store.clients
      && !AddressesReferenceClients(r.store)
  {
  }
}
