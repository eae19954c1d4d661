/** How the handlers combine: a customer the delete handler has retired takes part in no
    later transfer, since the transfer handler loads both parties with `GetByIdAsync`, which
    finds active rows only. */
module Lifecycle {
  import opened Messages
  import opened Results
  import opened Entities
  import opened Repository
  import opened Persistence
  import opened Commands
  import DeleteCustomer
  import AddTransaction

  /** After a successful delete, a well-formed transfer from that customer is refused with
      "Sender customer not found or already deleted." and 404. */
  lemma DeletedCustomerCannotSend(w: World, delete: DeleteCustomer.DeleteCustomerCommand, io: Io,
                                  request: AddTransaction.AddTransactionCommand, io2: Io)
    requires UniqueIds(w.staged.customers)
    requires Succeeded(DeleteCustomer.HandleStep(w, delete, io).0)
    requires request.senderId == delete.id && AddTransaction.ArgumentError(request).None?
    ensures FailedWith(AddTransaction.HandleStep(DeleteCustomer.HandleStep(w, delete, io).1, request, io2).0, 404, SenderMissing)
  {
    DeleteCustomer.DeletedIsNotFound(w, delete, io);
  }

  /** After a successful delete, no transfer to that customer succeeds. */
  lemma DeletedCustomerCannotReceive(w: World, delete: DeleteCustomer.DeleteCustomerCommand, io: Io,
                                     request: AddTransaction.AddTransactionCommand, io2: Io)
    requires UniqueIds(w.staged.customers)
    requires Succeeded(DeleteCustomer.HandleStep(w, delete, io).0)
    requires request.recipientId == delete.id
    ensures !Succeeded(AddTransaction.HandleStep(DeleteCustomer.HandleStep(w, delete, io).1, request, io2).0)
  {
    DeleteCustomer.DeletedIsNotFound(w, delete, io);
    AddTransaction.AddSucceedsExactlyWhen(DeleteCustomer.HandleStep(w, delete, io).1, request, io2);
  }
}
