/** ApplicationLayer/CQRS/Commands/Customers/DeleteCustomerCommand.cs: the soft delete of a
    customer. The handler opens no database transaction: it finds the row by id (active or not),
    refuses one already inactive, clears `Active`, stamps `UpdateDate`, stages the row and saves.
    Its catch block answers 500 with the exception's message and rolls nothing back. */
module DeleteCustomer {
  import opened Messages
  import opened Results
  import opened Entities
  import opened Repository
  import opened Persistence
  import opened Commands

  datatype DeleteCustomerCommand = DeleteCustomerCommand(id: Guid)


  /** The handler on the unit of work's state `w`. */
  function HandleStep(w: World, request: DeleteCustomerCommand, io: Io): (out: (Response, World))
    ensures request.id == EmptyGuid ==> out == (Returned(FailValue(Some(InvalidId), 400)), w)
    ensures request.id != EmptyGuid && io.lookupFault.Some? ==>
      out == (Returned(FailValue(io.lookupFault, 500)), w)
    // The lookup ignores `Active`: an unknown id is a 404, an inactive row a 400.
    ensures (request.id != EmptyGuid && io.lookupFault.None?
      && !FindRecord(w.staged.customers, request.id).success) ==>
      out == (Returned(FailValue(Some(CustomerMissing), 404)), w)
    ensures (request.id != EmptyGuid && io.lookupFault.None?
      && FindRecord(w.staged.customers, request.id).success
      && !FindRecord(w.staged.customers, request.id).value.value.active) ==>
      out == (Returned(FailValue(Some(CustomerAlreadyDeleted), 400)), w)
    // A failed `UpdateAsync` or `SaveChangesAsync` is answered with its own message and status.
    ensures (request.id != EmptyGuid && io.lookupFault.None?
      && FindRecord(w.staged.customers, request.id).success
      && FindRecord(w.staged.customers, request.id).value.value.active && io.recordWrite.Some?) ==>
      out == (Returned(FailValue(io.recordWrite, 400)), w)
    ensures (request.id != EmptyGuid && io.lookupFault.None?
      && FindRecord(w.staged.customers, request.id).success
      && FindRecord(w.staged.customers, request.id).value.value.active
      && io.recordWrite.None? && !SaveSucceeds(w, io.save)) ==>
      out.0 == Returned(FailValue(SaveStep(w, io.save).0.message, SaveStep(w, io.save).0.statusCode))
    ensures Succeeded(out.0) <==>
      && request.id != EmptyGuid && io.lookupFault.None?
      && FindRecord(w.staged.customers, request.id).success
      && FindRecord(w.staged.customers, request.id).value.value.active
      && io.recordWrite.None? && SaveSucceeds(w, io.save)
    ensures Succeeded(out.0) ==>
      && out.0 == Returned(SucceedValue(request.id))
      && out.1.saved == out.1.staged
           == w.staged.(customers := Replace(w.staged.customers, Retired(FindRecord(w.staged.customers, request.id).value.value, io.now)))
      && (!w.open ==> out.1.committed == out.1.saved)
    ensures !Succeeded(out.0) ==> out.1.committed == w.committed && out.1.saved == w.saved
    ensures out.1.open == w.open
  {
    if request.id == EmptyGuid then (Returned(FailValue(Some(InvalidId), 400)), w)
    else if io.lookupFault.Some? then (Returned(FailValue(io.lookupFault, 500)), w)
    else
      var found := FindRecord(w.staged.customers, request.id);
      if !found.success || found.value.None? then (Returned(FailValue(Some(CustomerMissing), 404)), w)
      else
        var customer := found.value.value;
        if !customer.active then (Returned(FailValue(Some(CustomerAlreadyDeleted), 400)), w)
        else
          UpdateCustomerStep(w, Retired(customer, io.now), request.id, io)
  }

  /** Of the customer table, a successful delete changes only the row with the id: it is
      inactive with the new update date, and its balance and every other field stay. */
  lemma DeleteRetiresOnlyTheRow(w: World, request: DeleteCustomerCommand, io: Io)
    requires UniqueIds(w.staged.customers)
    requires Succeeded(HandleStep(w, request, io).0)
    ensures |HandleStep(w, request, io).1.saved.customers| == |w.staged.customers|
    ensures forall k :: 0 <= k < |w.staged.customers| ==>
      HandleStep(w, request, io).1.saved.customers[k]
        == if w.staged.customers[k].id == request.id then Retired(w.staged.customers[k], io.now)
           else w.staged.customers[k]
    ensures forall k :: 0 <= k < |w.staged.customers| && w.staged.customers[k].id == request.id ==>
      w.staged.customers[k].active
  {
    var found := FindRecord(w.staged.customers, request.id).value.value;
    var k0 :| 0 <= k0 < |w.staged.customers| && w.staged.customers[k0] == found;
    forall k | 0 <= k < |w.staged.customers| && w.staged.customers[k].id == request.id
      ensures w.staged.customers[k] == found
    {
      assert w.staged.customers[k].id == w.staged.customers[k0].id;
    }
  }

  /** Deleting is not idempotent: once a delete succeeded, deleting the same id again is
      answered "already deleted". */
  lemma DeleteTwiceFails(w: World, request: DeleteCustomerCommand, io: Io, again: Io)
    requires UniqueIds(w.staged.customers)
    requires Succeeded(HandleStep(w, request, io).0)
    requires again.lookupFault.None?
    ensures HandleStep(HandleStep(w, request, io).1, request, again)
      == (Returned(FailValue(Some(CustomerAlreadyDeleted), 400)), HandleStep(w, request, io).1)
  {
    DeleteRetiresOnlyTheRow(w, request, io);
    var w' := HandleStep(w, request, io).1;
    var found := FindRecord(w'.staged.customers, request.id).value.value;
    var j :| 0 <= j < |w'.staged.customers| && w'.staged.customers[j] == found;
    assert w.staged.customers[j].id == request.id;
  }

  /** After a successful delete, `GetByIdAsync` no longer finds the customer. */
  lemma DeletedIsNotFound(w: World, request: DeleteCustomerCommand, io: Io)
    requires UniqueIds(w.staged.customers)
    requires Succeeded(HandleStep(w, request, io).0)
    ensures !GetById(HandleStep(w, request, io).1.staged.customers, request.id).success
  {
    DeleteRetiresOnlyTheRow(w, request, io);
  }

  method Handle(uow: UnitOfWork, request: DeleteCustomerCommand, io: Io) returns (r: Response)
    requires uow.Valid()
    modifies uow, uow.customers
    ensures uow.Valid()
    ensures (r, uow.State()) == HandleStep(old(uow.State()), request, io)
  {
    if request.id == EmptyGuid {
      return Returned(FailValue(Some(InvalidId), 400));
    }
    if io.lookupFault.Some? {
      return Returned(FailValue(io.lookupFault, 500));
    }
    var customerFind := GetByExpression(uow.customers.rows, Some(HasId(request.id)));
    if !customerFind.success || customerFind.value.None? {
      return Returned(FailValue(Some(CustomerMissing), 404));
    }
    var customer := customerFind.value.value;
    if !customer.active {
      return Returned(FailValue(Some(CustomerAlreadyDeleted), 400));
    }
    customer := customer.(active := false);
    customer := customer.(updateDate := Some(io.now));
    r := UpdateCustomerRow(uow, customer, request.id, io);
  }
}
