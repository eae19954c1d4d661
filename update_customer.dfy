/** ApplicationLayer/CQRS/Commands/Customers/UpdateCustomerCommand.cs: the edit of a customer
    row. The handler opens no database transaction: it finds the row by id (active or not),
    overwrites its balance and update date, overwrites each of name, surname, email and
    `UpdateBy` only when the request carries a non-empty value, stages the row and saves. Its
    catch block answers 500 with the exception's message and rolls nothing back. */
module UpdateCustomer {
  import opened Messages
  import opened Results
  import opened Entities
  import opened Repository
  import opened Persistence
  import opened Commands

  /** `UpdateCustomerCommand` with the record's defaults: an omitted name is `""`, an omitted
      surname, email or `UpdateBy` a single space. */
  datatype UpdateCustomerCommand = UpdateCustomerCommand(
    id: Guid, balance: int,
    name: Option<string> := Some(""), surname: Option<string> := Some(" "),
    email: Option<string> := Some(" "), updateBy: Option<string> := Some(" "))

  /** The value a string field takes: the request's when it is neither null nor empty, else the
      row's own. */
  function Overwrite(current: string, requested: Option<string>): (r: string)
    ensures IsNullOrEmpty(requested) ==> r == current
    ensures !IsNullOrEmpty(requested) ==> r == requested.value
  {
    if IsNullOrEmpty(requested) then current else requested.value
  }

  /** The row after lines 33-46. */
  function Revised(c: Customer, request: UpdateCustomerCommand, now: Time): (r: Customer)
    ensures r.id == c.id && r.active == c.active && r.createdBy == c.createdBy && r.createdDate == c.createdDate
    ensures r.data.accountId == c.data.accountId
    ensures r.data.balance == request.balance && r.updateDate == Some(now)
    ensures r.data.name == Overwrite(c.data.name, request.name)
    ensures r.data.surname == Overwrite(c.data.surname, request.surname)
    ensures r.data.email == Overwrite(c.data.email, request.email)
    ensures r.updateBy == (if IsNullOrEmpty(request.updateBy) then c.updateBy else request.updateBy)
  {
    c.(data := c.data.(balance := request.balance,
                       name := Overwrite(c.data.name, request.name),
                       surname := Overwrite(c.data.surname, request.surname),
                       email := Overwrite(c.data.email, request.email)),
       updateDate := Some(now),
       updateBy := if IsNullOrEmpty(request.updateBy) then c.updateBy else request.updateBy)
  }

  /** The handler on the unit of work's state `w`. */
  function HandleStep(w: World, request: UpdateCustomerCommand, io: Io): (out: (Response, World))
    ensures io.lookupFault.Some? ==> out == (Returned(FailValue(io.lookupFault, 500)), w)
    // The lookup ignores `Active`, and an unknown id is a 400 here.
    ensures io.lookupFault.None? && !FindRecord(w.staged.customers, request.id).success ==>
      out == (Returned(FailValue(Some(CustomerMissing), 400)), w)
    // A failed `UpdateAsync` or `SaveChangesAsync` is answered with its own message and status.
    ensures (io.lookupFault.None? && FindRecord(w.staged.customers, request.id).success
      && io.recordWrite.Some?) ==>
      out == (Returned(FailValue(io.recordWrite, 400)), w)
    ensures (io.lookupFault.None? && FindRecord(w.staged.customers, request.id).success
      && io.recordWrite.None? && !SaveSucceeds(w, io.save)) ==>
      out.0 == Returned(FailValue(SaveStep(w, io.save).0.message, SaveStep(w, io.save).0.statusCode))
    ensures Succeeded(out.0) <==>
      && io.lookupFault.None? && FindRecord(w.staged.customers, request.id).success
      && io.recordWrite.None? && SaveSucceeds(w, io.save)
    ensures Succeeded(out.0) ==>
      && out.0 == Returned(SucceedValue(request.id))
      && out.1.saved == out.1.staged
           == w.staged.(customers := Replace(w.staged.customers, Revised(FindRecord(w.staged.customers, request.id).value.value, request, io.now)))
      && (!w.open ==> out.1.committed == out.1.saved)
    ensures !Succeeded(out.0) ==> out.1.committed == w.committed && out.1.saved == w.saved
    ensures out.1.open == w.open
  {
    if io.lookupFault.Some? then (Returned(FailValue(io.lookupFault, 500)), w)
    else
      var found := FindRecord(w.staged.customers, request.id);
      if !found.success || found.value.None? then (Returned(FailValue(Some(CustomerMissing), 400)), w)
      else
        UpdateCustomerStep(w, Revised(found.value.value, request, io.now), request.id, io)
  }

  /** Of the customer table, a successful update changes only the row with the id, active or
      not: it becomes the revised row, and every other row stays. */
  lemma UpdateRevisesOnlyTheRow(w: World, request: UpdateCustomerCommand, io: Io)
    requires UniqueIds(w.staged.customers)
    requires Succeeded(HandleStep(w, request, io).0)
    ensures |HandleStep(w, request, io).1.saved.customers| == |w.staged.customers|
    ensures forall k :: 0 <= k < |w.staged.customers| ==>
      HandleStep(w, request, io).1.saved.customers[k]
        == if w.staged.customers[k].id == request.id then Revised(w.staged.customers[k], request, io.now)
           else w.staged.customers[k]
  {
    var found := FindRecord(w.staged.customers, request.id).value.value;
    var k0 :| 0 <= k0 < |w.staged.customers| && w.staged.customers[k0] == found;
    forall k | 0 <= k < |w.staged.customers| && w.staged.customers[k].id == request.id
      ensures w.staged.customers[k] == found
    {
      assert w.staged.customers[k].id == w.staged.customers[k0].id;
    }
  }

  /** A request that gives only the id and the balance keeps the name but sets the surname, the
      email and `UpdateBy` to a single space: the record's defaults are not empty strings. */
  lemma DefaultsBlankThreeFields(c: Customer, id: Guid, balance: int, now: Time)
    ensures Revised(c, UpdateCustomerCommand(id, balance), now).data.name == c.data.name
    ensures Revised(c, UpdateCustomerCommand(id, balance), now).data.surname == " "
    ensures Revised(c, UpdateCustomerCommand(id, balance), now).data.email == " "
    ensures Revised(c, UpdateCustomerCommand(id, balance), now).updateBy == Some(" ")
  {
    assert !IsNullOrEmpty(Some(" "));
  }

  method Handle(uow: UnitOfWork, request: UpdateCustomerCommand, io: Io) returns (r: Response)
    requires uow.Valid()
    modifies uow, uow.customers
    ensures uow.Valid()
    ensures (r, uow.State()) == HandleStep(old(uow.State()), request, io)
  {
    if io.lookupFault.Some? {
      return Returned(FailValue(io.lookupFault, 500));
    }
    var customerFind := GetByExpression(uow.customers.rows, Some(HasId(request.id)));
    if !customerFind.success || customerFind.value.None? {
      return Returned(FailValue(Some(CustomerMissing), 400));
    }
    var customer := customerFind.value.value;
    ghost var original := customer;
    customer := customer.(data := customer.data.(balance := request.balance));
    customer := customer.(updateDate := Some(io.now));
    if !IsNullOrEmpty(request.name) {
      customer := customer.(data := customer.data.(name := request.name.value));
    }
    assert customer.data.name == Overwrite(original.data.name, request.name);
    if !IsNullOrEmpty(request.surname) {
      customer := customer.(data := customer.data.(surname := request.surname.value));
    }
    assert customer.data.surname == Overwrite(original.data.surname, request.surname);
    if !IsNullOrEmpty(request.email) {
      customer := customer.(data := customer.data.(email := request.email.value));
    }
    assert customer.data.email == Overwrite(original.data.email, request.email);
    if !IsNullOrEmpty(request.updateBy) {
      customer := customer.(updateBy := request.updateBy);
    }
    assert customer == Revised(original, request, io.now);
    r := UpdateCustomerRow(uow, customer, request.id, io);
  }
}
