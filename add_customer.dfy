/** ApplicationLayer/CQRS/Commands/Customers/AddCustomerCommand.cs: the creation of a customer.
    The handler opens no database transaction: it refuses an email some row (active or not)
    already has, builds the new row, stages it and saves. Both a failed `AddAsync` and a failed
    save are answered 500 with a fixed message; the catch block answers 500 with the
    exception's message. */
module AddCustomer {
  import opened Messages
  import opened Results
  import opened Entities
  import opened Repository
  import opened Persistence
  import opened Commands

  /** `AddCustomerCommand` with the record's defaults. `accountId` is a `Guid?` whose default is
      null. The handler never reads `createdBy`. */
  datatype AddCustomerCommand = AddCustomerCommand(
    name: string, surname: string, email: string,
    createdBy: string := "", balance: int := 0, accountId: Option<Guid> := None)

  /** The filter `a => a.Email == email`. */
  function HasEmail(email: string): (p: Customer -> bool)
    ensures forall c: Customer :: p(c) <==> c.data.email == email
  {
    (c: Customer) => c.data.email == email
  }

  /** Line 41: `Guid.Empty` asks for a fresh account id; any other value, null included, is
      kept, since null is not `Guid.Empty`. */
  function AccountLink(requested: Option<Guid>, generated: Guid): (r: Option<Guid>)
    ensures requested == Some(EmptyGuid) ==> r == Some(generated)
    ensures requested != Some(EmptyGuid) ==> r == requested
  {
    if requested == Some(EmptyGuid) then Some(generated) else requested
  }

  /** The row of lines 31-42: a fresh id, active, created now, with the request's fields. */
  function NewCustomer(request: AddCustomerCommand, io: Io): (c: Customer)
    ensures c.id == io.newId && c.active && c.createdDate == Some(io.now)
    ensures c.createdBy == None && c.updateBy == None && c.updateDate == None
    ensures c.data.name == request.name && c.data.surname == request.surname
    ensures c.data.email == request.email && c.data.balance == request.balance
    ensures request.accountId == Some(EmptyGuid) ==> c.data.accountId == Some(io.newAccountId)
    ensures request.accountId != Some(EmptyGuid) ==> c.data.accountId == request.accountId
  {
    Entity(io.newId, true, None, None, None, Some(io.now),
           CustomerData(request.name, request.surname, request.email, request.balance,
                        AccountLink(request.accountId, io.newAccountId)))
  }

  /** No row of the table, active or not, has the email. */
  predicate EmailFree(rows: seq<Customer>, email: string) {
    forall k :: 0 <= k < |rows| ==> rows[k].data.email != email
  }

  /** No row of the table has the id. */
  predicate IdFree(rows: seq<Customer>, id: Guid) {
    forall k :: 0 <= k < |rows| ==> rows[k].id != id
  }

  /** No two rows of the customer table share an email. */
  ghost predicate UniqueEmails(rows: seq<Customer>) {
    forall i, j :: 0 <= i < j < |rows| ==> rows[i].data.email != rows[j].data.email
  }

  /** The handler on the unit of work's state `w`. */
  function HandleStep(w: World, request: AddCustomerCommand, io: Io): (out: (Response, World))
    ensures io.lookupFault.Some? ==> out == (Returned(FailValue(io.lookupFault, 500)), w)
    // The email check ignores `Active`: a deleted customer's email stays taken.
    ensures io.lookupFault.None? && !EmailFree(w.staged.customers, request.email) ==>
      out == (Returned(FailValue(Some(EmailTaken), 400)), w)
    // A failed `AddAsync`, an id already in the table included, is answered with a fixed 500.
    ensures (io.lookupFault.None? && EmailFree(w.staged.customers, request.email)
      && (io.recordWrite.Some? || !IdFree(w.staged.customers, io.newId))) ==>
      out == (Returned(FailValue(Some(CustomerNotAdded), 500)), w)
    ensures (io.lookupFault.None? && EmailFree(w.staged.customers, request.email)
      && io.recordWrite.None? && IdFree(w.staged.customers, io.newId) && !SaveSucceeds(w, io.save)) ==>
      out.0 == Returned(FailValue(Some(AddedDataNotSaved), 500))
    ensures Succeeded(out.0) <==>
      && io.lookupFault.None? && EmailFree(w.staged.customers, request.email)
      && io.recordWrite.None? && IdFree(w.staged.customers, io.newId) && SaveSucceeds(w, io.save)
    ensures Succeeded(out.0) ==>
      && out.0 == Returned(SucceedValue(io.newId))
      && out.1.saved == out.1.staged == w.staged.(customers := w.staged.customers + [NewCustomer(request, io)])
      && (!w.open ==> out.1.committed == out.1.saved)
    ensures !Succeeded(out.0) ==> out.1.committed == w.committed && out.1.saved == w.saved
    ensures out.1.open == w.open
  {
    if io.lookupFault.Some? then (Returned(FailValue(io.lookupFault, 500)), w)
    else if GetByExpression(w.staged.customers, Some(HasEmail(request.email))).success then
      (Returned(FailValue(Some(EmailTaken), 400)), w)
    else
      var (added, rows) := AddEntity(w.staged.customers, Some(NewCustomer(request, io)), io.recordWrite);
      var w' := w.(staged := w.staged.(customers := rows));
      if !added.success then (Returned(FailValue(Some(CustomerNotAdded), 500)), w')
      else PersistStep(w', io.newId, io, Answer(AddedDataNotSaved, 500))
  }

  /** The row a successful add appends: the answered id, active, created now and never updated,
      with no `CreatedBy`, the request's name, surname, email and balance (no sign check), and
      the account link of line 41. */
  lemma AddAppendsTheNewRow(w: World, request: AddCustomerCommand, io: Io)
    requires Succeeded(HandleStep(w, request, io).0)
    ensures |HandleStep(w, request, io).1.saved.customers| == |w.staged.customers| + 1
    ensures HandleStep(w, request, io).1.saved.customers[..|w.staged.customers|] == w.staged.customers
    ensures HandleStep(w, request, io).1.saved.customers[|w.staged.customers|].id == HandleStep(w, request, io).0.result.value.value
    ensures HandleStep(w, request, io).1.saved.customers[|w.staged.customers|]
      == Entity(io.newId, true, None, None, None, Some(io.now),
                CustomerData(request.name, request.surname, request.email, request.balance,
                             AccountLink(request.accountId, io.newAccountId)))
  {
    var rows := w.staged.customers;
    assert (rows + [NewCustomer(request, io)])[..|rows|] == rows;
  }

  /** An add keeps the table's emails unique: it appends only an email no row has. */
  lemma AddKeepsEmailsUnique(w: World, request: AddCustomerCommand, io: Io)
    requires UniqueEmails(w.staged.customers)
    ensures UniqueEmails(HandleStep(w, request, io).1.staged.customers)
  {
    var rows := w.staged.customers;
    if Succeeded(HandleStep(w, request, io).0) {
      var after := rows + [NewCustomer(request, io)];
      forall i, j | 0 <= i < j < |after|
        ensures after[i].data.email != after[j].data.email
      {
        if j == |rows| {
          assert after[i] == rows[i];
        } else {
          assert after[i] == rows[i] && after[j] == rows[j];
        }
      }
    }
  }

  /** Once an add succeeded, another add with the same email is refused, whatever its other
      fields, and changes nothing. */
  lemma AddSameEmailTwiceFails(w: World, request: AddCustomerCommand, io: Io, again: AddCustomerCommand, io2: Io)
    requires Succeeded(HandleStep(w, request, io).0)
    requires again.email == request.email && io2.lookupFault.None?
    ensures HandleStep(HandleStep(w, request, io).1, again, io2)
      == (Returned(FailValue(Some(EmailTaken), 400)), HandleStep(w, request, io).1)
  {
    var rows := HandleStep(w, request, io).1.staged.customers;
    assert rows[|w.staged.customers|].data.email == again.email;
  }

  method Handle(uow: UnitOfWork, request: AddCustomerCommand, io: Io) returns (r: Response)
    requires uow.Valid()
    modifies uow, uow.customers
    ensures uow.Valid()
    ensures (r, uow.State()) == HandleStep(old(uow.State()), request, io)
  {
    if io.lookupFault.Some? {
      return Returned(FailValue(io.lookupFault, 500));
    }
    var customerFind := GetByExpression(uow.customers.rows, Some(HasEmail(request.email)));
    if customerFind.success {
      return Returned(FailValue(Some(EmailTaken), 400));
    }
    var customer := Entity(io.newId, true, None, None, None, Some(io.now),
                           CustomerData(request.name, request.surname, request.email, request.balance,
                                        if request.accountId == Some(EmptyGuid) then Some(io.newAccountId) else request.accountId));
    var addCustomerResult := uow.customers.Add(Some(customer), io.recordWrite);
    if !addCustomerResult.success {
      return Returned(FailValue(Some(CustomerNotAdded), 500));
    }
    r := Persist(uow, customer.id, io, Answer(AddedDataNotSaved, 500));
  }
}
