/** What the command handlers under ApplicationLayer/CQRS/Commands share: the foreign answers
    a request receives, the handler's response, decimal overflow, and the closing sequences:
    save then commit (transfer handlers), save only (customer and account handlers), and the
    transfer handlers' catch block. */
module Commands {
  import opened Messages
  import opened Results
  import opened Entities
  import opened Repository
  import opened Persistence

  /** The answers the outside world gives one request: `DateTime.UtcNow`, `Guid.NewGuid()` (the
      new row's id, and a second one for a new customer's account link), an exception from the
      query behind `GetByExpressionAsync`, failures EF Core reports when the handler stages its
      writes (the sender's, the recipient's, and the handler's own row), what `SaveChangesAsync`
      writes, and exceptions of the database's commit and rollback. */
  datatype Io = Io(
    now: Time,
    newId: Guid,
    newAccountId: Guid,
    lookupFault: Option<Message>,
    senderWrite: Option<Message>,
    recipientWrite: Option<Message>,
    recordWrite: Option<Message>,
    save: SaveOutcome,
    commitFault: Option<Message>,
    rollbackFault: Option<Message>)

  /** A handler returns a `Result<Guid>`, or an exception escapes it. */
  datatype Response = Returned(result: ValueResult<Guid>) | Threw(exception: Message)

  predicate Succeeded(r: Response) {
    r.Returned? && r.result.success
  }

  /** The returned failure with this status code and message. */
  predicate FailedWith(r: Response, status: int, message: Message) {
    r == Returned(FailValue(Some(message), status))
  }

  /** The argument checks shared by the add and amend handlers, in the order they run: the
      first failing check's message (each answered with 400), or `None` when all pass. A null
      id counts as empty. */
  function TransferArgumentError(senderId: Option<Guid>, recipientId: Option<Guid>, amount: int): (r: Option<Message>)
    ensures r.None? <==> && senderId.Some? && senderId.value != EmptyGuid
                         && recipientId.Some? && recipientId.value != EmptyGuid
                         && senderId != recipientId && amount > 0
    ensures senderId.None? || senderId.value == EmptyGuid ==> r == Some(SenderIdEmpty)
    ensures (&& senderId.Some? && senderId.value != EmptyGuid
             && (recipientId.None? || recipientId.value == EmptyGuid)) ==> r == Some(RecipientIdEmpty)
    ensures (&& senderId.Some? && senderId.value != EmptyGuid
             && recipientId.Some? && recipientId.value != EmptyGuid
             && senderId == recipientId) ==> r == Some(SameAccount)
    ensures (&& senderId.Some? && senderId.value != EmptyGuid
             && recipientId.Some? && recipientId.value != EmptyGuid
             && senderId != recipientId && amount <= 0) ==> r == Some(AmountNotPositive)
  {
    if senderId.None? || senderId.value == EmptyGuid then Some(SenderIdEmpty)
    else if recipientId.None? || recipientId.value == EmptyGuid then Some(RecipientIdEmpty)
    else if senderId == recipientId then Some(SameAccount)
    else if amount <= 0 then Some(AmountNotPositive)
    else None
  }


  /** The handlers' lookup by `GetByExpressionAsync(a => a.Id == id)`: the first row with the
      id, active or not. */
  function FindRecord<D>(rows: seq<Entity<D>>, id: Guid): (r: ValueResult<Entity<D>>)
    ensures r.success <==> exists k :: 0 <= k < |rows| && rows[k].id == id
    ensures r.success ==> r.value.Some? && r.value.value in rows && r.value.value.id == id
  {
    GetByExpression(rows, Some(HasId(id)))
  }

  /** What the customer and account delete handlers do to the row they found: clear `Active`
      and stamp `UpdateDate`; every other field stays. */
  function Retired<D>(e: Entity<D>, now: Time): (r: Entity<D>)
    ensures !r.active && r.updateDate == Some(now)
    ensures r.id == e.id && r.data == e.data && r.createdBy == e.createdBy
    ensures r.updateBy == e.updateBy && r.createdDate == e.createdDate
  {
    e.(active := false, updateDate := Some(now))
  }

  /** `decimal.MaxValue`; an arithmetic result beyond it in magnitude throws. */
  const DecimalMax: int := 79228162514264337593543950335

  predicate InDecimalRange(x: int) {
    -DecimalMax <= x <= DecimalMax
  }

  /** The transfer handlers' catch block, with the intended rollback: roll back, then answer
      500 with the exception's message; an exception of the rollback itself escapes the handler. */
  function AbortStep(w: World, message: Message, rollbackFault: Option<Message>): (out: (Response, World))
    ensures !out.1.open && out.1.committed == w.committed && out.1.staged == w.staged
    ensures w.open ==> out.1.saved == w.committed
    ensures !w.open || (!w.disposed && rollbackFault.None?) ==> out.0 == Returned(FailValue(Some(message), 500))
    ensures w.open && !w.disposed && rollbackFault.Some? ==> out.0 == Threw(rollbackFault.value)
    ensures w.open && w.disposed ==> out.0 == Threw(TransactionUnusable)
  {
    var (w', thrown) := RollbackStep(w, rollbackFault);
    if thrown.Some? then (Threw(thrown.value), w')
    else (Returned(FailValue(Some(message), 500)), w')
  }

  method Abort(uow: UnitOfWork, message: Message, rollbackFault: Option<Message>) returns (r: Response)
    requires uow.Valid()
    modifies uow
    ensures uow.Valid()
    ensures (r, uow.State()) == AbortStep(old(uow.State()), message, rollbackFault)
  {
    var thrown := uow.RollbackTransaction(rollbackFault);
    if thrown.Some? {
      return Threw(thrown.value);
    }
    r := Returned(FailValue(Some(message), 500));
  }

  /** The catch block as written: with no transaction open, the rollback's `await null` throws. */
  function AbortAsWrittenStep(w: World, message: Message, rollbackFault: Option<Message>): (out: (Response, World))
    ensures !w.open ==> out == (Threw(NullReference), w)
    ensures w.open ==> out == AbortStep(w, message, rollbackFault)
  {
    var (w', thrown) := RollbackAsWrittenStep(w, rollbackFault);
    if thrown.Some? then (Threw(thrown.value), w')
    else (Returned(FailValue(Some(message), 500)), w')
  }

  /** How a handler answers a failed `SaveChangesAsync`: with the save's own message and status,
      or with a fixed message and status of its own. */
  datatype OnSaveFailure = Propagate | Answer(message: Message, status: int)

  function SaveFailure(saved: ValueResult<bool>, on: OnSaveFailure): (r: ValueResult<Guid>)
    ensures !r.success && r.value.None?
    ensures on.Propagate? ==> r.message == saved.message && r.statusCode == saved.statusCode
    ensures on.Answer? ==> r.message == Some(on.message) && r.statusCode == on.status
  {
    match on
    case Propagate => FailValue(saved.message, saved.statusCode)
    case Answer(m, s) => FailValue(Some(m), s)
  }

  /** `SaveChangesAsync` will write the staged data. */
  predicate SaveSucceeds(w: World, outcome: SaveOutcome) {
    w.hasContext && !w.disposed && outcome.RowsWritten? && outcome.count >= 1
  }

  /** The last lines of a transfer handler: save, commit, and answer `id`; a failed save is
      answered as `onSaveFailure` says, a failed commit goes through the catch block. */
  function CompleteStep(w: World, id: Guid, io: Io, onSaveFailure: OnSaveFailure): (out: (Response, World))
    ensures Succeeded(out.0) <==> SaveSucceeds(w, io.save) && (!w.open || io.commitFault.None?)
    ensures Succeeded(out.0) ==> out.0 == Returned(SucceedValue(id))
    ensures Succeeded(out.0) ==> out.1 == w.(saved := w.staged, committed := w.staged, open := false)
    ensures !Succeeded(out.0) ==> out.1.committed == w.committed && out.1.staged == w.staged
    ensures !SaveSucceeds(w, io.save) ==> out == (Returned(SaveFailure(SaveStep(w, io.save).0, onSaveFailure)), w)
    ensures SaveSucceeds(w, io.save) && w.open && io.commitFault.Some? ==>
      !out.1.open && out.0 == Returned(FailValue(if io.rollbackFault.Some? then io.rollbackFault else io.commitFault, 500))
  {
    var (saved, w1) := SaveStep(w, io.save);
    if !saved.success then (Returned(SaveFailure(saved, onSaveFailure)), w1)
    else
      var (w2, thrown) := CommitStep(w1, io.commitFault, io.rollbackFault);
      if thrown.Some? then AbortStep(w2, thrown.value, io.rollbackFault)
      else (Returned(SucceedValue(id)), w2)
  }

  /** The same closing lines with the commit and the catch block as written. */
  function CompleteAsWrittenStep(w: World, id: Guid, io: Io, onSaveFailure: OnSaveFailure): (out: (Response, World))
    ensures !SaveSucceeds(w, io.save) ==> out == CompleteStep(w, id, io, onSaveFailure)
  {
    var (saved, w1) := SaveStep(w, io.save);
    if !saved.success then (Returned(SaveFailure(saved, onSaveFailure)), w1)
    else
      var (w2, thrown) := CommitAsWrittenStep(w1, io.commitFault, io.rollbackFault);
      if thrown.Some? then AbortAsWrittenStep(w2, thrown.value, io.rollbackFault)
      else (Returned(SucceedValue(id)), w2)
  }

  /** As written, a transfer handler whose commit fails throws a NullReferenceException from the
      catch block's second rollback, where the intended code answers 500 with the commit's (or
      the rollback's) message; both leave the same data behind. Every other path agrees. */
  lemma FailedCommitMakesTheHandlerThrow(w: World, id: Guid, io: Io, onSaveFailure: OnSaveFailure)
    requires w.open
    ensures SaveSucceeds(w, io.save) && io.commitFault.Some? ==>
      && CompleteAsWrittenStep(w, id, io, onSaveFailure).0 == Threw(NullReference)
      && CompleteStep(w, id, io, onSaveFailure).0 == Returned(FailValue(if io.rollbackFault.Some? then io.rollbackFault else io.commitFault, 500))
      && CompleteAsWrittenStep(w, id, io, onSaveFailure).1 == CompleteStep(w, id, io, onSaveFailure).1
    ensures !(SaveSucceeds(w, io.save) && io.commitFault.Some?) ==>
      CompleteAsWrittenStep(w, id, io, onSaveFailure) == CompleteStep(w, id, io, onSaveFailure)
  {
  }

  method Complete(uow: UnitOfWork, id: Guid, io: Io, onSaveFailure: OnSaveFailure) returns (r: Response)
    requires uow.Valid()
    modifies uow
    ensures uow.Valid()
    ensures (r, uow.State()) == CompleteStep(old(uow.State()), id, io, onSaveFailure)
  {
    var saved := uow.SaveChanges(io.save);
    if !saved.success {
      return Returned(SaveFailure(saved, onSaveFailure));
    }
    var thrown := uow.CommitTransaction(io.commitFault, io.rollbackFault);
    if thrown.Some? {
      r := Abort(uow, thrown.value, io.rollbackFault);
      return;
    }
    r := Returned(SucceedValue(id));
  }

  /** The last lines of a customer or account handler, which never begin a transaction: save and
      answer `id`. With nothing open the save commits on its own. */
  function PersistStep(w: World, id: Guid, io: Io, onSaveFailure: OnSaveFailure): (out: (Response, World))
    ensures Succeeded(out.0) <==> SaveSucceeds(w, io.save)
    ensures Succeeded(out.0) ==> out.0 == Returned(SucceedValue(id)) && out.1.saved == w.staged
    ensures Succeeded(out.0) && !w.open ==> out.1.committed == w.staged
    ensures !Succeeded(out.0) ==> out.1 == w && out.0 == Returned(SaveFailure(SaveStep(w, io.save).0, onSaveFailure))
    ensures out.1.staged == w.staged && out.1.open == w.open
  {
    var (saved, w1) := SaveStep(w, io.save);
    if !saved.success then (Returned(SaveFailure(saved, onSaveFailure)), w1)
    else (Returned(SucceedValue(id)), w1)
  }

  method Persist(uow: UnitOfWork, id: Guid, io: Io, onSaveFailure: OnSaveFailure) returns (r: Response)
    requires uow.Valid()
    modifies uow
    ensures uow.Valid()
    ensures (r, uow.State()) == PersistStep(old(uow.State()), id, io, onSaveFailure)
  {
    var saved := uow.SaveChanges(io.save);
    if !saved.success {
      return Returned(SaveFailure(saved, onSaveFailure));
    }
    r := Returned(SucceedValue(id));
  }

  /** The last lines of the customer handlers that edit a row: stage it with `UpdateAsync` (a
      failure is answered with its own message and status), then save and answer `id`. */
  function UpdateCustomerStep(w: World, row: Customer, id: Guid, io: Io): (out: (Response, World))
    ensures io.recordWrite.Some? ==> out == (Returned(FailValue(io.recordWrite, 400)), w)
    ensures Succeeded(out.0) <==> io.recordWrite.None? && SaveSucceeds(w, io.save)
    ensures Succeeded(out.0) ==> && out.0 == Returned(SucceedValue(id))
                                 && out.1.saved == out.1.staged == w.staged.(customers := Replace(w.staged.customers, row))
    ensures io.recordWrite.None? && !SaveSucceeds(w, io.save) ==>
      out.0 == Returned(FailValue(SaveStep(w, io.save).0.message, SaveStep(w, io.save).0.statusCode))
    ensures Succeeded(out.0) && !w.open ==> out.1.committed == out.1.saved
    ensures !Succeeded(out.0) ==> out.1.saved == w.saved && out.1.committed == w.committed
    ensures out.1.open == w.open
  {
    var (updated, rows) := UpdateEntity(w.staged.customers, Some(row), io.recordWrite);
    var w' := w.(staged := w.staged.(customers := rows));
    if !updated.success then (Returned(FailValue(updated.message, updated.statusCode)), w')
    else PersistStep(w', id, io, Propagate)
  }

  method UpdateCustomerRow(uow: UnitOfWork, row: Customer, id: Guid, io: Io) returns (r: Response)
    requires uow.Valid()
    modifies uow, uow.customers
    ensures uow.Valid()
    ensures (r, uow.State()) == UpdateCustomerStep(old(uow.State()), row, id, io)
  {
    var updateStatus := uow.customers.Update(Some(row), io.recordWrite);
    if !updateStatus.success {
      return Returned(FailValue(updateStatus.message, updateStatus.statusCode));
    }
    r := Persist(uow, id, io, Propagate);
  }

  /** The same on the account table, for the account handler. */
  function UpdateAccountStep(w: World, row: Account, id: Guid, io: Io): (out: (Response, World))
    ensures io.recordWrite.Some? ==> out == (Returned(FailValue(io.recordWrite, 400)), w)
    ensures Succeeded(out.0) <==> io.recordWrite.None? && SaveSucceeds(w, io.save)
    ensures Succeeded(out.0) ==> && out.0 == Returned(SucceedValue(id))
                                 && out.1.saved == out.1.staged == w.staged.(accounts := Replace(w.staged.accounts, row))
    ensures io.recordWrite.None? && !SaveSucceeds(w, io.save) ==>
      out.0 == Returned(FailValue(SaveStep(w, io.save).0.message, SaveStep(w, io.save).0.statusCode))
    ensures Succeeded(out.0) && !w.open ==> out.1.committed == out.1.saved
    ensures !Succeeded(out.0) ==> out.1.saved == w.saved && out.1.committed == w.committed
    ensures out.1.open == w.open
  {
    var (updated, rows) := UpdateEntity(w.staged.accounts, Some(row), io.recordWrite);
    var w' := w.(staged := w.staged.(accounts := rows));
    if !updated.success then (Returned(FailValue(updated.message, updated.statusCode)), w')
    else PersistStep(w', id, io, Propagate)
  }

  method UpdateAccountRow(uow: UnitOfWork, row: Account, id: Guid, io: Io) returns (r: Response)
    requires uow.Valid()
    modifies uow, uow.accounts
    ensures uow.Valid()
    ensures (r, uow.State()) == UpdateAccountStep(old(uow.State()), row, id, io)
  {
    var updateStatus := uow.accounts.Update(Some(row), io.recordWrite);
    if !updateStatus.success {
      return Returned(FailValue(updateStatus.message, updateStatus.statusCode));
    }
    r := Persist(uow, id, io, Propagate);
  }
}
