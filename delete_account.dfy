/** ApplicationLayer/CQRS/Commands/Accounts/DeleteAccountCommand.cs: the soft delete of an
    account. The handler opens no database transaction: it finds the row by id (active or not),
    refuses one already inactive, clears `Active`, stamps `UpdateDate`, stages the row and saves.
    Its catch block answers 500 with the exception's message and rolls nothing back. */
module DeleteAccount {
  import opened Messages
  import opened Results
  import opened Entities
  import opened Repository
  import opened Persistence
  import opened Commands

  datatype DeleteAccountCommand = DeleteAccountCommand(id: Guid)


  /** The handler on the unit of work's state `w`. */
  function HandleStep(w: World, request: DeleteAccountCommand, io: Io): (out: (Response, World))
    ensures request.id == EmptyGuid ==> out == (Returned(FailValue(Some(InvalidId), 400)), w)
    ensures request.id != EmptyGuid && io.lookupFault.Some? ==>
      out == (Returned(FailValue(io.lookupFault, 500)), w)
    // The lookup ignores `Active`: an unknown id is a 404, an inactive row a 400.
    ensures (request.id != EmptyGuid && io.lookupFault.None?
      && !FindRecord(w.staged.accounts, request.id).success) ==>
      out == (Returned(FailValue(Some(AccountMissing), 404)), w)
    ensures (request.id != EmptyGuid && io.lookupFault.None?
      && FindRecord(w.staged.accounts, request.id).success
      && !FindRecord(w.staged.accounts, request.id).value.value.active) ==>
      out == (Returned(FailValue(Some(AccountAlreadyDeleted), 400)), w)
    // A failed `UpdateAsync` or `SaveChangesAsync` is answered with its own message and status.
    ensures (request.id != EmptyGuid && io.lookupFault.None?
      && FindRecord(w.staged.accounts, request.id).success
      && FindRecord(w.staged.accounts, request.id).value.value.active && io.recordWrite.Some?) ==>
      out == (Returned(FailValue(io.recordWrite, 400)), w)
    ensures (request.id != EmptyGuid && io.lookupFault.None?
      && FindRecord(w.staged.accounts, request.id).success
      && FindRecord(w.staged.accounts, request.id).value.value.active
      && io.recordWrite.None? && !SaveSucceeds(w, io.save)) ==>
      out.0 == Returned(FailValue(SaveStep(w, io.save).0.message, SaveStep(w, io.save).0.statusCode))
    ensures Succeeded(out.0) <==>
      && request.id != EmptyGuid && io.lookupFault.None?
      && FindRecord(w.staged.accounts, request.id).success
      && FindRecord(w.staged.accounts, request.id).value.value.active
      && io.recordWrite.None? && SaveSucceeds(w, io.save)
    ensures Succeeded(out.0) ==>
      && out.0 == Returned(SucceedValue(request.id))
      && out.1.saved == out.1.staged
           == w.staged.(accounts := Replace(w.staged.accounts, Retired(FindRecord(w.staged.accounts, request.id).value.value, io.now)))
      && (!w.open ==> out.1.committed == out.1.saved)
    ensures !Succeeded(out.0) ==> out.1.committed == w.committed && out.1.saved == w.saved
    ensures out.1.open == w.open
  {
    if request.id == EmptyGuid then (Returned(FailValue(Some(InvalidId), 400)), w)
    else if io.lookupFault.Some? then (Returned(FailValue(io.lookupFault, 500)), w)
    else
      var found := FindRecord(w.staged.accounts, request.id);
      if !found.success || found.value.None? then (Returned(FailValue(Some(AccountMissing), 404)), w)
      else
        var account := found.value.value;
        if !account.active then (Returned(FailValue(Some(AccountAlreadyDeleted), 400)), w)
        else
          UpdateAccountStep(w, Retired(account, io.now), request.id, io)
  }

  /** Of the account table, a successful delete changes only the row with the id: it is
      inactive with the new update date, and every other field stays. */
  lemma DeleteRetiresOnlyTheRow(w: World, request: DeleteAccountCommand, io: Io)
    requires UniqueIds(w.staged.accounts)
    requires Succeeded(HandleStep(w, request, io).0)
    ensures |HandleStep(w, request, io).1.saved.accounts| == |w.staged.accounts|
    ensures forall k :: 0 <= k < |w.staged.accounts| ==>
      HandleStep(w, request, io).1.saved.accounts[k]
        == if w.staged.accounts[k].id == request.id then Retired(w.staged.accounts[k], io.now)
           else w.staged.accounts[k]
    ensures forall k :: 0 <= k < |w.staged.accounts| && w.staged.accounts[k].id == request.id ==>
      w.staged.accounts[k].active
  {
    var found := FindRecord(w.staged.accounts, request.id).value.value;
    var k0 :| 0 <= k0 < |w.staged.accounts| && w.staged.accounts[k0] == found;
    forall k | 0 <= k < |w.staged.accounts| && w.staged.accounts[k].id == request.id
      ensures w.staged.accounts[k] == found
    {
      assert w.staged.accounts[k].id == w.staged.accounts[k0].id;
    }
  }

  /** Deleting is not idempotent: once a delete succeeded, deleting the same id again is
      answered "already deleted". */
  lemma DeleteTwiceFails(w: World, request: DeleteAccountCommand, io: Io, again: Io)
    requires UniqueIds(w.staged.accounts)
    requires Succeeded(HandleStep(w, request, io).0)
    requires again.lookupFault.None?
    ensures HandleStep(HandleStep(w, request, io).1, request, again)
      == (Returned(FailValue(Some(AccountAlreadyDeleted), 400)), HandleStep(w, request, io).1)
  {
    DeleteRetiresOnlyTheRow(w, request, io);
    var w' := HandleStep(w, request, io).1;
    var found := FindRecord(w'.staged.accounts, request.id).value.value;
    var j :| 0 <= j < |w'.staged.accounts| && w'.staged.accounts[j] == found;
    assert w.staged.accounts[j].id == request.id;
  }

  /** After a successful delete, `GetByIdAsync` no longer finds the account. */
  lemma DeletedIsNotFound(w: World, request: DeleteAccountCommand, io: Io)
    requires UniqueIds(w.staged.accounts)
    requires Succeeded(HandleStep(w, request, io).0)
    ensures !GetById(HandleStep(w, request, io).1.staged.accounts, request.id).success
  {
    DeleteRetiresOnlyTheRow(w, request, io);
  }

  method Handle(uow: UnitOfWork, request: DeleteAccountCommand, io: Io) returns (r: Response)
    requires uow.Valid()
    modifies uow, uow.accounts
    ensures uow.Valid()
    ensures (r, uow.State()) == HandleStep(old(uow.State()), request, io)
  {
    if request.id == EmptyGuid {
      return Returned(FailValue(Some(InvalidId), 400));
    }
    if io.lookupFault.Some? {
      return Returned(FailValue(io.lookupFault, 500));
    }
    var accountFind := GetByExpression(uow.accounts.rows, Some(HasId(request.id)));
    if !accountFind.success || accountFind.value.None? {
      return Returned(FailValue(Some(AccountMissing), 404));
    }
    var account := accountFind.value.value;
    if !account.active {
      return Returned(FailValue(Some(AccountAlreadyDeleted), 400));
    }
    account := account.(active := false);
    account := account.(updateDate := Some(io.now));
    r := UpdateAccountRow(uow, account, request.id, io);
  }
}
