/** ApplicationLayer/CQRS/Commands/Transactions/DeleteTransactionCommand.cs: reversing a transfer.
    Inside a unit-of-work transaction it finds the record by id (active or not), credits the
    record's amount back to the sender, then credits the same amount to the recipient as well
    (the code adds to the recipient rather than taking the money back), stamps the record's
    update date, saves and commits. The record is never marked inactive, so the same reversal
    can be applied again. */
module DeleteTransaction {
  import opened Messages
  import opened Results
  import opened Entities
  import opened Repository
  import opened Persistence
  import opened Commands
  import opened Ledger

  datatype DeleteTransactionCommand = DeleteTransactionCommand(transactionId: Guid)


  /** The record after line 72: only the update date changes. */
  function Touched(record: Transaction, now: Time): (t: Transaction)
    ensures t.id == record.id && t.active == record.active && t.data == record.data
    ensures t.createdBy == record.createdBy && t.updateBy == record.updateBy && t.createdDate == record.createdDate
    ensures t.updateDate == Some(now)
  {
    record.(updateDate := Some(now))
  }

  /** The last stage: stage the touched record, save and commit. */
  function TouchStep(w: World, request: DeleteTransactionCommand, record: Transaction, io: Io): (out: (Response, World))
    requires w.open
    ensures !Succeeded(out.0) ==> out.1.committed == w.committed
    ensures Succeeded(out.0) <==> io.recordWrite.None? && SaveSucceeds(w, io.save) && io.commitFault.None?
    ensures io.recordWrite.Some? ==> out == (Returned(FailValue(io.recordWrite, 400)), w)
    ensures Succeeded(out.0) ==>
      && out.0 == Returned(SucceedValue(request.transactionId)) && !out.1.open
      && out.1.committed == out.1.staged
           == w.staged.(transactions := Replace(w.staged.transactions, Touched(record, io.now)))

    ensures io.recordWrite.None? && !SaveSucceeds(w, io.save) ==>
      out.0 == Returned(FailValue(SaveStep(w, io.save).0.message, SaveStep(w, io.save).0.statusCode))
    ensures io.recordWrite.None? && SaveSucceeds(w, io.save) && io.commitFault.Some? ==>
      out.0 == Returned(FailValue(if io.rollbackFault.Some? then io.rollbackFault else io.commitFault, 500))
  {
    var (updated, records) := UpdateEntity(w.staged.transactions, Some(Touched(record, io.now)), io.recordWrite);
    var w' := w.(staged := w.staged.(transactions := records));
    if !updated.success then (Returned(FailValue(updated.message, updated.statusCode)), w')
    else CompleteStep(w', request.transactionId, io, Propagate)
  }

  /** `recipient.Balance += TransferredAmount`, its `UpdateAsync`, then the last stage. */
  function CreditRecipientStep(w: World, request: DeleteTransactionCommand, record: Transaction, recipient: Customer, io: Io): (out: (Response, World))
    requires w.open
    ensures !Succeeded(out.0) ==> out.1.committed == w.committed
    ensures Succeeded(out.0) <==>
      && InDecimalRange(recipient.data.balance + record.data.transferredAmount) && io.recipientWrite.None?
      && io.recordWrite.None? && SaveSucceeds(w, io.save) && io.commitFault.None?
    ensures Succeeded(out.0) ==>
      && out.0 == Returned(SucceedValue(request.transactionId)) && !out.1.open
      && out.1.committed == out.1.staged
           == w.staged.(customers := Replace(w.staged.customers, WithBalance(recipient, recipient.data.balance + record.data.transferredAmount)),
                        transactions := Replace(w.staged.transactions, Touched(record, io.now)))
    ensures !(InDecimalRange(recipient.data.balance + record.data.transferredAmount)) ==> out == AbortStep(w, Overflow, io.rollbackFault)
    ensures (InDecimalRange(recipient.data.balance + record.data.transferredAmount)) && io.recipientWrite.Some? ==> out == (Returned(FailValue(Some(RecipientNotCredited), 500)), w)
  {
    var credited := recipient.data.balance + record.data.transferredAmount;
    if !InDecimalRange(credited) then AbortStep(w, Overflow, io.rollbackFault)
    else
      var (deposit, rows) := UpdateEntity(w.staged.customers, Some(WithBalance(recipient, credited)), io.recipientWrite);
      var w' := w.(staged := w.staged.(customers := rows));
      if !deposit.success then (Returned(FailValue(Some(RecipientNotCredited), 500)), w')
      else TouchStep(w', request, record, io)
  }

  /** The recipient lookup, on the customer table as now staged, then the recipient's credit. */
  function LookUpRecipientStep(w: World, request: DeleteTransactionCommand, record: Transaction, io: Io): (out: (Response, World))
    requires w.open
    ensures !Succeeded(out.0) ==> out.1.committed == w.committed
  {
    var recipient := GetById(w.staged.customers, record.data.recipientId);
    if !recipient.success || recipient.value.None? then (Returned(FailValue(Some(RecipientNotReturned), 404)), w)
    else CreditRecipientStep(w, request, record, recipient.value.value, io)
  }

  /** `sender.Balance += TransferredAmount`, its `UpdateAsync`, the recipient lookup (on the
      table as now staged), then the recipient's credit. */
  function ReturnStep(w: World, request: DeleteTransactionCommand, record: Transaction, sender: Customer, io: Io): (out: (Response, World))
    requires w.open
    ensures !Succeeded(out.0) ==> out.1.committed == w.committed
    ensures !(InDecimalRange(sender.data.balance + record.data.transferredAmount)) ==> out == AbortStep(w, Overflow, io.rollbackFault)
    ensures (InDecimalRange(sender.data.balance + record.data.transferredAmount)) && io.senderWrite.Some? ==> out == (Returned(FailValue(Some(SenderNotReturned), 500)), w)
  {
    var returned := sender.data.balance + record.data.transferredAmount;
    if !InDecimalRange(returned) then AbortStep(w, Overflow, io.rollbackFault)
    else
      var (withdraw, rows) := UpdateEntity(w.staged.customers, Some(WithBalance(sender, returned)), io.senderWrite);
      var w' := w.(staged := w.staged.(customers := rows));
      if !withdraw.success then (Returned(FailValue(Some(SenderNotReturned), 500)), w')
      else LookUpRecipientStep(w', request, record, io)
  }

  /** The return stage succeeds exactly when both credits stay within `decimal`, the recipient
      is found after the sender's credit, no write fails, the save writes and the commit holds. */
  lemma ReturnSucceedsExactlyWhen(w: World, request: DeleteTransactionCommand, record: Transaction, sender: Customer, io: Io)
    requires w.open
    ensures Succeeded(ReturnStep(w, request, record, sender, io).0) <==>
      var once := Replace(w.staged.customers, WithBalance(sender, sender.data.balance + record.data.transferredAmount));
      var recipient := GetById(once, record.data.recipientId);
      && InDecimalRange(sender.data.balance + record.data.transferredAmount) && io.senderWrite.None?
      && recipient.success
      && InDecimalRange(recipient.value.value.data.balance + record.data.transferredAmount) && io.recipientWrite.None?
      && io.recordWrite.None? && SaveSucceeds(w, io.save) && io.commitFault.None?
  {
  }

  /** A recipient that the lookup after the sender's credit does not find is a 404, and the
      sender's credit stays staged: nothing is rolled back. */
  lemma ReturnRecipientMissing(w: World, request: DeleteTransactionCommand, record: Transaction, sender: Customer, io: Io)
    requires w.open
    requires InDecimalRange(sender.data.balance + record.data.transferredAmount) && io.senderWrite.None?
    requires !GetById(Replace(w.staged.customers, WithBalance(sender, sender.data.balance + record.data.transferredAmount)), record.data.recipientId).success
    ensures FailedWith(ReturnStep(w, request, record, sender, io).0, 404, RecipientNotReturned)
    ensures ReturnStep(w, request, record, sender, io).1
      == w.(staged := w.staged.(customers := Replace(w.staged.customers, WithBalance(sender, sender.data.balance + record.data.transferredAmount))))
  {
  }

  /** On success the return stage answers the record's id, commits what it staged, and of the
      transaction table changes only the record, by its update date. */
  lemma ReturnCommitsTheTouch(w: World, request: DeleteTransactionCommand, record: Transaction, sender: Customer, io: Io)
    requires w.open && Succeeded(ReturnStep(w, request, record, sender, io).0)
    ensures ReturnStep(w, request, record, sender, io).0 == Returned(SucceedValue(request.transactionId))
    ensures !ReturnStep(w, request, record, sender, io).1.open
    ensures ReturnStep(w, request, record, sender, io).1.committed == ReturnStep(w, request, record, sender, io).1.staged
    ensures ReturnStep(w, request, record, sender, io).1.staged.transactions == Replace(w.staged.transactions, Touched(record, io.now))
  {
  }

  /** The handler on the unit of work's state `w`. */
  function HandleStep(w: World, request: DeleteTransactionCommand, io: Io): (out: (Response, World))
    ensures !CanBegin(w) ==> out == (Threw(BeginStep(w).1.value), w)
    ensures CanBegin(w) && request.transactionId == EmptyGuid ==>
      out == (Returned(FailValue(Some(TransactionIdEmpty), 400)), w.(open := true))
    // An exception of the record query goes through the catch block.
    ensures CanBegin(w) && request.transactionId != EmptyGuid && io.lookupFault.Some? ==>
      out == AbortStep(w.(open := true), io.lookupFault.value, io.rollbackFault)
    // Only an unknown id is a 404 here; an inactive record is found and reversed.
    ensures (CanBegin(w) && request.transactionId != EmptyGuid && io.lookupFault.None?
      && !FindRecord(w.staged.transactions, request.transactionId).success) ==>
      FailedWith(out.0, 404, TransactionMissing) && out.1 == w.(open := true)
    ensures (CanBegin(w) && request.transactionId != EmptyGuid && io.lookupFault.None?
      && FindRecord(w.staged.transactions, request.transactionId).success
      && !GetById(w.staged.customers, FindRecord(w.staged.transactions, request.transactionId).value.value.data.senderId).success) ==>
      FailedWith(out.0, 404, SenderMissing) && out.1 == w.(open := true)
    ensures (CanBegin(w) && request.transactionId != EmptyGuid && io.lookupFault.None?
      && FindRecord(w.staged.transactions, request.transactionId).success
      && GetById(w.staged.customers, FindRecord(w.staged.transactions, request.transactionId).value.value.data.senderId).success) ==>
      out == ReturnStep(w.(open := true), request, FindRecord(w.staged.transactions, request.transactionId).value.value,
                        GetById(w.staged.customers, FindRecord(w.staged.transactions, request.transactionId).value.value.data.senderId).value.value, io)
    ensures !Succeeded(out.0) ==> out.1.committed == w.committed
  {
    if !CanBegin(w) then (Threw(BeginStep(w).1.value), w)
    else
    var w1 := w.(open := true);
    if request.transactionId == EmptyGuid then (Returned(FailValue(Some(TransactionIdEmpty), 400)), w1)
    else if io.lookupFault.Some? then AbortStep(w1, io.lookupFault.value, io.rollbackFault)
    else
      var found := FindRecord(w1.staged.transactions, request.transactionId);
      if !found.success || found.value.None? then (Returned(FailValue(Some(TransactionMissing), 404)), w1)
      else
        var record := found.value.value;
        var sender := GetById(w1.staged.customers, record.data.senderId);
        if !sender.success || sender.value.None? then (Returned(FailValue(Some(SenderMissing), 404)), w1)
        else ReturnStep(w1, request, record, sender.value.value, io)
  }

  /** The return stage, on success, credits the amount to the sender and again to the recipient
      looked up afterwards: the total grows by twice the amount. */
  lemma ReturnCreditsBoth(w: World, request: DeleteTransactionCommand, record: Transaction, sender: Customer, io: Io)
    requires w.open && UniqueIds(w.staged.customers) && sender in w.staged.customers
    requires Succeeded(ReturnStep(w, request, record, sender, io).0)
    ensures ReturnStep(w, request, record, sender, io).1.committed.customers
      == Credit(Credit(w.staged.customers, sender.id, record.data.transferredAmount), record.data.recipientId, record.data.transferredAmount)
    ensures Total(ReturnStep(w, request, record, sender, io).1.committed.customers)
      == Total(w.staged.customers) + 2 * record.data.transferredAmount
  {
    var recipient := ReturnReachesRecipient(w, request, record, sender, io);
    var after := ReturnStep(w, request, record, sender, io).1.committed.customers;
    CreditBoth(w.staged.customers, sender, recipient, record.data.transferredAmount, after);
  }

  /** When sender and recipient differ, a successful return stage raises each balance by the
      amount and leaves every other customer row as it was. */
  lemma ReturnCreditsEach(w: World, request: DeleteTransactionCommand, record: Transaction, sender: Customer, io: Io)
    requires w.open && UniqueIds(w.staged.customers) && sender in w.staged.customers
    requires sender.id != record.data.recipientId
    requires Succeeded(ReturnStep(w, request, record, sender, io).0)
    ensures BalanceOf(ReturnStep(w, request, record, sender, io).1.committed.customers, sender.id)
      == sender.data.balance + record.data.transferredAmount
    ensures BalanceOf(ReturnStep(w, request, record, sender, io).1.committed.customers, record.data.recipientId)
      == BalanceOf(w.staged.customers, record.data.recipientId) + record.data.transferredAmount
    ensures |ReturnStep(w, request, record, sender, io).1.committed.customers| == |w.staged.customers|
    ensures forall k :: 0 <= k < |w.staged.customers| && w.staged.customers[k].id != sender.id && w.staged.customers[k].id != record.data.recipientId ==>
      ReturnStep(w, request, record, sender, io).1.committed.customers[k] == w.staged.customers[k]
  {
    var recipient := ReturnReachesRecipient(w, request, record, sender, io);
    var after := ReturnStep(w, request, record, sender, io).1.committed.customers;
    CreditEach(w.staged.customers, sender, recipient, record.data.transferredAmount, after);
  }

  /** The recipient a successful return stage credits: the row with the record's recipient id
      in the table after the sender's credit. */
  lemma ReturnReachesRecipient(w: World, request: DeleteTransactionCommand, record: Transaction, sender: Customer, io: Io)
    returns (recipient: Customer)
    requires w.open && Succeeded(ReturnStep(w, request, record, sender, io).0)
    ensures recipient in Replace(w.staged.customers, WithBalance(sender, sender.data.balance + record.data.transferredAmount))
    ensures recipient.id == record.data.recipientId
    ensures ReturnStep(w, request, record, sender, io).1.committed.customers
      == Replace(Replace(w.staged.customers, WithBalance(sender, sender.data.balance + record.data.transferredAmount)),
                 WithBalance(recipient, recipient.data.balance + record.data.transferredAmount))
  {
    var once := Replace(w.staged.customers, WithBalance(sender, sender.data.balance + record.data.transferredAmount));
    recipient := GetById(once, record.data.recipientId).value.value;
  }

  /** A successful reversal found its record and the record's sender and ran the return stage. */
  lemma ReverseReachesReturn(w: World, request: DeleteTransactionCommand, io: Io) returns (record: Transaction, sender: Customer)
    requires Succeeded(HandleStep(w, request, io).0)
    ensures CanBegin(w) && request.transactionId != EmptyGuid && io.lookupFault.None?
    ensures FindRecord(w.staged.transactions, request.transactionId).success
    ensures record == FindRecord(w.staged.transactions, request.transactionId).value.value
    ensures sender in w.staged.customers && sender.id == record.data.senderId && sender.active
    ensures HandleStep(w, request, io) == ReturnStep(w.(open := true), request, record, sender, io)
  {
    record := FindRecord(w.staged.transactions, request.transactionId).value.value;
    sender := GetById(w.staged.customers, record.data.senderId).value.value;
  }

  /** A successful reversal credits the record's amount to its sender and again to its recipient:
      the money held by all customers grows by twice the amount instead of staying put. */
  lemma ReverseCreditsBoth(w: World, request: DeleteTransactionCommand, io: Io)
    requires UniqueIds(w.staged.customers)
    requires Succeeded(HandleStep(w, request, io).0)
    ensures FindRecord(w.staged.transactions, request.transactionId).success
    ensures var record := FindRecord(w.staged.transactions, request.transactionId).value.value;
      && HandleStep(w, request, io).1.committed.customers
           == Credit(Credit(w.staged.customers, record.data.senderId, record.data.transferredAmount),
                     record.data.recipientId, record.data.transferredAmount)
      && Total(HandleStep(w, request, io).1.committed.customers)
           == Total(w.staged.customers) + 2 * record.data.transferredAmount
  {
    var record, sender := ReverseReachesReturn(w, request, io);
    ReturnCreditsBoth(w.(open := true), request, record, sender, io);
  }

  /** With two distinct parties, a successful reversal raises both the sender's and the
      recipient's balance by the record's amount. */
  lemma ReverseCreditsEach(w: World, request: DeleteTransactionCommand, io: Io)
    requires UniqueIds(w.staged.customers)
    requires Succeeded(HandleStep(w, request, io).0)
    ensures FindRecord(w.staged.transactions, request.transactionId).success
    ensures var record := FindRecord(w.staged.transactions, request.transactionId).value.value;
      record.data.senderId != record.data.recipientId ==>
        && BalanceOf(HandleStep(w, request, io).1.committed.customers, record.data.senderId)
             == BalanceOf(w.staged.customers, record.data.senderId) + record.data.transferredAmount
        && BalanceOf(HandleStep(w, request, io).1.committed.customers, record.data.recipientId)
             == BalanceOf(w.staged.customers, record.data.recipientId) + record.data.transferredAmount
  {
    var record, sender := ReverseReachesReturn(w, request, io);
    if record.data.senderId != record.data.recipientId {
      ReturnCreditsEach(w.(open := true), request, record, sender, io);
      BalanceOfFound(w.staged.customers, record.data.senderId);
    }
  }

  /** Touching a record of a table with unique keys changes that row alone, by its update date. */
  lemma TouchChangesOneRow(rows: seq<Transaction>, record: Transaction, now: Time)
    requires UniqueIds(rows) && record in rows
    ensures |Replace(rows, Touched(record, now))| == |rows|
    ensures forall k :: 0 <= k < |rows| ==>
      Replace(rows, Touched(record, now))[k] == if rows[k].id == record.id then Touched(rows[k], now) else rows[k]
  {
    ReplaceRows(rows, Touched(record, now));
    var k0 :| 0 <= k0 < |rows| && rows[k0] == record;
    forall k | 0 <= k < |rows| && rows[k].id == record.id
      ensures rows[k] == record
    {
      assert rows[k].id == rows[k0].id;
    }
  }

  /** After the touch, the lookup by the record's id finds the touched record. */
  lemma TouchedIsFoundAgain(rows: seq<Transaction>, record: Transaction, now: Time)
    requires UniqueIds(rows) && record in rows
    ensures FindRecord(Replace(rows, Touched(record, now)), record.id).success
    ensures FindRecord(Replace(rows, Touched(record, now)), record.id).value.value == Touched(record, now)
  {
    var after := Replace(rows, Touched(record, now));
    ReplaceRows(rows, Touched(record, now));
    var k0 :| 0 <= k0 < |rows| && rows[k0] == record;
    assert after[k0] == Touched(record, now);
    var found := FindRecord(after, record.id).value.value;
    var j :| 0 <= j < |after| && after[j] == found;
    assert rows[j].id == record.id;
    assert j == k0;
  }

  /** Of the transaction table, a successful reversal changes only the update date of the
      record: its parties, amount and active flag stay, and no other record moves. */
  lemma ReverseTouchesOnlyUpdateDate(w: World, request: DeleteTransactionCommand, io: Io)
    requires UniqueIds(w.staged.transactions)
    requires Succeeded(HandleStep(w, request, io).0)
    ensures |HandleStep(w, request, io).1.committed.transactions| == |w.staged.transactions|
    ensures forall k :: 0 <= k < |w.staged.transactions| ==>
      HandleStep(w, request, io).1.committed.transactions[k]
        == if w.staged.transactions[k].id == request.transactionId then Touched(w.staged.transactions[k], io.now)
           else w.staged.transactions[k]
  {
    var record, sender := ReverseReachesReturn(w, request, io);
    ReturnCommitsTheTouch(w.(open := true), request, record, sender, io);
    TouchChangesOneRow(w.staged.transactions, record, io.now);
  }

  /** The record a reversal touched is still there with its parties, amount and active flag,
      so the record lookup of a second reversal of the same id finds it again (rather than
      answering "not found"). */
  lemma ReverseCanRepeat(w: World, request: DeleteTransactionCommand, io: Io)
    requires UniqueIds(w.staged.transactions)
    requires Succeeded(HandleStep(w, request, io).0)
    ensures FindRecord(w.staged.transactions, request.transactionId).success
    ensures var record := FindRecord(w.staged.transactions, request.transactionId).value.value;
      var again := FindRecord(HandleStep(w, request, io).1.staged.transactions, request.transactionId);
      && again.success
      && again.value.value.data == record.data && again.value.value.active == record.active
  {
    var record, sender := ReverseReachesReturn(w, request, io);
    ReturnCommitsTheTouch(w.(open := true), request, record, sender, io);
    TouchedIsFoundAgain(w.staged.transactions, record, io.now);
  }

  /** The credits keep every customer's `Active`, so the record's sender is still an active
      customer after a reversal, and the sender lookup of a second reversal succeeds too. */
  lemma ReverseKeepsTheSenderActive(w: World, request: DeleteTransactionCommand, io: Io)
    requires UniqueIds(w.staged.customers)
    requires Succeeded(HandleStep(w, request, io).0)
    ensures FindRecord(w.staged.transactions, request.transactionId).success
    ensures GetById(HandleStep(w, request, io).1.staged.customers,
                    FindRecord(w.staged.transactions, request.transactionId).value.value.data.senderId).success
  {
    var record, sender := ReverseReachesReturn(w, request, io);
    ReverseCreditsBoth(w, request, io);
    var rows := w.staged.customers;
    var amount := record.data.transferredAmount;
    var k :| 0 <= k < |rows| && rows[k] == sender;
    var once := Credit(rows, record.data.senderId, amount);
    CreditKeepsRow(rows, record.data.senderId, amount, k);
    CreditKeepsRow(once, record.data.recipientId, amount, k);
  }

  /** A credit keeps each row's id and `Active`. */
  lemma CreditKeepsRow(rows: seq<Customer>, id: Guid, delta: int, k: nat)
    requires k < |rows|
    ensures Credit(rows, id, delta)[k].id == rows[k].id && Credit(rows, id, delta)[k].active == rows[k].active
  {
  }

  method Handle(uow: UnitOfWork, request: DeleteTransactionCommand, io: Io) returns (r: Response)
    requires uow.Valid()
    modifies uow, uow.customers, uow.transactions
    ensures uow.Valid()
    ensures (r, uow.State()) == HandleStep(old(uow.State()), request, io)
  {
    var began := uow.BeginTransaction();
    if began.Some? {
      return Threw(began.value);
    }
    if request.transactionId == EmptyGuid {
      return Returned(FailValue(Some(TransactionIdEmpty), 400));
    }
    if io.lookupFault.Some? {
      r := Abort(uow, io.lookupFault.value, io.rollbackFault);
      return;
    }
    var found := GetByExpression(uow.transactions.rows, Some(HasId(request.transactionId)));
    if !found.success || found.value.None? {
      return Returned(FailValue(Some(TransactionMissing), 404));
    }
    var transaction := found.value.value;
    var senderFound := GetById(uow.customers.rows, transaction.data.senderId);
    if !senderFound.success || senderFound.value.None? {
      return Returned(FailValue(Some(SenderMissing), 404));
    }
    r := Return(uow, request, transaction, senderFound.value.value, io);
  }

  /** Credit the amount back to the sender and stage it. */
  method Return(uow: UnitOfWork, request: DeleteTransactionCommand, transaction: Transaction, found: Customer, io: Io)
    returns (r: Response)
    requires uow.Valid() && uow.open
    modifies uow, uow.customers, uow.transactions
    ensures uow.Valid()
    ensures (r, uow.State()) == ReturnStep(old(uow.State()), request, transaction, found, io)
  {
    var sender := found;
    if !InDecimalRange(sender.data.balance + transaction.data.transferredAmount) {
      r := Abort(uow, Overflow, io.rollbackFault);
      return;
    }
    sender := WithBalance(sender, sender.data.balance + transaction.data.transferredAmount);
    var withdrawResult := uow.customers.Update(Some(sender), io.senderWrite);
    if !withdrawResult.success {
      return Returned(FailValue(Some(SenderNotReturned), 500));
    }
    r := LookUpRecipient(uow, request, transaction, io);
  }

  /** Look the recipient up among the staged customers and credit it. */
  method LookUpRecipient(uow: UnitOfWork, request: DeleteTransactionCommand, transaction: Transaction, io: Io)
    returns (r: Response)
    requires uow.Valid() && uow.open
    modifies uow, uow.customers, uow.transactions
    ensures uow.Valid()
    ensures (r, uow.State()) == LookUpRecipientStep(old(uow.State()), request, transaction, io)
  {
    var recipientFound := GetById(uow.customers.rows, transaction.data.recipientId);
    if !recipientFound.success || recipientFound.value.None? {
      return Returned(FailValue(Some(RecipientNotReturned), 404));
    }
    r := CreditRecipient(uow, request, transaction, recipientFound.value.value, io);
  }

  /** Credit the amount to the recipient as well, and stage it. */
  method CreditRecipient(uow: UnitOfWork, request: DeleteTransactionCommand, transaction: Transaction, found: Customer, io: Io)
    returns (r: Response)
    requires uow.Valid() && uow.open
    modifies uow, uow.customers, uow.transactions
    ensures uow.Valid()
    ensures (r, uow.State()) == CreditRecipientStep(old(uow.State()), request, transaction, found, io)
  {
    var recipient := found;
    if !InDecimalRange(recipient.data.balance + transaction.data.transferredAmount) {
      r := Abort(uow, Overflow, io.rollbackFault);
      return;
    }
    recipient := WithBalance(recipient, recipient.data.balance + transaction.data.transferredAmount);
    var addBalanceResult := uow.customers.Update(Some(recipient), io.recipientWrite);
    if !addBalanceResult.success {
      return Returned(FailValue(Some(RecipientNotCredited), 500));
    }
    r := Touch(uow, request, transaction, io);
  }

  /** Stamp the record's update date, stage it, save and commit. */
  method Touch(uow: UnitOfWork, request: DeleteTransactionCommand, found: Transaction, io: Io) returns (r: Response)
    requires uow.Valid() && uow.open
    modifies uow, uow.transactions
    ensures uow.Valid()
    ensures (r, uow.State()) == TouchStep(old(uow.State()), request, found, io)
  {
    var transaction := found.(updateDate := Some(io.now));
    var updateStatus := uow.transactions.Update(Some(transaction), io.recordWrite);
    if !updateStatus.success {
      return Returned(FailValue(updateStatus.message, updateStatus.statusCode));
    }
    r := Complete(uow, request.transactionId, io, Propagate);
  }
}
