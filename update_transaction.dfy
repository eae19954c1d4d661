/** ApplicationLayer/CQRS/Commands/Transactions/UpdateTransactionCommand.cs: amending a transfer.
    Inside a unit-of-work transaction it checks the request, finds the record by id (active or
    not), computes the difference between the old and the new amount, debits the sender and
    credits the recipient by that difference, overwrites the record's parties and amount, saves
    and commits. The difference is moved from sender to recipient whichever way the amount
    changed: a smaller amount still debits the sender. */
module UpdateTransaction {
  import opened Messages
  import opened Results
  import opened Entities
  import opened Repository
  import opened Persistence
  import opened Commands
  import opened Ledger

  /** `UpdateTransactionCommand`; the parties are `Guid?`. The handler never reads `UpdateBy`. */
  datatype UpdateTransactionCommand = UpdateTransactionCommand(
    transactionId: Guid, transferredAmount: int, senderId: Option<Guid>, recipientId: Option<Guid>, updateBy: Option<string>)


  /** The argument checks, in order: the transaction id, then those shared with the add handler. */
  function ArgumentError(request: UpdateTransactionCommand): (r: Option<Message>)
    ensures r.None? <==> && request.transactionId != EmptyGuid
                         && request.senderId.Some? && request.senderId.value != EmptyGuid
                         && request.recipientId.Some? && request.recipientId.value != EmptyGuid
                         && request.senderId != request.recipientId && request.transferredAmount > 0
    ensures request.transactionId == EmptyGuid ==> r == Some(TransactionIdEmpty)
    ensures request.transactionId != EmptyGuid ==>
      r == TransferArgumentError(request.senderId, request.recipientId, request.transferredAmount)
  {
    if request.transactionId == EmptyGuid then Some(TransactionIdEmpty)
    else TransferArgumentError(request.senderId, request.recipientId, request.transferredAmount)
  }

  /** `differenceAmount`: the old amount minus the new one, negated when negative. */
  function Difference(oldAmount: int, newAmount: int): (d: int)
    ensures d >= 0
    ensures d == oldAmount - newAmount || d == newAmount - oldAmount
    ensures d == 0 <==> oldAmount == newAmount
  {
    var difference := oldAmount - newAmount;
    if difference < 0 then difference * -1 else difference
  }

  /** The sender the handler loads: the request's, unless it is null or empty, then the record's. */
  function SenderChoice(request: UpdateTransactionCommand, record: Transaction): (g: Guid)
    ensures request.senderId.Some? && request.senderId.value != EmptyGuid ==> g == request.senderId.value
    ensures request.senderId == None || request.senderId == Some(EmptyGuid) ==> g == record.data.senderId
  {
    if request.senderId.Some? && request.senderId.value != EmptyGuid then request.senderId.value
    else record.data.senderId
  }

  /** The recipient the handler loads: the request's unless it is empty, then the record's. A null
      request value would throw here, but the argument checks have already rejected it. */
  function RecipientChoice(request: UpdateTransactionCommand, record: Transaction): (g: Guid)
    requires request.recipientId.Some?
    ensures request.recipientId.value != EmptyGuid ==> g == request.recipientId.value
    ensures request.recipientId.value == EmptyGuid ==> g == record.data.recipientId
  {
    if request.recipientId.value != EmptyGuid then request.recipientId.value
    else record.data.recipientId
  }

  /** Once the argument checks pass, the fallback to the record's parties never applies. */
  lemma FallbackUnreachable(request: UpdateTransactionCommand, record: Transaction)
    requires ArgumentError(request).None?
    ensures SenderChoice(request, record) == request.senderId.value
    ensures RecipientChoice(request, record) == request.recipientId.value
    ensures SenderChoice(request, record) != RecipientChoice(request, record)
  {
  }

  /** The record after lines 98-102: new update date, the request's parties and amount. */
  function Amended(record: Transaction, request: UpdateTransactionCommand, now: Time): (t: Transaction)
    requires request.senderId.Some? && request.recipientId.Some?
    ensures t.id == record.id && t.active == record.active && t.createdDate == record.createdDate
    ensures t.createdBy == record.createdBy && t.updateBy == record.updateBy
    ensures t.updateDate == Some(now)
    ensures t.data == TransactionData(request.senderId.value, request.recipientId.value, request.transferredAmount)
  {
    record.(updateDate := Some(now),
            data := TransactionData(request.senderId.value, request.recipientId.value, request.transferredAmount))
  }

  /** The last stage: stage the amended record, save and commit. */
  function RewriteStep(w: World, request: UpdateTransactionCommand, record: Transaction, io: Io): (out: (Response, World))
    requires w.open && ArgumentError(request).None?
    ensures !Succeeded(out.0) ==> out.1.committed == w.committed
    ensures Succeeded(out.0) <==> io.recordWrite.None? && SaveSucceeds(w, io.save) && io.commitFault.None?
    ensures io.recordWrite.Some? ==> out == (Returned(FailValue(io.recordWrite, 400)), w)
    ensures Succeeded(out.0) ==>
      && out.0 == Returned(SucceedValue(request.transactionId)) && !out.1.open
      && out.1.committed == out.1.staged
           == w.staged.(transactions := Replace(w.staged.transactions, Amended(record, request, io.now)))

    ensures io.recordWrite.None? && !SaveSucceeds(w, io.save) ==>
      out.0 == Returned(FailValue(SaveStep(w, io.save).0.message, SaveStep(w, io.save).0.statusCode))
    ensures io.recordWrite.None? && SaveSucceeds(w, io.save) && io.commitFault.Some? ==>
      out.0 == Returned(FailValue(if io.rollbackFault.Some? then io.rollbackFault else io.commitFault, 500))
  {
    var (updated, records) := UpdateEntity(w.staged.transactions, Some(Amended(record, request, io.now)), io.recordWrite);
    var w' := w.(staged := w.staged.(transactions := records));
    if !updated.success then (Returned(FailValue(updated.message, updated.statusCode)), w')
    else CompleteStep(w', request.transactionId, io, Propagate)
  }

  /** `recipient.Balance += differenceAmount` when the difference is positive, its `UpdateAsync`,
      then the last stage. */
  function DepositStep(w: World, request: UpdateTransactionCommand, record: Transaction, difference: int, recipient: Customer, io: Io): (out: (Response, World))
    requires w.open && ArgumentError(request).None? && difference >= 0
    ensures !Succeeded(out.0) ==> out.1.committed == w.committed
    ensures Succeeded(out.0) ==>
      && out.0 == Returned(SucceedValue(request.transactionId)) && !out.1.open
      && out.1.committed == out.1.staged
           == w.staged.(customers := Replace(w.staged.customers, WithBalance(recipient, recipient.data.balance + difference)),
                        transactions := Replace(w.staged.transactions, Amended(record, request, io.now)))
    ensures !(difference == 0 || InDecimalRange(recipient.data.balance + difference)) ==> out == AbortStep(w, Overflow, io.rollbackFault)
    ensures (difference == 0 || InDecimalRange(recipient.data.balance + difference)) && io.recipientWrite.Some? ==> out == (Returned(FailValue(Some(RecipientNotCredited), 500)), w)
  {
    if difference > 0 && !InDecimalRange(recipient.data.balance + difference) then AbortStep(w, Overflow, io.rollbackFault)
    else
      var credited := if difference > 0 then WithBalance(recipient, recipient.data.balance + difference) else recipient;
      var (deposit, rows) := UpdateEntity(w.staged.customers, Some(credited), io.recipientWrite);
      var w' := w.(staged := w.staged.(customers := rows));
      if !deposit.success then (Returned(FailValue(Some(RecipientNotCredited), 500)), w')
      else RewriteStep(w', request, record, io)
  }

  /** `sender.Balance -= differenceAmount` when the difference is positive, its `UpdateAsync`,
      the recipient lookup (on the table as now staged), then the deposit. */
  function WithdrawStep(w: World, request: UpdateTransactionCommand, record: Transaction, difference: int, sender: Customer, io: Io): (out: (Response, World))
    requires w.open && ArgumentError(request).None? && difference >= 0
    ensures !Succeeded(out.0) ==> out.1.committed == w.committed
    ensures !(difference == 0 || InDecimalRange(sender.data.balance - difference)) ==> out == AbortStep(w, Overflow, io.rollbackFault)
    ensures (difference == 0 || InDecimalRange(sender.data.balance - difference)) && io.senderWrite.Some? ==> out == (Returned(FailValue(Some(SenderNotDebited), 500)), w)
  {
    if difference > 0 && !InDecimalRange(sender.data.balance - difference) then AbortStep(w, Overflow, io.rollbackFault)
    else
      var debited := if difference > 0 then WithBalance(sender, sender.data.balance - difference) else sender;
      var (withdraw, rows) := UpdateEntity(w.staged.customers, Some(debited), io.senderWrite);
      var w' := w.(staged := w.staged.(customers := rows));
      if !withdraw.success then (Returned(FailValue(Some(SenderNotDebited), 500)), w')
      else
        var recipient := GetById(w'.staged.customers, RecipientChoice(request, record));
        if !recipient.success || recipient.value.None? then (Returned(FailValue(Some(RecipientMissing), 404)), w')
        else DepositStep(w', request, record, difference, recipient.value.value, io)
  }

  /** From the found record on: the difference, the sender lookup and the funds check (against
      the full new amount), then the withdraw. */
  function AmendStep(w: World, request: UpdateTransactionCommand, record: Transaction, io: Io): (out: (Response, World))
    requires w.open && ArgumentError(request).None?
    ensures !Succeeded(out.0) ==> out.1.committed == w.committed
    ensures (InDecimalRange(record.data.transferredAmount - request.transferredAmount)
      && !GetById(w.staged.customers, SenderChoice(request, record)).success) ==>
      FailedWith(out.0, 404, SenderMissing) && out.1 == w
    ensures (InDecimalRange(record.data.transferredAmount - request.transferredAmount)
      && GetById(w.staged.customers, SenderChoice(request, record)).success
      && GetById(w.staged.customers, SenderChoice(request, record)).value.value.data.balance < request.transferredAmount) ==>
      FailedWith(out.0, 400, InsufficientFunds) && out.1 == w
  {
    var difference := record.data.transferredAmount - request.transferredAmount;
    if !InDecimalRange(difference) then AbortStep(w, Overflow, io.rollbackFault)
    else
      var sender := GetById(w.staged.customers, SenderChoice(request, record));
      if !sender.success || sender.value.None? then (Returned(FailValue(Some(SenderMissing), 404)), w)
      else if sender.value.value.data.balance < request.transferredAmount then
        (Returned(FailValue(Some(InsufficientFunds), 400)), w)
      else WithdrawStep(w, request, record, Difference(record.data.transferredAmount, request.transferredAmount), sender.value.value, io)
  }

  /** The handler on the unit of work's state `w`. */
  function HandleStep(w: World, request: UpdateTransactionCommand, io: Io): (out: (Response, World))
    ensures !CanBegin(w) ==> out == (Threw(BeginStep(w).1.value), w)
    ensures CanBegin(w) && ArgumentError(request).Some? ==>
      out == (Returned(FailValue(ArgumentError(request), 400)), w.(open := true))
    // An exception of the record query goes through the catch block.
    ensures CanBegin(w) && ArgumentError(request).None? && io.lookupFault.Some? ==>
      out == AbortStep(w.(open := true), io.lookupFault.value, io.rollbackFault)
    // Only an unknown id is a 404 here; an inactive record is found and amended.
    ensures (CanBegin(w) && ArgumentError(request).None? && io.lookupFault.None?
      && !FindRecord(w.staged.transactions, request.transactionId).success) ==>
      FailedWith(out.0, 404, TransactionMissing) && out.1 == w.(open := true)
    ensures (CanBegin(w) && ArgumentError(request).None? && io.lookupFault.None?
      && FindRecord(w.staged.transactions, request.transactionId).success) ==>
      out == AmendStep(w.(open := true), request, FindRecord(w.staged.transactions, request.transactionId).value.value, io)
    ensures !Succeeded(out.0) ==> out.1.committed == w.committed
  {
    if !CanBegin(w) then (Threw(BeginStep(w).1.value), w)
    else
    var w1 := w.(open := true);
    if ArgumentError(request).Some? then (Returned(FailValue(ArgumentError(request), 400)), w1)
    else if io.lookupFault.Some? then AbortStep(w1, io.lookupFault.value, io.rollbackFault)
    else
      var found := FindRecord(w1.staged.transactions, request.transactionId);
      if !found.success || found.value.None? then (Returned(FailValue(Some(TransactionMissing), 404)), w1)
      else AmendStep(w1, request, found.value.value, io)
  }

  /** The deposit stage succeeds exactly when the credit stays within `decimal` (or there is
      none), the two writes hold, the save writes and the commit holds. */
  lemma DepositSucceedsExactlyWhen(w: World, request: UpdateTransactionCommand, record: Transaction, difference: int, recipient: Customer, io: Io)
    requires w.open && ArgumentError(request).None? && difference >= 0
    ensures Succeeded(DepositStep(w, request, record, difference, recipient, io).0) <==>
      && (difference == 0 || InDecimalRange(recipient.data.balance + difference)) && io.recipientWrite.None?
      && io.recordWrite.None? && SaveSucceeds(w, io.save) && io.commitFault.None?
  {
  }

  /** A successful withdraw stage found the request's recipient in the table as staged after the
      sender's debit, answered the record's id and committed the two balance updates and the
      amended record. */
  lemma WithdrawReachesRecipient(w: World, request: UpdateTransactionCommand, record: Transaction, difference: int, sender: Customer, io: Io)
    returns (recipient: Customer)
    requires w.open && ArgumentError(request).None? && difference >= 0
    requires Succeeded(WithdrawStep(w, request, record, difference, sender, io).0)
    ensures recipient in Replace(w.staged.customers, WithBalance(sender, sender.data.balance - difference))
    ensures recipient.id == request.recipientId.value && recipient.id != request.senderId.value
    ensures WithdrawStep(w, request, record, difference, sender, io).0 == Returned(SucceedValue(request.transactionId))
    ensures !WithdrawStep(w, request, record, difference, sender, io).1.open
    ensures WithdrawStep(w, request, record, difference, sender, io).1.committed == WithdrawStep(w, request, record, difference, sender, io).1.staged
    ensures WithdrawStep(w, request, record, difference, sender, io).1.staged
      == w.staged.(customers := Replace(Replace(w.staged.customers, WithBalance(sender, sender.data.balance - difference)),
                                        WithBalance(recipient, recipient.data.balance + difference)),
                   transactions := Replace(w.staged.transactions, Amended(record, request, io.now)))
  {
    FallbackUnreachable(request, record);
    var once := Replace(w.staged.customers, WithBalance(sender, sender.data.balance - difference));
    recipient := GetById(once, RecipientChoice(request, record)).value.value;
  }

  /** The withdraw stage runs inside the transaction, for a valid request, a non-negative
      difference and the request's sender as a row of the table, and succeeds. */
  ghost predicate Withdrawn(w: World, request: UpdateTransactionCommand, record: Transaction, difference: int, sender: Customer, io: Io) {
    && w.open && ArgumentError(request).None? && difference >= 0
    && sender in w.staged.customers && sender.id == request.senderId.value
    && Succeeded(WithdrawStep(w, request, record, difference, sender, io).0)
  }

  /** The withdraw stage, on success, credits the sender with minus the difference and the
      request's recipient, a customer of the table, with the difference. */
  lemma WithdrawMovesTheDifference(w: World, request: UpdateTransactionCommand, record: Transaction, difference: int, sender: Customer, io: Io, rows: seq<Customer>)
    requires rows == w.staged.customers && UniqueIds(rows) && Withdrawn(w, request, record, difference, sender, io)
    ensures exists k :: 0 <= k < |rows| && rows[k].id == request.recipientId.value
    ensures WithdrawStep(w, request, record, difference, sender, io).1.committed.customers
      == Credit(Credit(rows, request.senderId.value, -difference), request.recipientId.value, difference)
  {
    var recipient := WithdrawReachesRecipient(w, request, record, difference, sender, io);
    ShiftAfterLoad(rows, sender, recipient, request.senderId.value, request.recipientId.value, difference,
                   WithdrawStep(w, request, record, difference, sender, io).1.committed.customers);
  }

  /** What a successful amendment of the request's record moves: `|old - new|` (nothing when
      there is no record). */
  function Moved(w: World, request: UpdateTransactionCommand): int {
    var found := FindRecord(w.staged.transactions, request.transactionId);
    if found.success && found.value.Some? then Difference(found.value.value.data.transferredAmount, request.transferredAmount)
    else 0
  }

  /** A successful amendment passed every check before the writes: the transaction began, the
      request was valid, the record query did not throw and found the record, the sender was
      found with enough funds for the new amount, and `old - new` stayed within `decimal`. */
  lemma AmendPassesChecks(w: World, request: UpdateTransactionCommand, io: Io) returns (record: Transaction, sender: Customer)
    requires Succeeded(HandleStep(w, request, io).0)
    ensures CanBegin(w) && ArgumentError(request).None? && io.lookupFault.None?
    ensures FindRecord(w.staged.transactions, request.transactionId).success && record == FindRecord(w.staged.transactions, request.transactionId).value.value
    ensures GetById(w.staged.customers, request.senderId.value) == SucceedValue(sender)
    ensures sender.data.balance >= request.transferredAmount
    ensures InDecimalRange(record.data.transferredAmount - request.transferredAmount)
  {
    record := FindRecord(w.staged.transactions, request.transactionId).value.value;
    sender := GetById(w.staged.customers, request.senderId.value).value.value;
    FallbackUnreachable(request, record);
    assert HandleStep(w, request, io) == AmendStep(w.(open := true), request, record, io);
  }

  /** A successful amendment is the withdraw stage of the request's record and sender. */
  lemma AmendReachesWithdraw(w: World, request: UpdateTransactionCommand, io: Io) returns (record: Transaction, sender: Customer)
    requires Succeeded(HandleStep(w, request, io).0)
    ensures FindRecord(w.staged.transactions, request.transactionId).success && record == FindRecord(w.staged.transactions, request.transactionId).value.value
    ensures Withdrawn(w.(open := true), request, record, Moved(w, request), sender, io)
    ensures HandleStep(w, request, io) == WithdrawStep(w.(open := true), request, record, Moved(w, request), sender, io)
  {
    record := FindRecord(w.staged.transactions, request.transactionId).value.value;
    sender := GetById(w.staged.customers, request.senderId.value).value.value;
    FallbackUnreachable(request, record);
    assert HandleStep(w, request, io) == AmendStep(w.(open := true), request, record, io);
  }

  /** A successful amendment credits the request's sender with minus `|old - new|` and its
      recipient with `|old - new|`. */
  lemma AmendIsTwoCredits(w: World, request: UpdateTransactionCommand, io: Io)
    requires UniqueIds(w.staged.customers)
    requires Succeeded(HandleStep(w, request, io).0)
    ensures HandleStep(w, request, io).1.committed.customers
      == Credit(Credit(w.staged.customers, request.senderId.value, -Moved(w, request)), request.recipientId.value, Moved(w, request))
  {
    var record, sender := AmendReachesWithdraw(w, request, io);
    WithdrawMovesTheDifference(w.(open := true), request, record, Moved(w, request), sender, io, w.staged.customers);
  }

  /** A successful amendment had two distinct parties, both customers of the table. */
  lemma AmendFindsBothParties(w: World, request: UpdateTransactionCommand, io: Io)
    requires UniqueIds(w.staged.customers)
    requires Succeeded(HandleStep(w, request, io).0)
    ensures request.senderId.Some? && request.recipientId.Some? && request.senderId.value != request.recipientId.value
    ensures exists k :: 0 <= k < |w.staged.customers| && w.staged.customers[k].id == request.senderId.value
    ensures exists k :: 0 <= k < |w.staged.customers| && w.staged.customers[k].id == request.recipientId.value
  {
    var record, sender := AmendReachesWithdraw(w, request, io);
    WithdrawMovesTheDifference(w.(open := true), request, record, Moved(w, request), sender, io, w.staged.customers);
  }

  /** A successful amendment moves `|old - new|` from the request's sender to its recipient:
      the total is conserved and no other customer row changes. */
  lemma AmendMovesTheDifference(w: World, request: UpdateTransactionCommand, io: Io)
    requires UniqueIds(w.staged.customers)
    requires Succeeded(HandleStep(w, request, io).0)
    ensures |HandleStep(w, request, io).1.committed.customers| == |w.staged.customers|
    ensures Total(HandleStep(w, request, io).1.committed.customers) == Total(w.staged.customers)
    ensures BalanceOf(HandleStep(w, request, io).1.committed.customers, request.senderId.value)
      == BalanceOf(w.staged.customers, request.senderId.value) - Moved(w, request)
    ensures BalanceOf(HandleStep(w, request, io).1.committed.customers, request.recipientId.value)
      == BalanceOf(w.staged.customers, request.recipientId.value) + Moved(w, request)
    ensures forall k :: 0 <= k < |w.staged.customers| && w.staged.customers[k].id != request.senderId.value && w.staged.customers[k].id != request.recipientId.value ==>
      HandleStep(w, request, io).1.committed.customers[k] == w.staged.customers[k]
  {
    AmendIsTwoCredits(w, request, io);
    AmendFindsBothParties(w, request, io);
    TransferByKey(w.staged.customers, request.senderId.value, request.recipientId.value, Moved(w, request),
                  HandleStep(w, request, io).1.committed.customers);
  }

  /** A successful amendment answers the request's transaction id and overwrites the record: it
      now holds the request's parties and amount and the new update date, keeps its `Active`
      flag (an inactive record stays inactive), and no other record changes. */
  lemma AmendRewritesTheRecord(w: World, request: UpdateTransactionCommand, io: Io)
    requires Succeeded(HandleStep(w, request, io).0)
    ensures HandleStep(w, request, io).0 == Returned(SucceedValue(request.transactionId))
    ensures HandleStep(w, request, io).1.committed.transactions
      == Replace(w.staged.transactions, Amended(FindRecord(w.staged.transactions, request.transactionId).value.value, request, io.now))
  {
    var record, sender := AmendReachesWithdraw(w, request, io);
    var recipient := WithdrawReachesRecipient(w.(open := true), request, record, Moved(w, request), sender, io);
  }

  /** Amending overwrites exactly the record with the id: its data becomes the request's
      parties and amount, its update date the current time, its `Active` flag stays. */
  lemma AmendedTable(rows: seq<Transaction>, record: Transaction, request: UpdateTransactionCommand, now: Time)
    requires request.senderId.Some? && request.recipientId.Some?
    requires record.id == request.transactionId
    ensures |Replace(rows, Amended(record, request, now))| == |rows|
    ensures forall k :: 0 <= k < |rows| && rows[k].id == request.transactionId ==>
      && Replace(rows, Amended(record, request, now))[k].data
           == TransactionData(request.senderId.value, request.recipientId.value, request.transferredAmount)
      && Replace(rows, Amended(record, request, now))[k].updateDate == Some(now)
      && Replace(rows, Amended(record, request, now))[k].active == record.active
    ensures forall k :: 0 <= k < |rows| && rows[k].id != request.transactionId ==>
      Replace(rows, Amended(record, request, now))[k] == rows[k]
  {
    ReplaceRows(rows, Amended(record, request, now));
  }

  /** Amending to the same amount moves no money. */
  lemma AmendSameAmountKeepsBalances(w: World, request: UpdateTransactionCommand, io: Io)
    requires UniqueIds(w.staged.customers)
    requires Succeeded(HandleStep(w, request, io).0)
    requires FindRecord(w.staged.transactions, request.transactionId).success
    requires FindRecord(w.staged.transactions, request.transactionId).value.value.data.transferredAmount == request.transferredAmount
    ensures HandleStep(w, request, io).1.committed.customers == w.staged.customers
  {
    AmendIsTwoCredits(w, request, io);
    CreditZero(w.staged.customers, request.senderId.value);
    CreditZero(w.staged.customers, request.recipientId.value);
  }

  /** Lowering the amount does not give money back: the sender is still debited, by the
      decrease, and the recipient credited by it. */
  lemma AmendShrinkingStillDebits(w: World, request: UpdateTransactionCommand, io: Io)
    requires UniqueIds(w.staged.customers)
    requires Succeeded(HandleStep(w, request, io).0)
    requires FindRecord(w.staged.transactions, request.transactionId).success
    requires request.transferredAmount < FindRecord(w.staged.transactions, request.transactionId).value.value.data.transferredAmount
    ensures BalanceOf(HandleStep(w, request, io).1.committed.customers, request.senderId.value)
      == BalanceOf(w.staged.customers, request.senderId.value) - (FindRecord(w.staged.transactions, request.transactionId).value.value.data.transferredAmount - request.transferredAmount)
    ensures BalanceOf(HandleStep(w, request, io).1.committed.customers, request.recipientId.value)
      == BalanceOf(w.staged.customers, request.recipientId.value) + (FindRecord(w.staged.transactions, request.transactionId).value.value.data.transferredAmount - request.transferredAmount)
  {
    AmendMovesTheDifference(w, request, io);
  }

  method Handle(uow: UnitOfWork, request: UpdateTransactionCommand, io: Io) returns (r: Response)
    requires uow.Valid()
    modifies uow, uow.customers, uow.transactions
    ensures uow.Valid()
    ensures (r, uow.State()) == HandleStep(old(uow.State()), request, io)
  {
    var began := uow.BeginTransaction();
    if began.Some? {
      return Threw(began.value);
    }
    // Checking arguments.
    if request.transactionId == EmptyGuid {
      return Returned(FailValue(Some(TransactionIdEmpty), 400));
    }
    if request.senderId.None? || request.senderId.value == EmptyGuid {
      return Returned(FailValue(Some(SenderIdEmpty), 400));
    }
    if request.recipientId.None? || request.recipientId.value == EmptyGuid {
      return Returned(FailValue(Some(RecipientIdEmpty), 400));
    }
    if request.senderId == request.recipientId {
      return Returned(FailValue(Some(SameAccount), 400));
    }
    if request.transferredAmount <= 0 {
      return Returned(FailValue(Some(AmountNotPositive), 400));
    }
    // Find and check transaction data.
    if io.lookupFault.Some? {
      r := Abort(uow, io.lookupFault.value, io.rollbackFault);
      return;
    }
    var found := GetByExpression(uow.transactions.rows, Some(HasId(request.transactionId)));
    if !found.success || found.value.None? {
      return Returned(FailValue(Some(TransactionMissing), 404));
    }
    r := Amend(uow, request, found.value.value, io);
  }

  /** The difference, the sender lookup and the funds check. */
  method Amend(uow: UnitOfWork, request: UpdateTransactionCommand, transaction: Transaction, io: Io) returns (r: Response)
    requires uow.Valid() && uow.open && ArgumentError(request).None?
    modifies uow, uow.customers, uow.transactions
    ensures uow.Valid()
    ensures (r, uow.State()) == AmendStep(old(uow.State()), request, transaction, io)
  {
    var oldTransferredAmount := transaction.data.transferredAmount;
    var differenceAmount := oldTransferredAmount - request.transferredAmount;
    if !InDecimalRange(differenceAmount) {
      r := Abort(uow, Overflow, io.rollbackFault);
      return;
    }
    if differenceAmount < 0 {
      differenceAmount := differenceAmount * -1;
    }
    var senderId := transaction.data.senderId;
    if request.senderId.Some? && request.senderId.value != EmptyGuid {
      senderId := request.senderId.value;
    }
    assert differenceAmount == Difference(oldTransferredAmount, request.transferredAmount);
    assert senderId == SenderChoice(request, transaction);
    var senderFound := GetById(uow.customers.rows, senderId);
    if !senderFound.success || senderFound.value.None? {
      return Returned(FailValue(Some(SenderMissing), 404));
    }
    if senderFound.value.value.data.balance < request.transferredAmount {
      return Returned(FailValue(Some(InsufficientFunds), 400));
    }
    r := Withdraw(uow, request, transaction, differenceAmount, senderFound.value.value, io);
  }

  /** Debit the sender, stage it, and look the recipient up. */
  method Withdraw(uow: UnitOfWork, request: UpdateTransactionCommand, transaction: Transaction, differenceAmount: int, found: Customer, io: Io)
    returns (r: Response)
    requires uow.Valid() && uow.open && ArgumentError(request).None? && differenceAmount >= 0
    modifies uow, uow.customers, uow.transactions
    ensures uow.Valid()
    ensures (r, uow.State()) == WithdrawStep(old(uow.State()), request, transaction, differenceAmount, found, io)
  {
    ghost var w0 := uow.State();
    var sender := found;
    if differenceAmount > 0 {
      if !InDecimalRange(sender.data.balance - differenceAmount) {
        r := Abort(uow, Overflow, io.rollbackFault);
        return;
      }
      sender := WithBalance(sender, sender.data.balance - differenceAmount);
    }
    var withdrawResult := uow.customers.Update(Some(sender), io.senderWrite);
    if !withdrawResult.success {
      return Returned(FailValue(Some(SenderNotDebited), 500));
    }
    var recipientId := transaction.data.recipientId;
    if request.recipientId.value != EmptyGuid {
      recipientId := request.recipientId.value;
    }
    var recipientFound := GetById(uow.customers.rows, recipientId);
    if !recipientFound.success || recipientFound.value.None? {
      return Returned(FailValue(Some(RecipientMissing), 404));
    }
    assert WithdrawStep(w0, request, transaction, differenceAmount, found, io)
      == DepositStep(uow.State(), request, transaction, differenceAmount, recipientFound.value.value, io);
    r := Deposit(uow, request, transaction, differenceAmount, recipientFound.value.value, io);
  }

  /** Credit the recipient and stage it. */
  method Deposit(uow: UnitOfWork, request: UpdateTransactionCommand, transaction: Transaction, differenceAmount: int, found: Customer, io: Io)
    returns (r: Response)
    requires uow.Valid() && uow.open && ArgumentError(request).None? && differenceAmount >= 0
    modifies uow, uow.customers, uow.transactions
    ensures uow.Valid()
    ensures (r, uow.State()) == DepositStep(old(uow.State()), request, transaction, differenceAmount, found, io)
  {
    var recipient := found;
    if differenceAmount > 0 {
      if !InDecimalRange(recipient.data.balance + differenceAmount) {
        r := Abort(uow, Overflow, io.rollbackFault);
        return;
      }
      recipient := WithBalance(recipient, recipient.data.balance + differenceAmount);
    }
    var addBalanceResult := uow.customers.Update(Some(recipient), io.recipientWrite);
    if !addBalanceResult.success {
      return Returned(FailValue(Some(RecipientNotCredited), 500));
    }
    r := Rewrite(uow, request, transaction, io);
  }

  /** Overwrite the record's fields, stage it, save and commit. */
  method Rewrite(uow: UnitOfWork, request: UpdateTransactionCommand, found: Transaction, io: Io) returns (r: Response)
    requires uow.Valid() && uow.open && ArgumentError(request).None?
    modifies uow, uow.transactions
    ensures uow.Valid()
    ensures (r, uow.State()) == RewriteStep(old(uow.State()), request, found, io)
  {
    var transaction := found.(updateDate := Some(io.now));
    transaction := transaction.(data := transaction.data.(senderId := request.senderId.value));
    transaction := transaction.(data := transaction.data.(recipientId := request.recipientId.value));
    transaction := transaction.(data := transaction.data.(transferredAmount := request.transferredAmount));
    var updateStatus := uow.transactions.Update(Some(transaction), io.recordWrite);
    if !updateStatus.success {
      return Returned(FailValue(updateStatus.message, updateStatus.statusCode));
    }
    r := Complete(uow, request.transactionId, io, Propagate);
  }
}
