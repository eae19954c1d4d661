/** The messages the core's results and exceptions carry. Each fixed message of the source is a
    constructor, and `Text` gives its exact wording; `Raised` is the message of an exception
    the model does not raise itself (a database error, say), whose wording the outside world
    chooses. Comparing two fixed constructors says the same as comparing their texts, since no
    two fixed texts are equal; a `Raised` text may repeat a fixed one. */
module Messages {

  datatype Message =
    | Blank
    // DomainLayer/Result.cs, InfrastructureLayer/Repositories/UnitOfWork.cs and the runtime.
    | ContextNull | NullReference | ObjectDisposed | TransactionUnusable | Overflow | IndexOutOfRange
    // InfrastructureLayer/Repositories/GenericRepository.cs and EF Core's change tracker.
    | IdEmpty | EntityNotFound | ExpressionNull | NullArgument | TrackingConflict
    | EntityAdded | EntityUpdated | EntityDeleted | DeleteNotFound | DeleteAlreadyDeleted
    // The transaction handlers.
    | SenderIdEmpty | RecipientIdEmpty | SameAccount | AmountNotPositive | TransactionIdEmpty
    | SenderMissing | RecipientMissing | InsufficientFunds | TransactionMissing
    | SenderNotDebited | RecipientNotCredited | SenderNotReturned | RecipientNotReturned
    | TransactionNotAdded | AddedDataNotSaved
    // The customer and account handlers.
    | InvalidId | CustomerMissing | CustomerAlreadyDeleted | AccountMissing | AccountAlreadyDeleted
    | EmailTaken | CustomerNotAdded
    | Raised(text: string)

  /** The wording of each message, as the source writes it. */
  function Text(m: Message): string {
    match m
    case Blank => ""
    case ContextNull => "Context is null."
    case NullReference => "Object reference not set to an instance of an object."
    case ObjectDisposed => "Cannot access a disposed object."
    // SqlClient's wording for a transaction whose connection was disposed.
    case TransactionUnusable => "This SqlTransaction has completed; it is no longer usable."
    case Overflow => "Value was either too large or too small for a Decimal."
    case IndexOutOfRange => "Index was outside the bounds of the array."
    case IdEmpty => "The Id cannot be empty."
    case EntityNotFound => "Entity not found."
    case ExpressionNull => "Expression is null!"
    case NullArgument => "The provided argument cannot be null."
    case TrackingConflict =>
      "The instance of entity type cannot be tracked because another instance with the same key value is already being tracked."
    case EntityAdded => "Entity successfully added."
    case EntityUpdated => "Entity successfully updated."
    case EntityDeleted => "Entity successfully deleted."
    case DeleteNotFound => "Entity with the given ID not found."
    case DeleteAlreadyDeleted => "Entity with the given ID is already marked as deleted."
    case SenderIdEmpty => "SenderId is empty."
    case RecipientIdEmpty => "RecipientId is empty."
    case SameAccount => "Cannot transfer to the same account."
    case AmountNotPositive => "The transferred amount is equaled to or less than zero"
    case TransactionIdEmpty => "TransactionId is empty."
    case SenderMissing => "Sender customer not found or already deleted."
    case RecipientMissing => "Recipient customer not found or already deleted."
    case InsufficientFunds => "The transferred amount exceeds the user's balance."
    case TransactionMissing => "The transaction not found or already deleted."
    case SenderNotDebited => "Sender balance not withdrawed."
    case RecipientNotCredited => "Recipient balance not added."
    case SenderNotReturned => "The sender's transferred amount has not been returned."
    case RecipientNotReturned => "The recipient's transferred amount has not been returned."
    case TransactionNotAdded => "An error occurred while adding the transaction."
    case AddedDataNotSaved => "An error occurred while saving the added data."
    case InvalidId => "Invalid Id provided."
    case CustomerMissing => "Customer not found or already deleted."
    case CustomerAlreadyDeleted => "Customer is already deleted."
    case AccountMissing => "Account not found or already deleted."
    case AccountAlreadyDeleted => "Account is already deleted."
    case EmailTaken => "Customer with this email already exists."
    case CustomerNotAdded => "An error occurred while adding the customer."
    case Raised(text) => text
  }
}
