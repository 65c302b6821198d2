/** Failure-compatible wrappers shared by every module of the model. */
module Wrappers {

  datatype Option<T> = None | Some(value: T)

  /** The outcome of an operation that may raise. Every mutating operation of
      the system runs inside one database transaction, so a failure leaves
      the stored state exactly as it was: a `Fail` carries no new state. */
  datatype Result<T, E> = Ok(value: T) | Fail(error: E) {

    predicate IsFailure() {
      Fail?
    }

    function PropagateFailure<U>(): Result<U, E>
      requires Fail?
    {
      Fail(error)
    }

    function Extract(): T
      requires Ok?
    {
      value
    }
  }

  /** Python truthiness of an optional text field: `None` and `""` are falsy. */
  predicate Truthy(s: Option<string>) {
    s.Some? && s.value != ""
  }
}

/** The exceptions the modelled code raises, one constructor per distinct
    failure the callers can observe. */
module Errors {

  datatype Error =
    // orders/services.py
    | CartEmpty
    | InsufficientStock
    | InvalidOrderStatus
    | ProductNotFound
    | NotEnoughStock
    | CartItemNotFound
    | NonPositiveQuantity
    | NegativeQuantity
    | ProductExpired
    | RoleNotAllowed
    // orders/models.py
    | IllegalTransition
    // payments
    | OrderNotAwaitingPayment
    | IllegalPaymentTransition
    | PaymentCleanFailed
    | DuplicatePaymentId
    | MissingAmount
    // prescriptions
    | NotPending
    | MissingReason
    | NoImages
    | TooManyImages
    | ImageLimitReached
    // delivery
    | PermissionDenied
    | DeliveryValidation
    | CourierNotFound
    | DuplicateDelivery
    | OrderNotReady
    // users
    | PhoneRequired
    | PhoneInvalid
    | PhoneTaken
    | UniqueViolation
    | BadCredentials
    | NotVerified
    | Blocked
    | RateLimited
    | CodeInvalid
    | CodeExpired
    // an attribute the code names does not exist
    | AttributeError
}
