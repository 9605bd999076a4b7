/**
 * The enums of the `type` package (AccountStatus, ErrorCode, TransactionType,
 * TransactionResultType) and the failures the core can raise. Only the error
 * codes the modelled code throws are listed; their description texts are not
 * modelled.
 */
module Types {

  datatype AccountStatus = IN_USE | UNREGISTERED

  datatype ErrorCode =
    | USER_NOT_FOUND
    | MAX_ACCOUNT_PER_USER_10
    | ACCOUNT_NOT_FOUND
    | USER_ACCOUNT_UN_MATCH
    | ACCOUNT_ALREADY_UNREGISTERED
    | BALANCE_NOT_EMPTY
    | AMOUNT_EXCEED_BALANCE
    | INVALID_REQUEST

  datatype TransactionType = USE | CANCEL

  /** S(uccess) or F(ailure). */
  datatype TransactionResultType = S | F

  /**
   * What a modelled Java method can throw: the domain's AccountException with
   * its code, the RuntimeException("Minus") of getAccount, the
   * NoSuchElementException of `Optional.get()`, and the NumberFormatException
   * of `Integer.parseInt`.
   */
  datatype Failure =
    | AccountException(code: ErrorCode)
    | MinusIdException
    | NoSuchElementException
    | NumberFormatException

  /** A LocalDateTime, treated as an opaque instant supplied by the caller. */
  type Timestamp = int
}
