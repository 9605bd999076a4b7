/** The CancelBalance request and response. */
module CancelBalance {
  import opened Wrappers
  import opened JavaNumbers
  import opened Types
  import opened BeanValidation
  import opened Domain

  datatype Request = Request(transactionId: Option<string>, accountNumber: Option<string>, amount: Option<Long>)

  /**
   * transactionId: @NotBlank; accountNumber: @NotBlank @Size(min = 9, max = 10);
   * amount: @NotNull @Min(10) @Max(1_000_000_000).
   */
  predicate RequestValid(r: Request) {
    && NotBlank(r.transactionId)
    && NotBlank(r.accountNumber) && Size(r.accountNumber, 9, 10)
    && NotNull(r.amount) && Min(r.amount, 10) && Max(r.amount, 1_000_000_000)
  }

  /**
   * The constraints together: a transaction id that is not all blanks, a 9- or
   * 10-character number that is not all blanks, and an amount from 10 to
   * 1,000,000,000.
   */
  lemma RequestValidMeaning(r: Request)
    ensures RequestValid(r) <==>
      && r.transactionId.Some? && (exists i :: 0 <= i < |r.transactionId.value| && r.transactionId.value[i] > ' ')
      && r.accountNumber.Some? && 9 <= |r.accountNumber.value| <= 10
      && (exists i :: 0 <= i < |r.accountNumber.value| && r.accountNumber.value[i] > ' ')
      && r.amount.Some? && 10 <= r.amount.value <= 1_000_000_000
  {
  }

  /** The amount of a valid request lies between 10 and 1,000,000,000. */
  lemma RequestValidAmount(r: Request)
    requires RequestValid(r)
    ensures r.amount.Some? && 10 <= r.amount.value <= 1_000_000_000
  {
  }

  /**
   * The amount of a valid request never meets `Account.cancelBalance`'s
   * negative-amount error, and on a balance that is not negative it adds
   * without wrapping.
   */
  lemma ValidRequestCancelSucceeds(r: Request, balance: Long)
    requires RequestValid(r)
    ensures BalanceAfterCancel(balance, r.amount.value).Success?
    ensures 0 <= balance <= MaxLong - 1_000_000_000 ==>
      BalanceAfterCancel(balance, r.amount.value) == Success(balance + r.amount.value)
  {
  }

  /**
   * The fields of the TransactionDto that `Response.from` reads (TransactionDto
   * itself is not part of this model).
   */
  datatype TransactionDto = TransactionDto(
    accountNumber: string,
    transactionResultType: TransactionResultType,
    transactionId: string,
    amount: Long,
    transactedAt: Timestamp)

  datatype Response = Response(
    amount: Long,
    accountNumber: string,
    transactionResult: TransactionResultType,
    transactionId: string,
    transactedAt: Timestamp)

  /** `Response.from`: the result type is exposed as `transactionResult`. */
  function ResponseFrom(t: TransactionDto): (r: Response)
    ensures r.accountNumber == t.accountNumber && r.transactionId == t.transactionId
    ensures r.amount == t.amount && r.transactedAt == t.transactedAt
    ensures r.transactionResult == t.transactionResultType
  {
    Response(t.amount, t.accountNumber, t.transactionResultType, t.transactionId, t.transactedAt)
  }
}
