/** The CreateAccount request and response. */
module CreateAccount {
  import opened Wrappers
  import opened JavaNumbers
  import opened Types
  import opened BeanValidation
  import opened AccountDtos

  datatype Request = Request(userId: Option<Long>, initialBalance: Option<Long>)

  /** userId: @NotNull @Min(1); initialBalance: @NotNull @Min(0). */
  predicate RequestValid(r: Request) {
    && NotNull(r.userId) && Min(r.userId, 1)
    && NotNull(r.initialBalance) && Min(r.initialBalance, 0)
  }

  /** The constraints together: both fields present, a positive user id, a non-negative initial balance. */
  lemma RequestValidMeaning(r: Request)
    ensures RequestValid(r) <==>
      r.userId.Some? && r.userId.value >= 1 && r.initialBalance.Some? && r.initialBalance.value >= 0
  {
  }

  /** The response has no balance: only the owner, the number and the registration time. */
  datatype Response = Response(userId: Long, accountNumber: string, registeredAt: Timestamp)

  /** `Response.from`. */
  function ResponseFrom(d: AccountDto): (r: Response)
    ensures r.userId == d.userId && r.accountNumber == d.accountNumber && r.registeredAt == d.registeredAt
  {
    Response(d.userId, d.accountNumber, d.registeredAt)
  }
}
