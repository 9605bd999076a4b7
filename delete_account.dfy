/** The DeleteAccount request and response. */
module DeleteAccount {
  import opened Wrappers
  import opened JavaNumbers
  import opened Types
  import opened BeanValidation
  import opened AccountDtos

  datatype Request = Request(userId: Option<Long>, accountNumber: Option<string>)

  /** userId: @NotNull @Min(1); accountNumber: @NotBlank @Size(min = 9, max = 10). */
  predicate RequestValid(r: Request) {
    && NotNull(r.userId) && Min(r.userId, 1)
    && NotBlank(r.accountNumber) && Size(r.accountNumber, 9, 10)
  }

  /** The constraints together: a positive user id and a 9- or 10-character number that is not all blanks. */
  lemma RequestValidMeaning(r: Request)
    ensures RequestValid(r) <==>
      && r.userId.Some? && r.userId.value >= 1
      && r.accountNumber.Some? && 9 <= |r.accountNumber.value| <= 10
      && exists i :: 0 <= i < |r.accountNumber.value| && r.accountNumber.value[i] > ' '
  {
  }

  datatype Response = Response(userId: Long, accountNumber: string, unRegisteredAt: Option<Timestamp>)

  /** `Response.from`. */
  function ResponseFrom(d: AccountDto): (r: Response)
    ensures r.userId == d.userId && r.accountNumber == d.accountNumber && r.unRegisteredAt == d.unRegisteredAt
  {
    Response(d.userId, d.accountNumber, d.unRegisteredAt)
  }
}
