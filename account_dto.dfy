/** AccountDto: the flat view of an Account that the service hands out. */
module AccountDtos {
  import opened Wrappers
  import opened JavaNumbers
  import opened Types
  import opened Domain

  datatype AccountDto = AccountDto(
    userId: Long,
    accountNumber: string,
    balance: Long,
    registeredAt: Timestamp,
    unRegisteredAt: Option<Timestamp>)

  /**
   * `AccountDto.fromEntity`: the owner's id in place of the owner, the other
   * fields copied (the entity's `registerAt` becomes `registeredAt`). It takes
   * the entity's field values, so it cannot change the entity.
   */
  function FromEntity(account: AccountState): (d: AccountDto)
    ensures d.userId == account.accountUser.id
    ensures d.accountNumber == account.accountNumber && d.balance == account.balance
    ensures d.registeredAt == account.registerAt && d.unRegisteredAt == account.unRegisteredAt
  {
    AccountDto(account.accountUser.id, account.accountNumber, account.balance,
               account.registerAt, account.unRegisteredAt)
  }
}
