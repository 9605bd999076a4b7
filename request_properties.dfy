/**
 * Facts that join the request constraints and response builders to the
 * service and entity: what a valid request can and cannot lead to, and what the
 * responses of the two account operations say.
 */
module RequestProperties {
  import opened Wrappers
  import opened JavaNumbers
  import opened Types
  import opened Domain
  import opened AccountDtos
  import opened AccountServiceDecisions
  import AccountScenarios
  import CreateAccount
  import DeleteAccount
  import CancelBalance

  /** A valid create request can only create an account whose balance, and DTO balance, are not negative. */
  lemma ValidCreateRequestStartsNonNegative(req: CreateAccount.Request, store: Store, now: Timestamp)
    requires CreateAccount.RequestValid(req)
    requires CreateAccountDecision(store, req.userId.value, req.initialBalance.value, now).Success?
    ensures CreateAccountDecision(store, req.userId.value, req.initialBalance.value, now).value.balance >= 0
    ensures FromEntity(CreateAccountDecision(store, req.userId.value, req.initialBalance.value, now).value).balance >= 0
  {
  }

  /** The response to a successful creation names the requesting user, the number the numbering rule chose, and the time. */
  lemma CreateResponseDescribesCreated(store: Store, userId: Long, initialBalance: Long, now: Timestamp)
    requires UsersKeyedById(store.users)
    requires CreateAccountDecision(store, userId, initialBalance, now).Success?
    ensures CreateAccount.ResponseFrom(FromEntity(CreateAccountDecision(store, userId, initialBalance, now).value))
         == CreateAccount.Response(userId, NextAccountNumber(LatestById(store.accounts)).value, now)
  {
  }

  /** The response to a successful deletion names the requesting user, the requested number and the deletion time. */
  lemma DeleteResponseDescribesDeleted(store: Store, userId: Long, accountNumber: string, now: Timestamp)
    requires UsersKeyedById(store.users)
    requires DeleteAccountDecision(store, userId, accountNumber).Success?
    ensures
      var k := DeleteAccountDecision(store, userId, accountNumber).value;
      DeleteAccount.ResponseFrom(FromEntity(Unregistered(store.accounts[k], now)))
        == DeleteAccount.Response(userId, accountNumber, Some(now))
  {
  }

  /** The seed number can be named in a valid delete request. */
  lemma SeedFitsDeleteRequest(userId: Long)
    requires userId >= 1
    ensures DeleteAccount.RequestValid(DeleteAccount.Request(Some(userId), Some(SeedAccountNumber)))
  {
    assert SeedAccountNumber[0] > ' ';
  }

  /**
   * Every number the rule derives from a latest number between 999999999 and
   * 2147483646 has ten digits, so a valid delete request can name it.
   */
  lemma GeneratedNumberFitsDeleteRequest(latest: AccountState, n: Int32, userId: Long)
    requires ParseInt(latest.accountNumber) == Some(n)
    requires 999_999_999 <= n < MaxInt
    requires userId >= 1
    ensures NextAccountNumber(Some(latest)).Success?
    ensures |NextAccountNumber(Some(latest)).value| == 10
    ensures DeleteAccount.RequestValid(DeleteAccount.Request(Some(userId), Some(NextAccountNumber(Some(latest)).value)))
  {
    var next := NextAccountNumber(Some(latest)).value;
    assert next == NatToString(n + 1);
    assert Pow10(9) == 1_000_000_000 && Pow10(10) == 10_000_000_000;
    NatToStringLength(n + 1, 10);
    assert next[0] > ' ';
  }

  /**
   * Once the numbering has wrapped, the new number "-2147483648" has eleven
   * characters: no valid delete request can name that account.
   */
  lemma WrappedNumberFailsDeleteRequest(userId: Option<Long>)
    ensures
      var next := NextAccountNumber(Some(AccountScenarios.Owned(1, "2147483647", 0)));
      next.Success? && !DeleteAccount.RequestValid(DeleteAccount.Request(userId, Some(next.value)))
  {
    AccountScenarios.NumberingWrapsAtIntMax();
  }

  /** A valid cancel request, in the same way, never names the wrapped number either. */
  lemma WrappedNumberFailsCancelRequest(transactionId: Option<string>, amount: Option<Long>)
    ensures !CancelBalance.RequestValid(CancelBalance.Request(transactionId, Some("-2147483648"), amount))
  {
  }
}
