/**
 * The JPA entities: AccountUser and Transaction as plain values, and Account as
 * an object whose balance `useBalance` and `cancelBalance` update in place.
 */
module Domain {
  import opened Wrappers
  import opened JavaNumbers
  import opened Types

  /** An account holder; it has no behaviour of its own. */
  datatype AccountUser = AccountUser(id: Long, name: string)

  /** A ledger entry; the service that writes these is not part of this model. */
  datatype Transaction = Transaction(
    id: nat,
    transactionType: TransactionType,
    transactionResultType: TransactionResultType,
    accountId: nat,
    amount: Long,
    balanceSnapshot: Long,
    transactionId: string,
    transactedAt: Timestamp)

  /** The value of every field of an Account at one moment. */
  datatype AccountState = AccountState(
    id: nat,
    accountUser: AccountUser,
    accountNumber: string,
    accountStatus: AccountStatus,
    balance: Long,
    registerAt: Timestamp,
    unRegisteredAt: Option<Timestamp>)

  /**
   * The new balance after `useBalance(amount)`, or the error it throws:
   * AMOUNT_EXCEED_BALANCE exactly when the amount is larger than the balance.
   * `balance -= amount` is Java `long` arithmetic and wraps.
   */
  function BalanceAfterUse(balance: Long, amount: Long): (r: Result<Long, Failure>)
    ensures r.Failure? <==> amount > balance
    ensures r.Failure? ==> r.error == AccountException(AMOUNT_EXCEED_BALANCE)
    ensures amount <= balance && balance - amount <= MaxLong ==> r == Success(balance - amount)
    ensures amount <= balance && balance - amount > MaxLong ==> r == Success(balance - amount - 0x1_0000_0000_0000_0000)
    ensures 0 <= amount && r.Success? ==> 0 <= r.value <= balance
  {
    if amount > balance then Failure(AccountException(AMOUNT_EXCEED_BALANCE))
    else Success(WrapLong(balance - amount))
  }

  /**
   * The new balance after `cancelBalance(amount)`, or the error it throws:
   * INVALID_REQUEST exactly when the amount is negative.
   * `balance += amount` is Java `long` arithmetic and wraps.
   */
  function BalanceAfterCancel(balance: Long, amount: Long): (r: Result<Long, Failure>)
    ensures r.Failure? <==> amount < 0
    ensures r.Failure? ==> r.error == AccountException(INVALID_REQUEST)
    ensures 0 <= amount && balance + amount <= MaxLong ==> r == Success(balance + amount)
    ensures 0 <= amount && balance + amount > MaxLong ==> r == Success(balance + amount - 0x1_0000_0000_0000_0000)
    ensures 0 <= balance && 0 <= amount && r.Success? && balance + amount <= MaxLong ==> r.value >= balance
  {
    if amount < 0 then Failure(AccountException(INVALID_REQUEST))
    else Success(WrapLong(balance + amount))
  }

  /** A use followed by a cancel of the same amount gives the balance back, exactly when the amount is not negative. */
  lemma UseThenCancelRestores(balance: Long, amount: Long)
    requires BalanceAfterUse(balance, amount).Success?
    ensures BalanceAfterCancel(BalanceAfterUse(balance, amount).value, amount) == Success(balance) <==> amount >= 0
  {
  }

  /** Using exactly the whole balance succeeds and leaves zero. */
  lemma UseWholeBalance(balance: Long)
    requires balance >= 0
    ensures BalanceAfterUse(balance, balance) == Success(0)
  {
  }

  /** The figures of the use and cancel scenarios: 10000 - 200 and 10000 + 200. */
  lemma BalanceExamples()
    ensures BalanceAfterUse(10000, 200) == Success(9800)
    ensures BalanceAfterUse(100, 1000) == Failure(AccountException(AMOUNT_EXCEED_BALANCE))
    ensures BalanceAfterCancel(10000, 200) == Success(10200)
    ensures BalanceAfterCancel(10000, -1) == Failure(AccountException(INVALID_REQUEST))
  {
  }

  /**
   * `useBalance` does not guard against a negative amount: on an empty account,
   * using Long.MIN_VALUE passes the `amount > balance` check and the
   * subtraction wraps to a negative balance.
   */
  lemma UseNegativeAmountBreaksNonNegativeBalance()
    ensures BalanceAfterUse(0, MinLong) == Success(MinLong)
  {
  }

  class Account {
    var id: nat
    var accountUser: AccountUser
    var accountNumber: string
    var accountStatus: AccountStatus
    var balance: Long
    var registerAt: Timestamp
    var unRegisteredAt: Option<Timestamp>

    /** The values of all fields. */
    function State(): AccountState
      reads this
    {
      AccountState(id, accountUser, accountNumber, accountStatus, balance, registerAt, unRegisteredAt)
    }

    /** The builder, with every field given. */
    constructor (s: AccountState)
      ensures State() == s
    {
      id := s.id;
      accountUser := s.accountUser;
      accountNumber := s.accountNumber;
      accountStatus := s.accountStatus;
      balance := s.balance;
      registerAt := s.registerAt;
      unRegisteredAt := s.unRegisteredAt;
    }

    /** `useBalance`: only the balance may change, and only on success. */
    method UseBalance(amount: Long) returns (r: Outcome<Failure>)
      modifies this`balance
      ensures BalanceAfterUse(old(balance), amount).Success? ==>
                r == Pass && balance == BalanceAfterUse(old(balance), amount).value
      ensures BalanceAfterUse(old(balance), amount).Failure? ==>
                r == Fail(BalanceAfterUse(old(balance), amount).error) && balance == old(balance)
    {
      if amount > balance {
        return Fail(AccountException(AMOUNT_EXCEED_BALANCE));
      }
      balance := WrapLong(balance - amount);
      r := Pass;
    }

    /** `cancelBalance`: only the balance may change, and only on success. */
    method CancelBalance(amount: Long) returns (r: Outcome<Failure>)
      modifies this`balance
      ensures BalanceAfterCancel(old(balance), amount).Success? ==>
                r == Pass && balance == BalanceAfterCancel(old(balance), amount).value
      ensures BalanceAfterCancel(old(balance), amount).Failure? ==>
                r == Fail(BalanceAfterCancel(old(balance), amount).error) && balance == old(balance)
    {
      if amount < 0 {
        return Fail(AccountException(INVALID_REQUEST));
      }
      balance := WrapLong(balance + amount);
      r := Pass;
    }
  }
}
