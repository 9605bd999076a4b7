/**
 * The concrete situations of the service's test suite, and the edges of the
 * numbering rule, checked against the model.
 */
module AccountScenarios {
  import opened Wrappers
  import opened JavaNumbers
  import opened Types
  import opened Domain
  import opened AccountDtos
  import opened AccountServiceDecisions

  const Pobi: AccountUser := AccountUser(12, "Pobi")

  function Owned(id: nat, number: string, balance: Long): AccountState {
    AccountState(id, Pobi, number, IN_USE, balance, 0, None)
  }

  lemma Prints100000001()
    ensures NatToString(100000001) == "100000001"
  {
    AppendDigit(1, "1", 0);
    AppendDigit(10, "10", 0);
    AppendDigit(100, "100", 0);
    AppendDigit(1000, "1000", 0);
    AppendDigit(10000, "10000", 0);
    AppendDigit(100000, "100000", 0);
    AppendDigit(1000000, "1000000", 0);
    AppendDigit(10000000, "10000000", 1);
  }

  lemma Prints100000000()
    ensures NatToString(100000000) == "100000000"
  {
    AppendDigit(1, "1", 0);
    AppendDigit(10, "10", 0);
    AppendDigit(100, "100", 0);
    AppendDigit(1000, "1000", 0);
    AppendDigit(10000, "10000", 0);
    AppendDigit(100000, "100000", 0);
    AppendDigit(1000000, "1000000", 0);
    AppendDigit(10000000, "10000000", 0);
  }

  lemma Prints214748364()
    ensures NatToString(214748364) == "214748364"
  {
    AppendDigit(2, "2", 1);
    AppendDigit(21, "21", 4);
    AppendDigit(214, "214", 7);
    AppendDigit(2147, "2147", 4);
    AppendDigit(21474, "21474", 8);
    AppendDigit(214748, "214748", 3);
    AppendDigit(2147483, "2147483", 6);
    AppendDigit(21474836, "21474836", 4);
  }

  lemma TenDigitNumbers()
    ensures IntToString(1000000003) == "1000000003" && IntToString(1000000004) == "1000000004"
    ensures IntToString(1000000012) == "1000000012" && IntToString(1000000013) == "1000000013"
  {
    Prints100000000();
    AppendDigit(100000000, "100000000", 3);
    AppendDigit(100000000, "100000000", 4);
    Prints100000001();
    AppendDigit(100000001, "100000001", 2);
    AppendDigit(100000001, "100000001", 3);
  }

  lemma IntRangeEndNumbers()
    ensures IntToString(MaxInt) == "2147483647"
    ensures NatToString(MaxInt + 1) == "2147483648"
  {
    Prints214748364();
    AppendDigit(214748364, "214748364", 7);
    AppendDigit(214748364, "214748364", 8);
  }

  lemma IntMinPrints()
    ensures IntToString(MinInt) == "-2147483648"
  {
    IntRangeEndNumbers();
  }

  /** Parsing the printing of an int gives it back, here for literal strings. */
  lemma ParsesAs(s: string, n: Int32)
    requires IntToString(n) == s
    ensures ParseInt(s) == Some(n)
  {
    ParseIntToString(n);
  }

  /** With `latest` holding number `n`, the next number is `n + 1` printed, wrapping at the top of the int range. */
  lemma NextOf(latest: AccountState, n: Int32)
    requires ParseInt(latest.accountNumber) == Some(n)
    ensures NextAccountNumber(Some(latest)) == Success(IntToString(WrapInt32(n + 1)))
  {
  }

  /** The first account ever gets the seed; after "1000000012" comes "1000000013". */
  lemma NumberingExamples()
    ensures NextAccountNumber(LatestById([])) == Success("1000000000")
    ensures NextAccountNumber(LatestById([Owned(1, "1000000012", 0)])) == Success("1000000013")
  {
    TenDigitNumbers();
    ParsesAs("1000000012", 1000000012);
    NextOf(Owned(1, "1000000012", 0), 1000000012);
  }

  /**
   * The rule follows the latest account by id, not the numerically largest
   * number: after "1000000050" (id 1) and "1000000003" (id 2) comes "1000000004".
   */
  lemma NumberingFollowsLatestId()
    ensures NextAccountNumber(LatestById([Owned(1, "1000000050", 0), Owned(2, "1000000003", 0)]))
         == Success("1000000004")
  {
    TenDigitNumbers();
    ParsesAs("1000000003", 1000000003);
    NextOf(Owned(2, "1000000003", 0), 1000000003);
  }

  /** At the top of the int range the `+ 1` wraps to a negative number. */
  lemma NumberingWrapsAtIntMax()
    ensures NextAccountNumber(Some(Owned(1, "2147483647", 0))) == Success("-2147483648")
  {
    IntRangeEndNumbers();
    IntMinPrints();
    ParsesAs("2147483647", MaxInt);
    NextOf(Owned(1, "2147483647", 0), MaxInt);
  }

  /** A number beyond the int range makes `Integer.parseInt` throw. */
  lemma NumberingRejectsBeyondIntRange()
    ensures NextAccountNumber(Some(Owned(1, "2147483648", 0))) == Failure(NumberFormatException)
  {
    IntRangeEndNumbers();
    NatToStringValue(MaxInt + 1);
  }

  /** Creation itself fails with NumberFormatException when the latest number is beyond the int range. */
  lemma CreationRejectsBeyondIntRange(now: Timestamp)
    ensures CreateAccountDecision(Store(map[12 := Pobi], [Owned(1, "2147483648", 0)]), 12, 1000, now)
         == Failure(NumberFormatException)
  {
    NumberingRejectsBeyondIntRange();
  }

  /**
   * The first account of the test suite: the user found has id 15 (the lookup
   * is by 1), no account exists yet; the saved account gets the seed number
   * and the DTO carries user id 15.
   */
  lemma FirstAccountScenario(now: Timestamp)
    ensures
      var user := AccountUser(15, "Pobi");
      var r := CreateAccountDecision(Store(map[1 := user], []), 1, 1000, now);
      && r == Success(AccountState(1, user, "1000000000", IN_USE, 1000, now, None))
      && FromEntity(r.value).userId == 15
  {
  }

  /**
   * The successful creation of the test suite: user 12 exists, the latest
   * account is "1000000012"; the saved account is "1000000013", IN_USE, owned
   * by user 12 with balance 1000, and the DTO carries user id 12.
   */
  lemma CreateAccountScenario(now: Timestamp)
    ensures
      var store := Store(map[12 := Pobi], [Owned(1, "1000000012", 0)]);
      var r := CreateAccountDecision(store, 12, 1000, now);
      && r == Success(AccountState(2, Pobi, "1000000013", IN_USE, 1000, now, None))
      && FromEntity(r.value).userId == 12
  {
    NumberingExamples();
  }

  /** The listing of the test suite: three accounts, three DTOs, same order, same numbers and balances. */
  lemma ListingScenario()
    ensures
      var store := Store(map[12 := Pobi],
        [Owned(1, "1111111111", 1000), Owned(2, "2222222222", 2000), Owned(3, "3333333333", 3000)]);
      var r := GetAccountByUserId(store, 12);
      && r.Success? && |r.value| == 3
      && r.value[0].accountNumber == "1111111111" && r.value[0].balance == 1000
      && r.value[1].accountNumber == "2222222222" && r.value[1].balance == 2000
      && r.value[2].accountNumber == "3333333333" && r.value[2].balance == 3000
  {
    var accounts := [Owned(1, "1111111111", 1000), Owned(2, "2222222222", 2000), Owned(3, "3333333333", 3000)];
    assert accounts[..2][..1] == [accounts[0]];
    assert FindByAccountUser(accounts, 12) == accounts;
  }

  /** An unknown user gets USER_NOT_FOUND from every operation that looks the user up. */
  lemma UnknownUserScenario(store: Store, userId: Long, amount: Long, number: string, now: Timestamp)
    requires userId !in store.users
    ensures CreateAccountDecision(store, userId, amount, now) == Failure(AccountException(USER_NOT_FOUND))
    ensures DeleteAccountDecision(store, userId, number) == Failure(AccountException(USER_NOT_FOUND))
    ensures GetAccountByUserId(store, userId) == Failure(AccountException(USER_NOT_FOUND))
  {
  }
}
