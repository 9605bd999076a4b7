/**
 * The decisions AccountService makes, as functions of the store's contents:
 * the user lookup, the 10-account cap, the numbering rule, the five-step
 * deletion chain and the per-user listing. The repositories are an abstract
 * store: the users by id, and the accounts in id order.
 */
module AccountServiceDecisions {
  import opened Wrappers
  import opened JavaNumbers
  import opened Types
  import opened Domain
  import opened AccountDtos

  /** The contents of AccountUserRepository and AccountRepository. */
  datatype Store = Store(users: map<Long, AccountUser>, accounts: seq<AccountState>)

  /** The account repository hands out ids in increasing order; the sequence is kept in that order. */
  predicate IdsIncreasing(accounts: seq<AccountState>) {
    forall i, j :: 0 <= i < j < |accounts| ==> accounts[i].id < accounts[j].id
  }

  /** AccountUserRepository holds each user under its own id, so `findById(id)` finds the user whose id is `id`. */
  predicate UsersKeyedById(users: map<Long, AccountUser>) {
    forall k :: k in users ==> users[k].id == k
  }

  /** Accounts start numbering from this seed when the store has none. */
  const SeedAccountNumber: string := "1000000000"

  const MaxAccountsPerUser: nat := 10

  // ---------------------------------------------------------------------------
  // Repository queries

  /** `countByAccountUser`: how many stored accounts, of any status, the user (by id) owns. */
  function CountByAccountUser(accounts: seq<AccountState>, userId: Long): (n: nat)
    ensures n <= |accounts|
  {
    if accounts == [] then 0
    else CountByAccountUser(accounts[..|accounts| - 1], userId)
         + (if accounts[|accounts| - 1].accountUser.id == userId then 1 else 0)
  }

  /** `findByAccountUser`: the user's accounts, in store order. */
  function FindByAccountUser(accounts: seq<AccountState>, userId: Long): (r: seq<AccountState>)
    ensures |r| <= |accounts|
    ensures forall a :: a in r <==> a in accounts && a.accountUser.id == userId
    ensures IdsIncreasing(accounts) ==> IdsIncreasing(r)
  {
    if accounts == [] then []
    else
      var init := FindByAccountUser(accounts[..|accounts| - 1], userId);
      var last := accounts[|accounts| - 1];
      assert forall a :: a in accounts <==> a in accounts[..|accounts| - 1] || a == last;
      if last.accountUser.id == userId then init + [last] else init
  }

  /** `findByAccountNumber`: the position of the first account with this number, if any. */
  function FindByAccountNumber(accounts: seq<AccountState>, number: string): (r: Option<nat>)
    ensures r.Some? ==> r.value < |accounts| && accounts[r.value].accountNumber == number
    ensures r.Some? ==> forall i :: 0 <= i < r.value ==> accounts[i].accountNumber != number
    ensures r.None? <==> forall i :: 0 <= i < |accounts| ==> accounts[i].accountNumber != number
  {
    if accounts == [] then None
    else if accounts[0].accountNumber == number then Some(0)
    else match FindByAccountNumber(accounts[1..], number)
      case None => None
      case Some(k) => Some(k + 1)
  }

  /** `findById`: the position of the account with this id, if any. */
  function FindById(accounts: seq<AccountState>, id: int): (r: Option<nat>)
    ensures r.Some? ==> r.value < |accounts| && accounts[r.value].id == id
    ensures r.None? <==> forall i :: 0 <= i < |accounts| ==> accounts[i].id != id
  {
    if accounts == [] then None
    else if accounts[0].id == id then Some(0)
    else match FindById(accounts[1..], id)
      case None => None
      case Some(k) => Some(k + 1)
  }

  /** `findFirstByOrderByIdDesc`: the account with the largest id, which is the last one. */
  function LatestById(accounts: seq<AccountState>): (r: Option<AccountState>)
    ensures r.None? <==> accounts == []
    ensures r.Some? ==> r.value in accounts
    ensures r.Some? && IdsIncreasing(accounts) ==> forall a :: a in accounts ==> a.id <= r.value.id
  {
    if accounts == [] then None else Some(accounts[|accounts| - 1])
  }

  /** The id the repository gives the next account it inserts. */
  function NextId(accounts: seq<AccountState>): (id: nat)
    ensures forall a :: a in accounts && IdsIncreasing(accounts) ==> a.id < id
  {
    if accounts == [] then 1 else accounts[|accounts| - 1].id + 1
  }

  // ---------------------------------------------------------------------------
  // AccountService's private helpers

  /** `getAccountUser`: the user, or USER_NOT_FOUND. */
  function GetAccountUser(store: Store, userId: Long): (r: Result<AccountUser, Failure>)
    ensures r.Success? <==> userId in store.users
    ensures r.Success? ==> r.value == store.users[userId]
    ensures r.Success? && UsersKeyedById(store.users) ==> r.value.id == userId
    ensures r.Failure? ==> r.error == AccountException(USER_NOT_FOUND)
  {
    if userId in store.users then Success(store.users[userId])
    else Failure(AccountException(USER_NOT_FOUND))
  }

  /** `validateCreateAccount`: MAX_ACCOUNT_PER_USER_10 once the user owns 10 or more accounts, whatever their status. */
  function ValidateCreateAccount(store: Store, user: AccountUser): (r: Outcome<Failure>)
    ensures r.Fail? <==> CountByAccountUser(store.accounts, user.id) >= MaxAccountsPerUser
    ensures r.Fail? ==> r.error == AccountException(MAX_ACCOUNT_PER_USER_10)
  {
    if CountByAccountUser(store.accounts, user.id) >= MaxAccountsPerUser
    then Fail(AccountException(MAX_ACCOUNT_PER_USER_10))
    else Pass
  }

  /**
   * The number `createAccount` gives a new account: the number of the latest
   * account by id, parsed as an `int`, plus one (wrapping at the top of the
   * `int` range), printed in decimal; the seed when there is no account.
   * Being canonical and parsing to that value, the new number is fixed
   * (`CanonicalUnique`).
   */
  function NextAccountNumber(latest: Option<AccountState>): (r: Result<string, Failure>)
    ensures latest.None? ==> r == Success(SeedAccountNumber)
    ensures latest.Some? ==> (r.Failure? <==> ParseInt(latest.value.accountNumber).None?)
    ensures r.Failure? ==> r.error == NumberFormatException
    ensures r.Success? ==> Canonical(r.value)
    ensures latest.Some? && r.Success? ==>
      var n := ParseInt(latest.value.accountNumber).value;
      ParseInt(r.value) == Some(if n == MaxInt then MinInt else n + 1)
  {
    match latest
    case None => Success(SeedAccountNumber)
    case Some(account) =>
      match ParseInt(account.accountNumber)
      case None => Failure(NumberFormatException)
      case Some(n) =>
        var next := WrapInt32(n + 1);
        ParseIntToString(next);
        Success(IntToString(next))
  }

  /** `validateDeleteAccount`, in its order: owner, then status, then balance. */
  function ValidateDeleteAccount(user: AccountUser, account: AccountState): (r: Outcome<Failure>)
    ensures r == Pass <==>
      user.id == account.accountUser.id && account.accountStatus != UNREGISTERED && account.balance <= 0
    ensures user.id != account.accountUser.id ==> r == Fail(AccountException(USER_ACCOUNT_UN_MATCH))
    ensures user.id == account.accountUser.id && account.accountStatus == UNREGISTERED ==>
      r == Fail(AccountException(ACCOUNT_ALREADY_UNREGISTERED))
    ensures user.id == account.accountUser.id && account.accountStatus != UNREGISTERED && account.balance > 0 ==>
      r == Fail(AccountException(BALANCE_NOT_EMPTY))
  {
    if user.id != account.accountUser.id then Fail(AccountException(USER_ACCOUNT_UN_MATCH))
    else if account.accountStatus == UNREGISTERED then Fail(AccountException(ACCOUNT_ALREADY_UNREGISTERED))
    else if account.balance > 0 then Fail(AccountException(BALANCE_NOT_EMPTY))
    else Pass
  }

  // ---------------------------------------------------------------------------
  // The public operations' decisions

  /**
   * What `createAccount` does with the store: the account it saves, or the
   * first failure of the chain user lookup, cap, numbering.
   */
  function CreateAccountDecision(store: Store, userId: Long, initialBalance: Long, now: Timestamp)
    : (r: Result<AccountState, Failure>)
    ensures userId !in store.users ==> r == Failure(AccountException(USER_NOT_FOUND))
    ensures userId in store.users && CountByAccountUser(store.accounts, store.users[userId].id) >= 10 ==>
      r == Failure(AccountException(MAX_ACCOUNT_PER_USER_10))
    ensures userId in store.users && CountByAccountUser(store.accounts, store.users[userId].id) < 10 ==>
      (r.Failure? <==> NextAccountNumber(LatestById(store.accounts)).Failure?)
    ensures (userId in store.users && CountByAccountUser(store.accounts, store.users[userId].id) < 10
             && NextAccountNumber(LatestById(store.accounts)).Failure?) ==> r == Failure(NumberFormatException)
    ensures r.Success? ==>
      && userId in store.users
      && CountByAccountUser(store.accounts, store.users[userId].id) < 10
      && r.value.accountUser == store.users[userId]
      && r.value.accountStatus == IN_USE
      && r.value.balance == initialBalance
      && r.value.accountNumber == NextAccountNumber(LatestById(store.accounts)).value
      && r.value.registerAt == now && r.value.unRegisteredAt.None?
      && r.value.id == NextId(store.accounts)
  {
    match GetAccountUser(store, userId)
    case Failure(e) => Failure(e)
    case Success(user) =>
      match ValidateCreateAccount(store, user)
      case Fail(e) => Failure(e)
      case Pass =>
        match NextAccountNumber(LatestById(store.accounts))
        case Failure(e) => Failure(e)
        case Success(number) =>
          Success(AccountState(NextId(store.accounts), user, number, IN_USE, initialBalance, now, None))
  }

  /**
   * Which account `deleteAccount` unregisters (its position), or the first
   * failure of the chain user, account, owner, status, balance.
   */
  function DeleteAccountDecision(store: Store, userId: Long, accountNumber: string): (r: Result<nat, Failure>)
    ensures r.Success? ==> r.value < |store.accounts|
    ensures userId !in store.users ==> r == Failure(AccountException(USER_NOT_FOUND))
    ensures userId in store.users && FindByAccountNumber(store.accounts, accountNumber).None? ==>
      r == Failure(AccountException(ACCOUNT_NOT_FOUND))
    ensures userId in store.users && FindByAccountNumber(store.accounts, accountNumber).Some? ==>
      var account := store.accounts[FindByAccountNumber(store.accounts, accountNumber).value];
      match ValidateDeleteAccount(store.users[userId], account)
      case Fail(e) => r == Failure(e)
      case Pass => r == Success(FindByAccountNumber(store.accounts, accountNumber).value)
    ensures r.Success? <==>
      && userId in store.users
      && FindByAccountNumber(store.accounts, accountNumber).Some?
      && var account := store.accounts[FindByAccountNumber(store.accounts, accountNumber).value];
         && store.users[userId].id == account.accountUser.id
         && account.accountStatus == IN_USE
         && account.balance <= 0
  {
    match GetAccountUser(store, userId)
    case Failure(e) => Failure(e)
    case Success(user) =>
      match FindByAccountNumber(store.accounts, accountNumber)
      case None => Failure(AccountException(ACCOUNT_NOT_FOUND))
      case Some(k) =>
        match ValidateDeleteAccount(user, store.accounts[k])
        case Fail(e) => Failure(e)
        case Pass => Success(k)
  }

  /** The account as `deleteAccount` leaves it: unregistered at `now`, nothing else changed. */
  function Unregistered(account: AccountState, now: Timestamp): (r: AccountState)
    ensures r.accountStatus == UNREGISTERED && r.unRegisteredAt == Some(now)
    ensures r.(accountStatus := account.accountStatus, unRegisteredAt := account.unRegisteredAt) == account
  {
    account.(accountStatus := UNREGISTERED, unRegisteredAt := Some(now))
  }

  /** `getAccountByUserId`: one DTO per account of the user, in store order, or USER_NOT_FOUND. */
  function GetAccountByUserId(store: Store, userId: Long): (r: Result<seq<AccountDto>, Failure>)
    ensures r.Failure? <==> userId !in store.users
    ensures r.Failure? ==> r.error == AccountException(USER_NOT_FOUND)
    ensures r.Success? ==>
      var owned := FindByAccountUser(store.accounts, store.users[userId].id);
      && |r.value| == |owned| == CountByAccountUser(store.accounts, store.users[userId].id)
      && (forall i :: 0 <= i < |owned| ==> r.value[i] == FromEntity(owned[i]))
      && (forall d :: d in r.value ==> d.userId == store.users[userId].id)
    ensures r.Success? && UsersKeyedById(store.users) ==> forall d :: d in r.value ==> d.userId == userId
  {
    match GetAccountUser(store, userId)
    case Failure(e) => Failure(e)
    case Success(user) =>
      var owned := FindByAccountUser(store.accounts, user.id);
      CountIsListLength(store.accounts, user.id);
      Success(seq(|owned|, i requires 0 <= i < |owned| => FromEntity(owned[i])))
  }

  // ---------------------------------------------------------------------------
  // Properties relating the operations

  /** The cap's count and the listing agree: a user's listing has exactly as many entries as the cap counts. */
  lemma {:induction false} CountIsListLength(accounts: seq<AccountState>, userId: Long)
    ensures CountByAccountUser(accounts, userId) == |FindByAccountUser(accounts, userId)|
  {
    if accounts != [] {
      CountIsListLength(accounts[..|accounts| - 1], userId);
    }
  }

  /** Every owner of a stored account owns at most 10 accounts. */
  predicate WithinCap(accounts: seq<AccountState>) {
    forall a :: a in accounts ==> CountByAccountUser(accounts, a.accountUser.id) <= MaxAccountsPerUser
  }

  lemma CountAppend(accounts: seq<AccountState>, a: AccountState, userId: Long)
    ensures CountByAccountUser(accounts + [a], userId)
         == CountByAccountUser(accounts, userId) + (if a.accountUser.id == userId then 1 else 0)
  {
    assert (accounts + [a])[..|accounts|] == accounts;
  }

  /** `createAccount` adds exactly the new account, so it keeps every owner within the cap. */
  lemma CreateKeepsCap(store: Store, userId: Long, initialBalance: Long, now: Timestamp)
    requires WithinCap(store.accounts)
    requires CreateAccountDecision(store, userId, initialBalance, now).Success?
    ensures WithinCap(store.accounts + [CreateAccountDecision(store, userId, initialBalance, now).value])
  {
    var a := CreateAccountDecision(store, userId, initialBalance, now).value;
    forall b | b in store.accounts + [a]
      ensures CountByAccountUser(store.accounts + [a], b.accountUser.id) <= MaxAccountsPerUser
    {
      CountAppend(store.accounts, a, b.accountUser.id);
    }
  }

  /** A created account is listed last among its owner's accounts, after the ones listed before. */
  lemma CreateThenList(store: Store, userId: Long, initialBalance: Long, now: Timestamp)
    requires CreateAccountDecision(store, userId, initialBalance, now).Success?
    ensures
      var a := CreateAccountDecision(store, userId, initialBalance, now).value;
      var before := GetAccountByUserId(store, userId);
      var after := GetAccountByUserId(store.(accounts := store.accounts + [a]), userId);
      before.Success? && after.Success? && after.value == before.value + [FromEntity(a)]
  {
    var a := CreateAccountDecision(store, userId, initialBalance, now).value;
    var s' := store.(accounts := store.accounts + [a]);
    assert s'.accounts[..|s'.accounts| - 1] == store.accounts;
    assert FindByAccountUser(s'.accounts, a.accountUser.id)
        == FindByAccountUser(store.accounts, a.accountUser.id) + [a];
  }

  /** Unregistering keeps every account's owner, so it changes no user's count: a deleted account still fills a slot. */
  lemma {:induction false} CountUnchangedByUnregister(accounts: seq<AccountState>, k: nat, now: Timestamp, userId: Long)
    requires k < |accounts|
    ensures CountByAccountUser(accounts[k := Unregistered(accounts[k], now)], userId)
         == CountByAccountUser(accounts, userId)
  {
    var n := |accounts|;
    var updated := accounts[k := Unregistered(accounts[k], now)];
    if k == n - 1 {
      assert updated[..n - 1] == accounts[..n - 1];
    } else {
      assert updated[..n - 1] == accounts[..n - 1][k := Unregistered(accounts[k], now)];
      CountUnchangedByUnregister(accounts[..n - 1], k, now, userId);
    }
  }

  /** Unregistering keeps every account number, so lookups by number find the same account. */
  lemma {:induction false} FindUnchangedByUnregister(accounts: seq<AccountState>, k: nat, now: Timestamp, number: string)
    requires k < |accounts|
    ensures FindByAccountNumber(accounts[k := Unregistered(accounts[k], now)], number)
         == FindByAccountNumber(accounts, number)
  {
    var updated := accounts[k := Unregistered(accounts[k], now)];
    if k > 0 {
      assert updated[1..] == accounts[1..][k - 1 := Unregistered(accounts[k], now)];
      FindUnchangedByUnregister(accounts[1..], k - 1, now, number);
    } else {
      assert updated[1..] == accounts[1..];
    }
  }

  /**
   * A successful deletion cannot be repeated: the same request then fails with
   * ACCOUNT_ALREADY_UNREGISTERED, and the owner's count is unchanged.
   */
  lemma DeleteTwiceFails(store: Store, userId: Long, accountNumber: string, now: Timestamp)
    requires DeleteAccountDecision(store, userId, accountNumber).Success?
    ensures
      var k := DeleteAccountDecision(store, userId, accountNumber).value;
      var after := store.(accounts := store.accounts[k := Unregistered(store.accounts[k], now)]);
      && DeleteAccountDecision(after, userId, accountNumber) == Failure(AccountException(ACCOUNT_ALREADY_UNREGISTERED))
      && CountByAccountUser(after.accounts, store.users[userId].id) == CountByAccountUser(store.accounts, store.users[userId].id)
  {
    var k := DeleteAccountDecision(store, userId, accountNumber).value;
    FindUnchangedByUnregister(store.accounts, k, now, accountNumber);
    CountUnchangedByUnregister(store.accounts, k, now, store.users[userId].id);
  }

  /** Where balances are never negative, a deleted account has a zero balance. */
  lemma DeletedBalanceIsZero(store: Store, userId: Long, accountNumber: string)
    requires forall a :: a in store.accounts ==> a.balance >= 0
    requires DeleteAccountDecision(store, userId, accountNumber).Success?
    ensures store.accounts[DeleteAccountDecision(store, userId, accountNumber).value].balance == 0
  {
  }
}
