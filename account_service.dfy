/**
 * AccountService with its repositories as mutable state: the users by id, the
 * Account objects in id order, and the log of every `save` call. The
 * state-changing operations (createAccount, deleteAccount, and the repository's
 * save) are methods; the read-only ones are functions of the store's contents
 * (module AccountServiceDecisions), except getAccount, which hands out the entity itself.
 */
module AccountServices {
  import opened Wrappers
  import opened JavaNumbers
  import opened Types
  import opened Domain
  import opened AccountDtos
  import opened AccountServiceDecisions

  /** The field values of a sequence of accounts, in the same order. */
  function States(accounts: seq<Account>): (r: seq<AccountState>)
    reads accounts
    ensures |r| == |accounts|
  {
    if accounts == [] then []
    else States(accounts[..|accounts| - 1]) + [accounts[|accounts| - 1].State()]
  }

  lemma {:induction false} StatesAt(accounts: seq<Account>, i: nat)
    requires i < |accounts|
    ensures States(accounts)[i] == accounts[i].State()
  {
    if i < |accounts| - 1 {
      StatesAt(accounts[..|accounts| - 1], i);
    }
  }

  lemma StatesMatch(accounts: seq<Account>)
    ensures forall i :: 0 <= i < |accounts| ==> States(accounts)[i] == accounts[i].State()
  {
    forall i | 0 <= i < |accounts| ensures States(accounts)[i] == accounts[i].State() {
      StatesAt(accounts, i);
    }
  }

  lemma StatesAppend(accounts: seq<Account>, a: Account)
    ensures States(accounts + [a]) == States(accounts) + [a.State()]
  {
    assert (accounts + [a])[..|accounts|] == accounts;
  }

  /** Appending an account that carries the next id keeps the ids increasing. */
  lemma AppendKeepsIdsIncreasing(rows: seq<AccountState>, a: AccountState)
    requires IdsIncreasing(rows) && a.id == NextId(rows)
    ensures IdsIncreasing(rows + [a])
  {
  }

  class AccountService {
    /** AccountUserRepository. */
    var users: map<Long, AccountUser>
    /** AccountRepository, in id order. */
    var accounts: seq<Account>
    /** Every account passed to `accountRepository.save`, in call order. */
    var saved: seq<Account>

    /** Users are held under their ids, each stored entity appears once, and ids increase along the sequence. */
    ghost predicate Valid()
      reads this, accounts
    {
      && UsersKeyedById(users)
      && (forall i, j :: 0 <= i < j < |accounts| ==> accounts[i] != accounts[j])
      && IdsIncreasing(States(accounts))
    }

    /** The repositories' contents as values. */
    function Snapshot(): Store
      reads this, accounts
    {
      Store(users, States(accounts))
    }

    constructor (users: map<Long, AccountUser>)
      requires UsersKeyedById(users)
      ensures Valid() && Snapshot() == Store(users, []) && saved == []
    {
      this.users := users;
      accounts := [];
      saved := [];
    }

    /**
     * `accountRepository.save`: an entity already stored stays where it is; a
     * new one, which carries the next id, is appended. Either way the call is
     * logged.
     */
    method Save(account: Account)
      requires Valid()
      requires account !in accounts ==> account.id == NextId(Snapshot().accounts)
      modifies this
      ensures Valid()
      ensures users == old(users) && saved == old(saved) + [account]
      ensures old(account in accounts) ==> accounts == old(accounts)
      ensures old(account !in accounts) ==>
        && accounts == old(accounts) + [account]
        && Snapshot().accounts == old(Snapshot().accounts) + [account.State()]
    {
      if account !in accounts {
        StatesAppend(accounts, account);
        AppendKeepsIdsIncreasing(States(accounts), account.State());
        accounts := accounts + [account];
      }
      saved := saved + [account];
    }

    /**
     * `createAccount`: looks the user up, enforces the cap, numbers the account
     * after the latest one and saves it once, as CreateAccountDecision says;
     * on failure nothing is saved and the store is unchanged.
     */
    method CreateAccount(userId: Long, initialBalance: Long, now: Timestamp) returns (r: Result<AccountDto, Failure>)
      requires Valid()
      modifies this
      ensures Valid() && users == old(users)
      ensures CreateAccountDecision(old(Snapshot()), userId, initialBalance, now).Failure? ==>
        && r == Failure(CreateAccountDecision(old(Snapshot()), userId, initialBalance, now).error)
        && accounts == old(accounts) && saved == old(saved)
      ensures CreateAccountDecision(old(Snapshot()), userId, initialBalance, now).Success? ==>
        var created := CreateAccountDecision(old(Snapshot()), userId, initialBalance, now).value;
        && |accounts| == |old(accounts)| + 1
        && fresh(accounts[|accounts| - 1])
        && Snapshot().accounts == old(Snapshot().accounts) + [created]
        && saved == old(saved) + [accounts[|accounts| - 1]]
        && r == Success(FromEntity(created))
      ensures r.Success? ==> r.value.userId == userId
    {
      var store := Snapshot();
      var user :- GetAccountUser(store, userId);
      var valid := ValidateCreateAccount(store, user);
      if valid.Fail? {
        return Failure(valid.error);
      }
      var number :- NextAccountNumber(LatestById(store.accounts));
      var account := new Account(AccountState(NextId(store.accounts), user, number, IN_USE, initialBalance, now, None));
      Save(account);
      r := Success(FromEntity(account.State()));
    }

    /**
     * `deleteAccount`: runs the five checks in order; when they pass, marks the
     * account UNREGISTERED at `now` in place and saves it once. On failure no
     * account changes and nothing is saved.
     */
    method DeleteAccount(userId: Long, accountNumber: string, now: Timestamp) returns (r: Result<AccountDto, Failure>)
      requires Valid()
      modifies this, accounts
      ensures Valid() && users == old(users) && accounts == old(accounts)
      ensures DeleteAccountDecision(old(Snapshot()), userId, accountNumber).Failure? ==>
        && r == Failure(DeleteAccountDecision(old(Snapshot()), userId, accountNumber).error)
        && Snapshot() == old(Snapshot()) && saved == old(saved)
      ensures DeleteAccountDecision(old(Snapshot()), userId, accountNumber).Success? ==>
        var k := DeleteAccountDecision(old(Snapshot()), userId, accountNumber).value;
        && Snapshot().accounts == old(Snapshot().accounts)[k := Unregistered(old(Snapshot().accounts)[k], now)]
        && saved == old(saved) + [accounts[k]]
        && r == Success(FromEntity(Snapshot().accounts[k]))
      ensures r.Success? ==> r.value.userId == userId && r.value.accountNumber == accountNumber
    {
      var store := Snapshot();
      var user :- GetAccountUser(store, userId);
      var found := FindByAccountNumber(store.accounts, accountNumber);
      if found.None? {
        return Failure(AccountException(ACCOUNT_NOT_FOUND));
      }
      var k := found.value;
      var account := accounts[k];
      StatesAt(accounts, k);
      var valid := ValidateDeleteAccount(user, account.State());
      if valid.Fail? {
        return Failure(valid.error);
      }
      Unregister(k, now);
      Save(account);
      StatesAt(accounts, k);
      r := Success(FromEntity(account.State()));
    }

    /** The two setter calls of `deleteAccount`, on the k-th stored account. */
    method Unregister(k: nat, now: Timestamp)
      requires Valid() && k < |accounts|
      modifies accounts[k]
      ensures Valid()
      ensures Snapshot().accounts == old(Snapshot().accounts)[k := Unregistered(old(Snapshot().accounts)[k], now)]
    {
      ghost var before := States(accounts);
      StatesMatch(accounts);
      accounts[k].accountStatus := UNREGISTERED;
      accounts[k].unRegisteredAt := Some(now);
      StatesMatch(accounts);
      assert States(accounts) == before[k := Unregistered(before[k], now)];
    }

    /**
     * `getAccount`: a negative id is refused before any lookup; an id no
     * account has makes `Optional.get()` throw.
     */
    function GetAccount(id: Long): (r: Result<Account, Failure>)
      reads this, accounts
      ensures id < 0 ==> r == Failure(MinusIdException)
      ensures id >= 0 ==> (r.Failure? <==> forall a :: a in accounts ==> a.id != id)
      ensures id >= 0 && r.Failure? ==> r.error == NoSuchElementException
      ensures r.Success? ==> r.value in accounts && r.value.id == id
    {
      StatesMatch(accounts);
      if id < 0 then Failure(MinusIdException)
      else match FindById(States(accounts), id)
        case None => Failure(NoSuchElementException)
        case Some(k) => Success(accounts[k])
    }
  }
}
