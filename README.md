# Account service model

A Dafny model of the account side of a Spring Boot banking service: the
`AccountService` that opens, closes and lists accounts; the `Account` entity
whose balance is used and cancelled; the `AccountDto` conversion; and the
request constraints and response builders of the `CreateAccount`,
`DeleteAccount` and `CancelBalance` DTOs.

Layout:

- `wrappers.dfy` (`Wrappers`): `Option`, `Result` and `Outcome`.
- `java_numbers.dfy` (`JavaNumbers`): Java `int` and `long` ranges and
  wrap-around, `Integer.parseInt` on ASCII digits, and decimal printing of an
  `int` (`n + ""`), with the round trip between the two.
- `types.dfy` (`Types`): `AccountStatus`, `ErrorCode`, the result and
  transaction types, and the exceptions the service can end in.
- `domain.dfy` (`Domain`): `AccountUser`, the field values of an account
  (`AccountState`), and the `Account` entity as a class whose
  `UseBalance`/`CancelBalance` update its `balance` field in place.
- `bean_validation.dfy` (`BeanValidation`): `@NotNull`, `@Min`, `@Max`,
  `@NotBlank` and `@Size` as predicates on optional fields.
- `account_dto.dfy`, `create_account.dfy`, `delete_account.dfy`,
  `cancel_balance.dfy`: the DTOs.
- `account_service_decisions.dfy` (`AccountServiceDecisions`): the
  repositories as a value (`Store`: users by id, accounts in id order), the
  repository queries, `AccountService`'s private validators, and each public
  operation's decision as a function of the store.
- `account_service.dfy` (`AccountServices`): `AccountService` as a class
  holding the users, the `Account` objects and the log of `save` calls. Its
  `CreateAccount` and `DeleteAccount` methods change that state, and their
  postconditions tie the new state to the decisions in `AccountServiceDecisions`.
- `scenarios.dfy` (`AccountScenarios`): concrete numbering and service
  scenarios, including the ones the test suite describes.
- `request_properties.dfy` (`RequestProperties`): how the request constraints
  and responses relate to the service's results.

The source's `LocalDateTime.now()` is a `now` parameter. A timestamp is an
`int`.

## Model

| member | source | states |
|---|---|---|
| JavaNumbers.WrapInt32 | src/main/java/com/example/account/service/AccountService.java:54 | an `int` result inside the 32-bit range is exact, and Integer.MAX_VALUE + 1 becomes Integer.MIN_VALUE |
| JavaNumbers.WrapLong | src/main/java/com/example/account/domain/Account.java:46 | a `long` result inside the 64-bit range is exact, and a sum above Long.MAX_VALUE (up to twice it) loses 2^64 |
| JavaNumbers.ParseInt | src/main/java/com/example/account/service/AccountService.java:54 | `Integer.parseInt`: the empty string is rejected, and (`ParseIntAccepts`) whatever is accepted is digits, or a sign followed by at least one digit; only ASCII digits are read (see Left out) |
| JavaNumbers.ParseSigned | src/main/java/com/example/account/service/AccountService.java:54 | the part of `Integer.parseInt` after the sign accepts only a non-empty run of digits, and what it returns is their decimal value, negated after '-' |
| JavaNumbers.ParseRejectsOutOfRange | src/main/java/com/example/account/service/AccountService.java:54 | `Integer.parseInt` rejects digits whose value exceeds 2147483647, bare or after '+', and after '-' rejects a value beyond 2147483648; after '+' it returns the digits' value |
| JavaNumbers.ParseIntAccepts | src/main/java/com/example/account/service/AccountService.java:54 | a string `Integer.parseInt` accepts is digits, or '-' or '+' followed by at least one digit |
| JavaNumbers.ParseUnsigned | src/main/java/com/example/account/service/AccountService.java:54 | a non-empty run of digits whose value fits an `int` parses to that value |
| JavaNumbers.ParseNegative | src/main/java/com/example/account/service/AccountService.java:54 | '-' followed by digits whose value is at most 2^31 parses to minus that value |
| JavaNumbers.IntToString | src/main/java/com/example/account/service/AccountService.java:54 | `n + ""` prints the canonical decimal form: digits with no leading zero unless the number is 0, and a '-' exactly for negative numbers |
| JavaNumbers.NatToString | src/main/java/com/example/account/service/AccountService.java:54 | the decimal digits of a natural number: non-empty, all digits, starting with '0' only for 0, which is the single digit "0" |
| JavaNumbers.CanonicalIsPrinted | src/main/java/com/example/account/service/AccountService.java:54 | a canonical string that `Integer.parseInt` accepts is exactly what `n + ""` prints for the value it parses to |
| JavaNumbers.CanonicalUnique | src/main/java/com/example/account/service/AccountService.java:54 | two canonical strings that parse to the same `int` are the same string, so a parsed value and canonical form fix the printed number |
| JavaNumbers.PrintedDigits | src/main/java/com/example/account/service/AccountService.java:54 | digits without a leading zero are the printing of their own value |
| JavaNumbers.ParseIntToString | src/main/java/com/example/account/service/AccountService.java:54 | printing any `int` in decimal and parsing it back with `Integer.parseInt` gives the same `int` |
| JavaNumbers.NatToStringValue | src/main/java/com/example/account/service/AccountService.java:54 | the decimal digits printed for a natural number read back as that number |
| JavaNumbers.NatToStringLength | src/main/java/com/example/account/service/AccountService.java:54 | a number in [10^(k-1), 10^k) prints with exactly k digits |
| Domain.BalanceAfterUse | src/main/java/com/example/account/domain/Account.java:41-47 | fails with AMOUNT_EXCEED_BALANCE exactly when the amount exceeds the balance; any other amount, negative ones included, leaves `balance - amount`, less 2^64 when that exceeds Long.MAX_VALUE; a non-negative amount leaves a balance between 0 and the old one |
| Domain.BalanceAfterCancel | src/main/java/com/example/account/domain/Account.java:49-55 | fails with INVALID_REQUEST exactly when the amount is negative; otherwise adds the amount, wrapping past the `long` maximum by subtracting 2^64, so that without overflow it never lowers the balance |
| Domain.UseThenCancelRestores | src/main/java/com/example/account/domain/Account.java:41-55 | a successful use followed by a cancel of the same amount restores the balance exactly when the amount is not negative |
| Domain.UseWholeBalance | src/main/java/com/example/account/domain/Account.java:41-47 | using the whole non-negative balance succeeds and leaves 0 |
| Domain.BalanceExamples | src/main/java/com/example/account/domain/Account.java:41-55 | 10000 - 200 = 9800; using 1000 of 100 fails with AMOUNT_EXCEED_BALANCE; 10000 + 200 = 10200; cancelling -1 fails with INVALID_REQUEST |
| Domain.UseNegativeAmountBreaksNonNegativeBalance | src/main/java/com/example/account/domain/Account.java:41-47 | with no lower guard on the amount, using Long.MIN_VALUE on an empty account succeeds and leaves a negative balance |
| Domain.Account.constructor | src/main/java/com/example/account/domain/Account.java:25-35 | the entity's fields hold exactly the given values |
| Domain.Account.UseBalance | src/main/java/com/example/account/domain/Account.java:41-47 | changes only `balance`: on success to `BalanceAfterUse`, on failure not at all, returning its error |
| Domain.Account.CancelBalance | src/main/java/com/example/account/domain/Account.java:49-55 | changes only `balance`: on success to `BalanceAfterCancel`, on failure not at all, returning its error |
| AccountDtos.FromEntity | src/main/java/com/example/account/dto/AccountDto.java:24-32 | the DTO carries the owner's id, the number, the balance and both timestamps of the entity |
| BeanValidation.NotNull | src/main/java/com/example/account/dto/CreateAccount.java:15 | `@NotNull`: the field is present (no ensures; the request lemmas state its effect) |
| BeanValidation.Min | src/main/java/com/example/account/dto/CreateAccount.java:16 | `@Min(bound)`: a null field passes, a present one must be at least the bound (no ensures; see `NullHandling` and the request lemmas) |
| BeanValidation.Max | src/main/java/com/example/account/dto/CancelBalance.java:38 | `@Max(bound)`: a null field passes, a present one must be at most the bound (no ensures; see `NullHandling` and the request lemmas) |
| BeanValidation.Size | src/main/java/com/example/account/dto/DeleteAccount.java:24 | `@Size(min, max)`: a null field passes, a present string's length lies in the range; characters are counted, not UTF-16 units (see Left out) |
| BeanValidation.NullHandling | src/main/java/com/example/account/dto/CancelBalance.java:36-38 | a null field fails `@NotNull` and `@NotBlank` and passes `@Min`, `@Max` and `@Size` |
| BeanValidation.TrimStart | src/main/java/com/example/account/dto/DeleteAccount.java:23 | the leading part of `String.trim()`: empty exactly when every character is at most ' ', otherwise starting with a character above ' ' |
| BeanValidation.TrimEnd | src/main/java/com/example/account/dto/DeleteAccount.java:23 | the trailing part of `String.trim()`: empty exactly when every character is at most ' ' |
| BeanValidation.NotBlank | src/main/java/com/example/account/dto/DeleteAccount.java:23 | `@NotBlank` (present and non-empty after `trim()`) holds exactly when the field is present and has a character above ' ', which is exactly what `String.trim()` keeps |
| CreateAccount.RequestValid | src/main/java/com/example/account/dto/CreateAccount.java:14-25 | the annotations of the create request, one conjunct per annotation (no ensures; `RequestValidMeaning` states its meaning) |
| CreateAccount.RequestValidMeaning | src/main/java/com/example/account/dto/CreateAccount.java:14-25 | a create request is valid exactly when both fields are present, the user id is at least 1 and the initial balance at least 0 |
| CreateAccount.ResponseFrom | src/main/java/com/example/account/dto/CreateAccount.java:38-44 | the response carries the DTO's user id, number and registration time |
| DeleteAccount.RequestValid | src/main/java/com/example/account/dto/DeleteAccount.java:16-31 | the annotations of the delete request, one conjunct per annotation (no ensures; `RequestValidMeaning` states its meaning) |
| DeleteAccount.RequestValidMeaning | src/main/java/com/example/account/dto/DeleteAccount.java:16-31 | a delete request is valid exactly when the user id is present and at least 1 and the number is present, not blank, and 9 to 10 characters long |
| DeleteAccount.ResponseFrom | src/main/java/com/example/account/dto/DeleteAccount.java:44-50 | the response carries the DTO's user id, number and unregistration time |
| CancelBalance.RequestValid | src/main/java/com/example/account/dto/CancelBalance.java:23-40 | the annotations of the cancel request, one conjunct per annotation (no ensures; `RequestValidMeaning` states its meaning) |
| CancelBalance.RequestValidMeaning | src/main/java/com/example/account/dto/CancelBalance.java:23-40 | a cancel request is valid exactly when the transaction id is present and not blank, the number is present, not blank and 9 to 10 characters long, and the amount is present and from 10 to 1,000,000,000 |
| CancelBalance.RequestValidAmount | src/main/java/com/example/account/dto/CancelBalance.java:36-39 | the amount of a valid cancel request is present and between 10 and 1,000,000,000 |
| CancelBalance.ValidRequestCancelSucceeds | src/main/java/com/example/account/dto/CancelBalance.java:23-40 | the amount of a valid request never fails `cancelBalance`, and on a non-negative balance not near the `long` limit it adds exactly |
| CancelBalance.ResponseFrom | src/main/java/com/example/account/dto/CancelBalance.java:65-73 | the response copies amount, number, transaction id and time, and exposes the result type as `transactionResult` |
| AccountServiceDecisions.CountByAccountUser | src/main/java/com/example/account/service/AccountService.java:74 | the number of stored accounts a user owns never exceeds the number of stored accounts |
| AccountServiceDecisions.FindByAccountUser | src/main/java/com/example/account/service/AccountService.java:151 | an account is listed exactly when it is stored and owned by the user; the listing keeps the store's id order |
| AccountServiceDecisions.FindByAccountNumber | src/main/java/com/example/account/service/AccountService.java:110-111 | finds the first stored account with the number, and finds none exactly when no stored account has it |
| AccountServiceDecisions.FindById | src/main/java/com/example/account/service/AccountService.java:84 | finds a stored account with the id, and finds none exactly when no stored account has it |
| AccountServiceDecisions.LatestById | src/main/java/com/example/account/service/AccountService.java:53 | there is a latest account exactly when the store is not empty; it is stored and has the largest id |
| AccountServiceDecisions.NextId | src/main/java/com/example/account/service/AccountService.java:60 | the id given to a new account is larger than every stored id |
| AccountServiceDecisions.GetAccountUser | src/main/java/com/example/account/service/AccountService.java:159-163 | returns the stored user exactly when the id is known, otherwise USER_NOT_FOUND; with users held under their ids, the user found has the requested id |
| AccountServiceDecisions.ValidateCreateAccount | src/main/java/com/example/account/service/AccountService.java:73-78 | fails with MAX_ACCOUNT_PER_USER_10 exactly when the user already owns 10 or more accounts of any status |
| AccountServiceDecisions.NextAccountNumber | src/main/java/com/example/account/service/AccountService.java:53-55 | with no account, the seed "1000000000"; otherwise NumberFormatException exactly when the latest number does not parse as an `int`, and else the canonical decimal string (no sign for non-negatives, no leading zero) that parses to that number plus one, wrapping from Integer.MAX_VALUE to Integer.MIN_VALUE; by `CanonicalUnique` that string is unique |
| AccountServiceDecisions.ValidateDeleteAccount | src/main/java/com/example/account/service/AccountService.java:131-143 | passes exactly when the owner matches, the account is not UNREGISTERED and the balance is not positive; otherwise the first failing check's error, in the order owner, status, balance |
| AccountServiceDecisions.CreateAccountDecision | src/main/java/com/example/account/service/AccountService.java:39-71 | USER_NOT_FOUND, then the cap, then NumberFormatException when the next number cannot be computed, in that order; on success an IN_USE account of that user with the given balance, the next number, the time `now`, no unregistration time and the next id |
| AccountServiceDecisions.DeleteAccountDecision | src/main/java/com/example/account/service/AccountService.java:96-113 | USER_NOT_FOUND, then ACCOUNT_NOT_FOUND, then the validator's error, in that order; succeeds exactly when the user exists, the number is found, and that account is the user's, IN_USE and without a positive balance |
| AccountServiceDecisions.Unregistered | src/main/java/com/example/account/service/AccountService.java:122-123 | the account becomes UNREGISTERED with the unregistration time `now`; every other field is unchanged |
| AccountServiceDecisions.GetAccountByUserId | src/main/java/com/example/account/service/AccountService.java:148-157 | USER_NOT_FOUND exactly when the user is unknown; otherwise one DTO per owned account, in store order, as many as the cap counts, each naming the user, which with users held under their ids is the requested id |
| AccountServiceDecisions.CountIsListLength | src/main/java/com/example/account/service/AccountService.java:74 | the count the cap checks equals the length of the user's listing |
| AccountServiceDecisions.CountAppend | src/main/java/com/example/account/service/AccountService.java:60-68 | saving a new account raises its owner's count by one and no other user's count |
| AccountServiceDecisions.CreateKeepsCap | src/main/java/com/example/account/service/AccountService.java:47 | when every owner has at most 10 accounts, a successful creation keeps it so |
| AccountServiceDecisions.CreateThenList | src/main/java/com/example/account/service/AccountService.java:148-157 | after a successful creation the user's listing is the old listing followed by the new account's DTO |
| AccountServiceDecisions.CountUnchangedByUnregister | src/main/java/com/example/account/service/AccountService.java:122-123 | unregistering an account changes no user's count, so closed accounts still fill the cap |
| AccountServiceDecisions.FindUnchangedByUnregister | src/main/java/com/example/account/service/AccountService.java:122-123 | unregistering an account changes no lookup by number |
| AccountServiceDecisions.DeleteTwiceFails | src/main/java/com/example/account/service/AccountService.java:136-138 | repeating a successful deletion fails with ACCOUNT_ALREADY_UNREGISTERED and leaves the owner's count unchanged |
| AccountServiceDecisions.DeletedBalanceIsZero | src/main/java/com/example/account/service/AccountService.java:139-141 | where no balance is negative, an account that may be deleted has balance 0 |
| AccountServices.AccountService.constructor | src/main/java/com/example/account/service/AccountService.java:23-27 | given users held under their own ids (`UsersKeyedById`), starts with them, no account and an empty save log, in a valid state |
| AccountServices.AccountService.Save | src/main/java/com/example/account/service/AccountService.java:60-68 | a stored entity stays in place and a new one is appended; ids keep increasing and each call is logged |
| AccountServices.AccountService.CreateAccount | src/main/java/com/example/account/service/AccountService.java:39-71 | on failure returns `CreateAccountDecision`'s error and leaves the store and the save log unchanged; on success appends one fresh entity holding the decided account, saves it once, and returns its DTO, which names the requesting user |
| AccountServices.AccountService.DeleteAccount | src/main/java/com/example/account/service/AccountService.java:96-127 | on failure returns `DeleteAccountDecision`'s error and changes nothing; on success unregisters exactly the decided entity in place, saves it once, and returns its DTO, which names the requesting user and the requested number |
| AccountServices.AccountService.Unregister | src/main/java/com/example/account/service/AccountService.java:122-123 | the k-th stored entity becomes `Unregistered` and the others keep their values |
| AccountServices.AccountService.GetAccount | src/main/java/com/example/account/service/AccountService.java:80-85 | a negative id fails before any lookup; a non-negative id fails with NoSuchElementException exactly when no stored entity has it; otherwise the stored entity with that id |
| AccountScenarios.NumberingExamples | src/test/java/com/example/account/service/AccountServiceTest.java:41-78 | the first account gets "1000000000" (the seed of the first-account test, see FirstAccountScenario); after "1000000012" comes "1000000013" |
| AccountScenarios.FirstAccountScenario | src/test/java/com/example/account/service/AccountServiceTest.java:211-247 | with no account yet, the user found (id 15) gets an IN_USE account "1000000000" with balance 1000, and the DTO names user 15 |
| AccountScenarios.NumberingFollowsLatestId | src/main/java/com/example/account/service/AccountService.java:53-55 | the number after ids 1 "1000000050" and 2 "1000000003" is "1000000004": the rule follows the latest id, not the largest number |
| AccountScenarios.NumberingWrapsAtIntMax | src/main/java/com/example/account/service/AccountService.java:54 | after "2147483647" the next number is "-2147483648" |
| AccountScenarios.NumberingRejectsBeyondIntRange | src/main/java/com/example/account/service/AccountService.java:54 | after a latest number "2147483648" the numbering rule fails with NumberFormatException |
| AccountScenarios.CreationRejectsBeyondIntRange | src/main/java/com/example/account/service/AccountService.java:39-71 | a known user under the cap whose latest account is "2147483648" cannot create an account: creation fails with NumberFormatException |
| AccountScenarios.CreateAccountScenario | src/test/java/com/example/account/service/AccountServiceTest.java:41-78 | user 12, held under id 12, with latest account "1000000012" gets an IN_USE account "1000000013" with balance 1000, and the DTO names user 12 |
| AccountScenarios.ListingScenario | src/test/java/com/example/account/service/AccountServiceTest.java:325-367 | three stored accounts give three DTOs in the same order with the same numbers and balances |
| AccountScenarios.UnknownUserScenario | src/test/java/com/example/account/service/AccountServiceTest.java:278-298 | an unknown user gets USER_NOT_FOUND from creation, deletion and listing |
| RequestProperties.ValidCreateRequestStartsNonNegative | src/main/java/com/example/account/dto/CreateAccount.java:20-22 | an account created from a valid request, and its DTO, have a non-negative balance |
| RequestProperties.CreateResponseDescribesCreated | src/main/java/com/example/account/dto/CreateAccount.java:38-44 | with users held under their ids, the creation response names the requesting user id, the number the numbering rule chose, and `now` |
| RequestProperties.DeleteResponseDescribesDeleted | src/main/java/com/example/account/dto/DeleteAccount.java:44-50 | with users held under their ids, the deletion response names the requesting user id, the requested number, and `now` as the unregistration time |
| RequestProperties.SeedFitsDeleteRequest | src/main/java/com/example/account/dto/DeleteAccount.java:23-25 | the seed number can be named by a valid delete request |
| RequestProperties.GeneratedNumberFitsDeleteRequest | src/main/java/com/example/account/dto/DeleteAccount.java:23-25 | every number generated after a latest number from 999999999 to 2147483646 has ten digits and fits a valid delete request |
| RequestProperties.WrappedNumberFailsDeleteRequest | src/main/java/com/example/account/dto/DeleteAccount.java:23-25 | the wrapped number "-2147483648" has eleven characters, so no valid delete request can name it |
| RequestProperties.WrappedNumberFailsCancelRequest | src/main/java/com/example/account/dto/CancelBalance.java:28-30 | no valid cancel request names the wrapped number either |

## Left out

- The transaction service, its repository and its lock service, and the
  controllers and the global exception handler. `Account` is covered only
  through `useBalance` and `cancelBalance`.
- Persistence and transactions: JPA mapping, `@Transactional` rollback, and
  concurrent access. The repositories are the `Store` value and the
  `AccountService` fields. Every change is made in one step, and nothing is
  rolled back.
- Exception messages and HTTP status codes. A failure is its error code or
  exception kind.
- `null` entity fields. Each stored account has an owner, a number, a status
  and a balance. The repository's own rejection of a `null` id is not modelled
  either: ids are plain `Long` values.
- Duplicate account numbers. `findByAccountNumber` returns an `Optional`, and
  Spring Data throws when two rows match. The model returns the first match.
- Account ids are unbounded natural numbers handed out in increasing order.
  Database id generation and `Long` overflow of ids are not modelled.
- JavaNumbers.ParseInt: accepts only the ASCII digits '0'–'9'. `Integer.parseInt`
  also accepts other Unicode decimal digits.
- BeanValidation.Size: counts characters of the Dafny string. Java counts
  UTF-16 code units, and the two agree on the digits and signs that account
  numbers contain.
- `CancelBalance.TransactionDto` holds only the fields that `Response.from`
  reads. TransactionDto itself is not part of this model.
- Two behaviours of the code to note, which the model keeps as written:
  - A new number follows the latest account by id (`findFirstByOrderByIdDesc`),
    not the numerically largest number.
  - Closing an account rejects only a positive balance (`balance > 0`), not
    every non-zero balance.
