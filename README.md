# LinkAuthority points ledger in Dafny

LinkAuthority is a demo backlink-trading marketplace. Users register websites,
each with a Domain Authority (DA) score, and trade backlinks for points. This
project models its points ledger:

- the in-memory store `MockDB` (`services/mockDatabase.ts`), a class with three
  tables (users, websites, transactions) that its mutators change in place;
- the exchange settlement `executeExchange` (`services/verificationService.ts`),
  which debits the recipient and credits the provider by the source site's DA,
  stamps the transaction `verified` and puts it at the head of the log;
- the synchronous guard at the top of `verifyBacklink`, which refuses a source
  URL that does not start with `"http"`.

Files:

- `types.dfy` (module `Types`): `User`, `Website`, `Transaction` and the
  three-valued `Status`. Points and DA are `int`; a `Date` is an opaque `int`.
- `ledger.dfy` (module `Ledger`): the users table as a value. `FirstIndex`
  models `users.find` (first match wins). `AddPoints` is a balance update,
  `FindOrCreate` is find-or-create by email, and `Total` is the sum of
  balances. The lemmas about them are here too.
- `mock_database.dfy` (module `MockDatabase`): class `MockDB` with `seq`
  fields. `Find` is the scan behind `users.find`, a loop proved equal to
  `FirstIndex`. The users-table mutators are proved against the `Ledger`
  functions. The
  getters `GetUsers`, `GetWebsites` and `GetTransactions` read the fields.
  The ghost field `stored` stands for localStorage. `Valid()` says it mirrors
  the tables, and every mutator keeps it that way.
- `verification_service.dfy` (module `VerificationService`): `Settle` (the two
  balance writes as a function), `ExecuteExchange` (the method on a `MockDB`),
  the conservation and frame lemmas, and `SourceUrlGuard`.
- `wrappers.dfy` (module `Wrappers`): `Option`.

Facts about the code that the model keeps:

- A new account starts with exactly 100 points (services/mockDatabase.ts:58).
- The URL guard only tests that the source URL starts with `"http"`
  (services/verificationService.ts:19). A string such as `"httpnot-a-url"`
  passes it (`GuardIsPrefixOnly`).
- `addTransaction` uses `unshift`, so the newest record is at index 0
  (services/mockDatabase.ts:76).
- No balance-based filter is modelled, because the code has none. The banner at
  App.tsx:376 tells a user with fewer than 1 point that their site "is currently
  hidden". But the only marketplace filter, at App.tsx:203, hides the viewer's
  own sites.

## Model

| member | source | states |
|---|---|---|
| `Ledger.FirstIndex` | services/mockDatabase.ts:52 | the result is the index of a matching user with no match before it, or None exactly when no user matches |
| `Ledger.AddPoints` | services/mockDatabase.ts:67-73 | the table keeps its length and only balances change; the first user with the id gains exactly `delta` and every other record is unchanged; an unknown id leaves the table unchanged |
| `Ledger.TotalUpdate` | services/mockDatabase.ts:70 | rewriting one user's record shifts the sum of balances by exactly that user's change in points |
| `Ledger.TotalAddPoints` | services/mockDatabase.ts:67-73 | a balance update moves the total by `delta` when the id exists and by 0 otherwise |
| `Ledger.FirstIndexAppend` | services/mockDatabase.ts:52-61 | after a push, an earlier match is still the first match; otherwise the new user is the first match if it matches |
| `Ledger.Decimal` | services/mockDatabase.ts:55 | the numeral printed by the template literal is a non-empty digit string whose value is `n`, with a leading zero only for 0 |
| `Ledger.NewUserIdInjective` | services/mockDatabase.ts:55 | accounts created at different clock readings get different ids |
| `Ledger.NewUserId` | services/mockDatabase.ts:55 | a created user's id is "u" followed by the decimal numeral of the clock reading |
| `Ledger.FindOrCreate` | services/mockDatabase.ts:51-65 | the returned user has the email and is the first user with it in the new table; the old table is a prefix of the new one, which grows by one exactly when the email was unknown |
| `Ledger.FindOrCreateFinds` | services/mockDatabase.ts:52-64 | when a user has the email, the first such user is returned and the table is unchanged |
| `Ledger.FindOrCreateAppends` | services/mockDatabase.ts:53-62 | when no user has the email, exactly one record is appended with the given name, email and avatar, 100 points and a clock id |
| `Ledger.FindOrCreateIdempotent` | services/mockDatabase.ts:52-64 | a second call with the same email returns the same user (so the same id) and adds no record, whatever name, avatar or clock it gets |
| `Ledger.FindOrCreateKeepsEmailsDistinct` | services/mockDatabase.ts:52-62 | if no two users share an email before the call, none do after it |
| `MockDatabase.InitialUsers` | services/mockDatabase.ts:4-8 | the three seed accounts have distinct emails and hold 242 points in all |
| `MockDatabase.InitialWebsites` | services/mockDatabase.ts:10-14 | every seed website is owned by a seed account and has a DA between 1 and 100 |
| `MockDatabase.MockDB.GetUsers` | services/mockDatabase.ts:47 | returns the live users table, which equals the persisted one while the store is valid |
| `MockDatabase.MockDB.GetWebsites` | services/mockDatabase.ts:48 | returns the live websites table, which equals the persisted one while the store is valid |
| `MockDatabase.MockDB.GetTransactions` | services/mockDatabase.ts:49 | returns the live transaction log, which equals the persisted one while the store is valid |
| `MockDatabase.MockDB.constructor` | services/mockDatabase.ts:21-37 | loads the saved snapshot when present; otherwise the seed users and websites with an empty log, persisted |
| `MockDatabase.MockDB.Save` | services/mockDatabase.ts:39-45 | the persisted copy equals the three tables in memory |
| `MockDatabase.MockDB.Find` | services/mockDatabase.ts:68 | the scan returns the index of the first user matching the key, or None when none does |
| `MockDatabase.MockDB.FindOrCreateUser` | services/mockDatabase.ts:51-65 | the returned user and the new users table are those of `FindOrCreate` on the old table; websites and transactions are unchanged; the persisted copy stays in step |
| `MockDatabase.MockDB.UpdateUserPoints` | services/mockDatabase.ts:67-73 | the users table becomes `AddPoints` of the old one; websites and transactions are unchanged |
| `MockDatabase.MockDB.AddTransaction` | services/mockDatabase.ts:75-78 | the log becomes the record followed by the old log in order; users and websites are unchanged |
| `MockDatabase.MockDB.AddWebsite` | services/mockDatabase.ts:80-83 | the websites table becomes the old one with the site appended; users and transactions are unchanged |
| `VerificationService.Settle` | services/verificationService.ts:66-69 | the two balance writes keep the table's length and change nothing but balances |
| `VerificationService.Stamp` | services/verificationService.ts:72-73 | the recorded transaction has status verified and the points moved; every other field is as given |
| `VerificationService.ExecuteExchange` | services/verificationService.ts:54-75 | the users table becomes the recipient debit followed by the provider credit of the DA; websites are unchanged; the stamped record is the new head of the log, which grows by exactly one; no requirement on balances or on the accounts existing |
| `VerificationService.SettleTotal` | services/verificationService.ts:66-69 | the sum of balances moves by +v if the provider exists and by -v if the recipient exists |
| `VerificationService.SettleConserves` | services/verificationService.ts:66-69 | with both accounts present the total number of points is unchanged |
| `VerificationService.SettleOneSided` | services/verificationService.ts:66-69 | when exactly one party exists that party is still updated, so the total changes by +v or -v |
| `VerificationService.SettleMovesPoints` | services/verificationService.ts:62-69 | for distinct existing parties the recipient's record loses exactly v and the provider's gains exactly v, with no floor |
| `VerificationService.SettleLeavesOthers` | services/verificationService.ts:66-69 | every record other than the first match of the provider and of the recipient is unchanged, and the table keeps its length |
| `VerificationService.SettleSelf` | services/verificationService.ts:66-69 | when provider and recipient are the same user the debit and credit cancel and the table is unchanged |
| `VerificationService.SeedExchangeOverdraws` | services/verificationService.ts:66 | on the seed data, a DA 92 exchange from u1 to u3 (12 points) leaves u3 at -80 and u1 at 242, and the total is conserved |
| `VerificationService.StartsWith` | services/verificationService.ts:19 | true exactly when the string is at least as long as the prefix and agrees with it character by character |
| `VerificationService.SourceUrlGuard` | services/verificationService.ts:19 | a URL not starting with "http" is refused with success false and error "Invalid URL"; every other URL passes to the crawl |
| `VerificationService.CallerUrlPassesGuard` | App.tsx:84 | the source URL the exchange screen builds from any domain always passes the guard |
| `VerificationService.GuardIsPrefixOnly` | services/verificationService.ts:19 | "not-a-url" is refused, while "httpnot-a-url" passes: the guard tests a prefix, not URL syntax |

## Left out

- Persistence: `load` and `save` read and write localStorage through `JSON.parse`
  and `JSON.stringify`. Here the parsed snapshot is a constructor parameter and
  `save` is a ghost snapshot. JSON encoding is not modelled. Neither is the way
  a `Date` comes back as a string after reloading.
- Aliasing: the getters return the live arrays, and `findOrCreateUser` returns
  the live record that later updates change. `executeExchange` also mutates the
  caller's transaction object. The model works on values: `ExecuteExchange`
  returns the stamped record instead.
- The clock: `Date.now()` is the parameter `now`. Two accounts created in the
  same millisecond get the same id, as in the code. Different milliseconds give
  different ids (`NewUserIdInjective`).
- Numbers: JavaScript numbers are doubles, but points and DA are integers here.
  No rounding above 2^53 is modelled. Fractional values are not modelled
  either. The AI analysis declares `da` as a plain number and returns the
  parsed reply unrounded (services/geminiService.ts:16, 25). A website can
  therefore get a fractional DA, and an exchange on it moves fractional points.
- The rest of `verifyBacklink` is left out: the 1.5 s delay, the
  `Math.random() > 0.2` outcome, the commented-out crawl and the `catch` branch.
  It is asynchronous, random and does no real checking.
- The domain-analysis service (`services/geminiService.ts`) is left out. It is
  a foreign call to a generative-AI SDK with a random fallback.
- The UI in `App.tsx` is left out. It builds every website passed to
  `addWebsite` (App.tsx:64-73): the id is `w` followed by `Date.now()`, the
  owner is the current user, and the DA comes from the analysis. `AddWebsite`
  takes that record as given. The UI also chooses an exchange's arguments: the
  provider is the source site's owner, the recipient is the target site's
  owner, and the amount is the source site's DA (App.tsx:89-101).
- `schemas.ts` holds only commented-out database schemas, so its uniqueness
  constraints are not modelled.
