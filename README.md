# karin-plugin-manage: account manager and command listings, in Dafny

This project models two parts of the `karin-plugin-manage` control-panel backend for the Karin
chat-bot runtime, and proves properties of the model.

**The account and session manager** (`UserManager`, `lib/user/userManager.js`) is a Dafny class.
It keeps three pieces of state:

- the account list in memory (`users`), a sequence of `User(username, password, routes, status)`;
- the account file (`file`), a sequence of YAML records, each a sequence of `key: node` fields;
- the redis session cache (`SessionStore.SessionCache`), a map from key to `Entry(value, ttl)`.

Each operation that changes state is a method with a `modifies` clause; the two queries,
`CheckUser` and `ValidatePassword`, are functions. Each `ensures` gives the answer and, for a
method, the complete new state, for the success path and every failure path. The class invariant `Valid()` says
that the file mirrors the account list and that usernames are unique. Every method that writes
accounts preserves it.

bcrypt, MD5 and JSON Web Token signing and verification are passed in as the function fields of
`Crypto.Primitives`. A scenario requires them to meet `Crypto.Sound`: a bcrypt hash verifies
exactly the string it was made from, an MD5 hex digest has 32 characters, and a signed token
decodes under its secret to the claims it was signed from. The random secret
is a parameter of the constructor.

**The two `formatCommand` helpers** (`lib/server/routes/system/karin.js`) are methods whose
loops match the source's `forEach` loops. Each loop invariant ties the partial result to a
function over a prefix of the input: `GroupCommands` for the `/GetAppCommands` listing and
`RankCommands` for the `/GetCommandsList` listing. Lemmas then prove what those functions mean:

- which directories and names become keys;
- that the last command with a given directory and name wins;
- what the example string of a rule is;
- how a command's key is chosen when its name is already taken, and that a command without
  rules creates no key;
- that each key's expressions are distinct and kept in order of first occurrence, against an
  independent reference de-duplication `Dedup`;
- that each stored priority is the lowest one seen;
- that the priorities, which are dropped at the end, cannot change the route's output at all.

The code says the client logs in with the MD5 digest of its password. `addUser` stores
`hash(md5(password))`, and `login` checks the supplied string against that as given, so a
login with the clear-text password fails. The model follows the
code, and the scenario `UserScenarios.AliceLogin` logs in with the digest. `login` and
`quickLogin` never check `status`, and the model does not either.

## Model

| member | source | states |
|---|---|---|
| UserManagement.TokenKey | lib/user/userManager.js:106 | the per-user session key is `karin-plugin-manage:user:<name>:token`, 31 characters longer than the name and ending in `:token` |
| UserManagement.TokenKeyInjective | lib/user/userManager.js:106 | two users share a session key only if they have the same name |
| UserManagement.TokenKeyDistinct | lib/user/userManager.js:118-120 | no session key equals the one-time code key or the secret key, so deleting the code never deletes a session |
| UserManagement.Find | lib/user/userManager.js:94 | `users.find`: `None` exactly when no account has the name; otherwise the index of the first account with it |
| UserManagement.UpdateRecord | lib/user/userManager.js:72-87 | the inner field loop, with its `target` flag, gives `UpdateFields`: every field named `key` at or after the `username` field naming the user is assigned the value, and every other field is kept |
| UserFile.Assign | lib/user/userManager.js:77-85 | a list value replaces the node wholesale; a string replaces a scalar; a string written onto a list node leaves it as it was |
| UserFile.OtherRecordUnchanged | lib/user/userManager.js:70-88 | the field update leaves another user's record unchanged |
| UserFile.OwnRecordUpdated | lib/user/userManager.js:70-88 | the field update writes the user's `password` scalar or `routes` list record, and changes nothing else in it |
| UserFile.UpdateMirrorsMemory | lib/user/userManager.js:66-90 | with unique names, updating the file's `password` or `routes` field of one user gives the file of the list with that one account changed |
| UserFile.RecordsAppend | lib/user/userManager.js:59-62 | appending an account to the list appends its record (username, password, routes, status) to the file |
| UserManagement.UserManager.constructor | lib/user/userManager.js:14-16 | runs `Init`: the loaded accounts, the file mirroring them, and a non-empty secret |
| UserManagement.UserManager.Init | lib/user/userManager.js:18-25 | a stored non-empty secret is used and the cache is unchanged; a missing or empty one is replaced by the random value, stored without expiry |
| UserManagement.UserManager.CheckUser | lib/user/userManager.js:93-96 | true exactly when some account has the name |
| UserManagement.UserManager.AddUser | lib/user/userManager.js:45-56 | a taken name changes nothing; a new name appends `User(name, hash(md5(password)), routes, "enabled")` at the end of both the list and the file; names stay unique and the file stays a mirror |
| UserManagement.UserManager.SaveUserToYaml | lib/user/userManager.js:59-63 | the file gains the account's record at its end |
| UserManagement.UserManager.SaveUserDataToYaml | lib/user/userManager.js:66-90 | an unknown user leaves the file alone; otherwise every record is rewritten by `UpdateFields` |
| UserManagement.UserManager.IssueToken | lib/user/userManager.js:105 | the `jwt.sign` call of `login` and `quickLogin`: with sound primitives, the token decodes under the manager's secret to the user's name, the given routes and a lifetime of 3600 s (`expiresIn: '1h'`) |
| UserManagement.UserManager.Login | lib/user/userManager.js:99-109 | an unknown name or a rejected password answers nothing and leaves the cache unchanged; otherwise the token signed with the user's name and routes is stored under the session key with a TTL of 3600 s, replacing any earlier one, and returned with the routes |
| UserManagement.UserManager.QuickLogin | lib/user/userManager.js:112-123 | a code that differs from the stored one by loose `!=` answers nothing and changes nothing; an unknown name fails on reading its routes and changes nothing; otherwise a session is stored as in `Login` and the one-time code is deleted |
| UserManagement.UserManager.QuickLoginRequiringCode | lib/user/userManager.js:112-123 | as `QuickLogin`, but a session is only opened when a code is pending and the supplied code equals it; the code is then gone |
| UserManagement.UserManager.Logout | lib/user/userManager.js:126-132 | true exactly when the supplied token is the stored one; only then is the session key deleted, otherwise the cache is unchanged |
| UserManagement.UserManager.ValidatePassword | lib/user/userManager.js:135-141 | true exactly when the first account with the name accepts the password; false for an unknown name |
| UserManagement.UserManager.ChangePassword | lib/user/userManager.js:144-154 | an unknown name answers false and changes nothing; otherwise exactly that account's password becomes `hash(password)`, without an MD5 step, in the list and in the file; every other account is unchanged |
| UserManagement.UserManager.ChangePermissions | lib/user/userManager.js:157-168 | an unknown name throws "User not found" and changes nothing; otherwise exactly that account's routes become `perm`, in the list and in the file; every other account is unchanged |
| UserManagement.UserManager.RefreshToken | lib/user/userManager.js:171-176 | when the supplied token is the stored one, its TTL is reset to 3600 s and its value kept; otherwise the cache is unchanged |
| SessionStore.Lookup | lib/user/userManager.js:127 | `GET` answers a value exactly when the key is present, and then the stored value |
| SessionStore.SessionCache.Get | lib/user/userManager.js:113 | `GET` on the cache answers exactly what `Lookup` says: the stored value when the key is present, nothing otherwise, and changes nothing |
| SessionStore.SessionCache.Set | lib/user/userManager.js:106 | `SET key value EX ttl` stores the value with that TTL and touches no other key |
| SessionStore.SessionCache.Del | lib/user/userManager.js:129 | `DEL` removes the key, answers 1 if it was present and 0 otherwise, and touches no other key |
| SessionStore.SessionCache.Expire | lib/user/userManager.js:174 | `EXPIRE` on a present key resets its TTL and keeps its value; on an absent key it does nothing |
| UserScenarios.AliceLogin | lib/user/userManager.js:99-109 | after `addUser("alice", "secret123", ["dashboard"])`, logging in with the MD5 digest grants `["dashboard"]`, a wrong password is refused, and a refresh keeps the token with a TTL of 3600 s |
| UserScenarios.AlicePasswordChange | lib/user/userManager.js:144-154 | after a password change the old digest is refused and the new password is accepted |
| UserScenarios.QuickLoginTwice | lib/user/userManager.js:112-123 | a one-time code opens at most one session: once a quick login succeeds, the same code is refused |
| UserScenarios.QuickLoginWithoutCode | lib/user/userManager.js:114 | with no code pending and none supplied, the code as written opens a session for a known account, and the intended check refuses it |
| UserScenarios.LogoutTwice | lib/user/userManager.js:126-132 | the first logout succeeds exactly when the token is the stored one; a second logout with the same token always fails |
| UserScenarios.LoginTwice | lib/user/userManager.js:105-106 | logging in twice leaves one session entry, holding the second token; both attempts succeed or both fail |
| AppCommands.Without | lib/server/routes/system/karin.js:51 | a global `replace` with the empty string: the result is no longer than the input, and holds exactly the input's characters outside the removed set |
| AppCommands.Example | lib/server/routes/system/karin.js:51 | the example holds exactly the characters of `reg` other than `/`, `^` and `$` |
| AppCommands.WithoutTwice | lib/server/routes/system/karin.js:51 | removing two sets of characters one after the other is removing their union |
| AppCommands.WithoutConcat | lib/server/routes/system/karin.js:51 | removal works character by character: it distributes over concatenation |
| AppCommands.WithoutNothing | lib/server/routes/system/karin.js:51 | a string with none of the removed characters is left as it is |
| AppCommands.WithoutCounts | lib/server/routes/system/karin.js:51 | every character that is not removed keeps its exact number of occurrences; removed ones occur zero times |
| AppCommands.ExampleOnePass | lib/server/routes/system/karin.js:51 | the two `replace` calls remove `/`, `^` and `$` in one pass, in order |
| AppCommands.ExampleOfPlainRule | lib/server/routes/system/karin.js:51 | a `reg` without `/`, `^` or `$` is its own example |
| AppCommands.ToInstructions | lib/server/routes/system/karin.js:50-52 | one instruction per rule, in rule order, holding the rule's `reg` verbatim and its example |
| AppCommands.GroupedDirectory | lib/server/routes/system/karin.js:43-47 | a directory is a key exactly when some command lives in it |
| AppCommands.GroupedName | lib/server/routes/system/karin.js:43-52 | a name is a key under a directory exactly when some command of that directory has that name |
| AppCommands.GroupedLast | lib/server/routes/system/karin.js:50-52 | under a directory and name sit the instructions of the last command with both; earlier ones are overwritten |
| AppCommands.FormatAppCommands | lib/server/routes/system/karin.js:39-56 | the loop computes `GroupCommands`, with the directory, name and last-command-wins properties above |
| CommandsList.DedupSound | lib/server/routes/system/karin.js:77-85 | the reference de-duplication holds each element of the list, and nothing else, exactly once |
| CommandsList.DedupAppend | lib/server/routes/system/karin.js:77-85 | appending to a de-duplicated list and de-duplicating again is de-duplicating the whole |
| CommandsList.KeyFor | lib/server/routes/system/karin.js:70 | a command's key is its plain name exactly when no key of that name exists yet, and `dir - name` otherwise; either way it ends with the name |
| CommandsList.FindReg | lib/server/routes/system/karin.js:77 | `findIndex`: -1 exactly when no entry holds the expression; otherwise the first index holding it |
| CommandsList.MergeRule | lib/server/routes/system/karin.js:77-85 | one rule: a known expression's entry is replaced in place when the command's priority is strictly smaller; an unknown one is pushed |
| CommandsList.MergeRegs | lib/server/routes/system/karin.js:77-85 | merging one expression into a repeat-free list keeps the expressions in place, appends an unseen one, and keeps the list free of repeats |
| CommandsList.MergeEntry | lib/server/routes/system/karin.js:78-82 | an old entry keeps its expression; its priority drops to the command's only when it holds the expression and the command's priority is smaller |
| CommandsList.MergeAppends | lib/server/routes/system/karin.js:83-84 | an expression the list lacks is appended with the command's priority |
| CommandsList.MergeFirstOrder | lib/server/routes/system/karin.js:72-86 | after a command's rules, the list's expressions are the old ones followed by the new ones, each once, in order of first occurrence |
| CommandsList.MergeFirstEntry | lib/server/routes/system/karin.js:80-82 | after a command's rules, an old entry keeps its place and expression, and takes the smaller priority exactly when one of the rules repeats it |
| CommandsList.MergeFirstNewPriority | lib/server/routes/system/karin.js:84 | every entry a command appends carries the command's priority |
| CommandsList.MergeFirstDistinct | lib/server/routes/system/karin.js:77-85 | merging rules keeps a list free of repeats |
| CommandsList.AppendedEntry | lib/server/routes/system/karin.js:83-84 | an appended entry holds one of the command's expressions that the list lacked |
| CommandsList.AddCommandEffect | lib/server/routes/system/karin.js:69-86 | a command without rules changes nothing; otherwise its key is its name, or `dir - name` when the name is taken, and is added if missing; the key's expressions become `Dedup(old + rules)`; every other key keeps its list |
| CommandsList.AddCommandKeepsWellFormed | lib/server/routes/system/karin.js:72-86 | one command keeps every list non-empty and free of repeats |
| CommandsList.RankCommand | lib/server/routes/system/karin.js:69-86 | the per-command loop, which creates the key's list on the first rule and merges each rule, computes `AddCommand` |
| CommandsList.RankCommandsWellFormed | lib/server/routes/system/karin.js:68-87 | after the loop every list is non-empty and free of repeated expressions |
| CommandsList.RankedKeyOrigin | lib/server/routes/system/karin.js:70 | every key is the name, or the `dir - name`, of some command with rules |
| CommandsList.CommandNameIsKey | lib/server/routes/system/karin.js:70 | every command with rules leaves its plain name as a key |
| CommandsList.RankedOrder | lib/server/routes/system/karin.js:68-87 | each key's list holds everything filed under the key, each expression once, in order of first occurrence |
| CommandsList.RankedPriority | lib/server/routes/system/karin.js:80-82 | each entry carries the lowest priority among the commands that filed its expression under that key |
| CommandsList.KeysIgnorePriority | lib/server/routes/system/karin.js:70-75 | commands that differ only in priority produce the same keys |
| CommandsList.PriorityUnobservable | lib/server/routes/system/karin.js:89-92 | commands that differ only in priority give the same keys and the same expressions under each, so the priorities never reach the output |
| CommandsList.DropPriorities | lib/server/routes/system/karin.js:90-92 | the closing loop keeps every key and maps each list to its expressions, with the same length and order |
| CommandsList.FormatCommandsList | lib/server/routes/system/karin.js:65-95 | the route's result: the keys of `RankCommands`; each list is `Dedup` of everything filed under its key, non-empty and free of repeats; every key comes from a command with rules, and every such command's name is a key |

## Left out

- bcrypt, MD5, JSON Web Token signing and `crypto.randomBytes` are not modelled inside. They are function parameters, and only the two facts in `Crypto.Sound` are assumed. Hashing is a function, so bcrypt's random salt (two hashes of one password differ) is not modelled.
- The secret is a parameter `random` of 128 characters, the length of the hex rendering of 64 bytes.
- Wall-clock time is not modelled: the `tokenExpiry` date, the token's `iat` claim, and redis counting a TTL down and expiring keys. A TTL is a number that operations set and reset.
- The file-system and YAML plumbing of `loadUsersFromYAML` (lines 28-42) is not modelled: the existence check, the legacy migration and the `YamlEditor` API. The account file is given already parsed, and the constructor receives its accounts.
- The ordering of `async` calls and the un-awaited `init` in the constructor are not modelled; each method runs to completion on its own.
- UserManagement.UserManager.constructor: requires the loaded accounts to have unique names. With duplicates in a hand-edited file, the in-memory update (first match) and the file update (every record of that name) would drift apart, and `Valid()` could not be kept.
- UserManagement.UserManager.Init: carries the same requirement of unique names, for the same reason.
- UserManagement.UserManager.constructor: the account file is taken to be exactly the records `saveUserToYAML` writes, with the four fields `username`, `password`, `routes`, `status` in that order (`file := Records(stored)`, also in `Init`). A legacy-migrated or hand-edited record that lists `password` or `routes` before `username` is not modelled: `saveUserDataToYAML` would leave that field alone because its `target` flag is not yet set, so `changePassword` or `changePermissions` would change memory without the file, and `Valid()` would no longer describe the state.
- `jwt.verify` is not called by the manager; it appears as `decode` only to say what a token issued by `IssueToken` carries.
- An empty account document (`current.items` on `null`) makes `saveUserDataToYAML` throw. This is not modelled: the file is always a sequence.
- UserManagement.UserManager.Logout: answers true where the source answers the count 1 from `redis.del`. The count is 1 whenever the key was just read as present.
- A JSON `null` stored as a token, and codes that are numbers in one place and strings in the other, are not modelled. Loose `!=` is modelled only for "no code" (`undefined` or `null`) against a string.
- JavaScript objects used as maps inherit prototype keys such as `constructor`, so a command named `constructor` would count as taken. Dafny maps have no such keys, and the modelled maps have no order.
- A tie in priority keeps the first entry. Entries are values here, and an entry with the same expression and priority is the same value, so a tie cannot be observed.
- `getStatsList`, the fastify route handlers, and `lib/server/routes/config/karin.js` are not modelled.
- `status` is stored as `"enabled"` and never read. No operation of the core reads it, so the model does not either.

## Findings

| source | as written | input that shows it | evidently intended | confidence | as-written member | corrected member |
|---|---|---|---|---|---|---|
| lib/user/userManager.js:113-114 | `otp != auth` with loose `!=`, so an absent code (`undefined` or `null`) matches an absent stored code | no one-time code pending, no `otp` supplied, and `username` of an existing account: a session is opened for that account without any code | a quick login needs a pending code and a supplied code equal to it | medium, not executed; it depends on the route handler, which is not part of this model, passing a missing `otp` as `undefined` | UserScenarios.QuickLoginWithoutCode (calling UserManagement.UserManager.QuickLogin) | UserManagement.UserManager.QuickLoginRequiringCode |
