# gator: command dispatch, guards and handlers

This project models the command-line core of `gator`, a small RSS follower
written in Go. It covers the `Commands` registry (`register`, `run`), the two
middleware guards (`middlewareCheckArgs` and `middlewareLoggedIn`), and the
handlers they wrap: `login`, `register`, `reset`, `users`, `agg`, `addfeed`,
`feeds`, `follow`, `following` and `unfollow`.

Every handler is a pure function. It takes a `State` and the command's
arguments and returns an `Exit`, which holds the Go `error` (`Pass` for nil)
and the state left behind. The state holds:

- `cfg`: the configuration collaborator.
- `db`: an in-memory stand-in for the generated query layer.
- `currentUser`: the user the login guard bound, if any.
- `unreachable`: the URLs whose fetch fails: the request cannot be built, the
  network fails, or the document does not decode.
- `trace`: every effect performed so far, in order.

The trace records every store call, every call of the configuration's
`SetUser`, every feed fetch and every printed user line. That is how the
model states "no store access", "the follow is attempted only after the feed
was created" and "`SetUser` is called with the argument".

Modules follow the program's structure:

- `Domain`: the rows.
- `Queries`: the calls into the query layer.
- `Store`: the stand-in store.
- `Session`: the state, the command, the errors and the effects.
- `Handlers`: the handler functions.
- `Middleware`: the guard chain, `Chain`, and `Run`.
- `Commands`: the registry and dispatcher, plus the registry `main` builds.
- `Properties`: properties that relate several calls.

The store has no schema. Each query reads or writes a table. Whether the
database refuses a call is given by the `faults` map. It maps a call, with its
arguments, to the error returned, and it stays the same for the whole run. A
refusal therefore cannot depend on the rows present or change between two
commands; "## Left out" says what this rules out. No uniqueness, foreign-key
or cascade rule is assumed anywhere. Lookups return the first matching row.

Two Go panics are not outcomes of the model:

- a read of an argument that is not there;
- a dereference of a nil current user.

The predicate `Safe` holds exactly of the runs that reach neither. It follows
the run itself. A login guard that rejects ends the run, so a handler behind
it is never reached and cannot panic. Likewise, `follow` and `unfollow` return
a failed feed lookup before they read the current user. `Run` and `Dispatch`
require `Safe`.
The predicate `Checked` is a structural check, blind to the store, that is
enough for `Safe`.

In a few places the code behaves differently from what one might expect of
such a tool. The model follows the code:

- `unfollow` of a feed the user does not follow is not an error. The delete
  simply matches no row.
- The login guard does not reject an empty configured name. It looks that
  name up like any other.
- `addfeed` is not transactional. A refused follow leaves the new feed in
  place.
- `addfeed` and `register` are not behind the argument guard.
- `register` and `login` pass a name to the configuration's `SetUser`. But
  internal/config/config.go:41-42 declares `SetUser()` with no parameter and
  writes the constant `"jose.nieto"`, so the code as committed does not compile.
  The model therefore treats `SetUser(name)` as an action of an abstract
  collaborator. It is recorded in the trace and never written into `cfg`. The
  properties say "the handler calls `SetUser` with the argument", not "the
  configuration then holds the argument".

## Model

| member | source | states |
|---|---|---|
| `Store.CreateUser` | internal/database/users.sql.go:12-30 | the insert succeeds exactly when the store does not refuse it; on success one row with the given name is appended and no other table changes; on refusal nothing changes |
| `Store.GetUserByName` | internal/database/users.sql.go:41-55 | succeeds exactly when the store answers and some user has that name, returning such a user; otherwise returns the refusal or `NoRows`; never writes |
| `Store.DeleteAllUsers` | internal/database/users.sql.go:32-39 | on success the users table is empty; on refusal the store's error is returned and nothing changes |
| `Store.GetAllUsers` | main.go:167 | succeeds exactly when the store does not refuse the listing, and then returns exactly the stored users; a refusal returns the store's error; never writes |
| `Store.GetUserById` | main.go:276 | succeeds exactly when the store answers and some user has that id, returning such a user; otherwise returns the refusal or `NoRows`; never writes |
| `Store.GetAllFeeds` | main.go:268 | succeeds exactly when the store does not refuse the listing, and then returns exactly the stored feeds; a refusal returns the store's error; never writes |
| `Store.CreateFeed` | main.go:248 | on success one feed with the given name, URL and owner is appended and no other table changes; on refusal nothing changes |
| `Store.CreateFeedFollow` | main.go:253 | on success one follow of the given user and feed is appended and no other table changes; on refusal nothing changes |
| `Store.GetFeedByUrl` | main.go:298 | succeeds exactly when the store answers and some feed has that URL, returning such a feed; never writes |
| `Store.DeleteFeedFollows` | main.go:337 | on success exactly the follow rows of the given pair are gone and every other row is kept; on refusal nothing changes |
| `Store.GetFeedFollowsByUserId` | main.go:317 | on success returns exactly the follow rows of that user; a refusal returns the store's error; never writes |
| `Handlers.HandleLogin` | main.go:108-127 | no argument fails with "no arguments" before any store call; otherwise one lookup; succeeds exactly when a user of that name exists and the store answers; only then calls `SetUser(args[0])`; never writes to the store |
| `Handlers.HandleRegister` | main.go:129-142 | issues one create of a user named by the first argument; on success appends exactly that user, leaves feeds and follows alone, and calls `SetUser` with the name; on failure returns the store's error, calls no `SetUser`, changes nothing |
| `Handlers.HandleReset` | main.go:158-164 | one delete-all call; success empties the users table; a refusal is returned unchanged with nothing changed |
| `Handlers.Handle` | main.go:79-88 | no handler changes the configuration, the bound user or the failure maps, and the trace only grows; `login`, `users`, `agg`, `feeds` and `following` leave the store as it was |
| `Handlers.Marks` | main.go:171-177 | one marker per user; once the marker is set it stays set for every later user, and a marker set on entry marks every user |
| `Handlers.ReachesUser` | main.go:296-303 | a handler dereferences the current user only if it is one that uses the user; `follow` and `unfollow` do so only once their feed lookup succeeded |
| `Handlers.MarksMeaning` | main.go:171-177 | the "(current)" marker of user i is set exactly when it was already set or some user at index at most i has the configured name (it is never reset) |
| `Handlers.UserLines` | main.go:171-177 | one printed line per user, in order, marked exactly when a user at or before it has the configured name |
| `Handlers.PrintUsers` | main.go:171-177 | the listing loop as written, with its never-reset marker variable, prints the same marking |
| `Handlers.HandleUsers` | main.go:166-179 | read-only; fails only when the store refuses the listing, and then returns the store's error; otherwise prints one line per returned user with the marking above |
| `Handlers.HandleAgg` | main.go:225-237 | one fetch of the fixed feed URL and nothing else; fails exactly when that URL is unreachable |
| `Handlers.HandleAddFeed` | main.go:239-261 | creates the feed with the bound user's id first; if that is refused, nothing else happens; otherwise the users table is untouched and exactly one follow of (bound user, created feed) is attempted; a refused follow returns the store's error and leaves the new feed in place |
| `Handlers.LookupOwners` | main.go:272-288 | one owner lookup per feed, in order; a failed lookup does not stop the loop; never writes |
| `Handlers.HandleFeeds` | main.go:263-292 | read-only; fails only when the store refuses the feed listing, and then returns the store's error; otherwise one owner lookup per feed, whose failures are skipped |
| `Handlers.HandleFollow` | main.go:294-312 | a failed URL lookup is returned with no follow attempted, and needs no bound user; otherwise exactly one follow of (bound user, found feed) is attempted; a refusal returns the store's error with nothing changed, and a success adds only that row |
| `Handlers.HandleFollowing` | main.go:314-327 | one listing of the bound user's follows; read-only; fails exactly when the store refuses, and then returns the store's error |
| `Handlers.HandleUnfollow` | main.go:329-343 | a failed URL lookup is returned with nothing deleted, and needs no bound user; otherwise a refused delete returns the store's error with nothing changed, and a success deletes only the follow rows of (bound user, found feed) |
| `Middleware.Safe` | main.go:35-61 | a run that passes the structural check (enough arguments checked before each read, the login guard before each use of the current user) reaches neither an unchecked index nor a nil user |
| `Middleware.GuardBinds` | main.go:37-48 | once the login guard passed, the lookup is on the trace and the bound user has a non-nil id and the configured name; the store is not changed |
| `Middleware.Run` | main.go:35-61 | guards and handlers only append to the trace; they never touch the configuration or the failure maps; the bound current user is either unchanged or a user with a non-nil id whose name is the configured one |
| `Commands.Register` | main.go:144-146 | the name now maps to the given chain; every other name keeps its entry or its absence |
| `Commands.Dispatch` | main.go:148-156 | an unknown name fails with `CommandNotFound`, runs nothing and leaves the state unchanged |
| `Properties.DispatchAfterRegister` | main.go:144-155 | after registering `c` under `n`, dispatching `n` gives exactly `c`'s result; dispatching any other name is unchanged |
| `Properties.LastRegistrationWins` | main.go:144-146 | registering a name twice equals registering only the second chain |
| `Properties.ArgumentGuard` | main.go:52-61 | with no arguments the guard fails before running anything and the state is unchanged; otherwise its result is the wrapped chain's; it behaves as a one-argument minimum |
| `Properties.FollowChainsRejectEmptyArgs` | main.go:86-88 | `follow` and `unfollow` with no argument fail with the state unchanged, so no store lookup happens |
| `Properties.LoginGuard` | main.go:35-49 | one lookup of the configured name; a failure or a nil id returns an error with the current user untouched and the wrapped handler not run; otherwise the looked-up user is bound before the wrapped handler runs |
| `Commands.SourceRegistry` | main.go:75-88 | the ten command names are registered; every command except `register` and `addfeed` passes the structural check for any argument count with no user bound |
| `Commands.GuardedRegistry` | main.go:79-88 | the same names, the same chains for every command except `register` and `addfeed`, and every command passes the structural check for any argument count |
| `Properties.FeedLookupBeforeUser` | main.go:296-303 | with no user bound, unguarded `follow` or `unfollow` is safe exactly when its feed lookup fails, and then returns that lookup's error after the one lookup |
| `Properties.SourceRegistrySafety` | main.go:79-88 | as registered, a command reaches an unchecked index or a nil user exactly when it is `register` with no argument, or `addfeed` with fewer than two arguments whose login guard passes |
| `Properties.RegisterIndexesUnchecked` | main.go:129-131 | `register` with no argument reads past the end of the argument list |
| `Properties.AddFeedIndexesUnchecked` | main.go:239-241 | when the login guard passes, `addfeed` with one argument reads past the end of the argument list |
| `Properties.AddFeedGuardRejectsFirst` | main.go:35-44 | a short `addfeed` whose login guard rejects returns the guard's error after the one lookup and never reaches the handler |
| `Properties.GuardedRegistrySafe` | main.go:79-88 | with argument checks on `register` and `addfeed`, every command is safe; `register` with no argument fails before any store call, and a short `addfeed` fails after the login lookup alone with no write |
| `Properties.GuardedAgreesWithSource` | main.go:79-88 | the guarded registry gives the same result as the registry as written on every command that one handles safely |
| `Properties.SetUserOnlyByLoginOrRegister` | main.go:108-142 | no chain around any handler other than login and register ever calls `SetUser` |
| `Properties.ReadOnlyCommands` | main.go:79-88 | `login`, `users`, `agg`, `feeds` and `following`, as registered, leave every table unchanged |
| `Properties.RegisterThenLogin` | main.go:108-142 | after a successful `register name`, `login name` succeeds (unless the store refuses the lookup) and calls `SetUser(name)` |
| `Properties.ResetThenUsersEmpty` | main.go:158-179 | after a successful reset, `users` prints no user line |
| `Properties.AddFeedThenLookup` | main.go:239-261 | after `addfeed name url` creates its feed, a lookup of `url` succeeds (unless refused); it returns the new feed or an older one with the same URL |
| `Properties.FollowThenUnfollow` | main.go:294-343 | after a successful `follow url`, `unfollow url` succeeds exactly when the delete is not refused; it then leaves no follow of the pair and keeps every other earlier follow |

## Left out

- Feed retrieval (`fetchFeed`): the HTTP request, the XML decoding and the HTML unescaping are network and library calls. `agg` is modelled as one `Fetch` effect that fails when the URL is in `unreachable`. The item printing is not modelled. Only the channel title and description would be unescaped (main.go:219-220).
- Configuration I/O (`Read`, `SetUser`, `getConfigFilePath` in internal/config/config.go): this is JSON and file I/O. The configuration is a cell holding the current user name. `SetUser` is an effect, as described above.
- The SQL behind the queries: the schema, generated ids, timestamps and row order are not modelled. The stand-in appends rows, numbers ids from `nextId`, and returns the first matching row. The query files for feeds and follows are not part of this model. Their effects are inferred from the query names and call sites.
- Refusals that depend on the stored rows or on time: `faults` is a fixed function of the call for the whole run. A uniqueness refusal of a repeated `register name` or `follow url` therefore cannot be expressed: if the first call passed, the repeated call passes too and appends a second row. A failure that appears between two commands, such as a lost connection, cannot be expressed either. `Properties.RegisterThenLogin`, `Properties.AddFeedThenLookup` and `Properties.FollowThenUnfollow` rely on this. In each, the later command's calls are refused exactly when the same calls would have been refused before. So, for example, the second feed lookup of `unfollow` cannot fail on its own.
- Store.DeleteAllUsers: says nothing about feeds and follows after a reset, because any cascade lives in the unseen schema. The stand-in leaves those tables untouched, and no property relies on that.
- Store.GetAllUsers: states only which users are returned, not their order, because SQL gives no order without an `ORDER BY`.
- `main`: `sql.Open` (whose error is ignored), `os.Args` parsing, printing and `os.Exit` are process bootstrap. The registrations it makes are modelled as `Commands.SourceRegistry`.
- Printing: the "Welcome", "created", feed and follow listings are left out. The exception is the user listing, whose marking is the point of `handlerUsers`.
- Handlers.HandleFollowing: does not state which feed names are printed, because that is output only.
- Go runtime panics: an index past the end of the arguments and a nil current user are not outcomes of the model. `Safe` excludes exactly those runs, for every chain.
- `context.Context` and cancellation are not modelled. Every call runs to completion.

## Findings

| source | as written | input that shows it | evidently intended | confidence | as-written member | corrected member |
|---|---|---|---|---|---|---|
| main.go:129-131 | `register` is registered with no argument guard, and the handler reads `cmd.Args[0]` unchecked | `register` with no argument | reject the command with an error before any store call, as `login` does | not executed | `Properties.RegisterIndexesUnchecked` | `Properties.GuardedRegistrySafe` |
| main.go:239-241 | `addfeed` is wrapped only in the login guard, and the handler reads `cmd.Args[0]` and `cmd.Args[1]` unchecked | `addfeed blog` (one argument) while the configured user exists | reject commands with fewer than two arguments with an error before any write | not executed | `Properties.AddFeedIndexesUnchecked` | `Properties.GuardedRegistrySafe` |

`Commands.SourceRegistry` stays the model of what `main` registers.
`Commands.GuardedRegistry` is the corrected registry. It wraps `register` in
the argument guard. Inside the login guard of `addfeed` it puts a two-argument
minimum, so a short `addfeed` with no valid user still reports the login
error, as the code does. The corrected registry is safe on every command.
`Properties.GuardedAgreesWithSource` proves that it gives the same result as
the registry as written wherever that one does not panic.
