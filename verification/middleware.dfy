/** The guards that wrap a handler before it is registered, and running a
    wrapped handler. */
module Middleware {
  import opened Wrappers
  import opened Domain
  import opened Queries
  import opened Session
  import opened Handlers
  import Store

  /** A handler wrapped in guards, outermost first.
      `CheckArgs` is `middlewareCheckArgs`, `LoggedIn` is
      `middlewareLoggedIn`. `MinArgs(n, _)` demands at least `n` arguments;
      the CLI itself has no such guard: it is the corrected guard that the
      guarded registry uses (`CheckArgs` behaves as `MinArgs(1, _)`). */
  datatype Chain =
    | Leaf(handler: HandlerKind)
    | CheckArgs(inner: Chain)
    | LoggedIn(inner: Chain)
    | MinArgs(min: nat, inner: Chain)

  /** A structural check that is enough for a safe run: the guards of `c`
      demand at least as many arguments as its handler reads when `n`
      arguments are given, and a handler that reads the current user is
      reached only through the login guard unless `bound` says a user is
      already bound. It does not look at the store. */
  predicate Checked(c: Chain, n: nat, bound: bool)
    decreases c
  {
    match c
    case Leaf(h) => n >= Arity(h) && (NeedsUser(h) ==> bound)
    case CheckArgs(inner) => n == 0 || Checked(inner, n, bound)
    case LoggedIn(inner) => Checked(inner, n, true)
    case MinArgs(m, inner) => n < m || Checked(inner, n, bound)
  }

  /** The lookup of the configured name that the login guard makes. */
  function GuardLookup(st: State): (s: Store.Step<User>)
    ensures s.db == st.db
  {
    Store.GetUserByName(st.db, st.cfg.currentUserName)
  }

  /** Whether the login guard lets what it wraps run: the lookup succeeds
      with a non-nil id. */
  predicate GuardPasses(st: State)
  {
    GuardLookup(st).result.Success? && GuardLookup(st).result.value.id != NilId
  }

  /** The state the wrapped handler runs in once the login guard passed:
      the lookup is on the trace and the looked-up user is bound. */
  function GuardBinds(st: State): (st': State)
    requires GuardPasses(st)
    ensures BoundToConfigured(st')
    ensures st'.db == st.db && st'.cfg == st.cfg && st'.unreachable == st.unreachable
    ensures st'.trace == st.trace + [Query(Call.GetUserByName(st.cfg.currentUserName))]
  {
    Logged(st, Call.GetUserByName(st.cfg.currentUserName), GuardLookup(st).db)
      .(currentUser := Some(GuardLookup(st).result.value))
  }

  /** Whether running `c` from `st` with `args` reaches neither an index
      past the end of `args` nor a nil current user. It follows the run
      itself: a login guard that rejects ends the run, so nothing it wraps
      is reached, and `follow` or `unfollow` whose feed lookup fails returns
      before it reads the current user. */
  predicate Safe(c: Chain, st: State, args: seq<string>)
    ensures Checked(c, |args|, st.currentUser.Some?) ==> Safe(c, st, args)
    decreases c
  {
    match c
    case Leaf(h) => |args| >= Arity(h) && (ReachesUser(h, st, args) ==> st.currentUser.Some?)
    case CheckArgs(inner) => |args| == 0 || Safe(inner, st, args)
    case LoggedIn(inner) => !GuardPasses(st) || Safe(inner, GuardBinds(st), args)
    case MinArgs(n, inner) => |args| < n || Safe(inner, st, args)
  }

  /** A bound current user that the login guard could have bound: a user
      with a non-nil id whose name is the configured one. */
  predicate BoundToConfigured(st: State)
  {
    st.currentUser.Some?
    && st.currentUser.value.id != NilId
    && st.currentUser.value.name == st.cfg.currentUserName
  }

  /** Runs the wrapped handler `c`. A guard that rejects returns its error
      without running what it wraps; the login guard binds the looked-up
      user before running what it wraps. */
  function Run(c: Chain, st: State, args: seq<string>): (r: Exit)
    requires Safe(c, st, args)
    ensures st.trace <= r.st.trace
    ensures r.st.cfg == st.cfg
    ensures r.st.unreachable == st.unreachable
    ensures r.st.db.faults == st.db.faults
    ensures r.st.currentUser == st.currentUser || BoundToConfigured(r.st)
    decreases c
  {
    match c
    case Leaf(h) => Handle(h, st, args)
    case CheckArgs(inner) =>
      if |args| == 0 then Exit(Fail(NoArgsProvided), st) else Run(inner, st, args)
    case MinArgs(n, inner) =>
      if |args| < n then Exit(Fail(NoArgsProvided), st) else Run(inner, st, args)
    case LoggedIn(inner) =>
      var s := GuardLookup(st);
      var st1 := Logged(st, Call.GetUserByName(st.cfg.currentUserName), s.db);
      if s.result.Failure? then Exit(Fail(Db(s.result.error)), st1)
      else if s.result.value.id == NilId then Exit(Fail(UserNotFound), st1)
      else Run(inner, GuardBinds(st), args)
  }
}
