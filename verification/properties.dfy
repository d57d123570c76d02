/** Properties of the dispatcher, the guards and the handlers that relate
    several calls or hold for every wrapped handler. */
module Properties {
  import opened Wrappers
  import opened Domain
  import opened Queries
  import opened Session
  import Handlers
  import opened Middleware
  import opened Commands
  import Store

  // ---------------------------------------------------------------- dispatch

  /** Registering `c` under `n` makes dispatching `n` run exactly `c`, and
      leaves dispatching every other name as it was. */
  lemma DispatchAfterRegister(reg: Registry, n: string, c: Chain, st: State, cmd: Command)
    requires CanDispatch(Register(reg, n, c), st, cmd)
    ensures cmd.name == n ==> Dispatch(Register(reg, n, c), st, cmd) == Run(c, st, cmd.args)
    ensures cmd.name != n ==>
      CanDispatch(reg, st, cmd) && Dispatch(Register(reg, n, c), st, cmd) == Dispatch(reg, st, cmd)
  {
  }

  /** Registering a name twice keeps only the second registration. */
  lemma LastRegistrationWins(reg: Registry, n: string, c1: Chain, c2: Chain)
    ensures Register(Register(reg, n, c1), n, c2) == Register(reg, n, c2)
  {
  }

  // ------------------------------------------------------------------ guards

  /** The argument guard rejects an empty argument list before anything is
      run, and otherwise is transparent. */
  lemma ArgumentGuard(c: Chain, st: State, args: seq<string>)
    requires Safe(CheckArgs(c), st, args)
    ensures |args| == 0 ==> Run(CheckArgs(c), st, args) == Exit(Fail(NoArgsProvided), st)
    ensures |args| > 0 ==> Run(CheckArgs(c), st, args) == Run(c, st, args)
    ensures Run(CheckArgs(c), st, args) == Run(MinArgs(1, c), st, args)
  {
  }

  /** `follow` and `unfollow` with no argument fail before any store call. */
  lemma FollowChainsRejectEmptyArgs(st: State, name: string)
    requires name == "follow" || name == "unfollow"
    ensures CanDispatch(SourceRegistry(), st, Command(name, []))
    ensures Dispatch(SourceRegistry(), st, Command(name, [])) == Exit(Fail(NoArgsProvided), st)
  {
  }

  /** The login guard makes one lookup of the configured name. If it fails
      or yields the nil id, the guard returns an error with the current user
      untouched and the wrapped handler not run; otherwise the looked-up user
      is bound before the wrapped handler runs. */
  lemma LoginGuard(c: Chain, st: State, args: seq<string>)
    requires Safe(LoggedIn(c), st, args)
    ensures
      var name := st.cfg.currentUserName;
      var lookup := Store.GetUserByName(st.db, name).result;
      var probed := st.(trace := st.trace + [Query(Call.GetUserByName(name))]);
      var r := Run(LoggedIn(c), st, args);
      && (lookup.Failure? ==> r == Exit(Fail(Db(lookup.error)), probed))
      && (lookup.Success? && lookup.value.id == NilId ==> r == Exit(Fail(UserNotFound), probed))
      && (lookup.Success? && lookup.value.id != NilId ==>
            && lookup.value.name == name
            && r == Run(c, probed.(currentUser := Some(lookup.value)), args))
  {
  }

  // -------------------------------------------------------- unchecked index

  /** `follow` and `unfollow` look the feed up before they read the current
      user: with no user bound, a failed lookup is returned cleanly, and a
      successful one would dereference the nil user. */
  lemma FeedLookupBeforeUser(st: State, h: Handlers.HandlerKind, url: string)
    requires h == Handlers.Follow || h == Handlers.Unfollow
    requires st.currentUser.None?
    ensures
      var lookup := Store.GetFeedByUrl(st.db, url).result;
      && (Safe(Leaf(h), st, [url]) <==> lookup.Failure?)
      && (lookup.Failure? ==>
            Run(Leaf(h), st, [url])
              == Exit(Fail(Db(lookup.error)), st.(trace := st.trace + [Query(Call.GetFeedByUrl(url))])))
  {
  }

  /** As written, `register` with no argument indexes past the end of the
      argument list, and so does `addfeed` with fewer than two once the
      login guard passed; no other command reaches an unchecked index or a
      nil current user. */
  lemma SourceRegistrySafety(st: State, cmd: Command)
    ensures CanDispatch(SourceRegistry(), st, cmd) <==>
      && !(cmd.name == "register" && |cmd.args| == 0)
      && !(cmd.name == "addfeed" && |cmd.args| < 2 && GuardPasses(st))
  {
  }

  /** As written, `register` with no argument reaches the unchecked read of
      the first argument, whether or not a user is bound. */
  lemma RegisterIndexesUnchecked(st: State)
    ensures !CanDispatch(SourceRegistry(), st, Command("register", []))
  {
  }

  /** As written, `addfeed` with one argument, once the login guard passed,
      reaches the unchecked read of the second argument. */
  lemma AddFeedIndexesUnchecked(st: State)
    requires GuardPasses(st)
    ensures !CanDispatch(SourceRegistry(), st, Command("addfeed", ["blog"]))
  {
  }

  /** As written, a short `addfeed` whose login guard rejects never reaches
      the handler: it returns the guard's error after the one lookup. */
  lemma AddFeedGuardRejectsFirst(st: State, args: seq<string>)
    requires |args| < 2 && !GuardPasses(st)
    ensures CanDispatch(SourceRegistry(), st, Command("addfeed", args))
    ensures
      var lookup := GuardLookup(st).result;
      var probed := st.(trace := st.trace + [Query(Call.GetUserByName(st.cfg.currentUserName))]);
      Dispatch(SourceRegistry(), st, Command("addfeed", args))
        == Exit(Fail(if lookup.Failure? then Db(lookup.error) else UserNotFound), probed)
  {
  }

  /** With the argument checks added, every command can be dispatched
      safely. `register` with no argument fails before any store call; a
      short `addfeed` fails after the login lookup alone, with no write,
      and with "no arguments" when the guard passed. */
  lemma GuardedRegistrySafe(st: State, cmd: Command)
    ensures CanDispatch(GuardedRegistry(), st, cmd)
    ensures cmd.name == "register" && |cmd.args| == 0 ==>
      Dispatch(GuardedRegistry(), st, cmd) == Exit(Fail(NoArgsProvided), st)
    ensures cmd.name == "addfeed" && |cmd.args| < 2 ==>
      var r := Dispatch(GuardedRegistry(), st, cmd);
      && r.outcome.Fail?
      && r.st.db == st.db
      && r.st.trace == st.trace + [Query(Call.GetUserByName(st.cfg.currentUserName))]
      && (GuardPasses(st) ==> r.outcome == Fail(NoArgsProvided))
  {
    var reg := GuardedRegistry();
    if cmd.name == "addfeed" && |cmd.args| < 2 {
      assert reg["addfeed"] == LoggedIn(MinArgs(2, Leaf(Handlers.AddFeed)));
    }
  }

  /** The corrected registry behaves exactly as the registry as written on
      every command the latter handles without an unchecked index. */
  lemma GuardedAgreesWithSource(st: State, cmd: Command)
    requires CanDispatch(SourceRegistry(), st, cmd)
    ensures CanDispatch(GuardedRegistry(), st, cmd)
    ensures Dispatch(GuardedRegistry(), st, cmd) == Dispatch(SourceRegistry(), st, cmd)
  {
  }

  // ---------------------------------------------------------------- handlers

  /** No effect of the trace after position `from` is a call of `SetUser`. */
  predicate NoSetUserAfter(t: seq<Effect>, from: nat)
  {
    forall i :: from <= i < |t| ==> !t[i].SetUser?
  }

  /** The handler at the core of `c`. */
  function Core(c: Chain): Handlers.HandlerKind
    decreases c
  {
    match c
    case Leaf(h) => h
    case CheckArgs(inner) => Core(inner)
    case LoggedIn(inner) => Core(inner)
    case MinArgs(_, inner) => Core(inner)
  }

  /** Only the login and register handlers call `SetUser`: the guards and
      every other handler never do. */
  lemma {:induction false} SetUserOnlyByLoginOrRegister(c: Chain, st: State, args: seq<string>)
    requires Safe(c, st, args)
    requires !Core(c).Login? && !Core(c).Register?
    ensures NoSetUserAfter(Run(c, st, args).st.trace, |st.trace|)
    decreases c
  {
    var r := Run(c, st, args);
    match c
    case Leaf(h) =>
      match h {
      case Users =>
        if r.outcome.Pass? {
          var users := Store.GetAllUsers(st.db).result.value;
          forall i | |st.trace| <= i < |r.st.trace| ensures !r.st.trace[i].SetUser? {
            if i > |st.trace| {
              assert r.st.trace[|st.trace| + 1 + (i - |st.trace| - 1)].UserLine?;
            } else {
              assert r.st.trace[..|st.trace| + 1][i] == Query(Call.GetAllUsers);
            }
          }
        }
      case Feeds =>
        if r.outcome.Pass? {
          var feeds := Store.GetAllFeeds(st.db).result.value;
          forall i | |st.trace| <= i < |r.st.trace| ensures !r.st.trace[i].SetUser? {
            if i > |st.trace| {
              var k := i - |st.trace| - 1;
              assert r.st.trace[|st.trace| + 1 + k] == Query(Call.GetUserById(feeds[k].userId));
            }
          }
        }
      case _ =>
      }
    case CheckArgs(inner) =>
      if |args| > 0 {
        SetUserOnlyByLoginOrRegister(inner, st, args);
      }
    case MinArgs(n, inner) =>
      if |args| >= n {
        SetUserOnlyByLoginOrRegister(inner, st, args);
      }
    case LoggedIn(inner) =>
      if GuardPasses(st) {
        var st2 := GuardBinds(st);
        SetUserOnlyByLoginOrRegister(inner, st2, args);
        assert NoSetUserAfter(r.st.trace, |st2.trace|);
      }
  }

  /** The commands that only read leave the store's tables as they were. */
  lemma ReadOnlyCommands(st: State, cmd: Command)
    requires cmd.name in {"login", "users", "agg", "feeds", "following"}
    ensures CanDispatch(SourceRegistry(), st, cmd)
    ensures Dispatch(SourceRegistry(), st, cmd).st.db == st.db
  {
  }

  /** A successful `register name` makes a following `login name` succeed
      and call `SetUser` with `name`, unless the store refuses the lookup;
      no uniqueness of names is needed for this. */
  lemma RegisterThenLogin(st: State, name: string)
    requires Dispatch(SourceRegistry(), st, Command("register", [name])).outcome.Pass?
    requires Call.GetUserByName(name) !in st.db.faults
    ensures
      var st1 := Dispatch(SourceRegistry(), st, Command("register", [name])).st;
      var r := Dispatch(SourceRegistry(), st1, Command("login", [name]));
      && r.outcome.Pass?
      && r.st.trace == st1.trace + [Query(Call.GetUserByName(name)), SetUser(name)]
  {
  }

  /** After a successful `reset`, listing users (when the store answers)
      prints no user line. */
  lemma ResetThenUsersEmpty(st: State)
    requires Handlers.HandleReset(st).outcome.Pass?
    requires Call.GetAllUsers !in st.db.faults
    ensures
      var st1 := Handlers.HandleReset(st).st;
      var r := Handlers.HandleUsers(st1);
      r.outcome.Pass? && r.st.trace == st1.trace + [Query(Call.GetAllUsers)]
  {
  }

  /** A feed created by `addfeed` can be looked up by its URL afterwards
      (unless the store refuses the lookup), though the lookup may return an
      older feed with the same URL, since URLs are not assumed unique. */
  lemma AddFeedThenLookup(st: State, name: string, url: string)
    requires st.currentUser.Some?
    requires Call.CreateFeed(name, url, st.currentUser.value.id) !in st.db.faults
    requires Call.GetFeedByUrl(url) !in st.db.faults
    ensures
      var st1 := Handlers.HandleAddFeed(st, [name, url]).st;
      var lookup := Store.GetFeedByUrl(st1.db, url).result;
      && lookup.Success?
      && lookup.value.url == url
      && (lookup.value in st.db.feeds || lookup.value == st1.db.feeds[|st.db.feeds|])
  {
  }

  /** `follow url` followed by `unfollow url` by the same user leaves every
      follow row of other pairs in place and no follow row of the pair,
      provided the store does not refuse the delete. */
  lemma FollowThenUnfollow(st: State, url: string)
    requires st.currentUser.Some?
    requires Handlers.HandleFollow(st, [url]).outcome.Pass?
    ensures
      var uid := st.currentUser.value.id;
      var feed := Store.GetFeedByUrl(st.db, url).result.value;
      var st1 := Handlers.HandleFollow(st, [url]).st;
      var r := Handlers.HandleUnfollow(st1, [url]);
      && (r.outcome.Pass? <==> Call.DeleteFeedFollows(uid, feed.id) !in st.db.faults)
      && (r.outcome.Pass? ==>
            forall ff :: ff in r.st.db.follows <==>
              ff in st.db.follows && !(ff.userId == uid && ff.feedId == feed.id))
  {
  }
}
