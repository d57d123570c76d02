/** The command registry and dispatcher (`Commands`), and the registry the
    CLI builds at start-up. */
module Commands {
  import opened Wrappers
  import opened Session
  import opened Handlers
  import opened Middleware

  /** `Commands.list`: command name to wrapped handler. */
  type Registry = map<string, Chain>

  /** `register`: installs `c` under `name`, silently replacing an earlier
      registration of that name and leaving every other name alone. */
  function Register(reg: Registry, name: string, c: Chain): (r: Registry)
    ensures name in r && r[name] == c
    ensures forall m :: m != name ==> (m in r <==> m in reg)
    ensures forall m :: m != name && m in reg ==> r[m] == reg[m]
  {
    reg[name := c]
  }

  /** Whether dispatching `cmd` from `st` reaches neither an unchecked
      index nor a nil current user. */
  predicate CanDispatch(reg: Registry, st: State, cmd: Command)
  {
    cmd.name in reg ==> Safe(reg[cmd.name], st, cmd.args)
  }

  /** `run`: looks the command up and runs what is registered under its
      name, returning that result unchanged; an unknown name is reported
      as `CommandNotFound` with nothing run and nothing changed. */
  function Dispatch(reg: Registry, st: State, cmd: Command): (r: Exit)
    requires CanDispatch(reg, st, cmd)
    ensures cmd.name !in reg ==> r == Exit(Fail(CommandNotFound), st)
  {
    if cmd.name !in reg then Exit(Fail(CommandNotFound), st)
    else Run(reg[cmd.name], st, cmd.args)
  }

  /** The names `main` registers. */
  const CommandNames: set<string> :=
    {"login", "register", "reset", "users", "agg", "addfeed", "feeds", "follow", "following", "unfollow"}

  /** The registrations `main` makes; no name is registered twice, so the
      order of the registrations does not matter. Every handler that reads
      the current user sits behind the login guard, and every command
      other than `register` and `addfeed` checks its argument count before
      its handler reads an argument. */
  function SourceRegistry(): (r: Registry)
    ensures r.Keys == CommandNames
    ensures forall name, n: nat :: name in r && name != "register" && name != "addfeed" ==>
      Checked(r[name], n, false)
  {
    map[
      "login" := Leaf(Login),
      "register" := Leaf(HandlerKind.Register),
      "reset" := Leaf(Reset),
      "users" := Leaf(Users),
      "agg" := Leaf(Agg),
      "addfeed" := LoggedIn(Leaf(AddFeed)),
      "feeds" := Leaf(Feeds),
      "follow" := CheckArgs(LoggedIn(Leaf(Follow))),
      "following" := LoggedIn(Leaf(Following)),
      "unfollow" := CheckArgs(LoggedIn(Leaf(Unfollow)))
    ]
  }

  /** The corrected registry: `register` checks for an argument before
      anything else runs, and `addfeed` checks for two once the login guard
      passed. Every other command is registered as `main` registers it, and
      every command passes the structural check for any argument count. */
  function GuardedRegistry(): (r: Registry)
    ensures r.Keys == SourceRegistry().Keys
    ensures forall name :: name in r && name != "register" && name != "addfeed" ==>
      r[name] == SourceRegistry()[name]
    ensures forall name, n: nat :: name in r ==> Checked(r[name], n, false)
  {
    SourceRegistry()[
      "register" := CheckArgs(Leaf(HandlerKind.Register))][
      "addfeed" := LoggedIn(MinArgs(2, Leaf(AddFeed)))]
  }
}
