/** The state a command runs against (`stateInstance` plus the configuration
    collaborator and the store), the command itself, and what running it
    yields. */
module Session {
  import opened Wrappers
  import opened Domain
  import opened Queries
  import Store

  /** The configuration collaborator: the database URL and the configured
      user name. The model never writes it in place; a handler's call of
      `SetUser` is recorded as an effect instead. */
  datatype Config = Config(dbUrl: string, currentUserName: string)

  /** `Command`: a name and its positional arguments. */
  datatype Command = Command(name: string, args: seq<string>)

  /** Every error a command can end with. */
  datatype Err =
    | CommandNotFound      // errNoCommandFound
    | NoArgsProvided       // the argument guard's "no args provided"
    | NoArguments          // the login handler's "no arguments"
    | UserNotFound         // the login guard on a nil user id
    | Db(cause: DbErr)     // a store error, returned unchanged
    | Network(reason: string)

  /** What a command does to the outside world, in order. */
  datatype Effect =
    | Query(call: Call)           // a call into the query layer
    | SetUser(name: string)             // a call of the configuration's SetUser
    | Fetch(url: string)                // an HTTP GET of a feed document
    | UserLine(name: string, current: bool)  // one line of the user listing

  /** `cfg`, the store, the bound current user (nil until the login guard
      binds it), the URLs whose fetch fails and with what reason (a request
      that cannot be built, a network failure or a document that does not
      decode), and the effects performed so far. */
  datatype State = State(
    cfg: Config,
    db: Store.Db,
    currentUser: Option<User>,
    unreachable: map<string, string>,
    trace: seq<Effect>)

  /** The returned `error` (nil is `Pass`) and the state left behind. */
  datatype Exit = Exit(outcome: Outcome<Err>, st: State)

  /** The state after issuing `c`, which left the store as `db`. */
  function Logged(st: State, c: Call, db: Store.Db): State
  {
    st.(db := db, trace := st.trace + [Query(c)])
  }

  /** What no handler changes: the configuration, the bound user, the
      failure behaviour of store and network; effects are only appended. */
  predicate Keeps(st: State, st': State)
  {
    && st'.cfg == st.cfg
    && st'.currentUser == st.currentUser
    && st'.unreachable == st.unreachable
    && st'.db.faults == st.db.faults
    && st.trace <= st'.trace
  }
}
