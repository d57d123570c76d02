/** The command handlers of the CLI, each a pure function from the state and
    the command's arguments to the returned error and the state left behind.
    Every handler returns on the first error of a store call it depends on,
    and passes that error back unchanged; the only errors it skips are those
    of the owner lookups of `feeds`, which are printed and passed over. */
module Handlers {
  import opened Wrappers
  import opened Domain
  import opened Session
  import opened Queries
  import Store

  /** The handlers the CLI registers. */
  datatype HandlerKind =
    | Login | Register | Reset | Users | Agg | AddFeed | Feeds | Follow | Following | Unfollow

  /** How many arguments the handler indexes without checking the length
      first (Go panics if there are fewer). */
  function Arity(h: HandlerKind): nat
  {
    match h
    case Register => 1
    case AddFeed => 2
    case Follow => 1
    case Unfollow => 1
    case _ => 0
  }

  /** Whether the handler dereferences the bound current user (Go panics on
      a nil pointer if it is not bound). */
  predicate NeedsUser(h: HandlerKind)
  {
    h.AddFeed? || h.Follow? || h.Following? || h.Unfollow?
  }

  /** Whether running handler `h` from `st` with `args` reaches a
      dereference of the current user. `follow` and `unfollow` look the
      feed up first and return a failed lookup before they read the user. */
  predicate ReachesUser(h: HandlerKind, st: State, args: seq<string>)
    requires |args| >= Arity(h)
    ensures ReachesUser(h, st, args) ==> NeedsUser(h)
  {
    match h
    case AddFeed => true
    case Following => true
    case Follow => Store.GetFeedByUrl(st.db, args[0]).result.Success?
    case Unfollow => Store.GetFeedByUrl(st.db, args[0]).result.Success?
    case _ => false
  }

  /** The one feed URL the aggregate command fetches. */
  const AggFeedUrl: string := "https://www.wagslane.dev/index.xml"

  /** Runs handler `h`. The five handlers that only read leave the store
      as it was. */
  function Handle(h: HandlerKind, st: State, args: seq<string>): (r: Exit)
    requires |args| >= Arity(h)
    requires ReachesUser(h, st, args) ==> st.currentUser.Some?
    ensures Keeps(st, r.st)
    ensures h in {Login, Users, Agg, Feeds, Following} ==> r.st.db == st.db
  {
    match h
    case Login => HandleLogin(st, args)
    case Register => HandleRegister(st, args)
    case Reset => HandleReset(st)
    case Users => HandleUsers(st)
    case Agg => HandleAgg(st)
    case AddFeed => HandleAddFeed(st, args)
    case Feeds => HandleFeeds(st)
    case Follow => HandleFollow(st, args)
    case Following => HandleFollowing(st)
    case Unfollow => HandleUnfollow(st, args)
  }

  /** `handlerLogin`: switches the configured user to an existing one. It
      checks for an argument before touching the store, calls `SetUser` only
      after the lookup succeeded, and never writes to the store. */
  function HandleLogin(st: State, args: seq<string>): (r: Exit)
    ensures Keeps(st, r.st)
    ensures r.st.db == st.db
    ensures |args| == 0 ==> r == Exit(Fail(NoArguments), st)
    ensures r.outcome.Pass? <==>
      && |args| > 0
      && Call.GetUserByName(args[0]) !in st.db.faults
      && exists u :: u in st.db.users && u.name == args[0]
    ensures |args| > 0 && r.outcome.Pass? ==>
      r.st.trace == st.trace + [Query(Call.GetUserByName(args[0])), SetUser(args[0])]
    ensures |args| > 0 && r.outcome.Fail? ==>
      && r.st.trace == st.trace + [Query(Call.GetUserByName(args[0]))]
      && r.outcome.error == Db(Store.GetUserByName(st.db, args[0]).result.error)
  {
    if |args| == 0 then Exit(Fail(NoArguments), st)
    else
      var name := args[0];
      var s := Store.GetUserByName(st.db, name);
      var st1 := Logged(st, Call.GetUserByName(name), s.db);
      if s.result.Failure? then Exit(Fail(Db(s.result.error)), st1)
      else Exit(Pass, st1.(trace := st1.trace + [SetUser(name)]))
  }

  /** `handlerRegister`: creates a user named by the first argument and
      calls `SetUser` with the created user's name. */
  function HandleRegister(st: State, args: seq<string>): (r: Exit)
    requires |args| >= 1
    ensures Keeps(st, r.st)
    ensures r.outcome.Pass? <==> Call.CreateUser(args[0]) !in st.db.faults
    ensures r.outcome.Fail? ==>
      && r.outcome.error == Db(st.db.faults[Call.CreateUser(args[0])])
      && r.st.db == st.db
      && r.st.trace == st.trace + [Query(Call.CreateUser(args[0]))]
    ensures r.outcome.Pass? ==>
      && r.st.trace == st.trace + [Query(Call.CreateUser(args[0])), SetUser(args[0])]
      && |r.st.db.users| == |st.db.users| + 1
      && r.st.db.users == st.db.users + [r.st.db.users[|st.db.users|]]
      && r.st.db.users[|st.db.users|].name == args[0]
      && r.st.db.feeds == st.db.feeds
      && r.st.db.follows == st.db.follows
  {
    var s := Store.CreateUser(st.db, args[0]);
    var st1 := Logged(st, Call.CreateUser(args[0]), s.db);
    if s.result.Failure? then Exit(Fail(Db(s.result.error)), st1)
    else Exit(Pass, st1.(trace := st1.trace + [SetUser(s.result.value.name)]))
  }

  /** `handlerReset`: deletes every user. */
  function HandleReset(st: State): (r: Exit)
    ensures Keeps(st, r.st)
    ensures r.st.trace == st.trace + [Query(Call.DeleteAllUsers)]
    ensures r.outcome.Pass? <==> Call.DeleteAllUsers !in st.db.faults
    ensures r.outcome.Pass? ==> r.st.db.users == []
    ensures r.outcome.Fail? ==>
      r.st.db == st.db && r.outcome.error == Db(st.db.faults[Call.DeleteAllUsers])
  {
    var s := Store.DeleteAllUsers(st.db);
    var st1 := Logged(st, Call.DeleteAllUsers, s.db);
    if s.result.Failure? then Exit(Fail(Db(s.result.error)), st1) else Exit(Pass, st1)
  }

  /** Whether one of the first `n` users carries the configured name. */
  predicate NamedWithin(users: seq<User>, current: string, n: nat)
    requires n <= |users|
  {
    exists j :: 0 <= j < n && users[j].name == current
  }

  /** The "(current)" marker printed for each user by the listing loop of
      `handlerUsers`, where `seen` says whether the marker is already set.
      Once set, the marker is never cleared. */
  function Marks(users: seq<User>, current: string, seen: bool): (r: seq<bool>)
    ensures |r| == |users|
    ensures seen ==> forall i :: 0 <= i < |r| ==> r[i]
    ensures forall i, j :: 0 <= i <= j < |r| && r[i] ==> r[j]
    decreases |users|
  {
    if |users| == 0 then []
    else
      var m := seen || users[0].name == current;
      [m] + Marks(users[1..], current, m)
  }

  /** A user is marked exactly when the marker was already set or some user
      at or before it carries the configured name. */
  lemma {:induction false} MarksMeaning(users: seq<User>, current: string, seen: bool, i: nat)
    requires i < |users|
    ensures Marks(users, current, seen)[i] <==> seen || NamedWithin(users, current, i + 1)
    decreases i
  {
    var m := seen || users[0].name == current;
    if i > 0 {
      MarksMeaning(users[1..], current, m, i - 1);
      assert Marks(users, current, seen)[i] == Marks(users[1..], current, m)[i - 1];
      if NamedWithin(users[1..], current, i) {
        var j :| 0 <= j < i && users[1..][j].name == current;
        assert users[j + 1].name == current;
      }
      if exists j :: 1 <= j <= i && users[j].name == current {
        var j :| 1 <= j <= i && users[j].name == current;
        assert users[1..][j - 1].name == current;
      }
    }
  }

  /** The lines the listing loop of `handlerUsers` prints. */
  function UserLines(users: seq<User>, current: string): (r: seq<Effect>)
    ensures |r| == |users|
    ensures forall i :: 0 <= i < |users| ==>
      r[i] == UserLine(users[i].name, NamedWithin(users, current, i + 1))
  {
    var marks := Marks(users, current, false);
    forall i | 0 <= i < |users|
      ensures marks[i] <==> NamedWithin(users, current, i + 1)
    {
      MarksMeaning(users, current, false, i);
    }
    seq(|users|, i requires 0 <= i < |users| => UserLine(users[i].name, marks[i]))
  }

  /** The listing loop of `handlerUsers` as written, with its marker
      variable that is set on a name match and never reset. */
  method PrintUsers(users: seq<User>, current: string) returns (lines: seq<Effect>)
    ensures |lines| == |users|
    ensures forall i :: 0 <= i < |users| ==>
      lines[i] == UserLine(users[i].name, NamedWithin(users, current, i + 1))
  {
    var isCurrentUser := false;
    lines := [];
    for k := 0 to |users|
      invariant |lines| == k
      invariant isCurrentUser == NamedWithin(users, current, k)
      invariant forall i :: 0 <= i < k ==>
        lines[i] == UserLine(users[i].name, NamedWithin(users, current, i + 1))
    {
      if current == users[k].name {
        isCurrentUser := true;
      }
      lines := lines + [UserLine(users[k].name, isCurrentUser)];
    }
  }

  /** `handlerUsers`: lists every user, marking each one at or after the
      first user whose name is the configured one. Read-only. */
  function HandleUsers(st: State): (r: Exit)
    ensures Keeps(st, r.st)
    ensures r.st.db == st.db
    ensures r.outcome.Pass? <==> Call.GetAllUsers !in st.db.faults
    ensures r.outcome.Fail? ==>
      && r.outcome.error == Db(st.db.faults[Call.GetAllUsers])
      && r.st.trace == st.trace + [Query(Call.GetAllUsers)]
    ensures r.outcome.Pass? ==>
      var users := Store.GetAllUsers(st.db).result.value;
      && |r.st.trace| == |st.trace| + 1 + |users|
      && r.st.trace[..|st.trace| + 1] == st.trace + [Query(Call.GetAllUsers)]
      && forall i :: 0 <= i < |users| ==>
        r.st.trace[|st.trace| + 1 + i] ==
          UserLine(users[i].name, NamedWithin(users, st.cfg.currentUserName, i + 1))
  {
    var s := Store.GetAllUsers(st.db);
    var st1 := Logged(st, Call.GetAllUsers, s.db);
    if s.result.Failure? then Exit(Fail(Db(s.result.error)), st1)
    else Exit(Pass, st1.(trace := st1.trace + UserLines(s.result.value, st.cfg.currentUserName)))
  }

  /** `handlerRSS`: fetches the one fixed feed URL; decoding and printing of
      the document are not modelled. Never touches the store. */
  function HandleAgg(st: State): (r: Exit)
    ensures Keeps(st, r.st)
    ensures r.st.db == st.db
    ensures r.st.trace == st.trace + [Fetch(AggFeedUrl)]
    ensures r.outcome.Pass? <==> AggFeedUrl !in st.unreachable
    ensures r.outcome.Fail? ==> r.outcome.error == Network(st.unreachable[AggFeedUrl])
  {
    var st1 := st.(trace := st.trace + [Fetch(AggFeedUrl)]);
    if AggFeedUrl in st.unreachable then Exit(Fail(Network(st.unreachable[AggFeedUrl])), st1)
    else Exit(Pass, st1)
  }

  /** `handlerAddFeed`: creates a feed owned by the bound user and then a
      follow of it by that user. The follow is attempted only after the feed
      was created, and with the created feed's id; the two writes are not one
      transaction, so a refused follow leaves the new feed in place. */
  function HandleAddFeed(st: State, args: seq<string>): (r: Exit)
    requires |args| >= 2
    requires st.currentUser.Some?
    ensures Keeps(st, r.st)
    ensures
      var uid := st.currentUser.value.id;
      var create := Call.CreateFeed(args[0], args[1], uid);
      && (create in st.db.faults ==>
            && r.outcome == Fail(Db(st.db.faults[create]))
            && r.st.db == st.db
            && r.st.trace == st.trace + [Query(create)])
      && (create !in st.db.faults ==>
            && r.st.db.users == st.db.users
            && |r.st.db.feeds| == |st.db.feeds| + 1
            && var feed := r.st.db.feeds[|st.db.feeds|];
            && feed.name == args[0] && feed.url == args[1] && feed.userId == uid
            && r.st.db.feeds == st.db.feeds + [feed]
            && r.st.trace == st.trace + [Query(create), Query(Call.CreateFeedFollow(uid, feed.id))]
            && (r.outcome.Pass? <==> Call.CreateFeedFollow(uid, feed.id) !in st.db.faults)
            && (r.outcome.Fail? ==>
                  && r.outcome.error == Db(st.db.faults[Call.CreateFeedFollow(uid, feed.id)])
                  && r.st.db.follows == st.db.follows)
            && (r.outcome.Pass? ==>
                  && |r.st.db.follows| == |st.db.follows| + 1
                  && r.st.db.follows == st.db.follows + [r.st.db.follows[|st.db.follows|]]
                  && r.st.db.follows[|st.db.follows|].userId == uid
                  && r.st.db.follows[|st.db.follows|].feedId == feed.id))
  {
    var uid := st.currentUser.value.id;
    var s1 := Store.CreateFeed(st.db, args[0], args[1], uid);
    var st1 := Logged(st, Call.CreateFeed(args[0], args[1], uid), s1.db);
    if s1.result.Failure? then Exit(Fail(Db(s1.result.error)), st1)
    else
      var feed := s1.result.value;
      var s2 := Store.CreateFeedFollow(st1.db, uid, feed.id);
      var st2 := Logged(st1, Call.CreateFeedFollow(uid, feed.id), s2.db);
      if s2.result.Failure? then Exit(Fail(Db(s2.result.error)), st2) else Exit(Pass, st2)
  }

  /** The owner lookups `handlerGetAllFeeds` makes, one per feed, in order;
      a failed lookup is skipped and does not end the command. */
  function LookupOwners(st: State, feeds: seq<Feed>): (r: State)
    ensures Keeps(st, r)
    ensures r.db == st.db
    ensures |r.trace| == |st.trace| + |feeds|
    ensures forall i :: 0 <= i < |feeds| ==>
      r.trace[|st.trace| + i] == Query(Call.GetUserById(feeds[i].userId))
    decreases |feeds|
  {
    if |feeds| == 0 then st
    else
      var s := Store.GetUserById(st.db, feeds[0].userId);
      var st1 := Logged(st, Call.GetUserById(feeds[0].userId), s.db);
      LookupOwners(st1, feeds[1..])
  }

  /** `handlerGetAllFeeds`: lists every feed and looks up its owner;
      printing is not modelled. Read-only. */
  function HandleFeeds(st: State): (r: Exit)
    ensures Keeps(st, r.st)
    ensures r.st.db == st.db
    ensures r.outcome.Pass? <==> Call.GetAllFeeds !in st.db.faults
    ensures r.outcome.Fail? ==>
      && r.outcome.error == Db(st.db.faults[Call.GetAllFeeds])
      && r.st.trace == st.trace + [Query(Call.GetAllFeeds)]
    ensures r.outcome.Pass? ==>
      var feeds := Store.GetAllFeeds(st.db).result.value;
      && |r.st.trace| == |st.trace| + 1 + |feeds|
      && r.st.trace[|st.trace|] == Query(Call.GetAllFeeds)
      && forall i :: 0 <= i < |feeds| ==>
        r.st.trace[|st.trace| + 1 + i] == Query(Call.GetUserById(feeds[i].userId))
  {
    var s := Store.GetAllFeeds(st.db);
    var st1 := Logged(st, Call.GetAllFeeds, s.db);
    if s.result.Failure? then Exit(Fail(Db(s.result.error)), st1)
    else Exit(Pass, LookupOwners(st1, s.result.value))
  }

  /** `handlerFollow`: looks the feed up by URL and, only if that succeeds,
      creates a follow of that feed by the bound user. */
  function HandleFollow(st: State, args: seq<string>): (r: Exit)
    requires |args| >= 1
    requires Store.GetFeedByUrl(st.db, args[0]).result.Success? ==> st.currentUser.Some?
    ensures Keeps(st, r.st)
    ensures
      var lookup := Store.GetFeedByUrl(st.db, args[0]).result;
      && (lookup.Failure? ==>
            && r.outcome == Fail(Db(lookup.error))
            && r.st.db == st.db
            && r.st.trace == st.trace + [Query(Call.GetFeedByUrl(args[0]))])
      && (lookup.Success? ==>
            var uid := st.currentUser.value.id;
            var follow := Call.CreateFeedFollow(uid, lookup.value.id);
            && lookup.value in st.db.feeds && lookup.value.url == args[0]
            && r.st.trace == st.trace + [Query(Call.GetFeedByUrl(args[0])), Query(follow)]
            && (r.outcome.Pass? <==> follow !in st.db.faults)
            && (r.outcome.Fail? ==> r.outcome.error == Db(st.db.faults[follow]) && r.st.db == st.db)
            && (r.outcome.Pass? ==>
                  && r.st.db.users == st.db.users && r.st.db.feeds == st.db.feeds
                  && |r.st.db.follows| == |st.db.follows| + 1
                  && r.st.db.follows == st.db.follows + [r.st.db.follows[|st.db.follows|]]
                  && r.st.db.follows[|st.db.follows|].userId == uid
                  && r.st.db.follows[|st.db.follows|].feedId == lookup.value.id))
  {
    var s1 := Store.GetFeedByUrl(st.db, args[0]);
    var st1 := Logged(st, Call.GetFeedByUrl(args[0]), s1.db);
    if s1.result.Failure? then Exit(Fail(Db(s1.result.error)), st1)
    else
      var uid := st.currentUser.value.id;
      var feed := s1.result.value;
      var s2 := Store.CreateFeedFollow(st1.db, uid, feed.id);
      var st2 := Logged(st1, Call.CreateFeedFollow(uid, feed.id), s2.db);
      if s2.result.Failure? then Exit(Fail(Db(s2.result.error)), st2) else Exit(Pass, st2)
  }

  /** `handlerFollowing`: lists the follows of the bound user. Read-only. */
  function HandleFollowing(st: State): (r: Exit)
    requires st.currentUser.Some?
    ensures Keeps(st, r.st)
    ensures r.st.db == st.db
    ensures r.st.trace == st.trace + [Query(Call.GetFeedFollowsByUserId(st.currentUser.value.id))]
    ensures r.outcome.Pass? <==>
      Call.GetFeedFollowsByUserId(st.currentUser.value.id) !in st.db.faults
    ensures r.outcome.Fail? ==>
      r.outcome.error == Db(st.db.faults[Call.GetFeedFollowsByUserId(st.currentUser.value.id)])
  {
    var uid := st.currentUser.value.id;
    var s := Store.GetFeedFollowsByUserId(st.db, uid);
    var st1 := Logged(st, Call.GetFeedFollowsByUserId(uid), s.db);
    if s.result.Failure? then Exit(Fail(Db(s.result.error)), st1) else Exit(Pass, st1)
  }

  /** `handlerUnfollow`: looks the feed up by URL and, only if that succeeds,
      deletes the bound user's follows of that feed and no other row. */
  function HandleUnfollow(st: State, args: seq<string>): (r: Exit)
    requires |args| >= 1
    requires Store.GetFeedByUrl(st.db, args[0]).result.Success? ==> st.currentUser.Some?
    ensures Keeps(st, r.st)
    ensures
      var lookup := Store.GetFeedByUrl(st.db, args[0]).result;
      && (lookup.Failure? ==>
            && r.outcome == Fail(Db(lookup.error))
            && r.st.db == st.db
            && r.st.trace == st.trace + [Query(Call.GetFeedByUrl(args[0]))])
      && (lookup.Success? ==>
            var uid := st.currentUser.value.id;
            var delete := Call.DeleteFeedFollows(uid, lookup.value.id);
            && lookup.value in st.db.feeds && lookup.value.url == args[0]
            && r.st.trace == st.trace + [Query(Call.GetFeedByUrl(args[0])), Query(delete)]
            && (r.outcome.Pass? <==> delete !in st.db.faults)
            && (r.outcome.Fail? ==> r.outcome.error == Db(st.db.faults[delete]) && r.st.db == st.db)
            && (r.outcome.Pass? ==>
                  && r.st.db == st.db.(follows := r.st.db.follows)
                  && forall ff :: ff in r.st.db.follows <==>
                       ff in st.db.follows && !(ff.userId == uid && ff.feedId == lookup.value.id)))
  {
    var s1 := Store.GetFeedByUrl(st.db, args[0]);
    var st1 := Logged(st, Call.GetFeedByUrl(args[0]), s1.db);
    if s1.result.Failure? then Exit(Fail(Db(s1.result.error)), st1)
    else
      var uid := st.currentUser.value.id;
      var feed := s1.result.value;
      var s2 := Store.DeleteFeedFollows(st1.db, uid, feed.id);
      var st2 := Logged(st1, Call.DeleteFeedFollows(uid, feed.id), s2.db);
      if s2.result.Failure? then Exit(Fail(Db(s2.result.error)), st2) else Exit(Pass, st2)
  }
}
