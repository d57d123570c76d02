/** An in-memory stand-in for the generated query layer (`database.Queries`).
    Each query reads or writes three tables. Whether the backing database
    refuses a call is decided by the `faults` map, a fixed function of the
    call for the whole run: a refusal cannot depend on the rows present or
    appear between two commands. No uniqueness, foreign-key or cascade rule
    is assumed anywhere. */
module Store {
  import opened Wrappers
  import opened Domain
  import opened Queries

  /** The tables, the next identifier the database will hand out, and the
      calls the database refuses together with the error it returns; no
      query changes the refused calls. */
  datatype Db = Db(
    users: seq<User>,
    feeds: seq<Feed>,
    follows: seq<FeedFollow>,
    nextId: Uuid,
    faults: map<Call, DbErr>)

  /** The answer to one query and the database after it. */
  datatype Step<+T> = Step(result: Result<T, DbErr>, db: Db)

  /** Index of the first element of `s` satisfying `p`, if there is one. */
  function FindFirst<T>(s: seq<T>, p: T -> bool): (r: Option<nat>)
    ensures r.Some? ==> r.value < |s| && p(s[r.value])
    ensures r.Some? ==> forall j :: 0 <= j < r.value ==> !p(s[j])
    ensures r.None? ==> forall j :: 0 <= j < |s| ==> !p(s[j])
    decreases |s|
  {
    if |s| == 0 then None
    else if p(s[0]) then Some(0)
    else match FindFirst(s[1..], p)
      case None => None
      case Some(i) => Some(i + 1)
  }

  /** The elements of `s` satisfying `p`, in order. */
  function Keep<T(!new)>(s: seq<T>, p: T -> bool): (r: seq<T>)
    ensures forall x :: x in r <==> x in s && p(x)
    ensures |r| <= |s|
    decreases |s|
  {
    if |s| == 0 then []
    else (if p(s[0]) then [s[0]] else []) + Keep(s[1..], p)
  }

  /** `CreateUser`: inserts a user with the given name. */
  function CreateUser(db: Db, name: string): (r: Step<User>)
    ensures r.db.faults == db.faults
    ensures r.result.Success? <==> Call.CreateUser(name) !in db.faults
    ensures r.result.Failure? ==> r.db == db && r.result.error == db.faults[Call.CreateUser(name)]
    ensures r.result.Success? ==>
      && r.result.value.name == name
      && r.db == db.(users := db.users + [r.result.value], nextId := r.db.nextId)
  {
    var c := Call.CreateUser(name);
    if c in db.faults then Step(Failure(db.faults[c]), db)
    else
      var u := User(db.nextId, name);
      Step(Success(u), db.(users := db.users + [u], nextId := db.nextId + 1))
  }

  /** `GetUserByName`: a user row with that name, or `NoRows`. */
  function GetUserByName(db: Db, name: string): (r: Step<User>)
    ensures r.db == db
    ensures r.result.Success? <==>
      Call.GetUserByName(name) !in db.faults && exists u :: u in db.users && u.name == name
    ensures r.result.Success? ==> r.result.value in db.users && r.result.value.name == name
    ensures r.result.Failure? && Call.GetUserByName(name) in db.faults ==>
      r.result.error == db.faults[Call.GetUserByName(name)]
    ensures r.result.Failure? && Call.GetUserByName(name) !in db.faults ==> r.result.error == NoRows
  {
    var c := Call.GetUserByName(name);
    if c in db.faults then Step(Failure(db.faults[c]), db)
    else match FindFirst(db.users, (u: User) => u.name == name)
      case Some(i) => Step(Success(db.users[i]), db)
      case None => Step(Failure(NoRows), db)
  }

  /** `GetUserByID`: the user row with that identifier, or `NoRows`. */
  function GetUserById(db: Db, id: Uuid): (r: Step<User>)
    ensures r.db == db
    ensures r.result.Success? <==>
      Call.GetUserById(id) !in db.faults && exists u :: u in db.users && u.id == id
    ensures r.result.Success? ==> r.result.value in db.users && r.result.value.id == id
    ensures r.result.Failure? && Call.GetUserById(id) in db.faults ==>
      r.result.error == db.faults[Call.GetUserById(id)]
    ensures r.result.Failure? && Call.GetUserById(id) !in db.faults ==> r.result.error == NoRows
  {
    var c := Call.GetUserById(id);
    if c in db.faults then Step(Failure(db.faults[c]), db)
    else match FindFirst(db.users, (u: User) => u.id == id)
      case Some(i) => Step(Success(db.users[i]), db)
      case None => Step(Failure(NoRows), db)
  }

  /** `GetAllUsers`: every user row. */
  function GetAllUsers(db: Db): (r: Step<seq<User>>)
    ensures r.db == db
    ensures r.result.Success? <==> Call.GetAllUsers !in db.faults
    ensures r.result.Failure? ==> r.result.error == db.faults[Call.GetAllUsers]
    ensures r.result.Success? ==> forall u :: u in r.result.value <==> u in db.users
  {
    if Call.GetAllUsers in db.faults then Step(Failure(db.faults[Call.GetAllUsers]), db)
    else Step(Success(db.users), db)
  }

  /** `DeleteAllUsers`: empties the users table. What happens to the feeds
      and follows that reference those users is up to the schema; the
      stand-in leaves those tables alone and nothing in the model relies on it. */
  function DeleteAllUsers(db: Db): (r: Step<()>)
    ensures r.db.faults == db.faults
    ensures r.result.Success? <==> Call.DeleteAllUsers !in db.faults
    ensures r.result.Success? ==> r.db.users == []
    ensures r.result.Failure? ==> r.db == db && r.result.error == db.faults[Call.DeleteAllUsers]
  {
    if Call.DeleteAllUsers in db.faults then Step(Failure(db.faults[Call.DeleteAllUsers]), db)
    else Step(Success(()), db.(users := []))
  }

  /** `CreateFeed`: inserts a feed row owned by `userId`. */
  function CreateFeed(db: Db, name: string, url: string, userId: Uuid): (r: Step<Feed>)
    ensures r.db.faults == db.faults
    ensures r.result.Success? <==> Call.CreateFeed(name, url, userId) !in db.faults
    ensures r.result.Failure? ==>
      r.db == db && r.result.error == db.faults[Call.CreateFeed(name, url, userId)]
    ensures r.result.Success? ==>
      && r.result.value.name == name
      && r.result.value.url == url
      && r.result.value.userId == userId
      && r.db == db.(feeds := db.feeds + [r.result.value], nextId := r.db.nextId)
  {
    var c := Call.CreateFeed(name, url, userId);
    if c in db.faults then Step(Failure(db.faults[c]), db)
    else
      var f := Feed(db.nextId, name, url, userId);
      Step(Success(f), db.(feeds := db.feeds + [f], nextId := db.nextId + 1))
  }

  /** `GetAllFeeds`: every feed row. */
  function GetAllFeeds(db: Db): (r: Step<seq<Feed>>)
    ensures r.db == db
    ensures r.result.Success? <==> Call.GetAllFeeds !in db.faults
    ensures r.result.Failure? ==> r.result.error == db.faults[Call.GetAllFeeds]
    ensures r.result.Success? ==> forall f :: f in r.result.value <==> f in db.feeds
  {
    if Call.GetAllFeeds in db.faults then Step(Failure(db.faults[Call.GetAllFeeds]), db)
    else Step(Success(db.feeds), db)
  }

  /** `GetFeedByUrl`: a feed row with that URL, or `NoRows`. */
  function GetFeedByUrl(db: Db, url: string): (r: Step<Feed>)
    ensures r.db == db
    ensures r.result.Success? <==>
      Call.GetFeedByUrl(url) !in db.faults && exists f :: f in db.feeds && f.url == url
    ensures r.result.Success? ==> r.result.value in db.feeds && r.result.value.url == url
    ensures r.result.Failure? && Call.GetFeedByUrl(url) in db.faults ==>
      r.result.error == db.faults[Call.GetFeedByUrl(url)]
    ensures r.result.Failure? && Call.GetFeedByUrl(url) !in db.faults ==> r.result.error == NoRows
  {
    var c := Call.GetFeedByUrl(url);
    if c in db.faults then Step(Failure(db.faults[c]), db)
    else match FindFirst(db.feeds, (f: Feed) => f.url == url)
      case Some(i) => Step(Success(db.feeds[i]), db)
      case None => Step(Failure(NoRows), db)
  }

  /** `CreateFeedFollow`: inserts a follow row for the pair. */
  function CreateFeedFollow(db: Db, userId: Uuid, feedId: Uuid): (r: Step<FeedFollow>)
    ensures r.db.faults == db.faults
    ensures r.result.Success? <==> Call.CreateFeedFollow(userId, feedId) !in db.faults
    ensures r.result.Failure? ==>
      r.db == db && r.result.error == db.faults[Call.CreateFeedFollow(userId, feedId)]
    ensures r.result.Success? ==>
      && r.result.value.userId == userId
      && r.result.value.feedId == feedId
      && r.db == db.(follows := db.follows + [r.result.value], nextId := r.db.nextId)
  {
    var c := Call.CreateFeedFollow(userId, feedId);
    if c in db.faults then Step(Failure(db.faults[c]), db)
    else
      var ff := FeedFollow(db.nextId, userId, feedId);
      Step(Success(ff), db.(follows := db.follows + [ff], nextId := db.nextId + 1))
  }

  /** `GetFeedFollowsByUserId`: the follow rows of one user. */
  function GetFeedFollowsByUserId(db: Db, userId: Uuid): (r: Step<seq<FeedFollow>>)
    ensures r.db == db
    ensures r.result.Success? <==> Call.GetFeedFollowsByUserId(userId) !in db.faults
    ensures r.result.Failure? ==> r.result.error == db.faults[Call.GetFeedFollowsByUserId(userId)]
    ensures r.result.Success? ==>
      forall ff :: ff in r.result.value <==> ff in db.follows && ff.userId == userId
  {
    var c := Call.GetFeedFollowsByUserId(userId);
    if c in db.faults then Step(Failure(db.faults[c]), db)
    else Step(Success(Keep(db.follows, (ff: FeedFollow) => ff.userId == userId)), db)
  }

  /** `DeleteFeedFollowsByUserIdAndFeedId`: removes every follow row of the
      pair; matching no row is not an error. */
  function DeleteFeedFollows(db: Db, userId: Uuid, feedId: Uuid): (r: Step<()>)
    ensures r.db.faults == db.faults
    ensures r.result.Success? <==> Call.DeleteFeedFollows(userId, feedId) !in db.faults
    ensures r.result.Failure? ==>
      r.db == db && r.result.error == db.faults[Call.DeleteFeedFollows(userId, feedId)]
    ensures r.result.Success? ==> r.db == db.(follows := r.db.follows)
    ensures r.result.Success? ==> forall ff :: ff in r.db.follows <==>
      ff in db.follows && !(ff.userId == userId && ff.feedId == feedId)
  {
    var c := Call.DeleteFeedFollows(userId, feedId);
    if c in db.faults then Step(Failure(db.faults[c]), db)
    else
      var kept := Keep(db.follows, (ff: FeedFollow) => !(ff.userId == userId && ff.feedId == feedId));
      Step(Success(()), db.(follows := kept))
  }
}
