/** The calls the command handlers make into the generated query layer
    (`database.Queries`), with their arguments. */
module Queries {
  import opened Domain

  datatype Call =
    | CreateUser(name: string)
    | GetUserByName(name: string)
    | GetUserById(id: Uuid)
    | GetAllUsers
    | DeleteAllUsers
    | CreateFeed(name: string, url: string, userId: Uuid)
    | GetAllFeeds
    | GetFeedByUrl(url: string)
    | CreateFeedFollow(userId: Uuid, feedId: Uuid)
    | GetFeedFollowsByUserId(userId: Uuid)
    | DeleteFeedFollows(userId: Uuid, feedId: Uuid)
}
