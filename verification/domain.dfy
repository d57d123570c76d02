/** The rows the handlers read and write. Timestamps are left out. */
module Domain {

  /** Opaque row identifiers; `NilId` stands for `uuid.Nil`, the all-zero UUID. */
  type Uuid = nat

  const NilId: Uuid := 0

  datatype User = User(id: Uuid, name: string)

  datatype Feed = Feed(id: Uuid, name: string, url: string, userId: Uuid)

  datatype FeedFollow = FeedFollow(id: Uuid, userId: Uuid, feedId: Uuid)

  /** Errors the store can return: `sql.ErrNoRows` for a `:one` query that
      matched nothing, or any refusal of the backing database (constraint
      violation, lost connection, ...), which the model does not interpret. */
  datatype DbErr = NoRows | Refused(reason: string)
}
