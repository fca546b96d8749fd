/** The application's domain records (src/types/index.ts) and the JSON shapes the poll list travels in. */
module Domain {
  import opened Wrappers

  /** Milliseconds since the epoch; every `Date` of the application is one of these. */
  type Timestamp = int

  datatype User = User(id: string, email: string, name: string, avatar: Option<string>, createdAt: Timestamp)

  datatype PollOption = PollOption(id: string, text: string, pollId: string, votes: int, voters: seq<string>)

  datatype Poll = Poll(
    id: string,
    title: string,
    description: Option<string>,
    options: seq<PollOption>,
    authorId: string,
    author: User,
    isPublic: bool,
    allowMultipleVotes: bool,
    expiresAt: Option<Timestamp>,
    createdAt: Timestamp,
    updatedAt: Timestamp,
    totalVotes: int
  )

  /** One option as the poll-list endpoint sends it. */
  datatype WireOption = WireOption(id: string, text: string, votes: int)

  /**
   * One poll as the poll-list endpoint sends it. The browse page reads it as untyped JSON,
   * so the fields it guards with `??` are optional here.
   */
  datatype WirePoll = WirePoll(
    id: string,
    title: string,
    description: Option<string>,
    authorId: string,
    isPublic: bool,
    allowMultipleVotes: bool,
    expiresAt: Option<Timestamp>,
    createdAt: Timestamp,
    totalVotes: Option<int>,
    options: Option<seq<WireOption>>
  )
}
