/**
 * The poll collection endpoint (src/app/api/polls/route.ts): listing polls with an option
 * preview, and creating a poll with its options. Database reads and writes are parameters
 * (what the database answered) and results (what would be written).
 */
module PollsApi {
  import opened Wrappers
  import opened Domain
  import Validation

  /** How many options each listed poll previews. */
  const PreviewLimit := 5

  // ---------------------------------------------------------------------------
  // GET: listing
  // ---------------------------------------------------------------------------

  /** A row of the per-poll statistics view. */
  datatype PollStatsRow = PollStatsRow(
    pollId: string,
    title: string,
    authorId: string,
    isPublic: bool,
    allowMultipleVotes: bool,
    expiresAt: Option<Timestamp>,
    createdAt: Timestamp,
    totalVotes: Option<int>
  )

  /** A row of the per-option statistics view. */
  datatype OptionStatsRow = OptionStatsRow(optionId: string, pollId: string, optionText: string, voteCount: Option<int>)

  /** An option row once grouped under its poll. */
  datatype GroupedOption = GroupedOption(id: string, optionText: string, voteCount: int)

  /** The answer to a database query: its rows, or the database's error. */
  datatype Query<T> = Rows(rows: seq<T>) | QueryError(message: string)

  /** `Number(count || 0)`: a missing count reads as 0, a present one as itself. */
  function CountOrZero(count: Option<int>): (n: int)
    ensures count.None? ==> n == 0
    ensures count.Some? ==> n == count.value
  {
    if count.Some? && count.value != 0 then count.value else 0
  }

  function Shape(row: OptionStatsRow): GroupedOption {
    GroupedOption(row.optionId, row.optionText, CountOrZero(row.voteCount))
  }

  /** The shaped option rows of poll `pollId`, in row order. */
  function RowsOf(rows: seq<OptionStatsRow>, pollId: string): (r: seq<GroupedOption>)
    ensures |r| <= |rows|
  {
    if |rows| == 0 then []
    else (if rows[0].pollId == pollId then [Shape(rows[0])] else []) + RowsOf(rows[1..], pollId)
  }

  /** Grouping keeps row order: the rows of an earlier batch come before those of a later one. */
  lemma {:induction false} RowsOfAppend(a: seq<OptionStatsRow>, b: seq<OptionStatsRow>, pollId: string)
    ensures RowsOf(a + b, pollId) == RowsOf(a, pollId) + RowsOf(b, pollId)
  {
    if |a| == 0 {
      assert a + b == b;
    } else {
      var head := if a[0].pollId == pollId then [Shape(a[0])] else [];
      assert (a + b)[0] == a[0];
      assert (a + b)[1..] == a[1..] + b;
      RowsOfAppend(a[1..], b, pollId);
      assert RowsOf(a + b, pollId) == head + RowsOf(a[1..] + b, pollId);
      assert RowsOf(a, pollId) == head + RowsOf(a[1..], pollId);
    }
  }

  /** Each grouped option comes from a row of that poll. */
  lemma {:induction false} RowsOfComeFromRows(rows: seq<OptionStatsRow>, pollId: string, o: GroupedOption)
    requires o in RowsOf(rows, pollId)
    ensures exists row :: row in rows && row.pollId == pollId && Shape(row) == o
  {
    if rows[0].pollId == pollId && o == Shape(rows[0]) {
      assert rows[0] in rows;
    } else {
      RowsOfComeFromRows(rows[1..], pollId, o);
      var row :| row in rows[1..] && row.pollId == pollId && Shape(row) == o;
      assert row in rows;
    }
  }

  /** One more row adds its shaped form to the end of its own poll's group only. */
  lemma RowsOfSnoc(rows: seq<OptionStatsRow>, i: nat, pollId: string)
    requires i < |rows|
    ensures RowsOf(rows[..i + 1], pollId)
      == RowsOf(rows[..i], pollId) + (if rows[i].pollId == pollId then [Shape(rows[i])] else [])
  {
    assert rows[..i + 1] == rows[..i] + [rows[i]];
    RowsOfAppend(rows[..i], [rows[i]], pollId);
    assert [rows[i]][1..] == [];
  }

  /** `groups` maps each poll id that has rows in `rows` to exactly those rows, and has no other keys. */
  ghost predicate Grouped(groups: map<string, seq<GroupedOption>>, rows: seq<OptionStatsRow>) {
    forall pollId ::
      && (pollId in groups <==> RowsOf(rows, pollId) != [])
      && (pollId in groups ==> groups[pollId] == RowsOf(rows, pollId))
  }

  /** One iteration of the grouping loop: the row joins the end of its poll's list. */
  function AddRow(groups: map<string, seq<GroupedOption>>, row: OptionStatsRow): map<string, seq<GroupedOption>> {
    var list := if row.pollId in groups then groups[row.pollId] else [];
    groups[row.pollId := list + [Shape(row)]]
  }

  lemma AddRowKeepsGrouped(groups: map<string, seq<GroupedOption>>, rows: seq<OptionStatsRow>, i: nat)
    requires i < |rows| && Grouped(groups, rows[..i])
    ensures Grouped(AddRow(groups, rows[i]), rows[..i + 1])
  {
    var next := AddRow(groups, rows[i]);
    forall pollId
      ensures pollId in next <==> RowsOf(rows[..i + 1], pollId) != []
      ensures pollId in next ==> next[pollId] == RowsOf(rows[..i + 1], pollId)
    {
      RowsOfSnoc(rows, i, pollId);
    }
  }

  /**
   * The grouping loop: each poll id met in the rows maps to its rows, shaped, in row order;
   * ids with no rows are absent.
   */
  method GroupByPoll(rows: seq<OptionStatsRow>) returns (groups: map<string, seq<GroupedOption>>)
    ensures forall pollId :: pollId in groups <==> RowsOf(rows, pollId) != []
    ensures forall pollId :: pollId in groups ==> groups[pollId] == RowsOf(rows, pollId)
  {
    groups := map[];
    var i := 0;
    while i < |rows|
      invariant 0 <= i <= |rows|
      invariant Grouped(groups, rows[..i])
    {
      AddRowKeepsGrouped(groups, rows, i);
      groups := AddRow(groups, rows[i]);
      i := i + 1;
    }
    assert rows[..|rows|] == rows;
  }

  /** `optionsByPoll[id] ?? []`. */
  function GroupOf(groups: map<string, seq<GroupedOption>>, pollId: string): seq<GroupedOption> {
    if pollId in groups then groups[pollId] else []
  }

  function ToWireOption(o: GroupedOption): WireOption {
    WireOption(o.id, o.optionText, o.voteCount)
  }

  /** `.slice(0, 5).map(...)`: the first five options of a group, or all when fewer. */
  function Preview(group: seq<GroupedOption>): (r: seq<WireOption>)
    ensures |r| <= PreviewLimit
    ensures |r| == if |group| < PreviewLimit then |group| else PreviewLimit
    ensures forall i :: 0 <= i < |r| ==> r[i] == ToWireOption(group[i])
  {
    if |group| == 0 || PreviewLimit == 0 then []
    else [ToWireOption(group[0])] + PreviewUpTo(group[1..], PreviewLimit - 1)
  }

  function PreviewUpTo(group: seq<GroupedOption>, limit: nat): (r: seq<WireOption>)
    ensures |r| == if |group| < limit then |group| else limit
    ensures forall i :: 0 <= i < |r| ==> r[i] == ToWireOption(group[i])
  {
    if |group| == 0 || limit == 0 then []
    else [ToWireOption(group[0])] + PreviewUpTo(group[1..], limit - 1)
  }

  /** One listed poll: the view's row with its option preview; no description is sent. */
  function ListedPoll(p: PollStatsRow, group: seq<GroupedOption>): (w: WirePoll)
    ensures w.id == p.pollId && w.title == p.title && w.authorId == p.authorId
    ensures w.isPublic == p.isPublic && w.allowMultipleVotes == p.allowMultipleVotes
    ensures w.expiresAt == p.expiresAt && w.createdAt == p.createdAt
    ensures w.description.None?
    ensures w.totalVotes == Some(CountOrZero(p.totalVotes))
    ensures w.options == Some(Preview(group))
  {
    WirePoll(p.pollId, p.title, None, p.authorId, p.isPublic, p.allowMultipleVotes,
      p.expiresAt, p.createdAt, Some(CountOrZero(p.totalVotes)), Some(Preview(group)))
  }

  /** The listing payload: one entry per poll row, in order, each with its own options. */
  function Payload(polls: seq<PollStatsRow>, rows: seq<OptionStatsRow>): (r: seq<WirePoll>)
    ensures |r| == |polls|
    ensures forall i :: 0 <= i < |r| ==> r[i] == ListedPoll(polls[i], RowsOf(rows, polls[i].pollId))
  {
    if |polls| == 0 then []
    else [ListedPoll(polls[0], RowsOf(rows, polls[0].pollId))] + Payload(polls[1..], rows)
  }

  lemma {:induction false} PayloadAppend(a: seq<PollStatsRow>, b: seq<PollStatsRow>, rows: seq<OptionStatsRow>)
    ensures Payload(a + b, rows) == Payload(a, rows) + Payload(b, rows)
  {
    if |a| == 0 {
      assert a + b == b;
    } else {
      assert (a + b)[0] == a[0];
      assert (a + b)[1..] == a[1..] + b;
      PayloadAppend(a[1..], b, rows);
    }
  }

  /** One more poll row adds its own entry at the end of the payload. */
  lemma PayloadSnoc(polls: seq<PollStatsRow>, i: nat, rows: seq<OptionStatsRow>)
    requires i < |polls|
    ensures Payload(polls[..i + 1], rows)
      == Payload(polls[..i], rows) + [ListedPoll(polls[i], RowsOf(rows, polls[i].pollId))]
  {
    assert polls[..i + 1] == polls[..i] + [polls[i]];
    PayloadAppend(polls[..i], [polls[i]], rows);
    assert [polls[i]][1..] == [];
  }

  /**
   * The `payload` map over the poll rows, given the grouping of `optionRows`: each poll's
   * entry is built from its own group, or from no options when it has none.
   */
  method BuildPayload(rows: seq<PollStatsRow>, groups: map<string, seq<GroupedOption>>, optionRows: seq<OptionStatsRow>)
    returns (data: seq<WirePoll>)
    requires forall pollId :: GroupOf(groups, pollId) == RowsOf(optionRows, pollId)
    ensures data == Payload(rows, optionRows)
  {
    data := [];
    var i := 0;
    while i < |rows|
      invariant 0 <= i <= |rows|
      invariant data == Payload(rows[..i], optionRows)
    {
      var p := rows[i];
      PayloadSnoc(rows, i, optionRows);
      data := data + [ListedPoll(p, GroupOf(groups, p.pollId))];
      i := i + 1;
    }
    assert rows[..|rows|] == rows;
  }

  /**
   * `GET /api/polls`: a failed poll query answers 500 with the database's message; otherwise
   * 200 with one entry per poll, in the order the view returned them, each previewing the
   * first five of its own option rows in row order.
   */
  method ListPolls(polls: Query<PollStatsRow>, optionRows: seq<OptionStatsRow>)
    returns (response: Response<seq<WirePoll>>)
    ensures polls.QueryError? ==> response == Response(500, Error(polls.message))
    ensures polls.Rows? ==> response == Response(200, Data(Payload(polls.rows, optionRows)))
  {
    if polls.QueryError? {
      return Response(500, Error(polls.message));
    }
    var rows := polls.rows;
    var data: seq<WirePoll> := [];
    if |rows| > 0 {
      var groups := GroupByPoll(optionRows);
      data := BuildPayload(rows, groups, optionRows);
    }
    return Response(200, Data(data));
  }

  // ---------------------------------------------------------------------------
  // POST: creation
  // ---------------------------------------------------------------------------

  /** The request body's fields; `options` is `None` when the body's value is not an array. */
  datatype PostBody = PostBody(
    title: Option<string>,
    description: Option<string>,
    options: Option<seq<string>>,
    isPublic: Option<bool>,
    allowMultipleVotes: Option<bool>,
    expiresAt: Option<string>
  )

  /** The poll row written to the database. */
  datatype PollInsert = PollInsert(
    authorId: string,
    title: string,
    description: Option<string>,
    isPublic: Option<bool>,
    allowMultipleVotes: Option<bool>,
    expiresAt: Option<string>
  )

  /** One option row written to the database. */
  datatype OptionInsert = OptionInsert(pollId: string, optionText: string, position: nat)

  /** The database's answer to the poll insert; an empty message stands for no message. */
  datatype InsertReply = Inserted(id: string) | InsertFailed(message: string)

  /** The response and the writes one request makes. */
  datatype PostOutcome = PostOutcome(
    response: Response<string>,
    pollWrite: Option<PollInsert>,
    optionWrite: Option<seq<OptionInsert>>
  )

  /** The payload check: a non-empty title and an array of at least two options. */
  predicate PayloadOk(body: PostBody) {
    && body.title.Some? && body.title.value != ""
    && body.options.Some? && |body.options.value| >= 2
  }

  /** An absent or empty expiry is stored as null. */
  function StoredExpiry(expiresAt: Option<string>): (r: Option<string>)
    ensures r.None? <==> expiresAt.None? || expiresAt.value == ""
    ensures r.Some? ==> r == expiresAt
  {
    if expiresAt.Some? && expiresAt.value != "" then expiresAt else None
  }

  /** `options.map((text, idx) => ...)` for the options from position `start` on. */
  function OptionRowsFrom(pollId: string, options: seq<string>, start: nat): (r: seq<OptionInsert>)
    ensures |r| == |options|
    ensures forall i :: 0 <= i < |r| ==> r[i] == OptionInsert(pollId, options[i], start + i)
  {
    if |options| == 0 then []
    else [OptionInsert(pollId, options[0], start)] + OptionRowsFrom(pollId, options[1..], start + 1)
  }

  /** The option rows of a new poll: each text unchanged, under the new id, at its own index. */
  function OptionRows(pollId: string, options: seq<string>): (r: seq<OptionInsert>)
    ensures |r| == |options|
    ensures forall i :: 0 <= i < |r| ==>
      r[i].pollId == pollId && r[i].optionText == options[i] && r[i].position == i
  {
    OptionRowsFrom(pollId, options, 0)
  }

  function Texts(rows: seq<OptionInsert>): seq<string> {
    if |rows| == 0 then [] else [rows[0].optionText] + Texts(rows[1..])
  }

  /** The option texts can be read back from the rows, in order. */
  lemma {:induction false} OptionRowsRoundTrip(pollId: string, options: seq<string>, start: nat)
    ensures Texts(OptionRowsFrom(pollId, options, start)) == options
  {
    if |options| > 0 {
      OptionRowsRoundTrip(pollId, options[1..], start + 1);
      assert OptionRowsFrom(pollId, options, start)[1..] == OptionRowsFrom(pollId, options[1..], start + 1);
    }
  }

  /**
   * `POST /api/polls`. Without a signed-in user: 401 and nothing written. With a bad payload:
   * 400 and nothing written. Otherwise the poll row is written; if that fails, 500 with the
   * database's message (or "Create failed"); if it succeeds the option rows are written, and a
   * failure there answers 500 although the poll row stays. Success answers 201 with the new id.
   */
  function CreatePoll(user: Option<string>, body: PostBody, pollReply: InsertReply, optionsError: Option<string>)
    : (r: PostOutcome)
    ensures user.None? ==> r == PostOutcome(Response(401, Error("Unauthorized")), None, None)
    ensures user.Some? && !PayloadOk(body) ==> r == PostOutcome(Response(400, Error("Invalid payload")), None, None)
    ensures r.pollWrite.Some? <==> user.Some? && PayloadOk(body)
    ensures r.pollWrite.Some? ==>
      && r.pollWrite.value.authorId == user.value
      && r.pollWrite.value.title == body.title.value
      && r.pollWrite.value.description == body.description
      && r.pollWrite.value.isPublic == body.isPublic
      && r.pollWrite.value.allowMultipleVotes == body.allowMultipleVotes
      && r.pollWrite.value.expiresAt == StoredExpiry(body.expiresAt)
    ensures r.optionWrite.Some? <==> r.pollWrite.Some? && pollReply.Inserted?
    ensures r.optionWrite.Some? ==> r.optionWrite.value == OptionRows(pollReply.id, body.options.value)
    ensures r.response.status == 201 <==> r.optionWrite.Some? && optionsError.None?
    ensures r.response.status == 201 ==> r.response.body == Data(pollReply.id)
    ensures r.pollWrite.Some? && pollReply.InsertFailed? ==>
      r.response == Response(500, Error(if pollReply.message == "" then "Create failed" else pollReply.message))
    ensures r.optionWrite.Some? && optionsError.Some? ==> r.response == Response(500, Error(optionsError.value))
  {
    if user.None? then
      PostOutcome(Response(401, Error("Unauthorized")), None, None)
    else if !PayloadOk(body) then
      PostOutcome(Response(400, Error("Invalid payload")), None, None)
    else
      var poll := PollInsert(user.value, body.title.value, body.description, body.isPublic,
        body.allowMultipleVotes, StoredExpiry(body.expiresAt));
      match pollReply
      case InsertFailed(message) =>
        PostOutcome(Response(500, Error(if message == "" then "Create failed" else message)), Some(poll), None)
      case Inserted(id) =>
        var rows := OptionRows(id, body.options.value);
        if optionsError.Some? then
          PostOutcome(Response(500, Error(optionsError.value)), Some(poll), Some(rows))
        else
          PostOutcome(Response(201, Data(id)), Some(poll), Some(rows))
  }

  /** A title and options the create-poll schema accepts always pass the endpoint's own check. */
  lemma SchemaAcceptedPassesPayloadCheck(body: PostBody)
    requires body.title.Some? && Validation.TitleOk(body.title.value)
    requires body.options.Some? && Validation.OptionsOk(body.options.value)
    ensures PayloadOk(body)
  {
  }

  /** The converse fails: the endpoint takes eleven empty options, which the schema refuses. */
  lemma PayloadCheckLaxerThanSchema()
    ensures PayloadOk(PostBody(Some("t"), None, Some(seq(11, _ => "")), None, None, None))
    ensures !Validation.OptionsOk(seq(11, _ => ""))
  {
    var options: seq<string> := seq(11, _ => "");
    assert !Validation.OptionTextOk(options[0]);
  }
}
