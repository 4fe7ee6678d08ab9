/** The two request handlers of the score service and the store they share:
    submitting a score (validate, then append one record) and reading the top ten
    of one event (filter, order, cut, label with ranks). */
module TimerController {
  import opened Wrappers
  import opened GameTypes
  import opened ScoreModel
  import opened Ranking

  /** The events both handlers accept in the URL. */
  const Events: seq<string> := ["cs", "it"]

  /** How many entries a leaderboard holds at most. */
  const LeaderboardLimit: nat := 10

  const SavedMessage: string := "Score saved successfully."
  const FetchedMessage: string := "Success fetching leaderboard"
  const MissingFieldsMessage: string := "Missing required fields."
  const InvalidEventMessage: string := "Invalid event."
  const ServerErrorMessage: string := "Server error."

  /** The JSON body of a score submission; any field may be absent or null. */
  datatype ScoreBody = ScoreBody(
    name: Option<string>,
    target: Option<real>,
    actual: Option<real>,
    difference: Option<real>,
    accuracy: Option<real>)

  /** One line of the leaderboard reply. */
  datatype Entry = Entry(rank: nat, name: string, accuracy: real, difference: real, target: real, actual: real)

  /** Why a request was refused as the client's fault. */
  datatype ClientError = MissingFields | InvalidEvent

  /** What a handler answers: success with its status, message and payload; a 400; or a 500. */
  datatype Reply<+T> = Success(status: nat, message: string, value: T) | BadRequest(reason: ClientError) | ServerError

  /** The HTTP status of a reply. */
  function Status<T>(r: Reply<T>): nat {
    match r
    case Success(status, _, _) => status
    case BadRequest(_) => 400
    case ServerError => 500
  }

  /** The `message` of a reply. */
  function Message<T>(r: Reply<T>): string {
    match r
    case Success(_, message, _) => message
    case BadRequest(MissingFields) => MissingFieldsMessage
    case BadRequest(InvalidEvent) => InvalidEventMessage
    case ServerError => ServerErrorMessage
  }

  /** The body lacks a name (absent or empty), a difference or an accuracy. A zero
      number is present: only absence counts as missing. */
  predicate MissingRequired(b: ScoreBody) {
    b.name.None? || b.name.value == [] || b.difference.None? || b.accuracy.None?
  }

  predicate IsEvent(e: string) {
    e in Events
  }

  /** The document the submission handler creates: the body's fields and the URL's event. */
  function FieldsOf(b: ScoreBody, event: string): (f: ScoreFields)
    ensures f.name == b.name && f.event == Some(event) && f.playedAt.None?
    ensures f.target == b.target && f.actual == b.actual
    ensures f.difference == b.difference && f.accuracy == b.accuracy
  {
    ScoreFields(b.name, b.target, b.actual, b.difference, b.accuracy, Some(event), None)
  }

  /** The reply to a score submission for `event` at time `now`; `storeFails` stands
      for a write that the database rejects. */
  function SetScoreReply(b: ScoreBody, event: string, now: int, storeFails: bool): (r: Reply<Score>)
    ensures r == BadRequest(MissingFields) <==> MissingRequired(b)
    ensures r == BadRequest(InvalidEvent) <==> !MissingRequired(b) && !IsEvent(event)
    ensures r.Success? <==>
      !MissingRequired(b) && IsEvent(event) && !storeFails &&
      Trim(b.name.value) != [] && b.target.Some? && b.actual.Some?
    ensures r.Success? ==> r.status == 201 && r.message == SavedMessage
    ensures r.Success? ==> ValidScore(r.value)
    ensures r.Success? ==>
      r.value == Score(Trim(b.name.value), b.target.value, b.actual.value,
                       b.difference.value, b.accuracy.value, event, now)
  {
    if MissingRequired(b) then BadRequest(MissingFields)
    else if !IsEvent(event) then BadRequest(InvalidEvent)
    else
      match NewScore(FieldsOf(b, event), now)
      case Err(_) => ServerError
      case Ok(score) => if storeFails then ServerError else Success(201, SavedMessage, score)
  }

  /** A missing field is reported even when the event is also wrong. */
  lemma MissingFieldsCheckedFirst(b: ScoreBody, event: string, now: int, storeFails: bool)
    requires MissingRequired(b) && !IsEvent(event)
    ensures SetScoreReply(b, event, now, storeFails) == BadRequest(MissingFields)
    ensures Status(SetScoreReply(b, event, now, storeFails)) == 400
    ensures Message(SetScoreReply(b, event, now, storeFails)) == MissingFieldsMessage
  {
  }

  /** A difference or an accuracy of zero is not a missing field. */
  lemma ZeroIsNotMissing(name: string, target: real, actual: real)
    requires name != []
    ensures !MissingRequired(ScoreBody(Some(name), Some(target), Some(actual), Some(0.0), Some(0.0)))
  {
  }

  /** A name of white space only passes the handler's own check, but the schema trims
      it to nothing and refuses it, so the request ends in a server error. */
  lemma BlankNameIsServerError(b: ScoreBody, event: string, now: int, storeFails: bool)
    requires b.name.Some? && b.name.value != [] && forall k :: 0 <= k < |b.name.value| ==> IsWhitespace(b.name.value[k])
    requires b.difference.Some? && b.accuracy.Some? && IsEvent(event)
    ensures SetScoreReply(b, event, now, storeFails) == ServerError
  {
    var t := Trim(b.name.value);
    var lo :| SliceWithin(b.name.value, t, lo);
  }

  /** The body a client sends for a finished round. */
  function BodyOf(p: PlayerResult): (b: ScoreBody)
    ensures !MissingRequired(b) <==> p.name != []
  {
    ScoreBody(Some(p.name), Some(p.target), Some(p.actual), Some(p.difference), Some(p.accuracy))
  }

  /** A player's result with a real name, submitted to a known event, is stored as sent:
      the numbers are echoed, not recomputed, and only the name is trimmed. */
  lemma PlayerResultStoredAsSent(p: PlayerResult, event: string, now: int)
    requires IsEvent(event) && Trimmed(p.name) && p.name != []
    ensures SetScoreReply(BodyOf(p), event, now, false) ==
      Success(201, SavedMessage, Score(p.name, p.target, p.actual, p.difference, p.accuracy, event, now))
  {
    TrimKeepsTrimmed(p.name);
  }

  /** The leaderboard lines for records already in order, ranked 1, 2, 3, ... by position. */
  function Labelled(top: seq<Score>): (entries: seq<Entry>)
    ensures |entries| == |top|
    ensures forall i :: 0 <= i < |top| ==> entries[i].rank == i + 1
    ensures forall i :: 0 <= i < |top| ==>
      entries[i].name == top[i].name && entries[i].accuracy == top[i].accuracy &&
      entries[i].difference == top[i].difference && entries[i].target == top[i].target &&
      entries[i].actual == top[i].actual
  {
    seq(|top|, i requires 0 <= i < |top| =>
      Entry(i + 1, top[i].name, top[i].accuracy, top[i].difference, top[i].target, top[i].actual))
  }

  /** Leaderboard lines are in order: accuracy descending, then difference ascending. */
  predicate EntriesInOrder(entries: seq<Entry>) {
    forall i :: 0 <= i < |entries| - 1 ==>
      entries[i].accuracy > entries[i + 1].accuracy ||
      (entries[i].accuracy == entries[i + 1].accuracy && entries[i].difference <= entries[i + 1].difference)
  }

  /** The reply to a leaderboard request for `event` over the stored `records`;
      `storeFails` stands for a query that the database rejects. */
  function LeaderboardReply(records: seq<Score>, event: string, storeFails: bool): (r: Reply<seq<Entry>>)
    ensures r == BadRequest(InvalidEvent) <==> !IsEvent(event)
    ensures r.ServerError? <==> IsEvent(event) && storeFails
    ensures r.Success? ==> r.status == 200 && r.message == FetchedMessage
    ensures r.Success? ==> r.value == Labelled(TopScores(records, event, LeaderboardLimit))
    ensures r.Success? ==> |r.value| == Min(LeaderboardLimit, |ForEvent(records, event)|)
    ensures r.Success? ==> EntriesInOrder(r.value)
    ensures r.Success? ==> forall i :: 0 <= i < |r.value| ==> r.value[i].rank == i + 1
  {
    if !IsEvent(event) then BadRequest(InvalidEvent)
    else if storeFails then ServerError
    else
      var top := TopScores(records, event, LeaderboardLimit);
      assert forall i :: 0 <= i < |top| - 1 ==> RanksAtLeast(top[i], top[i + 1]);
      Success(200, FetchedMessage, Labelled(top))
  }

  /** A stored record of another event never reaches an event's leaderboard. */
  lemma OtherEventExcluded(records: seq<Score>, event: string, s: Score)
    requires s.event != event
    ensures s !in TopScores(records, event, LeaderboardLimit)
  {
  }

  /** Storing a record of one event leaves every other event's leaderboard as it was. */
  lemma SubmissionKeepsOtherBoards(records: seq<Score>, s: Score, event: string, storeFails: bool)
    requires s.event != event
    ensures LeaderboardReply(records + [s], event, storeFails) == LeaderboardReply(records, event, storeFails)
  {
    ForEventAppend(records, s, event);
    TopScoresOfSameRecords(records + [s], records, event, LeaderboardLimit);
  }

  /** The collection of stored scores: append-only, every record valid. */
  class ScoreStore {
    var records: seq<Score>

    ghost predicate Valid()
      reads this
    {
      forall i :: 0 <= i < |records| ==> ValidScore(records[i])
    }

    constructor ()
      ensures Valid() && records == []
    {
      records := [];
    }

    /** Handles a score submission: checks the fields, then the event, then creates and
        saves one record. Only a successful save changes the store. */
    method SetScore(body: ScoreBody, event: string, now: int, storeFails: bool) returns (reply: Reply<Score>)
      requires Valid()
      modifies this
      ensures Valid()
      ensures reply == SetScoreReply(body, event, now, storeFails)
      ensures records == if reply.Success? then old(records) + [reply.value] else old(records)
    {
      if MissingRequired(body) {
        return BadRequest(MissingFields);
      }
      if !IsEvent(event) {
        return BadRequest(InvalidEvent);
      }
      var created := NewScore(FieldsOf(body, event), now);
      if created.Err? || storeFails {
        return ServerError;
      }
      records := records + [created.value];
      reply := Success(201, SavedMessage, created.value);
    }

    /** Handles a leaderboard request; it reads the store and changes nothing. */
    method GetLeaderboard(event: string, storeFails: bool) returns (reply: Reply<seq<Entry>>)
      ensures reply == LeaderboardReply(records, event, storeFails)
    {
      if !IsEvent(event) {
        return BadRequest(InvalidEvent);
      }
      if storeFails {
        return ServerError;
      }
      var top := TopScores(records, event, LeaderboardLimit);
      reply := Success(200, FetchedMessage, Labelled(top));
    }
  }
}
