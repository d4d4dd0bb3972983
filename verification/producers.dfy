/** The task specs of the pipeline: the static spec of the fetch task and
    the two state-derived producers, `buildSpecFuncGoogleRowsUpsert` and
    `buildSpecFunncArchiveTrelloCards`. */
module Producers {
  import opened Results
  import opened Cards
  import opened Conditions
  import Text
  import Seqs

  /** One key/value argument of a service call. */
  datatype Argument = Argument(key: string, value: string)

  /** What the engine should call: a service, one of its endpoints, and the
      ordered arguments. */
  datatype TaskSpec = TaskSpec(service: string, endpoint: string, arguments: seq<Argument>)

  const TrelloService: string := "TrelloSVC"
  const GoogleService: string := "GoogleSVC"

  /** The argument keys, in order. */
  function Keys(args: seq<Argument>): seq<string>
  {
    Seqs.Map(args, (a: Argument) => a.key)
  }

  /** Argument `i` is the first one with `key`. */
  predicate IsFirstKey(args: seq<Argument>, i: int, key: string)
  {
    && 0 <= i < |args|
    && args[i].key == key
    && forall j :: 0 <= j < i ==> args[j].key != key
  }

  /** The value of the first argument with `key`, if any. */
  function ValueOf(args: seq<Argument>, key: string): (v: Option<string>)
    ensures v.None? <==> key !in Keys(args)
    ensures forall i :: IsFirstKey(args, i, key) ==> v == Some(args[i].value)
  {
    if |args| == 0 then None
    else if args[0].key == key then Some(args[0].value)
    else
      assert forall i :: IsFirstKey(args, i, key) ==> IsFirstKey(args[1..], i - 1, key);
      ValueOf(args[1..], key)
  }

  /** `buildSpecTaskTrelloSync`: the board credentials and board id, passed
      through unchanged, to the card fetch endpoint. */
  function TrelloSyncSpec(app: string, token: string, board: string): (s: TaskSpec)
    ensures s.service == TrelloService && s.endpoint == "GetCards"
    ensures Keys(s.arguments) == ["App", "Token", "Board"]
    ensures ValueOf(s.arguments, "App") == Some(app)
    ensures ValueOf(s.arguments, "Token") == Some(token)
    ensures ValueOf(s.arguments, "Board") == Some(board)
  {
    TaskSpec(TrelloService, "GetCards", [
      Argument("App", app),
      Argument("Token", token),
      Argument("Board", board)])
  }

  /** The cards both producers work on: the fetch output, decoded. */
  function FetchedCards(codec: Codec, st: State): Result<seq<Card>>
  {
    Load(codec, FetchOutput(st.tasks))
  }

  /** The upsert producer. It fails exactly when decoding the fetch output
      or encoding the rows fails, with that error; otherwise it asks the
      spreadsheet service to upsert the encoded rows (one per card), with the
      configured service account string and spreadsheet id as given. */
  function UpsertSpec(serviceAccount: string, spreadsheetId: string, codec: Codec, clock: Clock, st: State)
    : (r: Result<TaskSpec>)
    ensures FetchedCards(codec, st).Err? ==> r == Err(FetchedCards(codec, st).error)
    ensures FetchedCards(codec, st).Ok? && codec.encode(ProjectRows(FetchedCards(codec, st).value, clock)).Err?
            ==> r == Err(codec.encode(ProjectRows(FetchedCards(codec, st).value, clock)).error)
    ensures FetchedCards(codec, st).Ok? && codec.encode(ProjectRows(FetchedCards(codec, st).value, clock)).Ok?
            ==> r.Ok?
    ensures r.Ok? ==>
      && FetchedCards(codec, st).Ok?
      && r.value.service == GoogleService && r.value.endpoint == "Upsert"
      && Keys(r.value.arguments) == ["Rows", "ServiceAccount", "SpreadsheetID"]
      && ValueOf(r.value.arguments, "Rows")
         == Some(codec.encode(ProjectRows(FetchedCards(codec, st).value, clock)).value)
      && ValueOf(r.value.arguments, "ServiceAccount") == Some(serviceAccount)
      && ValueOf(r.value.arguments, "SpreadsheetID") == Some(spreadsheetId)
  {
    var cards :- FetchedCards(codec, st);
    var data :- codec.encode(ProjectRows(cards, clock));
    Ok(TaskSpec(GoogleService, "Upsert", [
      Argument("Rows", data),
      Argument("ServiceAccount", serviceAccount),
      Argument("SpreadsheetID", spreadsheetId)]))
  }

  /** The archive producer. It fails exactly when decoding the fetch output
      fails, with that error; otherwise it passes the board credentials and
      board id through, then the comma-joined ids of the cards in "Done". */
  function ArchiveSpec(app: string, token: string, board: string, codec: Codec, st: State)
    : (r: Result<TaskSpec>)
    ensures r.Ok? <==> FetchedCards(codec, st).Ok?
    ensures r.Err? ==> r.error == FetchedCards(codec, st).error
    ensures r.Ok? ==>
      && r.value.service == TrelloService && r.value.endpoint == "ArchiveCard"
      && Keys(r.value.arguments) == ["App", "Token", "Board", "CardIDs"]
      && ValueOf(r.value.arguments, "App") == Some(app)
      && ValueOf(r.value.arguments, "Token") == Some(token)
      && ValueOf(r.value.arguments, "Board") == Some(board)
      && ValueOf(r.value.arguments, "CardIDs")
         == Some(Text.Join(DoneCardIds(FetchedCards(codec, st).value), ","))
  {
    var cards :- FetchedCards(codec, st);
    Ok(TaskSpec(TrelloService, "ArchiveCard", [
      Argument("App", app),
      Argument("Token", token),
      Argument("Board", board),
      Argument("CardIDs", Text.Join(DoneCardIds(cards), ","))]))
  }

  /** Without a fetch record the producers decode the empty string, which no
      JSON decoder accepts: both fail, with no separate "not yet available"
      outcome. */
  lemma MissingFetchIsError(serviceAccount: string, spreadsheetId: string, app: string, token: string,
                            board: string, codec: Codec, clock: Clock, st: State)
    requires RejectsEmpty(codec)
    requires forall i :: 0 <= i < |st.tasks| ==> st.tasks[i].task != FetchTaskName
    ensures UpsertSpec(serviceAccount, spreadsheetId, codec, clock, st).Err?
    ensures ArchiveSpec(app, token, board, codec, st).Err?
  {
    FetchOutputIsLastMatch(st.tasks);
  }

  /** A record of any task other than the fetch task, inserted anywhere in
      the state, changes neither producer's result. */
  lemma ProducersIgnoreOtherRecords(serviceAccount: string, spreadsheetId: string, app: string, token: string,
                                    board: string, codec: Codec, clock: Clock,
                                    a: seq<TaskRecord>, r: TaskRecord, b: seq<TaskRecord>)
    requires r.task != FetchTaskName
    ensures UpsertSpec(serviceAccount, spreadsheetId, codec, clock, State(a + [r] + b))
            == UpsertSpec(serviceAccount, spreadsheetId, codec, clock, State(a + b))
    ensures ArchiveSpec(app, token, board, codec, State(a + [r] + b))
            == ArchiveSpec(app, token, board, codec, State(a + b))
  {
    FetchOutputIgnoresOthers(a, r, b);
  }

  /** Whenever the upsert producer yields a spec the archive producer does
      too, and a decoding failure makes both fail with the same error. */
  lemma ProducersFailTogether(serviceAccount: string, spreadsheetId: string, app: string, token: string,
                              board: string, codec: Codec, clock: Clock, st: State)
    ensures UpsertSpec(serviceAccount, spreadsheetId, codec, clock, st).Ok?
            ==> ArchiveSpec(app, token, board, codec, st).Ok?
    ensures ArchiveSpec(app, token, board, codec, st).Err?
            ==> UpsertSpec(serviceAccount, spreadsheetId, codec, clock, st)
                == ArchiveSpec(app, token, board, codec, st)
  {
  }
}
