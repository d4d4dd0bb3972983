/** The fixed three-task pipeline of `buildPipelineSpec`: fetch the cards,
    upsert them as spreadsheet rows, archive the finished ones. Each task is
    a tagged descriptor (name, trigger, source of its spec) so that any
    scheduler can drive it. */
module Pipeline {
  import opened Results
  import opened Cards
  import opened Conditions
  import opened Producers
  import Text
  import Seqs

  /** The configuration values the pipeline reads, each as a string. */
  datatype Config = Config(
    trelloService: string,
    googleSpreadsheetService: string,
    trelloAppKey: string,
    trelloToken: string,
    trelloBoardId: string,
    googleServiceAccount: string,
    googleSpreadsheetId: string)

  /** A named service and where it is reached. */
  datatype Service = Service(name: string, location: string)

  /** Where a task's spec comes from: fixed up front, or computed from the
      run state by one of the two producers. */
  datatype SpecSource =
    | Static(spec: TaskSpec)
    | UpsertRows(serviceAccount: string, spreadsheetId: string)
    | ArchiveCards(app: string, token: string, board: string)

  /** One task: its name, the display name and logic of its trigger, and the
      source of its spec. */
  datatype TaskDef = TaskDef(name: string, conditionName: string, condition: Condition, source: SpecSource)

  datatype PipelineSpec = PipelineSpec(services: seq<Service>, tasks: seq<TaskDef>)

  /** The spec a task would run with in state `st`. */
  function Produce(source: SpecSource, codec: Codec, clock: Clock, st: State): Result<TaskSpec>
  {
    match source
    case Static(spec) => Ok(spec)
    case UpsertRows(account, sheet) => UpsertSpec(account, sheet, codec, clock, st)
    case ArchiveCards(app, token, board) => ArchiveSpec(app, token, board, codec, st)
  }

  function ServiceNames(services: seq<Service>): seq<string>
  {
    Seqs.Map(services, (s: Service) => s.name)
  }

  /** `buildPipelineSpec`. */
  function BuildPipelineSpec(cfg: Config): PipelineSpec
  {
    PipelineSpec(
      [ Service(TrelloService, cfg.trelloService),
        Service(GoogleService, cfg.googleSpreadsheetService) ],
      [ TaskDef(FetchTaskName, "Engine started", EngineStarted,
          Static(TrelloSyncSpec(cfg.trelloAppKey, cfg.trelloToken, cfg.trelloBoardId))),
        TaskDef(UpsertTaskName, "Fetch Cards From Trello Finished", TaskFinished(FetchTaskName),
          UpsertRows(cfg.googleServiceAccount, cfg.googleSpreadsheetId)),
        TaskDef(ArchiveTaskName, "Upsert rows completed successfuly",
          TaskFinishedWithStatus(UpsertTaskName, TaskStatusSuccess),
          ArchiveCards(cfg.trelloAppKey, cfg.trelloToken, cfg.trelloBoardId)) ])
  }

  /** The pipeline is a linear chain of three distinctly named tasks: the
      first starts with the engine, the second waits for the first to
      finish (with any status), the third waits for the second to finish
      successfully. The producers' fetch lookup reads the first task's own
      records. */
  lemma PipelineIsChain(cfg: Config)
    ensures var p := BuildPipelineSpec(cfg);
      && |p.tasks| == 3
      && p.tasks[0].name != p.tasks[1].name && p.tasks[1].name != p.tasks[2].name
      && p.tasks[0].name != p.tasks[2].name
      && p.tasks[0].condition == EngineStarted
      && p.tasks[1].condition == TaskFinished(p.tasks[0].name)
      && p.tasks[2].condition == TaskFinishedWithStatus(p.tasks[1].name, TaskStatusSuccess)
      && p.tasks[0].name == FetchTaskName
  {
  }

  /** Whatever the state, every spec a task of the pipeline produces calls a
      service the pipeline declares. */
  lemma TasksCallDeclaredServices(cfg: Config, codec: Codec, clock: Clock, st: State, k: nat)
    requires k < |BuildPipelineSpec(cfg).tasks|
    ensures var p := BuildPipelineSpec(cfg);
      var r := Produce(p.tasks[k].source, codec, clock, st);
      r.Ok? ==> r.value.service in ServiceNames(p.services)
  {
    var p := BuildPipelineSpec(cfg);
    var names := ServiceNames(p.services);
    assert names[0] == TrelloService && names[1] == GoogleService;
    var r := Produce(p.tasks[k].source, codec, clock, st);
    if k == 1 {
      assert r == UpsertSpec(cfg.googleServiceAccount, cfg.googleSpreadsheetId, codec, clock, st);
    } else if k == 2 {
      assert r == ArchiveSpec(cfg.trelloAppKey, cfg.trelloToken, cfg.trelloBoardId, codec, st);
    }
  }

  /** Every spec a task produces carries the configuration values meant for
      it unchanged: the board credentials and board id for the fetch and
      archive tasks, the service account string and spreadsheet id for the
      upsert task. */
  lemma TasksCarryConfiguration(cfg: Config, codec: Codec, clock: Clock, st: State)
    ensures var r := Produce(BuildPipelineSpec(cfg).tasks[0].source, codec, clock, st);
      && r.Ok?
      && ValueOf(r.value.arguments, "App") == Some(cfg.trelloAppKey)
      && ValueOf(r.value.arguments, "Token") == Some(cfg.trelloToken)
      && ValueOf(r.value.arguments, "Board") == Some(cfg.trelloBoardId)
    ensures var r := Produce(BuildPipelineSpec(cfg).tasks[1].source, codec, clock, st);
      r.Ok? ==>
      && ValueOf(r.value.arguments, "ServiceAccount") == Some(cfg.googleServiceAccount)
      && ValueOf(r.value.arguments, "SpreadsheetID") == Some(cfg.googleSpreadsheetId)
    ensures var r := Produce(BuildPipelineSpec(cfg).tasks[2].source, codec, clock, st);
      r.Ok? ==>
      && ValueOf(r.value.arguments, "App") == Some(cfg.trelloAppKey)
      && ValueOf(r.value.arguments, "Token") == Some(cfg.trelloToken)
      && ValueOf(r.value.arguments, "Board") == Some(cfg.trelloBoardId)
  {
  }

  /** With no records yet, only the fetch task can trigger, and only on the
      "engine.started" event. */
  lemma OnlyFetchStartsTheRun(cfg: Config, ev: Event, k: nat)
    requires k < |BuildPipelineSpec(cfg).tasks|
    ensures BuildPipelineSpec(cfg).tasks[k].condition.Holds(ev, State([]))
            <==> k == 0 && ev.name == EngineStartedEvent
  {
  }

  /** The archive task triggers exactly when some record of the upsert task
      finished with the success status. */
  lemma ArchiveWaitsForUpsertSuccess(cfg: Config, ev: Event, st: State)
    ensures BuildPipelineSpec(cfg).tasks[2].condition.Holds(ev, st) <==>
      exists i :: 0 <= i < |st.tasks| && st.tasks[i].task == UpsertTaskName
                  && st.tasks[i].state == FinishedState && st.tasks[i].status == TaskStatusSuccess
  {
  }

  /** The upsert task's trigger ignores the fetch task's status: a fetch that
      finished with a failure status still triggers it. */
  lemma UpsertIgnoresFetchStatus(cfg: Config, ev: Event, output: string)
    ensures var st := State([TaskRecord(FetchTaskName, FinishedState, "failed", output)]);
      && BuildPipelineSpec(cfg).tasks[1].condition.Holds(ev, st)
      && !TaskFinishedWithStatus(FetchTaskName, TaskStatusSuccess).Holds(ev, st)
  {
  }

  /** The one card of the example run: "Ship it", short id 5, in list
      "Done", labelled "bug", with an empty short URL. */
  function ShipIt(when: Instant): Card
  {
    Card("c1", 5, "Ship it", "", "", when, CardList("l1", "Done"), [Label("b1", "bug", "red")])
  }

  /** Once the fetch of the example run has finished, the upsert task
      triggers and gets one row with id "5" and the cells below. */
  lemma ShipItUpsert(cfg: Config, codec: Codec, clock: Clock, payload: string, when: Instant)
    requires codec.decode(payload) == Ok([ShipIt(when)])
    ensures var fetched := State([TaskRecord(FetchTaskName, FinishedState, TaskStatusSuccess, payload)]);
      && BuildPipelineSpec(cfg).tasks[1].condition.Holds(Event("task.finished"), fetched)
      && FetchedCards(codec, fetched).Ok?
      && ProjectRows(FetchedCards(codec, fetched).value, clock)
         == [Row("5", [clock.format(clock.dayBefore(clock.now(0))), clock.format(when),
                       "Ship it", "", "bug", "Done"])]
  {
  }

  /** Once the upsert of the example run has succeeded, the archive task
      triggers and gets "c1" as its card ids. */
  lemma ShipItArchive(cfg: Config, codec: Codec, clock: Clock, payload: string, when: Instant)
    requires codec.decode(payload) == Ok([ShipIt(when)])
    ensures var upserted := State([TaskRecord(FetchTaskName, FinishedState, TaskStatusSuccess, payload),
                                   TaskRecord(UpsertTaskName, FinishedState, TaskStatusSuccess, "")]);
      var r := Produce(BuildPipelineSpec(cfg).tasks[2].source, codec, clock, upserted);
      && BuildPipelineSpec(cfg).tasks[2].condition.Holds(Event("task.finished"), upserted)
      && r.Ok? && ValueOf(r.value.arguments, "CardIDs") == Some("c1")
  {
    var upserted := State([TaskRecord(FetchTaskName, FinishedState, TaskStatusSuccess, payload),
                           TaskRecord(UpsertTaskName, FinishedState, TaskStatusSuccess, "")]);
    assert upserted.tasks[..1] == [upserted.tasks[0]];
    assert FetchOutput(upserted.tasks) == payload;
    assert upserted.tasks[1].task == UpsertTaskName && upserted.tasks[1].state == FinishedState;
    DoneCardIdsSingle(ShipIt(when));
    assert Text.Join(["c1"], ",") == "c1";
  }
}
