/** The run state the workflow engine hands to the handler, and the
    handler's reading of it: the three task conditions and the lookup of the
    fetch task's output. */
module Conditions {

  /** An engine event; only its name is consulted. */
  datatype Event = Event(name: string)

  /** One entry of the engine's task records: which task, its lifecycle state
      (such as "finished"), its status and its raw output. */
  datatype TaskRecord = TaskRecord(task: string, state: string, status: string, output: string)

  /** The engine's accumulated state, records in the order the engine keeps
      them. */
  datatype State = State(tasks: seq<TaskRecord>)

  const EngineStartedEvent: string := "engine.started"
  const FinishedState: string := "finished"

  /** The engine library's success status. */
  const TaskStatusSuccess: string := "success"

  const FetchTaskName: string := "Fetch Cards From Trello"
  const UpsertTaskName: string := "Update Google Spreadsheet"
  const ArchiveTaskName: string := "Archive sync cards"

  /** `conditionOnEngineStarted`: the event's name alone decides. */
  function OnEngineStarted(ev: Event, st: State): bool
  {
    ev.name == EngineStartedEvent
  }

  /** The scan of `conditionTaskFinished`: some record of `task` is finished,
      whatever its status. */
  function AnyFinished(tasks: seq<TaskRecord>, task: string): (b: bool)
    ensures b <==> exists i :: 0 <= i < |tasks| && tasks[i].state == FinishedState && tasks[i].task == task
  {
    if |tasks| == 0 then false
    else if tasks[0].state == FinishedState && tasks[0].task == task then true
    else
      assert forall i :: 0 < i < |tasks| ==> tasks[i] == tasks[1..][i - 1];
      AnyFinished(tasks[1..], task)
  }

  /** The scan of `conditionTaskFinishedWithStatus`: some record of `task` is
      finished with exactly `status`. */
  function AnyFinishedWithStatus(tasks: seq<TaskRecord>, task: string, status: string): (b: bool)
    ensures b <==> exists i :: 0 <= i < |tasks| && tasks[i].status == status
                               && tasks[i].state == FinishedState && tasks[i].task == task
  {
    if |tasks| == 0 then false
    else if tasks[0].status == status && tasks[0].state == FinishedState && tasks[0].task == task then true
    else
      assert forall i :: 0 < i < |tasks| ==> tasks[i] == tasks[1..][i - 1];
      AnyFinishedWithStatus(tasks[1..], task, status)
  }

  /** The three kinds of condition the pipeline uses, one per Go closure
      factory. */
  datatype Condition =
    | EngineStarted
    | TaskFinished(task: string)
    | TaskFinishedWithStatus(task: string, status: string)
  {
    function Holds(ev: Event, st: State): bool
    {
      match this
      case EngineStarted => OnEngineStarted(ev, st)
      case TaskFinished(task) => AnyFinished(st.tasks, task)
      case TaskFinishedWithStatus(task, status) => AnyFinishedWithStatus(st.tasks, task, status)
    }
  }

  /** The start condition holds exactly on the "engine.started" event, and
      the state plays no part in it. */
  lemma EngineStartedIgnoresState(ev: Event, st1: State, st2: State)
    ensures EngineStarted.Holds(ev, st1) <==> ev.name == EngineStartedEvent
    ensures EngineStarted.Holds(ev, st1) == EngineStarted.Holds(ev, st2)
  {
  }

  /** The task conditions read only the records, never the event. */
  lemma TaskConditionsIgnoreEvent(c: Condition, ev1: Event, ev2: Event, st: State)
    requires !c.EngineStarted?
    ensures c.Holds(ev1, st) == c.Holds(ev2, st)
  {
  }

  /** A finished-task condition is true iff a finished record of the task
      exists, whatever its status; with no records it is false. */
  lemma TaskFinishedMeaning(task: string, ev: Event, st: State)
    ensures TaskFinished(task).Holds(ev, st) <==>
      exists i :: 0 <= i < |st.tasks| && st.tasks[i].state == FinishedState && st.tasks[i].task == task
    ensures |st.tasks| == 0 ==> !TaskFinished(task).Holds(ev, st)
  {
  }

  /** Requiring a status only narrows the finished-task condition. */
  lemma WithStatusImpliesFinished(task: string, status: string, ev: Event, st: State)
    ensures TaskFinishedWithStatus(task, status).Holds(ev, st) ==> TaskFinished(task).Holds(ev, st)
  {
  }

  /** The run state only grows, and a condition that holds keeps holding when
      records are appended. */
  lemma ConditionsSurviveAppend(c: Condition, ev: Event, tasks: seq<TaskRecord>, more: seq<TaskRecord>)
    ensures c.Holds(ev, State(tasks)) ==> c.Holds(ev, State(tasks + more))
  {
    if c.Holds(ev, State(tasks)) && !c.EngineStarted? {
      var i :| 0 <= i < |tasks| && tasks[i].state == FinishedState && tasks[i].task == c.task
                && (c.TaskFinishedWithStatus? ==> tasks[i].status == c.status);
      assert (tasks + more)[i] == tasks[i];
    }
  }

  /** Record `i` is the last one named `name`. */
  predicate IsLastNamed(tasks: seq<TaskRecord>, i: int, name: string)
  {
    && 0 <= i < |tasks|
    && tasks[i].task == name
    && forall j :: i < j < |tasks| ==> tasks[j].task != name
  }

  /** The fetch-output lookup of both task producers, scanning from the
      newest record back. */
  function FetchOutput(tasks: seq<TaskRecord>): string
  {
    if |tasks| == 0 then ""
    else if tasks[|tasks| - 1].task == FetchTaskName then tasks[|tasks| - 1].output
    else FetchOutput(tasks[..|tasks| - 1])
  }

  /** The lookup yields the output of the last record named "Fetch Cards From
      Trello", and the empty string when there is no such record. */
  lemma {:induction false} FetchOutputIsLastMatch(tasks: seq<TaskRecord>)
    ensures (forall i :: 0 <= i < |tasks| ==> tasks[i].task != FetchTaskName) ==> FetchOutput(tasks) == ""
    ensures forall i :: IsLastNamed(tasks, i, FetchTaskName) ==> FetchOutput(tasks) == tasks[i].output
  {
    if |tasks| > 0 && tasks[|tasks| - 1].task != FetchTaskName {
      var front := tasks[..|tasks| - 1];
      FetchOutputIsLastMatch(front);
      assert forall i :: IsLastNamed(tasks, i, FetchTaskName) ==> IsLastNamed(front, i, FetchTaskName);
    }
  }

  /** Extending the scanned prefix by one record. */
  lemma FetchOutputStep(tasks: seq<TaskRecord>, i: nat)
    requires i < |tasks|
    ensures FetchOutput(tasks[..i + 1])
            == if tasks[i].task == FetchTaskName then tasks[i].output else FetchOutput(tasks[..i])
  {
    assert tasks[..i + 1][..i] == tasks[..i];
  }

  /** The lookup loop as the producers write it: a forward scan that
      overwrites the output on every fetch record. */
  method LookupFetchOutput(tasks: seq<TaskRecord>) returns (output: string)
    ensures output == FetchOutput(tasks)
  {
    output := "";
    var i := 0;
    while i < |tasks|
      invariant 0 <= i <= |tasks|
      invariant output == FetchOutput(tasks[..i])
    {
      FetchOutputStep(tasks, i);
      if tasks[i].task == FetchTaskName {
        output := tasks[i].output;
      }
      i := i + 1;
    }
    assert tasks[..|tasks|] == tasks;
  }

  /** A record of another task, inserted anywhere, never changes the fetch
      output. */
  lemma {:induction false} FetchOutputIgnoresOthers(a: seq<TaskRecord>, r: TaskRecord, b: seq<TaskRecord>)
    requires r.task != FetchTaskName
    ensures FetchOutput(a + [r] + b) == FetchOutput(a + b)
  {
    if |b| == 0 {
      assert (a + [r] + b)[..|a|] == a;
      assert a + b == a;
    } else {
      var b' := b[..|b| - 1];
      assert (a + [r] + b)[..|a + [r] + b| - 1] == a + [r] + b';
      assert (a + b)[..|a + b| - 1] == a + b';
      FetchOutputIgnoresOthers(a, r, b');
    }
  }
}
