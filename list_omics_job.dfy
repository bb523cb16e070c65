/**
 * The read-only HealthOmics resolver: a dispatcher over six query fields, the
 * error conventions of its helpers, and `getListRunDetails`, which joins every
 * listed run with its tasks by writing `tasks` into the run objects in place.
 */
module ListOmicsJob {
  import opened Wrappers
  import opened Text
  import opened Js
  import opened Lambda

  const GetListWorkflowField: string := "getListWorkflow"
  const GetListRunTasksField: string := "getListRunTasks"
  const GetRunCommandField: string := "getRunCommand"
  const GetWorkflowCommandField: string := "getWorkflowCommand"
  const GetListRunCommandField: string := "getListRunCommand"
  const GetListRunDetailsField: string := "getListRunDetails"

  /** The case labels of the dispatcher, in source order. */
  const Fields: seq<string> := [GetListWorkflowField, GetListRunTasksField, GetRunCommandField,
                                GetWorkflowCommandField, GetListRunCommandField, GetListRunDetailsField]

  // ---------------------------------------------------------------------------
  // The helpers' error conventions

  /**
   * `listWorkflow` and `listRunCommand`: `response.items`, with every failure
   * inside the `try` (the SDK call, or reading `items` of a missing response)
   * returned as the error object.
   */
  function ItemsOrError(response: Attempt<JsValue>): (r: Outcome)
    ensures response.Threw? ==> r == ErrorObject(response.message)
    ensures response.Returned? && response.value.Obj? ==> r == Value(Lookup(response.value.fields, "items"))
  {
    match response
    case Threw(m) => ErrorObject(m)
    case Returned(v) =>
      if Nullish(v) then ErrorObject(ReadOfNullish(v, "items")) else Value(Member(v, "items"))
  }

  /** `listRunTasksCommand`: `response.items`, or `undefined` when the `try` fails (its `catch` only logs). */
  function ItemsOrUndefined(response: Attempt<JsValue>): (r: JsValue)
    ensures response.Threw? ==> r == Undefined
    ensures response.Returned? && response.value.Obj? ==> r == Lookup(response.value.fields, "items")
  {
    match response
    case Threw(_) => Undefined
    case Returned(v) => Member(v, "items")
  }

  /** `getRunCommand` and `getWorkflowCommand`: the whole response, or `undefined` on failure. */
  function ResponseOrUndefined(response: Attempt<JsValue>): (r: JsValue)
    ensures response.Threw? ==> r == Undefined
    ensures response.Returned? ==> r == response.value
  {
    match response
    case Threw(_) => Undefined
    case Returned(v) => v
  }

  // ---------------------------------------------------------------------------
  // The run/task join of getListRunDetails

  /** `res.id` on a run that is not null or undefined. */
  function IdOf(run: JsValue): JsValue
  {
    if run.Obj? then Lookup(run.fields, "id") else Undefined
  }

  /**
   * lodash's matcher `['id', id]`: the run has an own `id` property equal to
   * `id` (object and array ids are compared structurally here).
   */
  predicate Carries(run: JsValue, id: JsValue)
  {
    run.Obj? && "id" in Keys(run.fields) && Lookup(run.fields, "id") == id
  }

  /** lodash `find(runs, ['id', id])` from position `j` on: the index of the first run carrying `id`. */
  function FindFrom(runs: seq<JsValue>, id: JsValue, j: nat): (r: Option<nat>)
    requires j <= |runs|
    ensures r.Some? ==> j <= r.value < |runs| && Carries(runs[r.value], id)
    ensures r.Some? ==> forall k :: j <= k < r.value ==> !Carries(runs[k], id)
    ensures r.None? ==> forall k :: j <= k < |runs| ==> !Carries(runs[k], id)
    decreases |runs| - j
  {
    if j == |runs| then None
    else if Carries(runs[j], id) then Some(j)
    else FindFrom(runs, id, j + 1)
  }

  function Find(runs: seq<JsValue>, id: JsValue): Option<nat>
  {
    FindFrom(runs, id, 0)
  }

  /** The run whose index `Find` gives: the first carrier of an id is the one found. */
  lemma FindIsFirst(runs: seq<JsValue>, id: JsValue, j: nat)
    requires j < |runs| && Carries(runs[j], id)
    requires forall k :: 0 <= k < j ==> !Carries(runs[k], id)
    ensures Find(runs, id) == Some(j)
  {
  }

  /** `temp['tasks'] = runTasks` on a run object. */
  function Tasked(run: JsValue, tasks: JsValue): (r: JsValue)
    requires run.Obj?
    ensures r.Obj? && Lookup(r.fields, "tasks") == tasks
  {
    Obj(Put(run.fields, "tasks", tasks))
  }

  /** Setting `tasks` neither adds, removes nor changes `id`. */
  lemma TaskedKeepsId(run: JsValue, tasks: JsValue, id: JsValue)
    requires run.Obj?
    ensures IdOf(Tasked(run, tasks)) == IdOf(run)
    ensures Carries(Tasked(run, tasks), id) <==> Carries(run, id)
  {
    PutOther(run.fields, "tasks", tasks, "id");
    PutKeys(run.fields, "tasks", tasks);
  }

  /**
   * The run the callback for run `i` pushes: none for a null or undefined
   * run (its callback throws reading `id`), else the first run carrying its id.
   */
  function Target(runs: seq<JsValue>, i: nat): (r: Option<nat>)
    requires i < |runs|
    ensures r.Some? ==> r.value < |runs|
  {
    if Nullish(runs[i]) then None else Find(runs, IdOf(runs[i]))
  }

  /** The indices pushed into `result` by the callbacks of the first `n` runs, in that order. */
  function Pushed(runs: seq<JsValue>, n: nat): (r: seq<nat>)
    requires n <= |runs|
    ensures forall x :: x in r ==> x < |runs|
  {
    if n == 0 then []
    else
      var t := Target(runs, n - 1);
      Pushed(runs, n - 1) + (if t.Some? then [t.value] else [])
  }

  /** The first run, if any, that is null or undefined, as the TypeError its callback throws. */
  function NullishFailure(runs: seq<JsValue>, n: nat): (r: Option<string>)
    requires n <= |runs|
    ensures r.None? <==> forall k :: 0 <= k < n ==> !Nullish(runs[k])
  {
    if n == 0 then None
    else if NullishFailure(runs, n - 1).Some? then NullishFailure(runs, n - 1)
    else if Nullish(runs[n - 1]) then Some(ReadOfNullish(runs[n - 1], "id"))
    else None
  }

  /** A run that is the first carrier of its own id: the only runs whose `tasks` are written. */
  predicate FirstOfId(runs: seq<JsValue>, j: nat)
    requires j < |runs|
  {
    runs[j].Obj? && "id" in Keys(runs[j].fields) && Find(runs, IdOf(runs[j])) == Some(j)
  }

  /** The run objects once every callback has run. */
  function Joined(runs: seq<JsValue>, tasksOf: JsValue -> JsValue): (r: seq<JsValue>)
    ensures |r| == |runs|
  {
    seq(|runs|, j requires 0 <= j < |runs| =>
      if FirstOfId(runs, j) then Tasked(runs[j], tasksOf(IdOf(runs[j]))) else runs[j])
  }

  /** The array `result`, read once the join is over: each element is the run object's final state. */
  function Entries(runs: seq<JsValue>, pushed: seq<nat>): (r: seq<JsValue>)
    requires forall x :: x in pushed ==> x < |runs|
    ensures |r| == |pushed|
  {
    seq(|pushed|, k requires 0 <= k < |pushed| => assert pushed[k] in pushed; runs[pushed[k]])
  }

  /** What getListRunDetails returns for the listed runs. */
  function Details(runs: seq<JsValue>, tasksOf: JsValue -> JsValue): seq<JsValue>
  {
    Entries(Joined(runs, tasksOf), Pushed(runs, |runs|))
  }

  lemma {:induction false} TargetPushed(runs: seq<JsValue>, n: nat, i: nat)
    requires i < n <= |runs| && Target(runs, i).Some?
    ensures Target(runs, i).value in Pushed(runs, n)
  {
    if i < n - 1 {
      TargetPushed(runs, n - 1, i);
    }
  }

  lemma {:induction false} PushedIsTarget(runs: seq<JsValue>, n: nat, j: nat)
    requires n <= |runs| && j in Pushed(runs, n)
    ensures exists i :: 0 <= i < n && Target(runs, i) == Some(j)
  {
    assert n > 0;
    var t := Target(runs, n - 1);
    if j in Pushed(runs, n - 1) {
      PushedIsTarget(runs, n - 1, j);
    } else {
      assert t == Some(j);
    }
  }

  /** The runs that end up in `result` are exactly the first carriers of their ids. */
  lemma PushedFirsts(runs: seq<JsValue>, j: nat)
    requires j < |runs|
    ensures j in Pushed(runs, |runs|) <==> FirstOfId(runs, j)
  {
    if j in Pushed(runs, |runs|) {
      PushedIsTarget(runs, |runs|, j);
      var i :| 0 <= i < |runs| && Target(runs, i) == Some(j);
      assert Carries(runs[j], IdOf(runs[i]));
    }
    if FirstOfId(runs, j) {
      assert Target(runs, j) == Some(j);
      TargetPushed(runs, |runs|, j);
    }
  }

  /** With no null run, every callback pushes exactly one entry. */
  lemma {:induction false} PushedLength(runs: seq<JsValue>, n: nat)
    requires n <= |runs|
    requires forall k :: 0 <= k < n ==> runs[k].Obj? && "id" in Keys(runs[k].fields)
    ensures |Pushed(runs, n)| == n
  {
    if n > 0 {
      FindIsFirstOrEarlier(runs, n - 1);
      PushedLength(runs, n - 1);
    }
  }

  /** With no null run, the callback of run `i` pushes entry `i`: the first run carrying run `i`'s id. */
  lemma {:induction false} PushedAt(runs: seq<JsValue>, n: nat, i: nat)
    requires i < n <= |runs|
    requires forall k :: 0 <= k < n ==> runs[k].Obj? && "id" in Keys(runs[k].fields)
    ensures |Pushed(runs, n)| == n
    ensures Pushed(runs, n)[i] == Find(runs, IdOf(runs[i])).value
  {
    PushedLength(runs, n - 1);
    FindIsFirstOrEarlier(runs, n - 1);
    var t := Target(runs, n - 1);
    assert t == Find(runs, IdOf(runs[n - 1])) && t.Some?;
    assert Pushed(runs, n) == Pushed(runs, n - 1) + [t.value];
    if i < n - 1 {
      PushedAt(runs, n - 1, i);
    }
  }

  lemma FindIsFirstOrEarlier(runs: seq<JsValue>, i: nat)
    requires i < |runs| && Carries(runs[i], IdOf(runs[i]))
    ensures Find(runs, IdOf(runs[i])).Some?
  {
  }

  /**
   * lodash `find` over the current run objects: the first index whose run
   * carries `id`.
   */
  method FindRun(runs: array<JsValue>, id: JsValue) returns (found: Option<nat>)
    ensures found.Some? ==> found.value < runs.Length && Carries(runs[found.value], id)
    ensures found.Some? ==> forall k :: 0 <= k < found.value ==> !Carries(runs[k], id)
    ensures found.None? ==> forall k :: 0 <= k < runs.Length ==> !Carries(runs[k], id)
  {
    var k := 0;
    while k < runs.Length
      invariant 0 <= k <= runs.Length
      invariant forall m :: 0 <= m < k ==> !Carries(runs[m], id)
    {
      if Carries(runs[k], id) {
        return Some(k);
      }
      k := k + 1;
    }
    return None;
  }

  /**
   * The run objects part way through the join: those pushed so far carry
   * their `tasks`, all others are as listed.
   */
  ghost predicate JoinState(o: seq<JsValue>, cur: seq<JsValue>, result: seq<nat>, tasksOf: JsValue -> JsValue)
  {
    && |cur| == |o|
    && (forall x :: x in result ==> x < |o| && o[x].Obj?)
    && (forall j :: 0 <= j < |o| ==>
          cur[j] == if j in result then Tasked(o[j], tasksOf(IdOf(o[j]))) else o[j])
  }

  /** Part way through, ids are as listed. */
  lemma StateKeepsIds(o: seq<JsValue>, cur: seq<JsValue>, result: seq<nat>, tasksOf: JsValue -> JsValue,
                      j: nat, id: JsValue)
    requires JoinState(o, cur, result, tasksOf) && j < |o|
    ensures IdOf(cur[j]) == IdOf(o[j]) && (Nullish(cur[j]) <==> Nullish(o[j]))
    ensures Carries(cur[j], id) <==> Carries(o[j], id)
  {
    if j in result {
      TaskedKeepsId(o[j], tasksOf(IdOf(o[j])), id);
    }
  }

  /** `find` over the current objects agrees with the callback's target in the listed ones. */
  lemma FoundIsTarget(o: seq<JsValue>, cur: seq<JsValue>, result: seq<nat>, tasksOf: JsValue -> JsValue,
                      i: nat, found: Option<nat>)
    requires JoinState(o, cur, result, tasksOf) && i < |o| && !Nullish(cur[i])
    requires found.Some? ==> found.value < |cur| && Carries(cur[found.value], IdOf(cur[i]))
    requires found.Some? ==> forall k :: 0 <= k < found.value ==> !Carries(cur[k], IdOf(cur[i]))
    requires found.None? ==> forall k :: 0 <= k < |cur| ==> !Carries(cur[k], IdOf(cur[i]))
    ensures found == Target(o, i)
    ensures found.Some? ==> IdOf(o[found.value]) == IdOf(cur[i])
  {
    var id := IdOf(cur[i]);
    StateKeepsIds(o, cur, result, tasksOf, i, id);
    forall k | 0 <= k < |o| ensures Carries(cur[k], id) <==> Carries(o[k], id) {
      StateKeepsIds(o, cur, result, tasksOf, k, id);
    }
    if found.Some? {
      FindIsFirst(o, id, found.value);
    }
  }

  /** Writing `tasks` into the target and pushing it keeps the state. */
  lemma JoinStep(o: seq<JsValue>, cur: seq<JsValue>, result: seq<nat>, tasksOf: JsValue -> JsValue, j: nat)
    requires JoinState(o, cur, result, tasksOf) && j < |o| && o[j].Obj?
    ensures cur[j].Obj?
    ensures JoinState(o, cur[j := Tasked(cur[j], tasksOf(IdOf(o[j])))], result + [j], tasksOf)
  {
    var t := tasksOf(IdOf(o[j]));
    if j in result {
      PutTwice(o[j].fields, "tasks", t);
    }
  }

  /** Once every callback has run, the state is the joined listing. */
  lemma JoinDone(o: seq<JsValue>, cur: seq<JsValue>, tasksOf: JsValue -> JsValue)
    requires JoinState(o, cur, Pushed(o, |o|), tasksOf)
    ensures cur == Joined(o, tasksOf)
  {
    forall j | 0 <= j < |o| ensures cur[j] == Joined(o, tasksOf)[j] {
      PushedFirsts(o, j);
    }
  }

  /**
   * `Promise.all(runCommand.map(...))`, one callback after the other: each
   * callback looks up the tasks of its run's id, finds the first run with that
   * id, writes `tasks` into it and pushes it. A null or undefined run makes
   * its callback throw; the others still run, and the first such TypeError is
   * what the whole join rejects with.
   */
  method JoinRunTasks(runs: array<JsValue>, tasksOf: JsValue -> JsValue) returns (r: Attempt<seq<nat>>)
    modifies runs
    ensures runs[..] == Joined(old(runs[..]), tasksOf)
    ensures NullishFailure(old(runs[..]), runs.Length).Some? ==>
              r == Threw(NullishFailure(old(runs[..]), runs.Length).value)
    ensures NullishFailure(old(runs[..]), runs.Length).None? ==>
              r == Returned(Pushed(old(runs[..]), runs.Length))
  {
    ghost var o := runs[..];
    var result: seq<nat> := [];
    var failure: Option<string> := None;
    var i := 0;
    while i < runs.Length
      invariant 0 <= i <= runs.Length
      invariant result == Pushed(o, i)
      invariant failure == NullishFailure(o, i)
      invariant JoinState(o, runs[..], result, tasksOf)
    {
      ghost var cur := runs[..];
      var run := runs[i];
      StateKeepsIds(o, cur, result, tasksOf, i, Undefined);
      if Nullish(run) {
        if failure.None? {
          failure := Some(ReadOfNullish(run, "id"));
        }
      } else {
        var id := IdOf(run);
        var found := FindRun(runs, id);
        FoundIsTarget(o, cur, result, tasksOf, i, found);
        if found.Some? {
          var j := found.value;
          JoinStep(o, cur, result, tasksOf, j);
          runs[j] := Tasked(runs[j], tasksOf(id));
          result := result + [j];
        }
      }
      i := i + 1;
    }
    JoinDone(o, runs[..], tasksOf);
    if failure.Some? {
      return Threw(failure.value);
    }
    return Returned(result);
  }

  /**
   * The `getListRunDetails` case on what `listRunCommand` gave: `runCommand.map`
   * throws unless it is an array, and the join rejects on a null run.
   */
  function RunDetails(listed: Outcome, tasksOf: JsValue -> JsValue): (r: Attempt<JsValue>)
    ensures listed.ErrorObject? ==> r == Threw(NotAFunction("runCommand.map"))
  {
    match listed
    case ErrorObject(_) => Threw(NotAFunction("runCommand.map"))
    case Value(v) =>
      if Nullish(v) then Threw(ReadOfNullish(v, "map"))
      else if !v.Arr? then Threw(NotAFunction("runCommand.map"))
      else
        match NullishFailure(v.elems, |v.elems|)
        case Some(m) => Threw(m)
        case None => Returned(Arr(Details(v.elems, tasksOf)))
  }

  method GetListRunDetails(listed: Outcome, tasksOf: JsValue -> JsValue) returns (r: Attempt<JsValue>)
    ensures r == RunDetails(listed, tasksOf)
  {
    if listed.ErrorObject? {
      return Threw(NotAFunction("runCommand.map"));
    }
    var runCommand := listed.response;
    if Nullish(runCommand) {
      return Threw(ReadOfNullish(runCommand, "map"));
    }
    if !runCommand.Arr? {
      return Threw(NotAFunction("runCommand.map"));
    }
    var listedRuns := runCommand.elems;
    var runs := new JsValue[|listedRuns|](i requires 0 <= i < |listedRuns| => listedRuns[i]);
    assert runs[..] == listedRuns;
    var joined := JoinRunTasks(runs, tasksOf);
    if joined.Threw? {
      return Threw(joined.message);
    }
    r := Returned(Arr(Entries(runs[..], joined.value)));
  }

  // ---------------------------------------------------------------------------
  // The handler

  datatype Event = Event(field: string, arguments: JsValue)

  /** The Omics answers: by workflow type, the run listing, and by run id (and type). */
  datatype Services = Services(
    listWorkflows: JsValue -> Attempt<JsValue>,
    listRuns: Attempt<JsValue>,
    listRunTasks: JsValue -> Attempt<JsValue>,
    getRun: JsValue -> Attempt<JsValue>,
    getWorkflow: (JsValue, JsValue) -> Attempt<JsValue>)

  /** What `listRunTasksCommand(id)` gives. */
  function TasksOf(svc: Services): JsValue -> JsValue
  {
    id => ItemsOrUndefined(svc.listRunTasks(id))
  }

  /** A case's result, or the outer `catch` when the case threw. */
  function Settle(a: Attempt<Outcome>, requestJson: string): Reply<Outcome>
  {
    match a
    case Returned(o) => Resolved(o)
    case Threw(m) => Caught(m, requestJson)
  }

  function Invoke(event: Event, requestJson: string, svc: Services): Reply<Outcome>
  {
    var args := event.arguments;
    if event.field == GetListWorkflowField then
      Settle(match Argument(args, "workflowType")
             case Threw(m) => Threw(m)
             case Returned(t) => Returned(ItemsOrError(svc.listWorkflows(t))), requestJson)
    else if event.field == GetListRunTasksField then
      Settle(match Argument(args, "id")
             case Threw(m) => Threw(m)
             case Returned(id) => Returned(Value(ItemsOrUndefined(svc.listRunTasks(id)))), requestJson)
    else if event.field == GetRunCommandField then
      Settle(match Argument(args, "id")
             case Threw(m) => Threw(m)
             case Returned(id) => Returned(Value(ResponseOrUndefined(svc.getRun(id)))), requestJson)
    else if event.field == GetWorkflowCommandField then
      Settle(match Argument(args, "id")
             case Threw(m) => Threw(m)
             case Returned(id) =>
               Returned(Value(ResponseOrUndefined(svc.getWorkflow(id, Member(args, "workflowType"))))), requestJson)
    else if event.field == GetListRunCommandField then
      Resolved(ItemsOrError(svc.listRuns))
    else if event.field == GetListRunDetailsField then
      Settle(match RunDetails(ItemsOrError(svc.listRuns), TasksOf(svc))
             case Threw(m) => Threw(m)
             case Returned(v) => Returned(Value(v)), requestJson)
    else Unresolved(UnknownField(event.field))
  }

  method Handle(event: Event, requestJson: string, svc: Services) returns (reply: Reply<Outcome>)
    ensures reply == Invoke(event, requestJson, svc)
  {
    var args := event.arguments;
    match event.field {
      case "getListWorkflow" =>
        var workflowType := Argument(args, "workflowType");
        if workflowType.Threw? {
          return Caught(workflowType.message, requestJson);
        }
        reply := Resolved(ItemsOrError(svc.listWorkflows(workflowType.value)));
      case "getListRunTasks" =>
        var id := Argument(args, "id");
        if id.Threw? {
          return Caught(id.message, requestJson);
        }
        reply := Resolved(Value(ItemsOrUndefined(svc.listRunTasks(id.value))));
      case "getRunCommand" =>
        var id := Argument(args, "id");
        if id.Threw? {
          return Caught(id.message, requestJson);
        }
        reply := Resolved(Value(ResponseOrUndefined(svc.getRun(id.value))));
      case "getWorkflowCommand" =>
        var id := Argument(args, "id");
        if id.Threw? {
          return Caught(id.message, requestJson);
        }
        reply := Resolved(Value(ResponseOrUndefined(svc.getWorkflow(id.value, Member(args, "workflowType")))));
      case "getListRunCommand" =>
        reply := Resolved(ItemsOrError(svc.listRuns));
      case "getListRunDetails" =>
        var details := GetListRunDetails(ItemsOrError(svc.listRuns), TasksOf(svc));
        if details.Threw? {
          return Caught(details.message, requestJson);
        }
        reply := Resolved(Value(details.value));
      case _ =>
        reply := Unresolved(UnknownField(event.field));
    }
  }

  // ---------------------------------------------------------------------------
  // Properties

  /** Every case label is answered by its own case; any other name gets the Unknown-field string. */
  lemma Dispatch(event: Event, requestJson: string, svc: Services)
    ensures event.field in Fields <==> !Invoke(event, requestJson, svc).Unresolved?
    ensures event.field !in Fields ==> Invoke(event, requestJson, svc) == Unresolved(UnknownField(event.field))
  {
  }

  /**
   * With every listed run an object with an `id`, getListRunDetails returns
   * one entry per run; entry `i` is the first run carrying run `i`'s id, with
   * `tasks` set to the task listing of that id.
   */
  lemma DetailsPerRun(runs: seq<JsValue>, tasksOf: JsValue -> JsValue, i: nat)
    requires i < |runs|
    requires forall k :: 0 <= k < |runs| ==> runs[k].Obj? && "id" in Keys(runs[k].fields)
    ensures var d := Details(runs, tasksOf);
            var first := Find(runs, IdOf(runs[i]));
            |d| == |runs| && first.Some? &&
            d[i] == Tasked(runs[first.value], tasksOf(IdOf(runs[i]))) &&
            Lookup(d[i].fields, "tasks") == tasksOf(IdOf(runs[i])) &&
            IdOf(d[i]) == IdOf(runs[i])
  {
    PushedAt(runs, |runs|, i);
    var j := Find(runs, IdOf(runs[i])).value;
    assert Carries(runs[j], IdOf(runs[i]));
    FindIsFirst(runs, IdOf(runs[j]), j);
    TaskedKeepsId(runs[j], tasksOf(IdOf(runs[i])), Undefined);
  }

  /** With distinct ids each run is returned itself, its own tasks added. */
  lemma DistinctIdsEachRun(runs: seq<JsValue>, tasksOf: JsValue -> JsValue, i: nat)
    requires i < |runs|
    requires forall k :: 0 <= k < |runs| ==> runs[k].Obj? && "id" in Keys(runs[k].fields)
    requires forall k, m :: 0 <= k < m < |runs| ==> IdOf(runs[k]) != IdOf(runs[m])
    ensures |Details(runs, tasksOf)| == |runs|
    ensures Details(runs, tasksOf)[i] == Tasked(runs[i], tasksOf(IdOf(runs[i])))
  {
    DetailsPerRun(runs, tasksOf, i);
    FindIsFirst(runs, IdOf(runs[i]), i);
  }

  /** With a duplicated id, the later run's entry is the earlier run object. */
  lemma DuplicateIdRepeatsFirst(runs: seq<JsValue>, tasksOf: JsValue -> JsValue, i: nat, j: nat)
    requires i < j < |runs|
    requires forall k :: 0 <= k < |runs| ==> runs[k].Obj? && "id" in Keys(runs[k].fields)
    requires IdOf(runs[i]) == IdOf(runs[j])
    ensures |Details(runs, tasksOf)| == |runs|
    ensures Details(runs, tasksOf)[j] == Details(runs, tasksOf)[i]
  {
    DetailsPerRun(runs, tasksOf, i);
    DetailsPerRun(runs, tasksOf, j);
  }

  /** The handler's getListRunDetails reply is the join of the listed runs with their tasks. */
  lemma RunDetailsReply(event: Event, requestJson: string, svc: Services, runs: seq<JsValue>)
    requires event.field == GetListRunDetailsField
    requires svc.listRuns == Returned(Obj([Entry("items", Arr(runs))]))
    requires forall k :: 0 <= k < |runs| ==> runs[k].Obj? && "id" in Keys(runs[k].fields)
    ensures Invoke(event, requestJson, svc) == Resolved(Value(Arr(Details(runs, TasksOf(svc)))))
  {
    assert NullishFailure(runs, |runs|).None?;
  }

  /** A failed run listing is an error object, and `.map` on it makes the reply a 403. */
  lemma RunDetailsOfFailedListing(event: Event, requestJson: string, svc: Services)
    requires event.field == GetListRunDetailsField && svc.listRuns.Threw?
    ensures var r := Invoke(event, requestJson, svc);
            r.Envelope? && r.statusCode == 403 && Unquote(r.body) == Some(NotAFunction("runCommand.map"))
  {
  }

  /** A null run in the listing makes the reply a 403 naming the `id` read. */
  lemma RunDetailsOfNullRun(event: Event, requestJson: string, svc: Services, runs: seq<JsValue>, k: nat)
    requires event.field == GetListRunDetailsField
    requires svc.listRuns == Returned(Obj([Entry("items", Arr(runs))]))
    requires k < |runs| && runs[k] == Null
    requires forall m :: 0 <= m < k ==> !Nullish(runs[m])
    ensures var r := Invoke(event, requestJson, svc);
            r.Envelope? && r.statusCode == 403 && Unquote(r.body) == Some(ReadOfNullish(Null, "id"))
  {
    NullFirst(runs, |runs|, k);
  }

  lemma {:induction false} NullFirst(runs: seq<JsValue>, n: nat, k: nat)
    requires k < n <= |runs| && runs[k] == Null
    requires forall m :: 0 <= m < k ==> !Nullish(runs[m])
    ensures NullishFailure(runs, n) == Some(ReadOfNullish(Null, "id"))
  {
    if n - 1 > k {
      NullFirst(runs, n - 1, k);
    } else {
      assert NullishFailure(runs, n - 1).None?;
    }
  }

  /** listWorkflow and listRunCommand hand a failure back as the error object. */
  lemma ListFailuresReturned(event: Event, requestJson: string, svc: Services)
    requires event.field == GetListWorkflowField || event.field == GetListRunCommandField
    requires event.arguments.Obj?
    requires svc.listRuns.Threw? && forall t :: svc.listWorkflows(t).Threw?
    ensures var r := Invoke(event, requestJson, svc);
            r.Resolved? && r.value.ErrorObject?
  {
    var t := Lookup(event.arguments.fields, "workflowType");
    assert svc.listWorkflows(t).Threw?;
  }

  /** The task, run and workflow lookups turn a failure into `undefined`. */
  lemma LookupFailuresUndefined(event: Event, requestJson: string, svc: Services)
    requires event.field in [GetListRunTasksField, GetRunCommandField, GetWorkflowCommandField]
    requires event.arguments.Obj?
    requires forall id :: svc.listRunTasks(id).Threw? && svc.getRun(id).Threw?
    requires forall id, t :: svc.getWorkflow(id, t).Threw?
    ensures Invoke(event, requestJson, svc) == Resolved(Value(Undefined))
  {
    var id := Lookup(event.arguments.fields, "id");
    assert svc.listRunTasks(id).Threw? && svc.getRun(id).Threw?;
    assert svc.getWorkflow(id, Member(event.arguments, "workflowType")).Threw?;
  }

  /** Without `arguments`, every case that reads one answers with a 403. */
  lemma MissingArguments(event: Event, requestJson: string, svc: Services)
    requires event.field in Fields[..4] && event.arguments == Undefined
    ensures var r := Invoke(event, requestJson, svc);
            r.Envelope? && r.statusCode == 403
  {
  }
}
