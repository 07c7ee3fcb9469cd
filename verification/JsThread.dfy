/**
 One JavaScript thread: its engines, actions and tasks (internal/defaultjsexecutor/thread.go).

 `run` receives action requests and tasks until an action ends it or a queue is closed.
 What it receives, and how each call into an engine or its factory ends, is the input.
 Loading and closing an engine do not panic; executing a task may.
 */
module JsThread {

  import opened Wrappers

  /** Engines are numbered in the order the factory makes them. */
  type Engine = nat

  type TaskId = nat

  datatype ThreadState = Init | Running | Draining | Reloading | Retiring | Stopped

  datatype Action = StopAction | ReloadAction | RetireAction | UnknownAction

  /** Whether the factory makes an engine, and whether that loads its scripts. */
  datatype EngineCalls = EngineCalls(made: bool, loaded: bool)

  /** A request; one that the thread makes for itself has nobody waiting and no id. */
  datatype Request = Request(id: Option<nat>, action: Action, calls: EngineCalls)

  datatype Input =
    | ActionArrives(request: Request)
    | TaskArrives(task: TaskId, panics: bool, poolAgrees: bool)
    | QueueClosed

  function TasksOf(inputs: seq<Input>): seq<TaskId> {
    if inputs == [] then []
    else TasksOf(inputs[..|inputs| - 1]) + if inputs[|inputs| - 1].TaskArrives? then [inputs[|inputs| - 1].task] else []
  }

  function RequestsOf(inputs: seq<Input>): seq<nat> {
    if inputs == [] then []
    else
      var last := inputs[|inputs| - 1];
      RequestsOf(inputs[..|inputs| - 1])
      + if last.ActionArrives? && last.request.id.Some? then [last.request.id.value] else []
  }

  /**
   The input after which a thread with this limit exits: a closed queue, a stop or retire,
   or the task that reaches the limit.
   */
  predicate Ends(max: nat, inputs: seq<Input>, i: nat)
    requires i < |inputs|
  {
    EndsThread(max, inputs[i], |TasksOf(inputs[..i + 1])|)
  }

  predicate EndsThread(max: nat, input: Input, tasks: nat) {
    match input
    case QueueClosed => true
    case ActionArrives(request) => request.action.StopAction? || request.action.RetireAction?
    case TaskArrives(_, _, poolAgrees) => poolAgrees && max > 0 && tasks >= max
  }

  /** A request is pending that ends the thread. */
  predicate Terminal(pending: seq<Request>) {
    pending != [] && (pending[0].action.StopAction? || pending[0].action.RetireAction?)
  }

  /** The thread exits upon the last of the inputs received, or has received them all. */
  predicate Lasts(max: nat, inputs: seq<Input>, received: nat, exited: bool) {
    && received <= |inputs|
    && (forall i :: 0 <= i < received - 1 ==> !Ends(max, inputs, i))
    && (if exited then received > 0 && Ends(max, inputs, received - 1)
        else received == |inputs| && (received > 0 ==> !Ends(max, inputs, received - 1)))
  }

  lemma OneMore(inputs: seq<Input>, n: nat)
    requires n < |inputs|
    ensures TasksOf(inputs[..n + 1]) == TasksOf(inputs[..n]) + TasksOf([inputs[n]])
    ensures RequestsOf(inputs[..n + 1]) == RequestsOf(inputs[..n]) + RequestsOf([inputs[n]])
  {
    assert inputs[..n + 1][..n] == inputs[..n];
    assert [inputs[n]][..0] == [];
  }

  class Thread {
    const maxExecutions: nat
    var state: ThreadState
    var jsEngine: Option<Engine>
    var taskCount: nat
    /** What the factory made, and what was closed, answered and sent, in order. */
    var made: nat
    var closed: seq<Engine>
    var results: seq<TaskId>
    var answered: seq<nat>

    constructor (maxExecutions: nat)
      ensures Conserved() && state == Init && jsEngine == None && taskCount == made == 0
      ensures closed == results == answered == [] && this.maxExecutions == maxExecutions
    {
      this.maxExecutions := maxExecutions;
      state, jsEngine, taskCount := Init, None, 0;
      made, closed, results, answered := 0, [], [], [];
    }

    /** No engine is lost and none is closed twice: each is current or was closed once. */
    ghost predicate Conserved()
      reads this
    {
      && NoDuplicates(closed)
      && (forall e: Engine :: e < made <==> e in closed || jsEngine == Some(e))
      && (jsEngine.Some? ==> jsEngine.value !in closed)
    }

    method MakeEngine(calls: EngineCalls) returns (e: Option<Engine>)
      modifies this`made
      ensures e == if calls.made then Some(old(made)) else None
      ensures made == old(made) + if calls.made then 1 else 0
    {
      e := None;
      if calls.made {
        e, made := Some(made), made + 1;
      }
    }

    method CloseCurrentEngine()
      requires Conserved()
      modifies this`closed, this`jsEngine
      ensures Conserved() && jsEngine == None
      ensures closed == if old(jsEngine).Some? then old(closed) + [old(jsEngine).value] else old(closed)
    {
      if jsEngine.None? {
        return;
      }
      closed, jsEngine := closed + [jsEngine.value], None;
    }

    method CompleteAction(req: Request)
      modifies this`answered
      ensures answered == old(answered) + if req.id.Some? then [req.id.value] else []
    {
      if req.id.Some? {
        answered := answered + [req.id.value];
      }
    }

    method InitEngine(calls: EngineCalls) returns (ok: bool)
      requires Conserved() && jsEngine == None
      modifies this`made, this`jsEngine
      ensures Conserved() && ok == (calls.made && calls.loaded)
      ensures jsEngine == if calls.made then Some(old(made)) else None
    {
      var e := MakeEngine(calls);
      if e.None? {
        return false;
      }
      jsEngine := e;
      ok := calls.loaded;
    }

    /** An action closes the engines it displaces, and is answered once. */
    method ExecuteAction(req: Request) returns (terminal: bool)
      requires Conserved() && jsEngine.Some?
      modifies this`made, this`closed, this`jsEngine, this`answered, this`state
      ensures Conserved() && answered == old(answered) + if req.id.Some? then [req.id.value] else []
      ensures terminal == (req.action.StopAction? || req.action.RetireAction?)
      ensures terminal ==> jsEngine == None && state == Stopped
      ensures !terminal && !req.action.UnknownAction? ==> state == Running
      ensures !terminal ==>
                var swaps := req.action.ReloadAction? && req.calls.made && req.calls.loaded;
                jsEngine == if swaps then Some(old(made)) else old(jsEngine)
      ensures req.action.UnknownAction? ==> state == old(state)
    {
      match req.action {
        case ReloadAction =>
          state := Reloading;
          var newEngine := MakeEngine(req.calls);
          if newEngine.None? {
            state := Running;
            CompleteAction(req);
            return false;
          }
          if !req.calls.loaded {
            closed := closed + [newEngine.value];
            state := Running;
            CompleteAction(req);
            return false;
          }
          var oldEngine := jsEngine;
          jsEngine := newEngine;
          if oldEngine.Some? {
            closed := closed + [oldEngine.value];
          }
          state := Running;
          CompleteAction(req);
          terminal := false;
        case StopAction =>
          CloseCurrentEngine();
          state := Stopped;
          CompleteAction(req);
          terminal := true;
        case RetireAction =>
          state := Retiring;
          CloseCurrentEngine();
          state := Stopped;
          CompleteAction(req);
          terminal := true;
        case UnknownAction =>
          CompleteAction(req);
          terminal := false;
      }
    }

    /** A task is sent one result, whether or not its execution panics. */
    method ExecuteTask(task: TaskId, panics: bool)
      modifies this`results, this`taskCount
      ensures results == old(results) + [task] && taskCount == old(taskCount) + 1
    {
      var sent := false;
      if !panics {
        results := results + [task];
        sent := true;
      }
      if !sent {
        results := results + [task];
      }
      taskCount := taskCount + 1;
    }

    method CheckAndRetireIfNeeded(poolAgrees: bool) returns (request: Option<Request>)
      modifies this`state
      ensures request.Some? <==> maxExecutions > 0 && taskCount >= maxExecutions && poolAgrees
      ensures request.Some? ==> request.value.action == RetireAction && request.value.id == None && state == Draining
      ensures request.None? ==> state == old(state)
    {
      request := None;
      if maxExecutions > 0 && taskCount >= maxExecutions && poolAgrees {
        state := Draining;
        request := Some(Request(None, RetireAction, EngineCalls(false, false)));
      }
    }

    method MarkDraining(action: Action)
      modifies this`state
      ensures state == if !action.UnknownAction? && old(state) == Running then Draining else old(state)
    {
      if (action.StopAction? || action.ReloadAction? || action.RetireAction?) && state == Running {
        state := Draining;
      }
    }

    /**
     The thread's life.  `received` inputs are taken; each task among them was sent one
     result and each request answered once, in order.  It exits at once if its engine does
     not load, and else upon the first input that ends it.  A thread that has exited has
     closed every engine it was given, once.
     */
    method Run(init: EngineCalls, inputs: seq<Input>) returns (exited: bool, ghost received: nat)
      requires Conserved() && state == Init && jsEngine == None && results == answered == [] && taskCount == 0
      modifies this
      ensures Conserved() && received <= |inputs|
      ensures if init.made && init.loaded then Lasts(maxExecutions, inputs, received, exited) else exited && received == 0
      ensures results == TasksOf(inputs[..received]) && answered == RequestsOf(inputs[..received])
      ensures if exited then state == Stopped && jsEngine == None && (forall e: Engine :: e < made <==> e in closed)
              else received == |inputs| && state == Running && jsEngine.Some?
    {
      received := 0;
      var ok := InitEngine(init);
      if !ok {
        CleanUp();
        return true, 0;
      }
      state := Running;
      exited, received := Loop(inputs);
      if exited {
        CleanUp();
      }
    }

    method CleanUp()
      requires Conserved()
      modifies this`state, this`closed, this`jsEngine
      ensures Conserved() && state == Stopped && jsEngine == None
    {
      state := Stopped;
      CloseCurrentEngine();
    }

    /** The state of a thread with these requests pending. */
    predicate AtRest(pending: seq<Request>)
      reads this
    {
      && |pending| <= 1 && jsEngine.Some?
      && state == if pending == [] || pending[0].action.UnknownAction? then Running else Draining
    }

    method ExecutePending(pending: seq<Request>) returns (terminal: bool)
      requires Conserved() && AtRest(pending)
      modifies this`made, this`closed, this`jsEngine, this`answered, this`state
      ensures Conserved() && answered == old(answered) + Ids(pending)
      ensures terminal == Terminal(pending)
      ensures !terminal ==> AtRest([])
    {
      var left := pending;
      while |left| > 0
        invariant Conserved() && AtRest(left) && answered + Ids(left) == old(answered) + Ids(pending)
        invariant Terminal(left) == Terminal(pending)
      {
        var action := left[0];
        left := left[1..];
        terminal := ExecuteAction(action);
        if terminal {
          return true;
        }
      }
      terminal := false;
    }

    method Receive(input: Input) returns (pending: seq<Request>)
      requires AtRest([]) && !input.QueueClosed?
      modifies this`state, this`results, this`taskCount
      ensures AtRest(pending) && Ids(pending) == RequestsOf([input]) && results == old(results) + TasksOf([input])
      ensures taskCount == old(taskCount) + |TasksOf([input])|
      ensures Terminal(pending) <==> EndsThread(maxExecutions, input, taskCount)
    {
      pending := [];
      assert [input][..0] == [];
      match input {
        case ActionArrives(request) =>
          MarkDraining(request.action);
          pending := [request];
        case TaskArrives(task, panics, poolAgrees) =>
          ExecuteTask(task, panics);
          var request := CheckAndRetireIfNeeded(poolAgrees);
          if request.Some? {
            pending := [request.value];
          }
        case QueueClosed =>
      }
    }

    method Loop(inputs: seq<Input>) returns (exited: bool, ghost received: nat)
      requires Conserved() && AtRest([]) && results == answered == [] && taskCount == 0
      modifies this
      ensures Conserved() && received <= |inputs| && Lasts(maxExecutions, inputs, received, exited)
      ensures results == TasksOf(inputs[..received]) && answered == RequestsOf(inputs[..received])
      ensures !exited ==> AtRest([])
    {
      var pending: seq<Request> := [];
      received := 0;
      var next := 0;
      while true
        invariant next == received <= |inputs| && Conserved() && AtRest(pending)
        invariant results == TasksOf(inputs[..received]) && taskCount == |results|
        invariant answered + Ids(pending) == RequestsOf(inputs[..received])
        invariant forall i :: 0 <= i < received - 1 ==> !Ends(maxExecutions, inputs, i)
        invariant Terminal(pending) <==> received > 0 && Ends(maxExecutions, inputs, received - 1)
        decreases |inputs| - next
      {
        var terminal := ExecutePending(pending);
        pending := [];
        if terminal {
          return true, received;
        }
        if next == |inputs| {
          return false, received;
        }
        var input := inputs[next];
        OneMore(inputs, next);
        next, received := next + 1, received + 1;
        if input.QueueClosed? {
          return true, received;
        }
        pending := Receive(input);
      }
    }
  }

  /** The ids of the requests that somebody waits for. */
  function Ids(pending: seq<Request>): seq<nat> {
    if pending == [] then []
    else (if pending[0].id.Some? then [pending[0].id.value] else []) + Ids(pending[1..])
  }
}
