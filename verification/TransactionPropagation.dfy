/**
 Transaction propagation (internal/defaultscope/transactor.go).

 A handler is a tree: it writes rows, makes nested transactor calls, branches on
 whether such a call failed, and finally returns nil or an error.  Two meanings
 are given to it:

 - `Exec` is the machine that runs: one flat database session holding a write
   log and a stack of named savepoints, a sticky rollback cause, and a generator
   for the names of anonymous savepoints;
 - `Eval` is the meaning the propagation levels promise: no session and no
   savepoints, a failed Nested call simply puts the pending log back.

 The classes at the end are the session, the transaction and the transactor; their
 methods are proved to compute `Exec`, and `MachineRefinesReference` connects the two meanings.
 */
module TransactionPropagation {
  import opened Wrappers

  type Row = int

  datatype Statement = Begin | Commit | MakeSavepoint | RollbackTo | Release

  datatype Error =
    | App(code: int)
    | HandlerRequired
    | SessionUnavailable
    | InvalidPropagation(propagation: string)
    | NoSuchSavepoint
    | DbError(statement: Statement)
    | Both(first: Error, second: Error)

  /** A savepoint name: given by the caller, or made from a fresh xid. */
  datatype Name = Supplied(text: string) | Generated(serial: nat)

  datatype Options = Options(propagation: string, savepointName: string)

  /** Which of the statements issued by one call the database refuses. */
  datatype Faults = Faults(begin: bool, commit: bool, savepoint: bool, rollbackTo: bool, release: bool)

  const NO_FAULTS := Faults(false, false, false, false, false)

  /** What a handler returns; `Rethrow` passes on what its latest inner call returned. */
  datatype Outcome = Succeed | FailWith(error: Error) | Rethrow

  datatype Handler =
    | Return(outcome: Outcome)
    | Write(row: Row, next: Handler)
    | Call(opts: Options, faults: Faults, body: Option<Handler>, onOk: Handler, onError: Handler)

  function Returned(o: Outcome, last: Option<Error>): Option<Error> {
    match o
    case Succeed => None
    case FailWith(e) => Some(e)
    case Rethrow => last
  }

  // ---------------------------------------------------------------- the reference meaning

  datatype Eff = Eff(result: Option<Error>, pending: seq<Row>, cause: Option<Error>, committed: seq<Row>)

  function Eval(h: Handler, pending: seq<Row>, cause: Option<Error>, committed: seq<Row>, last: Option<Error>): Eff
    decreases h, 1
  {
    match h
    case Return(o) => Eff(Returned(o, last), pending, cause, committed)
    case Write(row, next) => Eval(next, pending + [row], cause, committed, last)
    case Call(_, _, _, onOk, onError) =>
      var r := EvalCall(h, pending, cause, committed);
      Eval(if r.result.None? then onOk else onError, r.pending, r.cause, r.committed, r.result)
  }

  function EvalCall(h: Handler, pending: seq<Row>, cause: Option<Error>, committed: seq<Row>): Eff
    requires h.Call?
    decreases h, 0
  {
    if h.body.None? then Eff(Some(HandlerRequired), pending, cause, committed)
    else if h.opts.propagation in {"", "required"} then
      var r := Eval(h.body.value, pending, cause, committed, None);
      r.(cause := FirstOf(r.cause, r.result))
    else if h.opts.propagation == "requires_new" then
      var f := EvalFresh(h.body.value, h.faults, committed);
      Eff(f.0, pending, cause, f.1)
    else if h.opts.propagation == "nested" then
      if h.faults.savepoint then Eff(Some(DbError(MakeSavepoint)), pending, cause, committed)
      else
        var r := Eval(h.body.value, pending, None, committed, None);
        var failure := FirstOf(r.result, r.cause);
        if failure.None? then
          Eff(if h.faults.release then Some(DbError(Release)) else None, r.pending, cause, r.committed)
        else if h.faults.rollbackTo then
          Eff(Some(Both(failure.value, DbError(RollbackTo))), r.pending, cause, r.committed)
        else
          Eff(failure, pending, cause, r.committed)
    else Eff(Some(InvalidPropagation(h.opts.propagation)), pending, cause, committed)
  }

  /** A fresh transaction: its result and the committed rows afterwards. */
  function EvalFresh(body: Handler, faults: Faults, committed: seq<Row>): (Option<Error>, seq<Row>)
    decreases body, 2
  {
    if faults.begin then (Some(DbError(Begin)), committed)
    else
      var r := Eval(body, [], None, committed, None);
      var failure := FirstOf(r.result, r.cause);
      if failure.Some? then (failure, r.committed)
      else if faults.commit then (Some(DbError(Commit)), r.committed)
      else (None, r.committed + r.pending)
  }

  // ---------------------------------------------------------------- the session machine

  datatype Savepoint = Mark(name: Name, snapshot: seq<Row>)

  datatype SessionState = SessionState(log: seq<Row>, stack: seq<Savepoint>)

  datatype Machine = Machine(result: Option<Error>, session: SessionState, cause: Option<Error>,
          committed: seq<Row>, serial: nat)

  /** Position of the newest savepoint with this name, or -1. */
  function Newest(stack: seq<Savepoint>, name: Name): (i: int)
    ensures -1 <= i < |stack|
    ensures i >= 0 ==> stack[i].name == name
    ensures forall j :: i < j < |stack| ==> stack[j].name != name
  {
    if stack == [] then -1
    else if stack[|stack| - 1].name == name then |stack| - 1
    else Newest(stack[..|stack| - 1], name)
  }

  function ExecRollbackTo(s: SessionState, name: Name, refused: bool): (Option<Error>, SessionState) {
    var i := Newest(s.stack, name);
    if refused then (Some(DbError(RollbackTo)), s)
    else if i < 0 then (Some(NoSuchSavepoint), s)
    else (None, SessionState(s.stack[i].snapshot, s.stack[..i + 1]))
  }

  function ExecRelease(s: SessionState, name: Name, refused: bool): (Option<Error>, SessionState) {
    var i := Newest(s.stack, name);
    if refused then (Some(DbError(Release)), s)
    else if i < 0 then (Some(NoSuchSavepoint), s)
    else (None, s.(stack := s.stack[..i]))
  }

  function Exec(h: Handler, s: SessionState, cause: Option<Error>, committed: seq<Row>, serial: nat,
          last: Option<Error>): Machine
    decreases h, 1
  {
    match h
    case Return(o) => Machine(Returned(o, last), s, cause, committed, serial)
    case Write(row, next) => Exec(next, s.(log := s.log + [row]), cause, committed, serial, last)
    case Call(_, _, _, onOk, onError) =>
      var r := ExecCall(h, s, cause, committed, serial);
      Exec(if r.result.None? then onOk else onError, r.session, r.cause, r.committed, r.serial, r.result)
  }

  function ExecCall(h: Handler, s: SessionState, cause: Option<Error>, committed: seq<Row>, serial: nat): Machine
    requires h.Call?
    decreases h, 0
  {
    if h.body.None? then Machine(Some(HandlerRequired), s, cause, committed, serial)
    else if h.opts.propagation in {"", "required"} then
      var r := Exec(h.body.value, s, cause, committed, serial, None);
      r.(cause := FirstOf(r.cause, r.result))
    else if h.opts.propagation == "requires_new" then
      var r := ExecFresh(h.body.value, h.faults, committed, serial);
      Machine(r.result, s, cause, r.committed, r.serial)
    else if h.opts.propagation == "nested" then
      ExecNested(h, s, cause, committed, serial)
    else Machine(Some(InvalidPropagation(h.opts.propagation)), s, cause, committed, serial)
  }

  function SavepointName(opts: Options, serial: nat): Name {
    if opts.savepointName == "" then Generated(serial) else Supplied(opts.savepointName)
  }

  function NextSerial(opts: Options, serial: nat): nat {
    if opts.savepointName == "" then serial + 1 else serial
  }

  function ExecNested(h: Handler, s: SessionState, cause: Option<Error>, committed: seq<Row>, serial: nat): Machine
    requires h.Call? && h.body.Some?
    decreases h.body, 2
  {
    var name := SavepointName(h.opts, serial);
    var serial' := NextSerial(h.opts, serial);
    if h.faults.savepoint then Machine(Some(DbError(MakeSavepoint)), s, cause, committed, serial')
    else
      var pushed := s.(stack := s.stack + [Mark(name, s.log)]);
      var r := Exec(h.body.value, pushed, None, committed, serial', None);
      var failure := FirstOf(r.result, r.cause);
      if failure.Some? then
        var (err, back) := ExecRollbackTo(r.session, name, h.faults.rollbackTo);
        Machine(if err.Some? then Some(Both(failure.value, err.value)) else failure, back, cause, r.committed, r.serial)
      else
        var (err, back) := ExecRelease(r.session, name, h.faults.release);
        Machine(err, back, cause, r.committed, r.serial)
  }

  function ExecFresh(body: Handler, faults: Faults, committed: seq<Row>, serial: nat): Machine
    decreases body, 2
  {
    var empty := SessionState([], []);
    if faults.begin then Machine(Some(DbError(Begin)), empty, None, committed, serial)
    else
      var r := Exec(body, empty, None, committed, serial, None);
      var failure := FirstOf(r.result, r.cause);
      if failure.Some? then r.(result := failure)
      else if faults.commit then r.(result := Some(DbError(Commit)))
      else r.(result := None, committed := r.committed + r.session.log)
  }

  // ---------------------------------------------------------------- refinement

  /** No supplied savepoint name is used again by a call nested inside it in the same session. */
  predicate NoReuse(h: Handler, enclosing: set<string>) {
    match h
    case Return(_) => true
    case Write(_, next) => NoReuse(next, enclosing)
    case Call(opts, _, body, onOk, onError) =>
      && NoReuse(onOk, enclosing)
      && NoReuse(onError, enclosing)
      && (body.Some? ==>
            if opts.propagation == "requires_new" then NoReuse(body.value, {})
            else if opts.propagation == "nested" then
              opts.savepointName !in enclosing && NoReuse(body.value, enclosing + ({opts.savepointName} - {""}))
            else opts.propagation in {"", "required"} ==> NoReuse(body.value, enclosing))
  }

  /** What a handler leaves on the savepoint stack: the old stack, then leaked savepoints of its own. */
  predicate StackKept(before: seq<Savepoint>, after: seq<Savepoint>, enclosing: set<string>, lo: nat, hi: nat) {
    && lo <= hi
    && before <= after
    && forall i :: |before| <= i < |after| ==>
        match after[i].name
        case Supplied(t) => t !in enclosing
        case Generated(k) => lo <= k < hi
  }

  ghost predicate Agree(m: Machine, e: Eff) {
    m.result == e.result && m.session.log == e.pending && m.cause == e.cause && m.committed == e.committed
  }

  lemma {:induction false} ExecRefines(h: Handler, s: SessionState, cause: Option<Error>, committed: seq<Row>,
          serial: nat,
                                       last: Option<Error>, enclosing: set<string>)
    requires NoReuse(h, enclosing) && "" !in enclosing
    ensures Agree(Exec(h, s, cause, committed, serial, last), Eval(h, s.log, cause, committed, last))
    ensures var m := Exec(h, s, cause, committed, serial, last);
            StackKept(s.stack, m.session.stack, enclosing, serial, m.serial)
    decreases h, 1
  {
    match h
    case Return(_) =>
    case Write(row, next) =>
      ExecRefines(next, s.(log := s.log + [row]), cause, committed, serial, last, enclosing);
    case Call(_, _, _, onOk, onError) =>
      ExecCallRefines(h, s, cause, committed, serial, enclosing);
      var r := ExecCall(h, s, cause, committed, serial);
      ExecRefines(if r.result.None? then onOk else onError, r.session, r.cause, r.committed, r.serial, r.result,
        enclosing);
  }

  lemma {:induction false} ExecCallRefines(h: Handler, s: SessionState, cause: Option<Error>, committed: seq<Row>,
          serial: nat,
                                           enclosing: set<string>)
    requires h.Call? && NoReuse(h, enclosing) && "" !in enclosing
    ensures Agree(ExecCall(h, s, cause, committed, serial), EvalCall(h, s.log, cause, committed))
    ensures var m := ExecCall(h, s, cause, committed, serial);
            StackKept(s.stack, m.session.stack, enclosing, serial, m.serial)
    decreases h, 0
  {
    if h.body.None? {
    } else if h.opts.propagation in {"", "required"} {
      ExecRefines(h.body.value, s, cause, committed, serial, None, enclosing);
    } else if h.opts.propagation == "requires_new" {
      FreshRefines(h.body.value, h.faults, committed, serial);
    } else if h.opts.propagation == "nested" {
      NestedRefines(h, s, cause, committed, serial, enclosing);
    }
  }

  lemma {:induction false} FreshRefines(body: Handler, faults: Faults, committed: seq<Row>, serial: nat)
    requires NoReuse(body, {})
    ensures var m := ExecFresh(body, faults, committed, serial);
            (m.result, m.committed) == EvalFresh(body, faults, committed) && serial <= m.serial
    decreases body, 2
  {
    ExecRefines(body, SessionState([], []), None, committed, serial, None, {});
  }

  lemma {:induction false} NestedRefines(h: Handler, s: SessionState, cause: Option<Error>, committed: seq<Row>,
          serial: nat,
                                         enclosing: set<string>)
    requires h.Call? && h.body.Some? && h.opts.propagation == "nested"
    requires NoReuse(h, enclosing) && "" !in enclosing
    ensures Agree(ExecNested(h, s, cause, committed, serial), EvalCall(h, s.log, cause, committed))
    ensures var m := ExecNested(h, s, cause, committed, serial);
            StackKept(s.stack, m.session.stack, enclosing, serial, m.serial)
    decreases h.body, 2
  {
    if !h.faults.savepoint {
      var name := SavepointName(h.opts, serial);
      var serial' := NextSerial(h.opts, serial);
      var inner := enclosing + ({h.opts.savepointName} - {""});
      var pushed := s.(stack := s.stack + [Mark(name, s.log)]);
      ExecRefines(h.body.value, pushed, None, committed, serial', None, inner);
      var r := Exec(h.body.value, pushed, None, committed, serial', None);
      NestedKeepsStack(s.stack, Mark(name, s.log), r.session.stack, h.opts, enclosing, serial, r.serial);
      OwnSavepointIsNewest(s.stack, Mark(name, s.log), r.session.stack);
      var n := |s.stack|;
      if FirstOf(r.result, r.cause).Some? {
        assert ExecRollbackTo(r.session, name, h.faults.rollbackTo).1
            == if h.faults.rollbackTo then r.session else SessionState(s.log, r.session.stack[..n + 1]);
      } else {
        assert ExecRelease(r.session, name, h.faults.release).1
            == if h.faults.release then r.session else r.session.(stack := r.session.stack[..n]);
      }
    }
  }

  /** However much of what was pushed on top of its own savepoint a Nested call pops, the stack below is kept. */
  lemma NestedKeepsStack(before: seq<Savepoint>, own: Savepoint, after: seq<Savepoint>, opts: Options,
          enclosing: set<string>, lo: nat, hi: nat)
    requires "" !in enclosing && opts.savepointName !in enclosing && own.name == SavepointName(opts, lo)
    requires StackKept(before + [own], after, enclosing + ({opts.savepointName} - {""}), NextSerial(opts, lo), hi)
    ensures StackKept(before, after, enclosing, lo, hi)
    ensures StackKept(before, after[..|before| + 1], enclosing, lo, hi)
    ensures StackKept(before, after[..|before|], enclosing, lo, hi)
    ensures after[|before|] == own
    ensures forall i :: |before| < i < |after| ==> after[i].name != own.name
  {
    assert after[|before|] == (before + [own])[|before|];
    assert after[..|before| + 1] == before + [own];
    assert after[..|before|] == before;
  }

  /** Leaked savepoints carry other names, so a lookup finds the call's own savepoint. */
  lemma OwnSavepointIsNewest(stack: seq<Savepoint>, own: Savepoint, after: seq<Savepoint>)
    requires stack + [own] <= after
    requires forall i :: |stack| < i < |after| ==> after[i].name != own.name
    ensures Newest(after, own.name) == |stack| && after[|stack|] == own
  {
    assert after[|stack|] == (stack + [own])[|stack|];
  }

  // ---------------------------------------------------------------- calls with no current transaction

  function ExecTop(opts: Options, faults: Faults, fn: Option<Handler>, committed: seq<Row>, serial: nat): Machine {
    var untouched := SessionState([], []);
    if fn.None? then Machine(Some(HandlerRequired), untouched, None, committed, serial)
    else if opts.propagation in {"", "required", "requires_new", "nested"} then ExecFresh(fn.value, faults, committed, serial)
    else Machine(Some(InvalidPropagation(opts.propagation)), untouched, None, committed, serial)
  }

  function EvalTop(opts: Options, faults: Faults, fn: Option<Handler>, committed: seq<Row>): (Option<Error>, seq<Row>) {
    if fn.None? then (Some(HandlerRequired), committed)
    else if opts.propagation in {"", "required", "requires_new", "nested"} then EvalFresh(fn.value, faults, committed)
    else (Some(InvalidPropagation(opts.propagation)), committed)
  }

  /**
   The flat session machine commits exactly the rows of the all-or-nothing
   reference and returns the same error, for every handler tree and every pattern
   of refused statements, provided no supplied savepoint name is reused inside the
   call that owns it.  Savepoints leaked by failed Nested calls change nothing.
   */
  lemma MachineRefinesReference(opts: Options, faults: Faults, fn: Option<Handler>, committed: seq<Row>, serial: nat)
    requires fn.Some? ==> NoReuse(fn.value, {})
    ensures var m := ExecTop(opts, faults, fn, committed, serial);
            (m.result, m.committed) == EvalTop(opts, faults, fn, committed)
  {
    if fn.Some? {
      FreshRefines(fn.value, faults, committed, serial);
    }
  }

  /**
   On the machine: a Nested call whose function or joined calls failed restores the
   pending log it started from, unless the database refuses the rollback itself;
   otherwise the inner rows stay pending, even when only the release is refused.
   */
  lemma NestedIsAllOrNothing(h: Handler, s: SessionState, cause: Option<Error>, committed: seq<Row>, serial: nat,
                             enclosing: set<string>)
    requires h.Call? && h.body.Some? && h.opts.propagation == "nested"
    requires NoReuse(h, enclosing) && "" !in enclosing
    ensures var m := ExecCall(h, s, cause, committed, serial);
            var inner := Eval(h.body.value, s.log, None, committed, None);
            var failed := inner.result.Some? || inner.cause.Some?;
            && m.cause == cause
            && (m.session.log == if h.faults.savepoint || (failed && !h.faults.rollbackTo) then s.log else inner.pending)
            && (m.result.None? <==> !h.faults.savepoint && !failed && !h.faults.release)
  {
    NestedRefines(h, s, cause, committed, serial, enclosing);
  }

  // ---------------------------------------------------------------- what survives a rollback

  /** Commits of inner calls only extend the committed rows, and nothing depends on those; names may be reused. */
  lemma {:induction false} CommitsAppend(h: Handler, s: SessionState, cause: Option<Error>, committed: seq<Row>,
          serial: nat, last: Option<Error>)
    ensures var m := Exec(h, s, cause, committed, serial, last);
            var m0 := Exec(h, s, cause, [], serial, last);
            m == m0.(committed := committed + m0.committed)
    decreases h, 1
  {
    match h
    case Return(_) =>
      assert committed + [] == committed;
    case Write(row, next) =>
      CommitsAppend(next, s.(log := s.log + [row]), cause, committed, serial, last);
    case Call(_, _, _, onOk, onError) =>
      CallCommitsAppend(h, s, cause, committed, serial);
      var r := ExecCall(h, s, cause, committed, serial);
      var r0 := ExecCall(h, s, cause, [], serial);
      var rest := if r.result.None? then onOk else onError;
      CommitsAppend(rest, r.session, r.cause, r.committed, r.serial, r.result);
      CommitsAppend(rest, r0.session, r0.cause, r0.committed, r0.serial, r0.result);
      var tail := Exec(rest, r.session, r.cause, [], r.serial, r.result).committed;
      assert (committed + r0.committed) + tail == committed + (r0.committed + tail);
  }

  lemma {:induction false} CallCommitsAppend(h: Handler, s: SessionState, cause: Option<Error>, committed: seq<Row>,
          serial: nat)
    requires h.Call?
    ensures var m := ExecCall(h, s, cause, committed, serial);
            var m0 := ExecCall(h, s, cause, [], serial);
            m == m0.(committed := committed + m0.committed)
    decreases h, 0
  {
    assert committed + [] == committed;
    if h.body.Some? {
      if h.opts.propagation in {"", "required"} {
        CommitsAppend(h.body.value, s, cause, committed, serial, None);
      } else if h.opts.propagation == "requires_new" {
        var empty := SessionState([], []);
        CommitsAppend(h.body.value, empty, None, committed, serial, None);
        var r0 := Exec(h.body.value, empty, None, [], serial, None);
        assert (committed + r0.committed) + r0.session.log == committed + (r0.committed + r0.session.log);
      } else if h.opts.propagation == "nested" {
        var pushed := s.(stack := s.stack + [Mark(SavepointName(h.opts, serial), s.log)]);
        CommitsAppend(h.body.value, pushed, None, committed, NextSerial(h.opts, serial), None);
      }
    }
  }

  /**
   All or nothing with survivors: whatever a fresh transaction does, and whichever
   statements are refused, the rows committed by the RequiresNew calls inside it stay,
   and its own rows follow them exactly when it returns nil.
   */
  lemma FreshIsAllOrNothing(body: Handler, faults: Faults, committed: seq<Row>, serial: nat)
    ensures var inner := Exec(body, SessionState([], []), None, [], serial, None);
            var f := ExecFresh(body, faults, committed, serial);
            f.committed == committed + (if faults.begin then [] else inner.committed)
                           + (if f.result.None? then inner.session.log else [])
  {
    CommitsAppend(body, SessionState([], []), None, committed, serial, None);
  }

  // ---------------------------------------------------------------- joined failures

  /**
   The errors returned by the joined Required calls that run on this transaction,
   in the order in which those calls return; calls behind a Nested or RequiresNew
   boundary are not listed.
   */
  function JoinedFailures(h: Handler, s: SessionState, cause: Option<Error>, committed: seq<Row>, serial: nat,
          last: Option<Error>): seq<Error>
  {
    match h
    case Return(_) => []
    case Write(row, next) => JoinedFailures(next, s.(log := s.log + [row]), cause, committed, serial, last)
    case Call(opts, _, body, onOk, onError) =>
      var r := ExecCall(h, s, cause, committed, serial);
      var here :=
        if body.Some? && opts.propagation in {"", "required"} then
          JoinedFailures(body.value, s, cause, committed, serial, None) + (if r.result.Some? then [r.result.value] else [])
        else [];
      here + JoinedFailures(if r.result.None? then onOk else onError, r.session, r.cause, r.committed, r.serial, r.result)
  }

  function First(errors: seq<Error>): Option<Error> {
    if errors == [] then None else Some(errors[0])
  }

  lemma OtherCallsKeepCause(h: Handler, s: SessionState, cause: Option<Error>, committed: seq<Row>, serial: nat)
    requires h.Call? && (h.body.None? || h.opts.propagation !in {"", "required"})
    ensures ExecCall(h, s, cause, committed, serial).cause == cause
  {
  }

  /**
   On the machine, whatever the savepoints are called: the rollback cause is sticky and is
   the first joined failure.
   */
  lemma {:induction false} CauseIsFirstJoinedFailure(h: Handler, s: SessionState, cause: Option<Error>,
          committed: seq<Row>, serial: nat, last: Option<Error>)
    ensures Exec(h, s, cause, committed, serial, last).cause
         == FirstOf(cause, First(JoinedFailures(h, s, cause, committed, serial, last)))
  {
    match h
    case Return(_) =>
    case Write(row, next) =>
      CauseIsFirstJoinedFailure(next, s.(log := s.log + [row]), cause, committed, serial, last);
    case Call(opts, _, body, onOk, onError) =>
      var r := ExecCall(h, s, cause, committed, serial);
      if body.Some? && opts.propagation in {"", "required"} {
        CauseIsFirstJoinedFailure(body.value, s, cause, committed, serial, None);
      } else {
        OtherCallsKeepCause(h, s, cause, committed, serial);
      }
      CauseIsFirstJoinedFailure(if r.result.None? then onOk else onError, r.session, r.cause, r.committed, r.serial,
        r.result);
  }

  /**
   No joined failure is swallowed: a fresh transaction that could begin reaches its
   commit exactly when its function returns nil and no joined call failed; if only a
   joined call failed, the first such error is what it returns.
   */
  lemma FreshReportsJoinedFailure(body: Handler, faults: Faults, committed: seq<Row>, serial: nat)
    requires !faults.begin
    ensures var empty := SessionState([], []);
            var inner := Exec(body, empty, None, committed, serial, None);
            var failure := FirstOf(inner.result, First(JoinedFailures(body, empty, None, committed, serial, None)));
            var f := ExecFresh(body, faults, committed, serial);
            && f.result == (if failure.None? && faults.commit then Some(DbError(Commit)) else failure)
            && f.committed == inner.committed + (if f.result.None? then inner.session.log else [])
  {
    CauseIsFirstJoinedFailure(body, SessionState([], []), None, committed, serial, None);
  }

  /**
   The same at a Nested boundary: a joined failure inside rolls the session back to the
   call's name and is returned, with the rollback's own error if that fails; only without
   one is the savepoint released.  The outer cause is left alone.
   */
  lemma NestedReportsJoinedFailure(h: Handler, s: SessionState, cause: Option<Error>, committed: seq<Row>, serial: nat)
    requires h.Call? && h.body.Some? && h.opts.propagation == "nested" && !h.faults.savepoint
    ensures var name := SavepointName(h.opts, serial);
            var pushed := s.(stack := s.stack + [Mark(name, s.log)]);
            var inner := Exec(h.body.value, pushed, None, committed, NextSerial(h.opts, serial), None);
            var joined := First(JoinedFailures(h.body.value, pushed, None, committed, NextSerial(h.opts, serial),
              None));
            var failure := FirstOf(inner.result, joined);
            var m := ExecCall(h, s, cause, committed, serial);
            && m.cause == cause
            && (if failure.Some? then
                  var (err, back) := ExecRollbackTo(inner.session, name, h.faults.rollbackTo);
                  m.session == back && m.result == if err.None? then failure else Some(Both(failure.value, err.value))
                else
                  (m.result, m.session) == ExecRelease(inner.session, name, h.faults.release))
  {
    var pushed := s.(stack := s.stack + [Mark(SavepointName(h.opts, serial), s.log)]);
    CauseIsFirstJoinedFailure(h.body.value, pushed, None, committed, NextSerial(h.opts, serial), None);
  }

  // ---------------------------------------------------------------- reused names

  /**
   The Nested calls of a session that are `depth` deep bear the `depth`-th name, and none is
   deeper than the names go.
   */
  predicate NamedByDepth(h: Handler, names: seq<string>, depth: nat)
    requires depth <= |names|
  {
    match h
    case Return(_) => true
    case Write(_, next) => NamedByDepth(next, names, depth)
    case Call(opts, _, body, onOk, onError) =>
      && NamedByDepth(onOk, names, depth)
      && NamedByDepth(onError, names, depth)
      && (body.Some? ==>
            if opts.propagation == "requires_new" then NoReuse(body.value, {})
            else if opts.propagation == "nested" then
              depth < |names| && opts.savepointName == names[depth] && NamedByDepth(body.value, names, depth + 1)
            else opts.propagation in {"", "required"} ==> NamedByDepth(body.value, names, depth))
  }

  /** No supplied name comes twice; an empty name stands for a generated one. */
  predicate Distinct(names: seq<string>) {
    forall i, j :: 0 <= i < j < |names| ==> names[i] == "" || names[i] != names[j]
  }

  function NamesAbove(names: seq<string>, depth: nat): set<string>
    requires depth <= |names|
  {
    if depth == 0 then {} else NamesAbove(names, depth - 1) + ({names[depth - 1]} - {""})
  }

  lemma {:induction false} NamesAboveAre(names: seq<string>, depth: nat)
    requires depth <= |names|
    ensures forall n :: n in NamesAbove(names, depth) <==> n != "" && n in names[..depth]
  {
    if depth > 0 {
      NamesAboveAre(names, depth - 1);
      assert names[..depth] == names[..depth - 1] + [names[depth - 1]];
    }
  }

  lemma {:induction false} DistinctNamesAreNotReused(h: Handler, names: seq<string>, depth: nat)
    requires depth <= |names| && NamedByDepth(h, names, depth) && Distinct(names)
    ensures NoReuse(h, NamesAbove(names, depth))
  {
    match h
    case Return(_) =>
    case Write(_, next) => DistinctNamesAreNotReused(next, names, depth);
    case Call(opts, _, body, onOk, onError) =>
      DistinctNamesAreNotReused(onOk, names, depth);
      DistinctNamesAreNotReused(onError, names, depth);
      if body.Some? && opts.propagation == "nested" {
        NamesAboveAre(names, depth);
        DistinctNamesAreNotReused(body.value, names, depth + 1);
      } else if body.Some? && opts.propagation in {"", "required"} {
        DistinctNamesAreNotReused(body.value, names, depth);
      }
  }

  // ---------------------------------------------------------------- a tree that shows a reused name

  const STUCK := Faults(false, false, false, true, false)

  /**
   Calls from depth `k` down to depth `j`.  Below depth `i` each fails, and all but the
   last cannot roll back; the call at depth `i` writes a row before and fails after; the
   calls above swallow the failure.
   */
  function Shadowing(names: seq<string>, i: nat, j: nat, row: Row, k: nat): Handler
    requires k <= j < |names|
    decreases j - k
  {
    var fails := Return(FailWith(App(k)));
    var opts := Options("nested", names[k]);
    if k == j then Call(opts, NO_FAULTS, Some(fails), fails, fails)
    else
      var inner := Shadowing(names, i, j, row, k + 1);
      Call(opts, if k > i then STUCK else NO_FAULTS, Some(if k == i then Write(row, inner) else inner),
           if k <= i then Return(Succeed) else fails, if k <= i then Return(Succeed) else fails)
  }

  lemma {:induction false} ShadowingIsNamed(names: seq<string>, i: nat, j: nat, row: Row, k: nat)
    requires k <= j < |names|
    ensures NamedByDepth(Shadowing(names, i, j, row, k), names, k)
    decreases j - k
  {
    if k < j {
      ShadowingIsNamed(names, i, j, row, k + 1);
    }
  }

  lemma TopIsNewest(stack: seq<Savepoint>)
    requires stack != []
    ensures Newest(stack, stack[|stack| - 1].name) == |stack| - 1 && stack[..|stack|] == stack
  {
  }

  /** Below depth `i` every call fails and leaks, and the last savepoint is left on top. */
  lemma {:induction false} ShadowLeaks(names: seq<string>, i: nat, j: nat, row: Row, k: nat, s: SessionState,
          cause: Option<Error>, committed: seq<Row>, serial: nat)
    requires i < k <= j < |names| && names[j] != ""
    ensures var m := ExecCall(Shadowing(names, i, j, row, k), s, cause, committed, serial);
            && m.result.Some? && m.cause == cause && m.committed == committed && m.session.log == s.log
            && s.stack < m.session.stack
            && m.session.stack[|m.session.stack| - 1] == Mark(Supplied(names[j]), s.log)
    decreases j - k
  {
    var h := Shadowing(names, i, j, row, k);
    var pushed := s.(stack := s.stack + [Mark(SavepointName(h.opts, serial), s.log)]);
    if k == j {
      TopIsNewest(pushed.stack);
      assert Exec(h.body.value, pushed, None, committed, NextSerial(h.opts, serial), None).result == Some(App(k));
      assert ExecCall(h, s, cause, committed, serial) == Machine(Some(App(k)), pushed, cause, committed, serial);
    } else {
      var inner := Shadowing(names, i, j, row, k + 1);
      var serial' := NextSerial(h.opts, serial);
      ShadowLeaks(names, i, j, row, k + 1, pushed, None, committed, serial');
      var r := ExecCall(inner, pushed, None, committed, serial');
      assert Exec(inner, pushed, None, committed, serial', None) == Machine(Some(App(k + 1)), r.session, None,
        committed, r.serial);
    }
  }

  /** The call at depth `i` rolls back to the leaked savepoint and keeps its row. */
  lemma ShadowKeepsRow(names: seq<string>, i: nat, j: nat, row: Row, s: SessionState, cause: Option<Error>,
          committed: seq<Row>, serial: nat)
    requires i < j < |names| && names[i] == names[j] != ""
    ensures var m := ExecCall(Shadowing(names, i, j, row, i), s, cause, committed, serial);
            m.cause == cause && m.committed == committed && m.session.log == s.log + [row] && s.stack <= m.session.stack
  {
    var h := Shadowing(names, i, j, row, i);
    var inner := Shadowing(names, i, j, row, i + 1);
    var pushed := s.(stack := s.stack + [Mark(SavepointName(h.opts, serial), s.log)]);
    var written := pushed.(log := s.log + [row]);
    ShadowLeaks(names, i, j, row, i + 1, written, None, committed, serial);
    var r := ExecCall(inner, written, None, committed, serial);
    assert Exec(inner, written, None, committed, serial, None) == Machine(Some(App(i + 1)), r.session, None, committed,
      r.serial);
    assert Exec(Write(row, inner), pushed, None, committed, serial, None) == Machine(Some(App(i + 1)), r.session, None,
      committed, r.serial);
    TopIsNewest(r.session.stack);
  }

  /** The calls above release, and the row stays pending. */
  lemma {:induction false} ShadowSurvives(names: seq<string>, i: nat, j: nat, row: Row, k: nat, s: SessionState,
          cause: Option<Error>, committed: seq<Row>, serial: nat)
    requires k <= i < j < |names| && names[i] == names[j] != ""
    ensures var m := ExecCall(Shadowing(names, i, j, row, k), s, cause, committed, serial);
            m.cause == cause && m.committed == committed && m.session.log == s.log + [row] && s.stack <= m.session.stack
    decreases i - k
  {
    if k == i {
      ShadowKeepsRow(names, i, j, row, s, cause, committed, serial);
    } else {
      var h := Shadowing(names, i, j, row, k);
      var own := Mark(SavepointName(h.opts, serial), s.log);
      var pushed := s.(stack := s.stack + [own]);
      var inner := Shadowing(names, i, j, row, k + 1);
      var serial' := NextSerial(h.opts, serial);
      ShadowSurvives(names, i, j, row, k + 1, pushed, None, committed, serial');
      var r := ExecCall(inner, pushed, None, committed, serial');
      assert Exec(inner, pushed, None, committed, serial', None) == Machine(None, r.session, None, committed, r.serial);
      assert r.session.stack[|s.stack|] == pushed.stack[|s.stack|] == own;
      assert Newest(r.session.stack, own.name) >= |s.stack|;
      assert r.session.stack[..|s.stack|] == s.stack;
    }
  }

  /** In the reference the whole tree leaves nothing behind. */
  lemma {:induction false} ShadowingMeansNothing(names: seq<string>, i: nat, j: nat, row: Row, k: nat,
          pending: seq<Row>, cause: Option<Error>, committed: seq<Row>)
    requires k <= j < |names| && i < j
    ensures var e := EvalCall(Shadowing(names, i, j, row, k), pending, cause, committed);
            && e.pending == pending && e.cause == cause && e.committed == committed
            && (i <= k ==> e.result.Some?)
    decreases j - k
  {
    if k < j {
      var inner := Shadowing(names, i, j, row, k + 1);
      var before := if k == i then pending + [row] else pending;
      ShadowingMeansNothing(names, i, j, row, k + 1, before, None, committed);
      var r := EvalCall(inner, before, None, committed);
      assert Eval(inner, before, None, committed, None)
          == Eff(if i <= k then Some(App(k + 1)) else None, before, None, committed);
    }
  }

  /** A repeated name has a tree for which session machine and reference commit different rows. */
  lemma RepeatedNameShadows(names: seq<string>, i: nat, j: nat, row: Row, committed: seq<Row>, serial: nat)
    requires i < j < |names| && names[i] == names[j] != ""
    ensures var h := Shadowing(names, i, j, row, 0);
            && NamedByDepth(h, names, 0)
            && ExecFresh(h, NO_FAULTS, committed, serial).committed == committed + [row]
            && EvalFresh(h, NO_FAULTS, committed).1 == committed
  {
    var h := Shadowing(names, i, j, row, 0);
    var empty := SessionState([], []);
    ShadowingIsNamed(names, i, j, row, 0);
    ShadowSurvives(names, i, j, row, 0, empty, None, committed, serial);
    ShadowingMeansNothing(names, i, j, row, 0, [], None, committed);
    var r := ExecCall(h, empty, None, committed, serial);
    assert Exec(h, empty, None, committed, serial, None) == Machine(None, r.session, None, committed, r.serial);
    assert Eval(h, [], None, committed, None) == Eff(None, [], None, committed);
  }

  /**
   Savepoint names given by depth are safe for every tree, every refused statement and
   every state of the name generator exactly when no supplied name comes twice.
   */
  lemma NamesAreSafeIffDistinct(names: seq<string>)
    ensures Distinct(names) <==>
            forall h, faults, committed, serial | NamedByDepth(h, names, 0) ::
              var m := ExecFresh(h, faults, committed, serial);
              (m.result, m.committed) == EvalFresh(h, faults, committed)
  {
    if Distinct(names) {
      forall h, faults, committed, serial | NamedByDepth(h, names, 0)
        ensures var m := ExecFresh(h, faults, committed, serial);
                (m.result, m.committed) == EvalFresh(h, faults, committed)
      {
        DistinctNamesAreNotReused(h, names, 0);
        FreshRefines(h, faults, committed, serial);
      }
    } else {
      var i, j :| 0 <= i < j < |names| && names[i] == names[j] != "";
      var h := Shadowing(names, i, j, 7, 0);
      RepeatedNameShadows(names, i, j, 7, [], 0);
      var m := ExecFresh(h, NO_FAULTS, [], 0);
      assert NamedByDepth(h, names, 0) && (m.result, m.committed) != EvalFresh(h, NO_FAULTS, []);
    }
  }

  // ---------------------------------------------------------------- the smallest such tree

  function NestedCall(name: string, body: Handler, rest: Handler): Handler {
    Call(Options("nested", name), NO_FAULTS, Some(body), rest, rest)
  }

  /** The failing pattern: write, let an inner Nested call fail, swallow that, then fail. */
  function LeakThenFail(inner: string, row: Row): Handler {
    Write(row, NestedCall(inner, Return(FailWith(App(1))), Return(FailWith(App(2)))))
  }

  lemma ShadowedRollbackKeepsRow(name: string, row: Row, committed: seq<Row>, serial: nat)
    requires name != ""
    ensures var tree := NestedCall(name, LeakThenFail(name, row), Return(Succeed));
            && ExecFresh(tree, NO_FAULTS, committed, serial).committed == committed + [row]
            && EvalFresh(tree, NO_FAULTS, committed).1 == committed
  {
    var n := Supplied(name);
    var outer := Mark(n, []);
    var leaked := Mark(n, [row]);
    var s0 := SessionState([], []);
    var s1 := SessionState([], [outer]);
    var s2 := SessionState([row], [outer]);
    var s3 := SessionState([row], [outer, leaked]);
    assert Newest([outer, leaked], n) == 1;
    var innerCall := NestedCall(name, Return(FailWith(App(1))), Return(FailWith(App(2))));
    assert ExecCall(innerCall, s2, None, committed, serial) == Machine(Some(App(1)), s3, None, committed, serial) by {
      assert s2.stack + [leaked] == [outer, leaked];
      assert [outer, leaked][..2] == [outer, leaked];
      assert Exec(Return(FailWith(App(1))), s3, None, committed, serial, None).result == Some(App(1));
    }
    assert Exec(innerCall, s2, None, committed, serial, None) == Machine(Some(App(2)), s3, None, committed, serial);
    assert [] + [row] == [row];
    assert Exec(LeakThenFail(name, row), s1, None, committed, serial, None) == Machine(Some(App(2)), s3, None,
      committed, serial);
    var tree := NestedCall(name, LeakThenFail(name, row), Return(Succeed));
    assert s0.stack + [outer] == [outer];
    assert [outer, leaked][..2] == [outer, leaked];
    assert ExecCall(tree, s0, None, committed, serial) == Machine(Some(App(2)), s3, None, committed, serial);
    assert Exec(tree, s0, None, committed, serial, None) == Machine(None, s3, None, committed, serial);

    assert Eval(Return(FailWith(App(1))), [row], None, committed, None).result == Some(App(1));
    assert EvalCall(innerCall, [row], None, committed) == Eff(Some(App(1)), [row], None, committed);
    assert Eval(innerCall, [row], None, committed, None) == Eff(Some(App(2)), [row], None, committed);
    assert Eval(LeakThenFail(name, row), [], None, committed, None) == Eff(Some(App(2)), [row], None, committed);
    assert EvalCall(tree, [], None, committed) == Eff(Some(App(2)), [], None, committed);
    assert Eval(tree, [], None, committed, None) == Eff(None, [], None, committed);
    assert committed + [] == committed;
  }

  // ---------------------------------------------------------------- one call inside a transaction

  function Writes(rows: seq<Row>, next: Handler): Handler {
    if rows == [] then next else Write(rows[0], Writes(rows[1..], next))
  }

  lemma {:induction false} WritesArePending(rows: seq<Row>, next: Handler, pending: seq<Row>, cause: Option<Error>,
                                            committed: seq<Row>, last: Option<Error>)
    ensures Eval(Writes(rows, next), pending, cause, committed, last)
         == Eval(next, pending + rows, cause, committed, last)
  {
    if rows == [] {
      assert pending + rows == pending;
    } else {
      WritesArePending(rows[1..], next, pending + [rows[0]], cause, committed, last);
      assert pending + [rows[0]] + rows[1..] == pending + rows;
    }
  }

  lemma {:induction false} WritesReuseNothing(rows: seq<Row>, next: Handler, names: set<string>)
    requires NoReuse(next, names)
    ensures NoReuse(Writes(rows, next), names)
  {
    if rows != [] {
      WritesReuseNothing(rows[1..], next, names);
    }
  }

  /** The rows a call made inside a transaction leaves pending there, if its function writes `rows`, then returns `error`. */
  function LeftPending(propagation: string, faults: Faults, rows: seq<Row>, error: Option<Error>): seq<Row> {
    if propagation == "" || propagation == "required" then rows
    else if propagation == "nested" && !faults.savepoint && (error.None? || faults.rollbackTo) then rows
    else []
  }

  /** The rows it commits on its own. */
  function OwnCommit(propagation: string, faults: Faults, rows: seq<Row>, error: Option<Error>): seq<Row> {
    if propagation == "requires_new" && error.None? && !faults.begin && !faults.commit then rows else []
  }

  /** The error it returns. */
  function CallError(propagation: string, faults: Faults, error: Option<Error>): Option<Error> {
    if propagation == "" || propagation == "required" then error
    else if propagation == "requires_new" then
      if faults.begin then Some(DbError(Begin))
      else if error.Some? then error
      else if faults.commit then Some(DbError(Commit))
      else None
    else if propagation == "nested" then
      if faults.savepoint then Some(DbError(MakeSavepoint))
      else if error.None? then (if faults.release then Some(DbError(Release)) else None)
      else if faults.rollbackTo then Some(Both(error.value, DbError(RollbackTo)))
      else error
    else Some(InvalidPropagation(propagation))
  }

  function End(error: Option<Error>): Handler {
    Return(if error.Some? then FailWith(error.value) else Succeed)
  }

  function OnlyWrites(rows: seq<Row>, error: Option<Error>): Handler {
    Writes(rows, End(error))
  }

  /** Write, make one call whatever it returns, write again, and return `end`. */
  function OneCall(before: seq<Row>, opts: Options, faults: Faults, rows: seq<Row>, error: Option<Error>,
                   after: seq<Row>, end: Option<Error>): Handler {
    var rest := OnlyWrites(after, end);
    Writes(before, Call(opts, faults, Some(OnlyWrites(rows, error)), rest, rest))
  }

  lemma OnlyWritesIs(rows: seq<Row>, error: Option<Error>, pending: seq<Row>, cause: Option<Error>,
                     committed: seq<Row>, last: Option<Error>, names: set<string>)
    ensures Eval(OnlyWrites(rows, error), pending, cause, committed, last)
         == Eff(error, pending + rows, cause, committed)
    ensures NoReuse(OnlyWrites(rows, error), names)
  {
    WritesArePending(rows, End(error), pending, cause, committed, last);
    WritesReuseNothing(rows, End(error), names);
  }

  lemma FreshCallLeaves(faults: Faults, rows: seq<Row>, error: Option<Error>, committed: seq<Row>)
    ensures EvalFresh(OnlyWrites(rows, error), faults, committed)
         == (CallError("requires_new", faults, error), committed + OwnCommit("requires_new", faults, rows, error))
  {
    OnlyWritesIs(rows, error, [], None, committed, None, {});
    assert committed + [] == committed && [] + rows == rows;
  }

  lemma CallLeaves(opts: Options, faults: Faults, rows: seq<Row>, error: Option<Error>, onOk: Handler, onError: Handler,
                   pending: seq<Row>, committed: seq<Row>)
    ensures var r := EvalCall(Call(opts, faults, Some(OnlyWrites(rows, error)), onOk, onError), pending, None, committed);
            && r.result == CallError(opts.propagation, faults, error)
            && r.pending == pending + LeftPending(opts.propagation, faults, rows, error)
            && r.committed == committed + OwnCommit(opts.propagation, faults, rows, error)
            && r.cause == if opts.propagation == "" || opts.propagation == "required" then error else None
  {
    FreshCallLeaves(faults, rows, error, committed);
    OnlyWritesIs(rows, error, pending, None, committed, None, {});
    assert pending + [] == pending && committed + [] == committed;
  }

  lemma OneCallIsReference(before: seq<Row>, opts: Options, faults: Faults, rows: seq<Row>, error: Option<Error>,
                           after: seq<Row>, end: Option<Error>, committed: seq<Row>)
    ensures var e := Eval(OneCall(before, opts, faults, rows, error, after, end), [], None, committed, None);
            && e.result == end
            && e.pending == before + LeftPending(opts.propagation, faults, rows, error) + after
            && e.committed == committed + OwnCommit(opts.propagation, faults, rows, error)
            && e.cause == if opts.propagation == "" || opts.propagation == "required" then error else None
    ensures NoReuse(OneCall(before, opts, faults, rows, error, after, end), {})
  {
    var rest := OnlyWrites(after, end);
    var call := Call(opts, faults, Some(OnlyWrites(rows, error)), rest, rest);
    WritesArePending(before, call, [], None, committed, None);
    assert [] + before == before;
    CallLeaves(opts, faults, rows, error, rest, rest, before, committed);
    var r := EvalCall(call, before, None, committed);
    OnlyWritesIs(after, end, r.pending, r.cause, r.committed, r.result, {});
    CallReusesNothing(opts, faults, rows, error, rest);
    WritesReuseNothing(before, call, {});
  }

  lemma CallReusesNothing(opts: Options, faults: Faults, rows: seq<Row>, error: Option<Error>, rest: Handler)
    requires NoReuse(rest, {})
    ensures NoReuse(Call(opts, faults, Some(OnlyWrites(rows, error)), rest, rest), {})
  {
    OnlyWritesIs(rows, error, [], None, [], None, {});
    OnlyWritesIs(rows, error, [], None, [], None, {} + ({opts.savepointName} - {""}));
  }

  /**
   A transaction that makes one call and ignores what it returns.  Its own rows and what
   the call left pending are committed exactly if it returns nil, commits, and no joined
   call failed; what a RequiresNew call committed stays in any case.
   */
  lemma PropagationDecides(before: seq<Row>, opts: Options, faults: Faults, rows: seq<Row>, error: Option<Error>,
                           after: seq<Row>, end: Option<Error>, commitFails: bool, committed: seq<Row>, serial: nat)
    ensures var p := opts.propagation;
            var joinedFailure := if p == "" || p == "required" then error else None;
            var own := OwnCommit(p, faults, rows, error);
            var m := ExecFresh(OneCall(before, opts, faults, rows, error, after, end),
                               NO_FAULTS.(commit := commitFails), committed, serial);
            && m.result == (if end.Some? then end
                            else if joinedFailure.Some? then joinedFailure
                            else if commitFails then Some(DbError(Commit)) else None)
            && m.committed == committed + own + (if m.result.Some? then []
                                                 else before + LeftPending(p, faults, rows, error) + after)
  {
    var tree := OneCall(before, opts, faults, rows, error, after, end);
    OneCallIsReference(before, opts, faults, rows, error, after, end, committed);
    FreshRefines(tree, NO_FAULTS.(commit := commitFails), committed, serial);
    var c := committed + OwnCommit(opts.propagation, faults, rows, error);
    assert c + [] == c;
  }

  /** The error of the call is the one it hands to its caller. */
  lemma CallErrorIsReturned(opts: Options, faults: Faults, rows: seq<Row>, error: Option<Error>, serial: nat)
    ensures var call := Call(opts, faults, Some(OnlyWrites(rows, error)), Return(Rethrow), Return(Rethrow));
            ExecFresh(call, NO_FAULTS, [], serial).result == CallError(opts.propagation, faults, error)
  {
    var call := Call(opts, faults, Some(OnlyWrites(rows, error)), Return(Rethrow), Return(Rethrow));
    CallLeaves(opts, faults, rows, error, Return(Rethrow), Return(Rethrow), [], []);
    var r := EvalCall(call, [], None, []);
    assert Eval(call, [], None, [], None) == r;
    CallReusesNothing(opts, faults, rows, error, Return(Rethrow));
    FreshRefines(call, NO_FAULTS, [], serial);
  }

  // ---------------------------------------------------------------- session, transaction, transactor

  class Database {
    var committed: seq<Row>
  }

  /** An open database session. */
  class Session {
    var log: seq<Row>
    var stack: seq<Savepoint>

    ghost function State(): SessionState
      reads this
    {
      SessionState(log, stack)
    }

    constructor Begin()
      ensures State() == SessionState([], [])
    {
      log, stack := [], [];
    }

    method Savepoint(name: Name, refused: bool) returns (err: Option<Error>)
      modifies this
      ensures refused ==> err == Some(DbError(MakeSavepoint)) && State() == old(State())
      ensures !refused ==> err == None && log == old(log) && stack == old(stack) + [Mark(name, old(log))]
    {
      if refused {
        return Some(DbError(MakeSavepoint));
      }
      stack := stack + [Mark(name, log)];
      return None;
    }

    /** Undoes the writes since the newest savepoint of that name, and keeps that savepoint. */
    method RollbackToSavepoint(name: Name, refused: bool) returns (err: Option<Error>)
      modifies this
      ensures (err, State()) == ExecRollbackTo(old(State()), name, refused)
    {
      if refused {
        return Some(DbError(RollbackTo));
      }
      var i := Find(name);
      if i < 0 {
        return Some(NoSuchSavepoint);
      }
      log := stack[i].snapshot;
      stack := stack[..i + 1];
      return None;
    }

    /** Pops the newest savepoint of that name and everything above it. */
    method ReleaseSavepoint(name: Name, refused: bool) returns (err: Option<Error>)
      modifies this
      ensures (err, State()) == ExecRelease(old(State()), name, refused)
    {
      if refused {
        return Some(DbError(Release));
      }
      var i := Find(name);
      if i < 0 {
        return Some(NoSuchSavepoint);
      }
      stack := stack[..i];
      return None;
    }

    method Find(name: Name) returns (i: int)
      ensures i == Newest(stack, name)
    {
      i := |stack| - 1;
      while i >= 0 && stack[i].name != name
        invariant -1 <= i < |stack|
        invariant forall j :: i < j < |stack| ==> stack[j].name != name
      {
        i := i - 1;
      }
    }

    method Commit(db: Database, refused: bool) returns (err: Option<Error>)
      modifies db
      ensures err == if refused then Some(DbError(Statement.Commit)) else None
      ensures db.committed == if refused then old(db.committed) else old(db.committed) + log
    {
      if refused {
        return Some(DbError(Statement.Commit));
      }
      db.committed := db.committed + log;
      return None;
    }
  }

  /** The per-transaction sticky rollback cause. */
  class TransactionState {
    var rollbackCause: Option<Error>

    constructor ()
      ensures rollbackCause == None
    {
      rollbackCause := None;
    }

    method MarkRollback(err: Option<Error>)
      modifies this
      ensures rollbackCause == FirstOf(old(rollbackCause), err)
    {
      if err.Some? && rollbackCause.None? {
        rollbackCause := err;
      }
    }
  }

  class Transaction {
    const session: Session
    const state: TransactionState

    constructor (session: Session, state: TransactionState)
      ensures this.session == session && this.state == state
    {
      this.session, this.state := session, state;
    }
  }

  class XidSource {
    var serial: nat
  }

  class Transactor {
    const db: Database
    const xids: XidSource

    constructor (db: Database, xids: XidSource)
      ensures this.db == db && this.xids == xids
    {
      this.db, this.xids := db, xids;
    }

    /** What the objects reachable from a call on `tx` hold, as a machine state. */
    ghost function View(tx: Transaction, result: Option<Error>): Machine
      reads tx.session, tx.state, db, xids
    {
      Machine(result, tx.session.State(), tx.state.rollbackCause, db.committed, xids.serial)
    }

    /** A call made where no transaction is current. */
    method DoAtTop(opts: Options, faults: Faults, fn: Option<Handler>) returns (err: Option<Error>)
      modifies db, xids
      ensures var m := ExecTop(opts, faults, fn, old(db.committed), old(xids.serial));
              (err, db.committed, xids.serial) == (m.result, m.committed, m.serial)
    {
      if fn.None? {
        return Some(HandlerRequired);
      }
      if opts.propagation in {"", "required", "requires_new", "nested"} {
        err := RunFresh(faults, fn.value);
      } else {
        err := Some(InvalidPropagation(opts.propagation));
      }
    }

    /** A call made inside the transaction `tx`: the body and the propagation come from a Call node. */
    method Do(call: Handler, tx: Transaction) returns (err: Option<Error>)
      requires call.Call?
      modifies db, xids, tx.session, tx.state
      ensures View(tx, err) == old(ExecCall(call, tx.session.State(), tx.state.rollbackCause, db.committed, xids.serial))
      decreases call, 0
    {
      if call.body.None? {
        return Some(HandlerRequired);
      }
      var propagation := if call.opts.propagation == "" then "required" else call.opts.propagation;
      if propagation == "required" {
        err := RunJoined(call.body.value, tx);
      } else if propagation == "requires_new" {
        err := RunFresh(call.faults, call.body.value);
      } else if propagation == "nested" {
        err := RunNested(call, tx);
      } else {
        err := Some(InvalidPropagation(propagation));
      }
    }

    method RunFresh(faults: Faults, fn: Handler) returns (err: Option<Error>)
      modifies db, xids
      ensures var m := ExecFresh(fn, faults, old(db.committed), old(xids.serial));
              (err, db.committed, xids.serial) == (m.result, m.committed, m.serial)
      decreases fn, 2
    {
      if faults.begin {
        return Some(DbError(Begin));
      }
      var session := new Session.Begin();
      var state := new TransactionState();
      var tx := new Transaction(session, state);
      err := RunHandler(fn, tx, None);
      if err.Some? {
        return;
      }
      if state.rollbackCause.Some? {
        return state.rollbackCause;
      }
      err := session.Commit(db, faults.commit);
    }

    method RunJoined(fn: Handler, tx: Transaction) returns (err: Option<Error>)
      modifies db, xids, tx.session, tx.state
      ensures var m := old(Exec(fn, tx.session.State(), tx.state.rollbackCause, db.committed, xids.serial, None));
              View(tx, err) == m.(cause := FirstOf(m.cause, m.result))
      decreases fn, 2
    {
      err := RunHandler(fn, tx, None);
      tx.state.MarkRollback(err);
    }

    method RunNested(call: Handler, tx: Transaction) returns (err: Option<Error>)
      requires call.Call? && call.body.Some?
      modifies db, xids, tx.session, tx.state
      ensures View(tx, err) == old(ExecNested(call, tx.session.State(), tx.state.rollbackCause, db.committed, xids.serial))
      decreases call.body, 2
    {
      var name := Supplied(call.opts.savepointName);
      if call.opts.savepointName == "" {
        name := Generated(xids.serial);
        xids.serial := xids.serial + 1;
      }
      err := tx.session.Savepoint(name, call.faults.savepoint);
      if err.Some? {
        return;
      }
      var state := new TransactionState();
      var nestedTx := new Transaction(tx.session, state);
      err := RunHandler(call.body.value, nestedTx, None);
      if err.None? {
        err := state.rollbackCause;
      }
      if err.Some? {
        var rollbackErr := tx.session.RollbackToSavepoint(name, call.faults.rollbackTo);
        if rollbackErr.Some? {
          err := Some(Both(err.value, rollbackErr.value));
        }
        return;
      }
      err := tx.session.ReleaseSavepoint(name, call.faults.release);
    }

    /** Runs a handler on `tx`; `last` is what its latest inner call returned. */
    method RunHandler(h: Handler, tx: Transaction, last: Option<Error>) returns (err: Option<Error>)
      modifies db, xids, tx.session, tx.state
      ensures View(tx, err) == old(Exec(h, tx.session.State(), tx.state.rollbackCause, db.committed, xids.serial, last))
      decreases h, 1
    {
      match h
      case Return(o) =>
        err := Returned(o, last);
      case Write(row, next) =>
        tx.session.log := tx.session.log + [row];
        err := RunHandler(next, tx, last);
      case Call(_, _, _, onOk, onError) =>
        var inner := Do(h, tx);
        if inner.None? {
          err := RunHandler(onOk, tx, inner);
        } else {
          err := RunHandler(onError, tx, inner);
        }
    }
  }
}
