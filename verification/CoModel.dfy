/** Coroutines and their scheduler, as functions on states.  A coroutine's task is the
    finite script of what it does; switching to its context means running the script up
    to its next yield, or to its end. */
module CoModel {

  datatype Op = Work(tag: int) | Yield | Spawn(task: Task) | Quit
  datatype Task = End | Do(op: Op, rest: Task)

  datatype Status = READY | SUSPENDED | RUNNING | FINISHED

  /** A Coroutine object; its context is the part of the task still to run. */
  datatype Coroutine = Coroutine(status: Status, todo: Task)

  datatype Event = Event(id: nat, op: Op)

  datatype State = State(
    store: map<nat, Coroutine>,   // m_coStore
    coNum: nat,                   // m_coNum
    curCo: int,                   // m_curCo
    pending: seq<Task>,           // m_pendingTasks
    quit: bool,                   // m_quit
    trace: seq<Event>,            // history: all that coroutines have done,
    origin: map<nat, Task>,       //   the task of every coroutine created,
    finished: set<nat>)           //   and the coroutines erased

  const INITIAL := State(map[], 0, -1, [], false, [], map[], {})

  /** What other threads do during one turn of start's loop: outside(k) are the tasks
      they hand in just before event number k, late the ones just before the pending
      tasks are taken, and quit says whether they call quit. */
  datatype Env = Env(outside: nat -> seq<Task>, late: seq<Task>, quit: bool)

  function Post(s: State, tasks: seq<Task>): State {
    s.(pending := s.pending + tasks)
  }

  function Store(s: State, task: Task): State {
    s.(store := s.store[s.coNum := Coroutine(READY, task)],
       coNum := s.coNum + 1,
       origin := s.origin[s.coNum := task])
  }

  /** create_coroutine. */
  function Create(s: State, onSchedulerThread: bool, task: Task): State {
    if !onSchedulerThread || s.curCo != -1 then Post(s, [task])
    else Store(s, task)
  }

  function Record(s: State, id: nat, op: Op, rest: Task): State {
    s.(trace := s.trace + [Event(id, op)], store := s.store[id := Coroutine(RUNNING, rest)])
  }

  /** What happens between the two context switches of a resumption. */
  function RunSlice(s: State, id: nat, outside: nat -> seq<Task>): State
    requires id in s.store
    decreases s.store[id].todo
  {
    var t := Post(s, outside(|s.trace|));
    match s.store[id].todo
    case End => s.(curCo := -1, store := s.store[id := Coroutine(FINISHED, End)])
    case Do(Yield, rest) =>
      Record(t, id, Yield, rest).(store := s.store[id := Coroutine(SUSPENDED, rest)])
    case Do(Work(tag), rest) => RunSlice(Record(t, id, Work(tag), rest), id, outside)
    case Do(Quit, rest) => RunSlice(Record(t, id, Quit, rest).(quit := true), id, outside)
    case Do(Spawn(task), rest) => RunSlice(Create(Record(t, id, Spawn(task), rest), true, task), id, outside)
  }

  /** One turn of the inner loop of start, at coroutine id. */
  function Visit(s: State, id: nat, outside: nat -> seq<Task>): State
    requires id in s.store
  {
    var co := s.store[id];
    var t :=
      if co.status == READY || co.status == SUSPENDED then
        RunSlice(s.(curCo := id, store := s.store[id := co.(status := RUNNING)]), id, outside)
      else s;
    if t.curCo == -1 && id in t.store && t.store[id].status == FINISHED then
      t.(store := t.store - {id}, finished := t.finished + {id})
    else t
  }

  /** The inner loop of start: std::map gives its keys in ascending order. */
  function VisitsFrom(s: State, id: nat, outside: nat -> seq<Task>): State
    decreases s.coNum - id
  {
    if id >= s.coNum then s
    else if id in s.store then
      VisitKeepsCoNum(s, id, outside);
      VisitsFrom(Visit(s, id, outside), id + 1, outside)
    else VisitsFrom(s, id + 1, outside)
  }

  function StoreAll(s: State, tasks: seq<Task>): State
    decreases |tasks|
  {
    if tasks == [] then s else StoreAll(Store(s, tasks[0]), tasks[1..])
  }

  /** handle_pending_tasks. */
  function HandlePending(s: State): State {
    StoreAll(s.(pending := []), s.pending)
  }

  /** One turn of the outer loop of start. */
  function Round(s: State, env: Env): State {
    var t := VisitsFrom(s, 0, env.outside);
    HandlePending(Post(t.(quit := t.quit || env.quit), env.late))
  }

  function Rounds(s: State, envs: seq<Env>): State
    decreases |envs|
  {
    if envs == [] then s else Rounds(Round(s, envs[0]), envs[1..])
  }

  // ----- what a task means, without a scheduler -----

  /** Everything a task does itself, in order. */
  function Ops(t: Task): seq<Op> {
    match t
    case End => []
    case Do(op, rest) => [op] + Ops(rest)
  }

  /** The task that does these operations, in this order. */
  function Script(ops: seq<Op>): Task {
    if ops == [] then End else Do(ops[0], Script(ops[1..]))
  }

  /** A task is told by its operations: none is left out, and their order is kept. */
  lemma {:induction false} OpsTell(t: Task)
    ensures Script(Ops(t)) == t
  {
    match t
    case End =>
    case Do(op, rest) =>
      OpsTell(rest);
      assert Ops(t)[1..] == Ops(rest);
  }

  /** What it does up to and including its next yield. */
  function Slice(t: Task): seq<Op> {
    match t
    case End => []
    case Do(Yield, rest) => [Yield]
    case Do(op, rest) => [op] + Slice(rest)
  }

  function AfterSlice(t: Task): Task {
    match t
    case End => End
    case Do(Yield, rest) => rest
    case Do(op, rest) => AfterSlice(rest)
  }

  function Yields(t: Task): nat {
    match t
    case End => 0
    case Do(op, rest) => (if op.Yield? then 1 else 0) + Yields(rest)
  }

  function Spawned(ops: seq<Op>): seq<Task> {
    if ops == [] then [] else (if ops[0].Spawn? then [ops[0].task] else []) + Spawned(ops[1..])
  }

  /** The task left after n slices. */
  function AfterSlices(t: Task, n: nat): Task
    decreases n
  {
    if n == 0 then t else AfterSlices(AfterSlice(t), n - 1)
  }

  function Tag(id: nat, ops: seq<Op>): (r: seq<Event>)
    ensures |r| == |ops|
    ensures forall i | 0 <= i < |ops| :: r[i] == Event(id, ops[i])
  {
    if ops == [] then [] else [Event(id, ops[0])] + Tag(id, ops[1..])
  }

  /** The tasks that arrive while some events happen, the first of which is number at: those
      that other threads hand in just before each event, and those that the events spawn. */
  function Handed(at: nat, events: seq<Event>, outside: nat -> seq<Task>): seq<Task>
    decreases |events|
  {
    if events == [] then []
    else
      outside(at) + (if events[0].op.Spawn? then [events[0].op.task] else []) + Handed(at + 1, events[1..], outside)
  }

  lemma {:induction false} HandedBoth(at: nat, a: seq<Event>, b: seq<Event>, outside: nat -> seq<Task>)
    ensures Handed(at, a + b, outside) == Handed(at, a, outside) + Handed(at + |a|, b, outside)
    decreases |a|
  {
    if a == [] {
      assert a + b == b;
    } else {
      assert (a + b)[1..] == a[1..] + b;
      HandedBoth(at + 1, a[1..], b, outside);
    }
  }

  /** Some event is a call of quit. */
  predicate HasQuit(events: seq<Event>) {
    exists i :: 0 <= i < |events| && events[i].op == Quit
  }

  lemma {:induction false} SliceSplits(t: Task)
    ensures Ops(t) == Slice(t) + Ops(AfterSlice(t))
    ensures Yields(t) == 0 ==> AfterSlice(t) == End
    ensures Yields(t) > 0 ==> Yields(AfterSlice(t)) == Yields(t) - 1
    ensures Yields(t) > 0 <==> Slice(t) != [] && Slice(t)[|Slice(t)| - 1] == Yield
  {
    match t
    case End =>
    case Do(op, rest) =>
      SliceSplits(rest);
      if !op.Yield? {
        assert ([op] + Slice(rest)) + Ops(AfterSlice(rest)) == [op] + (Slice(rest) + Ops(AfterSlice(rest)));
      }
  }

  // ----- a resumption runs exactly one slice -----

  /** State t is what a resumption of coroutine id leads to from state s. */
  ghost predicate SliceDone(s: State, t: State, id: nat, outside: nat -> seq<Task>)
    requires id in s.store
  {
    var todo := s.store[id].todo;
    && t.store == s.store[id := Coroutine(if Yields(todo) > 0 then SUSPENDED else FINISHED, AfterSlice(todo))]
    && t.curCo == (if Yields(todo) > 0 then id else -1)
    && t.trace == s.trace + Tag(id, Slice(todo))
    && t.pending == s.pending + Handed(|s.trace|, Tag(id, Slice(todo)), outside)
    && t.quit == (s.quit || Quit in Slice(todo))
    && t.coNum == s.coNum && t.origin == s.origin && t.finished == s.finished
  }

  /** State u is what one operation other than a yield leads to from state s. */
  ghost predicate OpDone(s: State, u: State, id: nat, op: Op, rest: Task, outside: nat -> seq<Task>)
  {
    && u.store == s.store[id := Coroutine(RUNNING, rest)]
    && u.curCo == s.curCo
    && u.trace == s.trace + [Event(id, op)]
    && u.pending == s.pending + Handed(|s.trace|, [Event(id, op)], outside)
    && u.quit == (s.quit || op == Quit)
    && u.coNum == s.coNum && u.origin == s.origin && u.finished == s.finished
  }

  lemma TagCons(id: nat, op: Op, more: seq<Op>)
    ensures Tag(id, [op] + more) == [Event(id, op)] + Tag(id, more)
    ensures Quit in [op] + more <==> op == Quit || Quit in more
  {
    assert ([op] + more)[1..] == more;
  }

  lemma Regroup<T>(a: seq<T>, b: seq<T>, c: seq<T>)
    ensures (a + b) + c == a + (b + c)
    ensures c == [] ==> a + b == a + (b + c)
    ensures a + [] == a
  {
  }

  lemma OpThenSlice(s: State, u: State, t: State, id: nat, op: Op, rest: Task, outside: nat -> seq<Task>)
    requires id in s.store && s.store[id].todo == Do(op, rest) && !op.Yield?
    requires OpDone(s, u, id, op, rest, outside) && SliceDone(u, t, id, outside)
    ensures SliceDone(s, t, id, outside)
  {
    var first, more := [Event(id, op)], Tag(id, Slice(rest));
    TagCons(id, op, Slice(rest));
    Regroup(s.trace, first, more);
    HandedBoth(|s.trace|, first, more, outside);
    Regroup(s.pending, Handed(|s.trace|, first, outside), Handed(|s.trace| + 1, more, outside));
  }

  /** What one operation other than a yield leads to. */
  function OpStep(s: State, id: nat, op: Op, rest: Task, outside: nat -> seq<Task>): State {
    var u := Record(Post(s, outside(|s.trace|)), id, op, rest);
    match op
    case Quit => u.(quit := true)
    case Spawn(task) => Create(u, true, task)
    case _ => u
  }

  lemma HandedOne(at: nat, event: Event, outside: nat -> seq<Task>)
    ensures Handed(at, [event], outside) == outside(at) + if event.op.Spawn? then [event.op.task] else []
  {
  }

  lemma OpRuns(s: State, id: nat, op: Op, rest: Task, outside: nat -> seq<Task>)
    requires s.curCo == id && !op.Yield?
    ensures OpDone(s, OpStep(s, id, op, rest, outside), id, op, rest, outside)
  {
    HandedOne(|s.trace|, Event(id, op), outside);
    Regroup(s.pending, outside(|s.trace|), if op.Spawn? then [op.task] else []);
  }

  /** A resumption that goes straight to the next yield, or to the end. */
  lemma SliceStops(s: State, id: nat, outside: nat -> seq<Task>)
    requires id in s.store && s.curCo == id
    requires s.store[id].todo.End? || s.store[id].todo.op.Yield?
    ensures SliceDone(s, RunSlice(s, id, outside), id, outside)
  {
    if s.store[id].todo.End? {
      Regroup(s.pending, [], []);
    } else {
      assert Tag(id, [Yield]) == [Event(id, Yield)];
      HandedOne(|s.trace|, Event(id, Yield), outside);
    }
  }

  lemma {:induction false} SliceRuns(s: State, id: nat, outside: nat -> seq<Task>)
    requires id in s.store && s.curCo == id
    ensures SliceDone(s, RunSlice(s, id, outside), id, outside)
    decreases s.store[id].todo
  {
    hide SliceDone;
    var todo := s.store[id].todo;
    if todo.End? || todo.op.Yield? {
      SliceStops(s, id, outside);
    } else {
      var u := OpStep(s, id, todo.op, todo.rest, outside);
      OpRuns(s, id, todo.op, todo.rest, outside);
      SliceRuns(u, id, outside);
      OpThenSlice(s, u, RunSlice(u, id, outside), id, todo.op, todo.rest, outside);
      assert RunSlice(s, id, outside) == RunSlice(u, id, outside);
    }
  }

  lemma VisitKeepsCoNum(s: State, id: nat, outside: nat -> seq<Task>)
    requires id in s.store
    ensures Visit(s, id, outside).coNum == s.coNum
  {
    var co := s.store[id];
    if co.status == READY || co.status == SUSPENDED {
      SliceRuns(s.(curCo := id, store := s.store[id := co.(status := RUNNING)]), id, outside);
    }
  }
}
