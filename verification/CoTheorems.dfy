/** What the coroutine scheduler promises: the exact schedule, what becomes of every
    task, and that finite tasks are all run to their end. */
module CoTheorems {
  import opened CoModel

  // ----- one visit -----

  predicate Runnable(co: Coroutine) {
    co.status == READY || co.status == SUSPENDED
  }

  ghost predicate StoreOk(s: State) {
    forall id | id in s.store :: id < s.coNum && Runnable(s.store[id])
  }

  /** State t is what a turn of the inner loop at coroutine id leads to from state s. */
  ghost predicate VisitDone(s: State, t: State, id: nat, outside: nat -> seq<Task>)
    requires id in s.store
  {
    var todo := s.store[id].todo;
    && t.store == (if Yields(todo) > 0 then s.store[id := Coroutine(SUSPENDED, AfterSlice(todo))] else s.store - {id})
    && t.finished == (if Yields(todo) > 0 then s.finished else s.finished + {id})
    && t.curCo == (if Yields(todo) > 0 then id else -1)
    && t.trace == s.trace + Tag(id, Slice(todo))
    && t.pending == s.pending + Handed(|s.trace|, Tag(id, Slice(todo)), outside)
    && t.quit == (s.quit || Quit in Slice(todo))
    && t.coNum == s.coNum && t.origin == s.origin
  }

  /** A visit resumes the coroutine for one slice and erases it if that was the last. */
  lemma Visited(s: State, id: nat, outside: nat -> seq<Task>)
    requires id in s.store && Runnable(s.store[id])
    ensures VisitDone(s, Visit(s, id, outside), id, outside)
  {
    var u := s.(curCo := id, store := s.store[id := s.store[id].(status := RUNNING)]);
    SliceRuns(u, id, outside);
    var t := RunSlice(u, id, outside);
    assert u.store[id].todo == s.store[id].todo;
    assert t.store - {id} == s.store - {id};
  }

  lemma VisitStore(s: State, t: State, id: nat, outside: nat -> seq<Task>)
    requires StoreOk(s) && id in s.store && VisitDone(s, t, id, outside)
    ensures StoreOk(t)
  {
  }

  // ----- the order and the events of one turn of start -----

  /** What the coroutines of a store do in one turn, from id on: each one slice, in
      ascending order of id. */
  function RoundTrace(store: map<nat, Coroutine>, from: nat, n: nat): seq<Event>
    decreases n - from
  {
    if from >= n then []
    else (if from in store then Tag(from, Slice(store[from].todo)) else []) + RoundTrace(store, from + 1, n)
  }

  predicate Survives(co: Coroutine) {
    Yields(co.todo) > 0
  }

  /** The store after the coroutines from id on have had their turn. */
  function NextStore(store: map<nat, Coroutine>, from: nat): map<nat, Coroutine> {
    map id | id in store && (id < from || Survives(store[id])) ::
      if id < from then store[id] else Coroutine(SUSPENDED, AfterSlice(store[id].todo))
  }

  function Ended(store: map<nat, Coroutine>, from: nat): set<nat> {
    set id | id in store && id >= from && !Survives(store[id])
  }

  lemma {:induction false} SameTrace(a: map<nat, Coroutine>, b: map<nat, Coroutine>, from: nat, n: nat)
    requires forall id | id >= from :: (id in a <==> id in b) && (id in a ==> a[id] == b[id])
    ensures RoundTrace(a, from, n) == RoundTrace(b, from, n)
    decreases n - from
  {
    if from < n {
      SameTrace(a, b, from + 1, n);
    }
  }

  /** The current coroutine after those from id on have had their turn: the last one that
      did, or none if that one has ended. */
  function CurAfter(store: map<nat, Coroutine>, from: nat, n: nat, cur: int): int
    decreases n - from
  {
    if from >= n then cur
    else CurAfter(store, from + 1, n, if from !in store then cur else if Survives(store[from]) then from else -1)
  }

  lemma {:induction false} SameCur(a: map<nat, Coroutine>, b: map<nat, Coroutine>, from: nat, n: nat, cur: int)
    requires forall id | id >= from :: (id in a <==> id in b) && (id in a ==> a[id] == b[id])
    ensures CurAfter(a, from, n, cur) == CurAfter(b, from, n, cur)
    decreases n - from
  {
    if from < n {
      SameCur(a, b, from + 1, n, if from !in a then cur else if Survives(a[from]) then from else -1);
    }
  }

  ghost predicate VisitsDone(s: State, t: State, from: nat, outside: nat -> seq<Task>) {
    var events := RoundTrace(s.store, from, s.coNum);
    && t.store == NextStore(s.store, from)
    && t.finished == s.finished + Ended(s.store, from)
    && t.curCo == CurAfter(s.store, from, s.coNum, s.curCo)
    && t.trace == s.trace + events
    && t.pending == s.pending + Handed(|s.trace|, events, outside)
    && t.quit == (s.quit || HasQuit(events))
    && t.coNum == s.coNum && t.origin == s.origin
  }

  function VisitedStore(store: map<nat, Coroutine>, id: nat): map<nat, Coroutine>
    requires id in store
  {
    if Survives(store[id]) then store[id := Coroutine(SUSPENDED, AfterSlice(store[id].todo))] else store - {id}
  }

  lemma NextStoreStep(store: map<nat, Coroutine>, id: nat)
    requires id in store
    ensures NextStore(VisitedStore(store, id), id + 1) == NextStore(store, id)
    ensures Ended(store, id) == Ended(VisitedStore(store, id), id + 1) + if Survives(store[id]) then {} else {id}
  {
  }

  lemma NextStoreSkip(store: map<nat, Coroutine>, id: nat)
    requires id !in store
    ensures NextStore(store, id) == NextStore(store, id + 1) && Ended(store, id) == Ended(store, id + 1)
  {
  }

  lemma QuitBoth(a: seq<Event>, b: seq<Event>)
    ensures HasQuit(a + b) <==> HasQuit(a) || HasQuit(b)
  {
    if i :| 0 <= i < |a| && a[i].op == Quit {
      assert (a + b)[i].op == Quit;
    }
    if i :| 0 <= i < |b| && b[i].op == Quit {
      assert (a + b)[|a| + i].op == Quit;
    }
  }

  lemma QuitTag(id: nat, ops: seq<Op>)
    ensures HasQuit(Tag(id, ops)) <==> Quit in ops
  {
    if i :| 0 <= i < |ops| && ops[i] == Quit {
      assert Tag(id, ops)[i].op == Quit;
    }
  }

  lemma VisitThenVisits(s: State, u: State, t: State, id: nat, outside: nat -> seq<Task>)
    requires id in s.store && id < s.coNum && VisitDone(s, u, id, outside) && VisitsDone(u, t, id + 1, outside)
    ensures VisitsDone(s, t, id, outside)
  {
    hide Slice, AfterSlice, Yields, NextStore, Ended, HasQuit, Handed;
    assert u.store == VisitedStore(s.store, id);
    NextStoreStep(s.store, id);
    SameTrace(u.store, s.store, id + 1, s.coNum);
    SameCur(u.store, s.store, id + 1, s.coNum, u.curCo);
    var first, more := Tag(id, Slice(s.store[id].todo)), RoundTrace(s.store, id + 1, s.coNum);
    assert RoundTrace(s.store, id, s.coNum) == first + more;
    Regroup(s.trace, first, more);
    HandedBoth(|s.trace|, first, more, outside);
    Regroup(s.pending, Handed(|s.trace|, first, outside), Handed(|u.trace|, more, outside));
    QuitBoth(first, more);
    QuitTag(id, Slice(s.store[id].todo));
  }

  lemma VisitsSkip(s: State, t: State, from: nat, outside: nat -> seq<Task>)
    requires from !in s.store && from < s.coNum && VisitsDone(s, t, from + 1, outside)
    ensures VisitsDone(s, t, from, outside)
  {
    hide NextStore, Ended, HasQuit, Handed;
    NextStoreSkip(s.store, from);
    assert [] + RoundTrace(s.store, from + 1, s.coNum) == RoundTrace(s.store, from + 1, s.coNum);
  }

  lemma {:induction false} Visits(s: State, from: nat, outside: nat -> seq<Task>)
    requires StoreOk(s)
    ensures VisitsDone(s, VisitsFrom(s, from, outside), from, outside)
    decreases s.coNum - from
  {
    hide Visit, VisitDone, Slice, Survives;
    if from >= s.coNum {
      assert NextStore(s.store, from) == s.store;
      assert Ended(s.store, from) == {};
      Regroup(s.pending, [], []);
    } else if from in s.store {
      Visited(s, from, outside);
      var u := Visit(s, from, outside);
      VisitStore(s, u, from, outside);
      VisitKeepsCoNum(s, from, outside);
      Visits(u, from + 1, outside);
      VisitThenVisits(s, u, VisitsFrom(u, from + 1, outside), from, outside);
    } else {
      Visits(s, from + 1, outside);
      VisitsSkip(s, VisitsFrom(s, from + 1, outside), from, outside);
    }
  }

  /** The coroutines from number n on have the tasks, and have not run. */
  ghost predicate ReadyFrom(store: map<nat, Coroutine>, n: nat, tasks: seq<Task>) {
    forall id | n <= id < n + |tasks| :: id in store && store[id] == Coroutine(READY, tasks[id - n])
  }

  ghost predicate OriginFrom(origin: map<nat, Task>, n: nat, tasks: seq<Task>) {
    forall id | n <= id < n + |tasks| :: id in origin && origin[id] == tasks[id - n]
  }

  lemma FromCons(store: map<nat, Coroutine>, origin: map<nat, Task>, n: nat, tasks: seq<Task>)
    requires tasks != [] && n in store && store[n] == Coroutine(READY, tasks[0]) && n in origin && origin[n] == tasks[0]
    requires ReadyFrom(store, n + 1, tasks[1..]) && OriginFrom(origin, n + 1, tasks[1..])
    ensures ReadyFrom(store, n, tasks) && OriginFrom(origin, n, tasks)
  {
    forall id | n <= id < n + |tasks|
      ensures id in store && store[id] == Coroutine(READY, tasks[id - n])
      ensures id in origin && origin[id] == tasks[id - n]
    {
      if id > n {
        assert tasks[1..][id - (n + 1)] == tasks[id - n];
      }
    }
  }

  /** State t is state s with coroutines for the tasks added. */
  ghost predicate AllStored(s: State, t: State, tasks: seq<Task>) {
    && t.coNum == s.coNum + |tasks|
    && (forall id: nat :: id in t.store <==> (id in s.store || s.coNum <= id < t.coNum))
    && (forall id: nat :: id in t.origin <==> (id in s.origin || s.coNum <= id < t.coNum))
    && (forall id: nat | id < s.coNum && id in s.store :: t.store[id] == s.store[id])
    && (forall id: nat | id < s.coNum && id in s.origin :: t.origin[id] == s.origin[id])
    && ReadyFrom(t.store, s.coNum, tasks) && OriginFrom(t.origin, s.coNum, tasks)
    && t == s.(coNum := t.coNum, store := t.store, origin := t.origin)
  }

  lemma StoreThenAll(s: State, u: State, tasks: seq<Task>)
    requires tasks != [] && AllStored(Store(s, tasks[0]), u, tasks[1..])
    ensures AllStored(s, u, tasks)
  {
    hide ReadyFrom, OriginFrom;
    FromCons(u.store, u.origin, s.coNum, tasks);
  }

  lemma {:induction false} StoresAll(s: State, tasks: seq<Task>)
    ensures AllStored(s, StoreAll(s, tasks), tasks)
    decreases |tasks|
  {
    if tasks != [] {
      StoresAll(Store(s, tasks[0]), tasks[1..]);
      StoreThenAll(s, StoreAll(s, tasks), tasks);
    }
  }

  /** What one turn does: the events of the stored coroutines, in order, */
  function TurnEvents(s: State): seq<Event> {
    RoundTrace(s.store, 0, s.coNum)
  }

  /** and the tasks that arrive: while those events happen, and just before the pending
      tasks are taken. */
  function TurnTasks(s: State, env: Env): seq<Task> {
    Handed(|s.trace|, TurnEvents(s), env.outside) + env.late
  }

  /** One turn of start's loop: each stored coroutine runs exactly one slice, in ascending
      order of id; those whose task ended are erased, the others suspended; and exactly the
      tasks pending before, spawned meanwhile and posted by other threads become coroutines
      that have not run yet, with the next ids, in this order. */
  ghost predicate RoundDone(s: State, env: Env, t: State) {
    var tasks := s.pending + TurnTasks(s, env);
    && t.trace == s.trace + TurnEvents(s)
    && t.coNum == s.coNum + |tasks|
    && (forall id: nat | id < s.coNum ::
          if id in s.store && Survives(s.store[id])
          then id in t.store && t.store[id] == Coroutine(SUSPENDED, AfterSlice(s.store[id].todo))
          else id !in t.store)
    && ReadyFrom(t.store, s.coNum, tasks)
    && (forall id | id in t.store :: id < t.coNum)
    && t.finished == s.finished + (set id | id in s.store && !Survives(s.store[id]))
    && t.pending == []
    && t.curCo == CurAfter(s.store, 0, s.coNum, s.curCo)
    && t.quit == (s.quit || HasQuit(TurnEvents(s)) || env.quit)
  }

  /** ... of which history remembers the tasks. */
  ghost predicate OriginsDone(s: State, env: Env, t: State) {
    var tasks := s.pending + TurnTasks(s, env);
    && (forall id: nat :: id in t.origin <==> id in s.origin || s.coNum <= id < s.coNum + |tasks|)
    && (forall id: nat | id < s.coNum && id in s.origin :: t.origin[id] == s.origin[id])
    && OriginFrom(t.origin, s.coNum, tasks)
  }

  /** The coroutines of a turn are all older than those that it creates, and come in
      ascending order of id. */
  lemma {:induction false} TurnOfOld(store: map<nat, Coroutine>, from: nat, n: nat)
    ensures forall i | 0 <= i < |RoundTrace(store, from, n)| :: from <= RoundTrace(store, from, n)[i].id < n
    ensures forall i, j | 0 <= i < j < |RoundTrace(store, from, n)| ::
              RoundTrace(store, from, n)[i].id <= RoundTrace(store, from, n)[j].id
    decreases n - from
  {
    if from < n {
      TurnOfOld(store, from + 1, n);
    }
  }

  lemma RoundExact(s: State, env: Env)
    requires StoreOk(s)
    ensures RoundDone(s, env, Round(s, env)) && OriginsDone(s, env, Round(s, env)) && StoreOk(Round(s, env))
    ensures forall i | 0 <= i < |TurnEvents(s)| :: TurnEvents(s)[i].id < s.coNum
    ensures forall i, j | 0 <= i < j < |TurnEvents(s)| :: TurnEvents(s)[i].id <= TurnEvents(s)[j].id
  {
    hide StoreOk, NextStore, Ended, RoundTrace, RoundDone, OriginsDone, AllStored, HasQuit, Handed, VisitsFrom,
         StoreAll;
    Visits(s, 0, env.outside);
    TurnOfOld(s.store, 0, s.coNum);
    var t := VisitsFrom(s, 0, env.outside);
    var u := Post(t.(quit := t.quit || env.quit), env.late);
    Regroup(s.pending, Handed(|s.trace|, TurnEvents(s), env.outside), env.late);
    StoresAll(u.(pending := []), u.pending);
    RoundShape(s, env, u, Round(s, env));
  }

  lemma RoundShape(s: State, env: Env, u: State, t: State)
    requires StoreOk(s) && u.pending == s.pending + TurnTasks(s, env)
    requires u.coNum == s.coNum && u.origin == s.origin
    requires u.store == NextStore(s.store, 0) && u.finished == s.finished + Ended(s.store, 0)
    requires u.trace == s.trace + TurnEvents(s) && u.curCo == CurAfter(s.store, 0, s.coNum, s.curCo)
    requires u.quit == (s.quit || HasQuit(TurnEvents(s)) || env.quit)
    requires AllStored(u.(pending := []), t, u.pending)
    ensures RoundDone(s, env, t) && OriginsDone(s, env, t) && StoreOk(t)
  {
    hide TurnEvents, TurnTasks, Survives, AfterSlice, CurAfter, HasQuit;
    assert Ended(s.store, 0) == set id | id in s.store && !Survives(s.store[id]);
  }

  // ----- the exact schedule of one coroutine -----

  lemma {:induction false} RoundsSnoc(s: State, envs: seq<Env>, env: Env)
    ensures Rounds(s, envs + [env]) == Round(Rounds(s, envs), env)
    decreases |envs|
  {
    if envs == [] {
      assert [env][1..] == [];
    } else {
      assert (envs + [env])[1..] == envs[1..] + [env];
      RoundsSnoc(Round(s, envs[0]), envs[1..], env);
    }
  }

  lemma {:induction false} AfterSlicesSnoc(t: Task, n: nat)
    ensures AfterSlices(t, n + 1) == AfterSlice(AfterSlices(t, n))
    ensures n <= Yields(t) ==> Yields(AfterSlices(t, n)) == Yields(t) - n
    decreases n
  {
    SliceSplits(t);
    if n > 0 {
      AfterSlicesSnoc(AfterSlice(t), n - 1);
    }
  }

  lemma {:induction false} RoundsKeepStore(s: State, envs: seq<Env>)
    requires StoreOk(s)
    ensures StoreOk(Rounds(s, envs))
    decreases |envs|
  {
    if envs != [] {
      RoundExact(s, envs[0]);
      RoundsKeepStore(Round(s, envs[0]), envs[1..]);
    }
  }

  /** The slice of events that belongs to one coroutine. */
  function EventsOf(trace: seq<Event>, id: nat): seq<Op> {
    if trace == [] then []
    else EventsOf(trace[..|trace| - 1], id) + if trace[|trace| - 1].id == id then [trace[|trace| - 1].op] else []
  }

  lemma {:induction false} EventsOfBoth(a: seq<Event>, b: seq<Event>, id: nat)
    ensures EventsOf(a + b, id) == EventsOf(a, id) + EventsOf(b, id)
    decreases |b|
  {
    if b == [] {
      assert a + b == a;
    } else {
      var n := |b| - 1;
      assert (a + b)[..|a + b| - 1] == a + b[..n];
      EventsOfBoth(a, b[..n], id);
    }
  }

  lemma {:induction false} EventsOfTag(i: nat, ops: seq<Op>, id: nat)
    ensures EventsOf(Tag(i, ops), id) == if i == id then ops else []
    decreases |ops|
  {
    if ops != [] {
      var n := |ops| - 1;
      assert Tag(i, ops)[..n] == Tag(i, ops[..n]);
      assert ops == ops[..n] + [ops[n]];
      EventsOfTag(i, ops[..n], id);
    }
  }

  lemma EventsOfSlice(co: Coroutine, i: nat, more: seq<Event>, id: nat)
    ensures EventsOf(Tag(i, Slice(co.todo)) + more, id) == (if i == id then Slice(co.todo) else []) + EventsOf(more, id)
  {
    EventsOfBoth(Tag(i, Slice(co.todo)), more, id);
    EventsOfTag(i, Slice(co.todo), id);
  }

  lemma {:induction false} EventsOfRound(store: map<nat, Coroutine>, from: nat, n: nat, id: nat)
    ensures EventsOf(RoundTrace(store, from, n), id) == if from <= id < n
            && id in store then Slice(store[id].todo) else []
    decreases n - from
  {
    hide EventsOf, Slice;
    if from >= n {
      EventsOfTag(0, [], id);
    } else {
      var more := RoundTrace(store, from + 1, n);
      EventsOfRound(store, from + 1, n, id);
      var rest := EventsOf(more, id);
      if from in store {
        var slice := Slice(store[from].todo);
        EventsOfSlice(store[from], from, more, id);
        assert slice + [] == slice && [] + rest == rest;
      } else {
        assert RoundTrace(store, from, n) == more;
      }
    }
  }

  /** A coroutine with k yields left, whatever else is going on: after n turns of start's
      loop, n <= k, it has done its first n slices and is stored; after k + 1 turns it is
      erased; and turn number n (from 0) has it do slice number n and nothing more, or
      nothing at all once n > k. */
  lemma {:induction false} ExactSchedule(s: State, envs: seq<Env>, env: Env, id: nat)
    requires StoreOk(s) && id in s.store
    ensures var n := |envs|;
            var k := Yields(s.store[id].todo);
            var t := Rounds(s, envs);
            && id < t.coNum
            && (n <= k ==> id in t.store && t.store[id].todo == AfterSlices(s.store[id].todo, n))
            && (n > k ==> id !in t.store && id in t.finished)
            && EventsOf(Rounds(s, envs + [env]).trace, id)
            == EventsOf(t.trace, id) + if n <= k then Slice(AfterSlices(s.store[id].todo, n)) else []
    decreases |envs|
  {
    hide Round, RoundTrace, Slice, Yields, AfterSlice;
    var n := |envs|;
    var todo := s.store[id].todo;
    var t := Rounds(s, envs);
    RoundsKeepStore(s, envs);
    if n > 0 {
      var before := envs[..n - 1];
      ExactSchedule(s, before, env, id);
      assert envs == before + [envs[n - 1]];
      RoundsSnoc(s, before, envs[n - 1]);
      RoundsKeepStore(s, before);
      RoundExact(Rounds(s, before), envs[n - 1]);
      AfterSlicesSnoc(todo, n - 1);
    }
    RoundsSnoc(s, envs, env);
    RoundExact(t, env);
    EventsOfBoth(t.trace, RoundTrace(t.store, 0, t.coNum), id);
    EventsOfRound(t.store, 0, t.coNum, id);
  }

  // ----- what becomes of every task -----

  /** What coroutine id has done and what it has still to do make up its task. */
  predicate ScriptOk(trace: seq<Event>, store: map<nat, Coroutine>, origin: map<nat, Task>, id: nat) {
    EventsOf(trace, id) + (if id in store then Ops(store[id].todo) else [])
        == (if id in origin then Ops(origin[id]) else [])
  }

  /** Every coroutine ever created is stored or finished. */
  ghost predicate ShapeOk(s: State) {
    && StoreOk(s)
    && (forall id: nat :: id in s.origin <==> id < s.coNum)
    && (forall id: nat :: id < s.coNum <==> id in s.store || id in s.finished)
    && (forall id | id in s.finished :: id !in s.store)
  }

  ghost predicate Inv(s: State) {
    ShapeOk(s) && forall id: nat :: ScriptOk(s.trace, s.store, s.origin, id)
  }

  lemma VisitEvents(s: State, t: State, id: nat, j: nat, outside: nat -> seq<Task>)
    requires id in s.store && VisitDone(s, t, id, outside)
    ensures EventsOf(t.trace, j) == EventsOf(s.trace, j) + if j == id then Slice(s.store[id].todo) else []
  {
    EventsOfBoth(s.trace, Tag(id, Slice(s.store[id].todo)), j);
    EventsOfTag(id, Slice(s.store[id].todo), j);
  }

  lemma VisitScript(s: State, t: State, id: nat, j: nat, outside: nat -> seq<Task>)
    requires id in s.store && VisitDone(s, t, id, outside) && ScriptOk(s.trace, s.store, s.origin, j)
    ensures ScriptOk(t.trace, t.store, t.origin, j)
  {
    VisitEvents(s, t, id, j, outside);
    if j == id {
      var todo := s.store[id].todo;
      SliceSplits(todo);
      Regroup(EventsOf(s.trace, id), Slice(todo), Ops(AfterSlice(todo)));
    } else {
      Regroup(EventsOf(s.trace, j), [], []);
    }
  }

  lemma VisitShape(s: State, t: State, id: nat, outside: nat -> seq<Task>)
    requires ShapeOk(s) && id in s.store && VisitDone(s, t, id, outside)
    ensures ShapeOk(t)
  {
  }

  lemma VisitKeeps(s: State, t: State, id: nat, outside: nat -> seq<Task>)
    requires Inv(s) && id in s.store && VisitDone(s, t, id, outside)
    ensures Inv(t)
  {
    VisitShape(s, t, id, outside);
    forall j: nat
      ensures ScriptOk(t.trace, t.store, t.origin, j)
    {
      VisitScript(s, t, id, j, outside);
    }
  }

  lemma {:induction false} VisitsKeep(s: State, from: nat, outside: nat -> seq<Task>)
    requires Inv(s)
    ensures Inv(VisitsFrom(s, from, outside))
    decreases s.coNum - from
  {
    hide Visit, VisitDone;
    if from < s.coNum {
      if from in s.store {
        Visited(s, from, outside);
        VisitKeeps(s, Visit(s, from, outside), from, outside);
        VisitsKeep(Visit(s, from, outside), from + 1, outside);
      } else {
        VisitsKeep(s, from + 1, outside);
      }
    }
  }

  lemma StoreKeeps(s: State, task: Task)
    requires Inv(s)
    ensures Inv(Store(s, task))
  {
    var t := Store(s, task);
    forall j: nat
      ensures ScriptOk(t.trace, t.store, t.origin, j)
    {
      assert ScriptOk(s.trace, s.store, s.origin, j);
    }
  }

  lemma {:induction false} StoreAllKeeps(s: State, tasks: seq<Task>)
    requires Inv(s)
    ensures Inv(StoreAll(s, tasks))
    decreases |tasks|
  {
    if tasks != [] {
      StoreKeeps(s, tasks[0]);
      StoreAllKeeps(Store(s, tasks[0]), tasks[1..]);
    }
  }

  lemma RoundKeeps(s: State, env: Env)
    requires Inv(s)
    ensures Inv(Round(s, env))
  {
    VisitsKeep(s, 0, env.outside);
    var t := VisitsFrom(s, 0, env.outside);
    var u := Post(t.(quit := t.quit || env.quit), env.late);
    StoreAllKeeps(u.(pending := []), u.pending);
  }

  /** What is done with a scheduler: tasks are handed in, on its thread or another, and
      start's loop takes turns. */
  datatype Act = Submit(onSchedulerThread: bool, task: Task) | Turn(env: Env)

  function Perform(s: State, a: Act): State {
    match a
    case Submit(onSchedulerThread, task) => Create(s, onSchedulerThread, task)
    case Turn(env) => Round(s, env)
  }

  function After(s: State, acts: seq<Act>): State
    decreases |acts|
  {
    if acts == [] then s else After(Perform(s, acts[0]), acts[1..])
  }

  lemma ActKeeps(s: State, a: Act)
    requires Inv(s)
    ensures Inv(Perform(s, a))
  {
    match a
    case Submit(onSchedulerThread, task) =>
      if onSchedulerThread && s.curCo == -1 {
        StoreKeeps(s, task);
      }
    case Turn(env) => RoundKeeps(s, env);
  }

  lemma {:induction false} RunKeeps(s: State, acts: seq<Act>)
    requires Inv(s)
    ensures Inv(After(s, acts))
    decreases |acts|
  {
    if acts != [] {
      ActKeeps(s, acts[0]);
      RunKeeps(Perform(s, acts[0]), acts[1..]);
    }
  }

  lemma InitialInv()
    ensures Inv(INITIAL)
  {
    assert forall id: nat :: ScriptOk([], map[], map[], id);
  }

  lemma Reached(acts: seq<Act>)
    ensures Inv(After(INITIAL, acts))
  {
    InitialInv();
    RunKeeps(INITIAL, acts);
  }

  lemma {:induction false} SizeBelow(ids: set<nat>, n: nat)
    requires forall id: nat :: id in ids <==> id < n
    ensures |ids| == n
    decreases n
  {
    if n == 0 {
      assert forall id: nat :: id !in ids;
      assert ids == {};
    } else {
      SizeBelow(ids - {n - 1}, n - 1);
    }
  }

  // ----- which tasks the coroutines are -----

  /** The tasks of the coroutines below number n. */
  function TasksOf(origin: map<nat, Task>, n: nat): seq<Task> {
    if n == 0 then [] else TasksOf(origin, n - 1) + if n - 1 in origin then [origin[n - 1]] else []
  }

  lemma {:induction false} TasksMore(a: map<nat, Task>, b: map<nat, Task>, n: nat, tasks: seq<Task>)
    requires forall id: nat | id < n :: (id in a <==> id in b) && (id in a ==> a[id] == b[id])
    requires forall id | n <= id < n + |tasks| :: id in b && b[id] == tasks[id - n]
    ensures TasksOf(b, n + |tasks|) == TasksOf(a, n) + tasks
    decreases n + |tasks|
  {
    if tasks != [] {
      var front, last := tasks[..|tasks| - 1], tasks[|tasks| - 1];
      TasksMore(a, b, n, front);
      assert front + [last] == tasks;
      Regroup(TasksOf(a, n), front, [last]);
    } else if n > 0 {
      TasksMore(a, b, n - 1, []);
      Regroup(TasksOf(a, n), [], []);
    }
  }

  lemma {:induction false} TasksCount(origin: map<nat, Task>, n: nat)
    requires forall id: nat | id < n :: id in origin
    ensures |TasksOf(origin, n)| == n
  {
    if n > 0 {
      TasksCount(origin, n - 1);
    }
  }

  /** The tasks that arrive with one act, and with many. */
  function Arriving(s: State, a: Act): multiset<Task> {
    match a
    case Submit(_, task) => multiset{task}
    case Turn(env) => multiset(TurnTasks(s, env))
  }

  function AllArriving(s: State, acts: seq<Act>): multiset<Task>
    decreases |acts|
  {
    if acts == [] then multiset{} else Arriving(s, acts[0]) + AllArriving(Perform(s, acts[0]), acts[1..])
  }

  /** The tasks that there are: those of all coroutines ever created, and those pending. */
  function AllTasks(s: State): multiset<Task> {
    multiset(TasksOf(s.origin, s.coNum)) + multiset(s.pending)
  }

  lemma SubmitArrives(s: State, onSchedulerThread: bool, task: Task)
    requires ShapeOk(s)
    ensures AllTasks(Create(s, onSchedulerThread, task)) == AllTasks(s) + multiset{task}
  {
    hide TasksOf;
    if onSchedulerThread && s.curCo == -1 {
      TasksMore(s.origin, s.origin[s.coNum := task], s.coNum, [task]);
    } else {
      assert multiset(s.pending + [task]) == multiset(s.pending) + multiset{task};
    }
  }

  lemma TurnOrigins(s: State, env: Env)
    requires ShapeOk(s)
    ensures OriginsDone(s, env, Round(s, env))
    ensures Round(s, env).coNum == s.coNum + |s.pending + TurnTasks(s, env)| && Round(s, env).pending == []
  {
    hide Round, TurnTasks, OriginsDone;
    RoundExact(s, env);
  }

  lemma TurnArrives(s: State, env: Env)
    requires ShapeOk(s)
    ensures AllTasks(Round(s, env)) == AllTasks(s) + multiset(TurnTasks(s, env))
  {
    hide Round, TurnTasks, TurnEvents, TasksOf, RoundDone, StoreOk;
    TurnOrigins(s, env);
    TasksMore(s.origin, Round(s, env).origin, s.coNum, s.pending + TurnTasks(s, env));
  }

  lemma {:induction false} RunArrives(s: State, acts: seq<Act>)
    requires Inv(s)
    ensures AllTasks(After(s, acts)) == AllTasks(s) + AllArriving(s, acts)
    decreases |acts|
  {
    hide ShapeOk, AllTasks;
    if acts != [] {
      match acts[0] {
        case Submit(onSchedulerThread, task) => SubmitArrives(s, onSchedulerThread, task);
        case Turn(env) => TurnArrives(s, env);
      }
      ActKeeps(s, acts[0]);
      RunArrives(Perform(s, acts[0]), acts[1..]);
    }
  }

  /** In every run: the tasks handed in and spawned are, one for one, those of the
      coroutines created, which are finished or stored, and those pending; ids are below
      m_coNum; between turns no stored coroutine is running or finished; and what a
      coroutine has done is the beginning of its task, all of it when it is finished. */
  lemma EveryTaskAccounted(acts: seq<Act>)
    ensures var s := After(INITIAL, acts);
            && AllArriving(INITIAL, acts) == AllTasks(s)
            && |AllArriving(INITIAL, acts)| == |s.finished| + |s.store| + |s.pending|
            && (forall id | id in s.store :: id < s.coNum && id !in s.finished && Runnable(s.store[id]))
            && (forall id: nat :: id in s.origin <==> id in s.store || id in s.finished)
            && (forall id | id in s.store ::
                  id in s.origin && EventsOf(s.trace, id) + Ops(s.store[id].todo) == Ops(s.origin[id]))
            && (forall id | id in s.finished ::
                  id in s.origin && EventsOf(s.trace, id) == Ops(s.origin[id]))
  {
    InitialInv();
    RunArrives(INITIAL, acts);
    Reached(acts);
    var s := After(INITIAL, acts);
    Accounted(s);
    SizeBelow(s.finished + s.store.Keys, s.coNum);
    assert s.finished * s.store.Keys == {};
    TasksCount(s.origin, s.coNum);
  }

  lemma Accounted(s: State)
    requires Inv(s)
    ensures forall id | id in s.store ::
              id in s.origin && EventsOf(s.trace, id) + Ops(s.store[id].todo) == Ops(s.origin[id])
    ensures forall id | id in s.finished :: id in s.origin && EventsOf(s.trace, id) == Ops(s.origin[id])
  {
    forall id: nat
      ensures ScriptOk(s.trace, s.store, s.origin, id)
      ensures EventsOf(s.trace, id) + [] == EventsOf(s.trace, id)
    {
    }
  }

  /** What one coroutine does in one turn. */
  lemma TurnOfOne(s: State, env: Env, id: nat)
    requires StoreOk(s)
    ensures var t := Round(s, env);
            EventsOf(t.trace, id)
            == EventsOf(s.trace, id) + if id < s.coNum && id in s.store then Slice(s.store[id].todo) else []
  {
    hide Round, Slice, TurnTasks, OriginsDone, EventsOf;
    RoundExact(s, env);
    EventsOfBoth(s.trace, TurnEvents(s), id);
    EventsOfRound(s.store, 0, s.coNum, id);
  }

  lemma NewInTurn(s: State, env: Env, i: nat)
    requires StoreOk(s) && i < |s.pending + TurnTasks(s, env)|
    ensures var id, t := s.coNum + i, Round(s, env);
            id < t.coNum && id in t.store && t.store[id] == Coroutine(READY, (s.pending + TurnTasks(s, env))[i])
  {
    hide Round, TurnTasks, OriginsDone, TurnEvents, StoreOk;
    RoundExact(s, env);
  }

  /** The coroutines that a turn creates do nothing in it, and their first slice in the
      next. */
  lemma NewRunNext(s: State, env: Env, next: Env, i: nat)
    requires Inv(s) && i < |s.pending + TurnTasks(s, env)|
    ensures var id, task := s.coNum + i, (s.pending + TurnTasks(s, env))[i];
            && EventsOf(Round(s, env).trace, id) == []
            && EventsOf(Round(Round(s, env), next).trace, id) == Slice(task)
  {
    hide Round, TurnTasks, Slice;
    var id, t := s.coNum + i, Round(s, env);
    assert ScriptOk(s.trace, s.store, s.origin, id);
    RoundKeeps(s, env);
    TurnOfOne(s, env, id);
    NewInTurn(s, env, i);
    TurnOfOne(t, next, id);
  }

  // ----- which coroutine counts as current after a turn -----

  /** m_curCo after the turn of some coroutines: what it was if there are none, and else
      the id of the last one if that has yielded, and -1 if that has ended. */
  lemma {:induction false} CurIs(store: map<nat, Coroutine>, from: nat, n: nat, cur: int)
    ensures (forall id | from <= id < n :: id !in store) ==> CurAfter(store, from, n, cur) == cur
    ensures forall m: nat | from <= m < n && m in store && (forall id | m < id < n :: id !in store) ::
              CurAfter(store, from, n, cur) == if Survives(store[m]) then m else -1
    decreases n - from
  {
    hide Survives;
    if from < n {
      CurIs(store, from + 1, n, if from !in store then cur else if Survives(store[from]) then from else -1);
    }
  }

  /** Coroutine m is the last one that start visits in a turn. */
  ghost predicate Last(s: State, m: nat) {
    m in s.store && forall id | id in s.store :: id <= m
  }

  /** After a turn, create_coroutine on the scheduler's thread stores its task at once
      exactly if the last coroutine of the turn has ended, or there was none and m_curCo
      was -1; otherwise it queues the task, although no coroutine is running. */
  lemma StoredAtOnceIff(s: State, env: Env, task: Task)
    requires StoreOk(s)
    ensures var t := Round(s, env);
            && (Create(t, true, task) == Store(t, task) <==> t.curCo == -1)
            && (t.curCo == -1 <==>
                  (s.store == map[] && s.curCo == -1) || exists m :: Last(s, m) && !Survives(s.store[m]))
  {
    hide Round, Survives, RoundDone, OriginsDone, Last, CurAfter;
    TurnLeavesCur(s, env);
    LastDecides(s);
  }

  lemma TurnLeavesCur(s: State, env: Env)
    requires StoreOk(s)
    ensures Round(s, env).curCo == CurAfter(s.store, 0, s.coNum, s.curCo)
  {
    hide Round, TurnTasks, TurnEvents, OriginsDone;
    RoundExact(s, env);
  }

  lemma LastDecides(s: State)
    requires StoreOk(s)
    ensures CurAfter(s.store, 0, s.coNum, s.curCo) == -1 <==>
              (s.store == map[] && s.curCo == -1) || exists m :: Last(s, m) && !Survives(s.store[m])
  {
    hide Survives, CurAfter;
    CurIs(s.store, 0, s.coNum, s.curCo);
    if s.store != map[] {
      var id :| id in s.store;
      LastExists(s, id, s.coNum);
    }
  }

  lemma LastExists(s: State, id: nat, n: nat)
    requires id in s.store && forall i | i in s.store :: i < n
    ensures exists m :: Last(s, m)
  {
    if n - 1 in s.store {
      assert Last(s, n - 1);
    } else {
      LastExists(s, id, n - 1);
    }
  }

  /** It happens: a coroutine has yielded, and a task handed in then is queued. */
  lemma QueuedOutside()
    ensures var s := After(INITIAL, [Submit(true, Do(Yield, End)), Turn(SILENCE), Submit(true, End)]);
            s.pending == [End] && s.curCo == 0 && s.coNum == 1
  {
    hide Round, OriginsDone;
    var s := Store(INITIAL, Do(Yield, End));
    var t := Round(s, SILENCE);
    RoundExact(s, SILENCE);
    assert TurnEvents(s) == [Event(0, Yield)] by {
      assert Tag(0, [Yield]) == [Event(0, Yield)];
      assert RoundTrace(s.store, 1, 1) == [];
    }
    HandedOne(0, Event(0, Yield), SILENCE.outside);
    assert t.pending == [] && t.coNum == 1;
    assert CurAfter(s.store, 1, 1, 0) == 0;
    var acts := [Submit(true, Do(Yield, End)), Turn(SILENCE), Submit(true, End)];
    assert After(INITIAL, acts) == After(s, acts[1..]);
    assert acts[1..][1..] == [Submit(true, End)];
    assert After(t, [Submit(true, End)]) == Create(t, true, End) by {
      assert [Submit(true, End)][1..] == [];
    }
  }

  lemma RoundKeepsIds(s: State, env: Env, id: nat)
    requires ShapeOk(s) && id < s.coNum
    ensures var t := Round(s, env);
            && id < t.coNum && id in t.origin && t.origin[id] == s.origin[id]
            && (id !in s.store ==> id !in t.store)
  {
    hide Round;
    RoundExact(s, env);
  }

  /** An id is never used again: it stands for the same task for ever, and once its
      coroutine is erased no other is stored under it. */
  lemma {:induction false} IdsNotReused(s: State, acts: seq<Act>, id: nat)
    requires Inv(s) && id < s.coNum
    ensures var t := After(s, acts);
            && id < t.coNum && id in t.origin && t.origin[id] == s.origin[id]
            && (id !in s.store ==> id !in t.store && id in t.finished)
    decreases |acts|
  {
    if acts != [] {
      ActKeeps(s, acts[0]);
      if acts[0].Turn? {
        RoundKeepsIds(s, acts[0].env, id);
      }
      IdsNotReused(Perform(s, acts[0]), acts[1..], id);
    }
  }

  // ----- finite tasks are all run to their end -----

  /** Nobody hands in tasks and nobody calls quit from outside. */
  const SILENCE: Env := Env(_ => [], [], false)

  /** The work in a task: its operations, and the work in the tasks it spawns. */
  function Cost(t: Task): nat {
    match t
    case End => 0
    case Do(op, rest) => 1 + (match op case Spawn(task) => Cost(task) + 2 case _ => 0) + Cost(rest)
  }

  function PendingCost(tasks: seq<Task>): nat {
    if tasks == [] then 0 else Cost(tasks[0]) + 2 + PendingCost(tasks[1..])
  }

  function StoreCost(store: map<nat, Coroutine>, from: nat, n: nat): nat
    decreases n - from
  {
    if from >= n then 0
    else (if from in store then Cost(store[from].todo) + 1 else 0) + StoreCost(store, from + 1, n)
  }

  function WorkLeft(s: State): nat {
    StoreCost(s.store, 0, s.coNum) + PendingCost(s.pending)
  }

  lemma {:induction false} PendingCostBoth(a: seq<Task>, b: seq<Task>)
    ensures PendingCost(a + b) == PendingCost(a) + PendingCost(b)
    decreases |a|
  {
    if a == [] {
      assert a + b == b;
    } else {
      assert (a + b)[1..] == a[1..] + b;
      PendingCostBoth(a[1..], b);
    }
  }

  lemma {:induction false} CostOfSlice(t: Task)
    ensures Cost(t) == |Slice(t)| + PendingCost(Spawned(Slice(t))) + Cost(AfterSlice(t))
  {
    match t
    case End =>
    case Do(op, rest) =>
      if !op.Yield? {
        CostOfSlice(rest);
        assert Slice(t)[1..] == Slice(rest);
        if op.Spawn? {
          assert ([op.task] + Spawned(Slice(rest)))[1..] == Spawned(Slice(rest));
        } else {
          assert [] + Spawned(Slice(rest)) == Spawned(Slice(rest));
        }
      }
  }

  /** In silence, just the tasks arrive that are spawned. */
  lemma {:induction false} SilentHanded(at: nat, id: nat, ops: seq<Op>)
    ensures Handed(at, Tag(id, ops), SILENCE.outside) == Spawned(ops)
    decreases |ops|
  {
    if ops != [] {
      SilentHanded(at + 1, id, ops[1..]);
      TagCons(id, ops[0], ops[1..]);
      assert [ops[0]] + ops[1..] == ops;
    }
  }

  /** A visit does some work. */
  lemma VisitWorks(s: State, id: nat)
    requires id in s.store && Runnable(s.store[id])
    ensures var t := Visit(s, id, SILENCE.outside);
            PendingCost(t.pending) + (if id in t.store then Cost(t.store[id].todo) + 1 else 0)
            < PendingCost(s.pending) + Cost(s.store[id].todo) + 1
  {
    var todo := s.store[id].todo;
    Visited(s, id, SILENCE.outside);
    SilentHanded(|s.trace|, id, Slice(todo));
    CostOfSlice(todo);
    SliceSplits(todo);
    PendingCostBoth(s.pending, Spawned(Slice(todo)));
  }

  /** The work in the part of a store below from, and from there on. */
  lemma {:induction false} StoreCostSplit(store: map<nat, Coroutine>, from: nat, mid: nat, n: nat)
    requires from <= mid <= n
    ensures StoreCost(store, from, n) == StoreCost(store, from, mid) + StoreCost(store, mid, n)
    decreases mid - from
  {
    if from < mid {
      StoreCostSplit(store, from + 1, mid, n);
    }
  }

  lemma {:induction false} SameStoreCostBelow(a: map<nat, Coroutine>, b: map<nat, Coroutine>, from: nat, n: nat)
    requires forall id | from <= id < n :: (id in a <==> id in b) && (id in a ==> a[id] == b[id])
    ensures StoreCost(a, from, n) == StoreCost(b, from, n)
    decreases n - from
  {
    if from < n {
      SameStoreCostBelow(a, b, from + 1, n);
    }
  }

  lemma VisitLessens(s: State, id: nat)
    requires StoreOk(s) && id in s.store
    ensures WorkLeft(Visit(s, id, SILENCE.outside)) < WorkLeft(s)
  {
    Visited(s, id, SILENCE.outside);
    VisitWorks(s, id);
    var t := Visit(s, id, SILENCE.outside);
    StoreCostSplit(s.store, 0, id, s.coNum);
    StoreCostSplit(t.store, 0, id, s.coNum);
    SameStoreCostBelow(s.store, t.store, 0, id);
    SameStoreCostBelow(s.store, t.store, id + 1, s.coNum);
  }

  lemma {:induction false} VisitsLessen(s: State, from: nat)
    requires StoreOk(s)
    ensures var t := VisitsFrom(s, from, SILENCE.outside);
            && WorkLeft(t) <= WorkLeft(s)
            && ((exists id :: id in s.store && id >= from) ==> WorkLeft(t) < WorkLeft(s))
    decreases s.coNum - from
  {
    if from < s.coNum {
      if from in s.store {
        Visited(s, from, SILENCE.outside);
        VisitLessens(s, from);
        VisitsLessen(Visit(s, from, SILENCE.outside), from + 1);
      } else {
        VisitsLessen(s, from + 1);
      }
    }
  }

  lemma StoreCosts(s: State, task: Task)
    requires forall id | id in s.store :: id < s.coNum
    ensures StoreCost(Store(s, task).store, 0, s.coNum + 1) == StoreCost(s.store, 0, s.coNum) + Cost(task) + 1
  {
    var t := Store(s, task);
    StoreCostSplit(t.store, 0, s.coNum, s.coNum + 1);
    SameStoreCostBelow(s.store, t.store, 0, s.coNum);
  }

  lemma {:induction false} StoreAllCosts(s: State, tasks: seq<Task>)
    requires forall id | id in s.store :: id < s.coNum
    ensures var t := StoreAll(s, tasks);
            StoreCost(t.store, 0, t.coNum) + |tasks| == StoreCost(s.store, 0, s.coNum) + PendingCost(tasks)
    decreases |tasks|
  {
    if tasks != [] {
      StoreCosts(s, tasks[0]);
      StoreAllCosts(Store(s, tasks[0]), tasks[1..]);
    }
  }

  /** A turn of start's loop in silence does some work unless there is none. */
  lemma RoundLessens(s: State)
    requires StoreOk(s)
    ensures WorkLeft(Round(s, SILENCE)) < WorkLeft(s) || (s.store == map[] && s.pending == [])
  {
    VisitsLessen(s, 0);
    Visits(s, 0, SILENCE.outside);
    var t := VisitsFrom(s, 0, SILENCE.outside);
    var u := Post(t.(quit := t.quit || false), []);
    assert u.pending == t.pending;
    StoreAllCosts(u.(pending := []), u.pending);
    RoundExact(s, SILENCE);
    if s.store != map[] {
      var id :| id in s.store;
      assert id in s.store && id >= 0;
    } else if s.pending != [] {
      assert s.pending == t.pending[..|s.pending|];
    }
  }

  lemma {:induction false} NoWorkLeft(store: map<nat, Coroutine>, from: nat, n: nat)
    requires StoreCost(store, from, n) == 0
    ensures forall id | from <= id < n :: id !in store
    decreases n - from
  {
    if from < n {
      NoWorkLeft(store, from + 1, n);
    }
  }

  ghost predicate AllSilent(envs: seq<Env>) {
    forall i | 0 <= i < |envs| :: envs[i] == SILENCE
  }

  /** However many coroutines there are and whatever they spawn, as long as the loop goes
      on and nobody hands in more, all of them run to their end: after at most as many
      turns as there is work, nothing is stored and nothing pending. */
  lemma {:induction false} AllTasksEnd(s: State, envs: seq<Env>)
    requires StoreOk(s) && AllSilent(envs) && |envs| >= WorkLeft(s)
    ensures Rounds(s, envs).store == map[] && Rounds(s, envs).pending == []
    decreases |envs|
  {
    if WorkLeft(s) == 0 {
      NoWorkLeft(s.store, 0, s.coNum);
      assert s.store == map[];
      assert s.pending == [];
    }
    if envs != [] {
      RoundLessens(s);
      RoundExact(s, SILENCE);
      assert envs[0] == SILENCE;
      if s.store == map[] && s.pending == [] {
        EmptyRound(s);
        EmptyWork(Round(s, SILENCE));
      }
      AllTasksEnd(Round(s, SILENCE), envs[1..]);
    }
  }

  lemma EmptyRound(s: State)
    requires s.store == map[] && s.pending == []
    ensures Round(s, SILENCE).store == map[] && Round(s, SILENCE).pending == []
  {
    VisitsOfNone(s, 0);
  }

  lemma {:induction false} VisitsOfNone(s: State, from: nat)
    requires s.store == map[]
    ensures VisitsFrom(s, from, SILENCE.outside) == s
    decreases s.coNum - from
  {
    if from < s.coNum {
      VisitsOfNone(s, from + 1);
    }
  }

  lemma EmptyWork(s: State)
    requires s.store == map[] && s.pending == []
    ensures WorkLeft(s) == 0
  {
    EmptyCost(s.store, 0, s.coNum);
  }

  lemma {:induction false} EmptyCost(store: map<nat, Coroutine>, from: nat, n: nat)
    requires store == map[]
    ensures StoreCost(store, from, n) == 0
    decreases n - from
  {
    if from < n {
      EmptyCost(store, from + 1, n);
    }
  }

  lemma {:induction false} RoundsKeep(s: State, envs: seq<Env>)
    requires Inv(s)
    ensures Inv(Rounds(s, envs))
    decreases |envs|
  {
    if envs != [] {
      RoundKeeps(s, envs[0]);
      RoundsKeep(Round(s, envs[0]), envs[1..]);
    }
  }

  /** Every coroutine has done its whole task. */
  ghost predicate AllDone(s: State) {
    forall id: nat | id < s.coNum :: id in s.finished && id in s.origin && EventsOf(s.trace, id) == Ops(s.origin[id])
  }

  lemma NothingLeft(s: State)
    requires Inv(s) && s.store == map[]
    ensures AllDone(s)
  {
    Accounted(s);
  }

  /** Some turns, as acts. */
  function Turns(envs: seq<Env>): seq<Act> {
    seq(|envs|, i requires 0 <= i < |envs| => Turn(envs[i]))
  }

  lemma {:induction false} TurnsAre(s: State, envs: seq<Env>)
    ensures After(s, Turns(envs)) == Rounds(s, envs)
    decreases |envs|
  {
    hide Round;
    if envs != [] {
      assert Turns(envs)[1..] == Turns(envs[1..]);
      TurnsAre(Round(s, envs[0]), envs[1..]);
    }
  }

  lemma {:induction false} AfterBoth(s: State, a: seq<Act>, b: seq<Act>)
    ensures After(s, a + b) == After(After(s, a), b)
    decreases |a|
  {
    hide Perform;
    if a == [] {
      assert a + b == b;
    } else {
      assert (a + b)[1..] == a[1..] + b;
      AfterBoth(Perform(s, a[0]), a[1..], b);
    }
  }

  /** So after any run, and enough silent turns, every task that was ever handed in or
      spawned is that of a coroutine that has done it whole. */
  lemma {:induction false} EverythingRuns(acts: seq<Act>, envs: seq<Env>)
    ensures AllSilent(envs) && |envs| >= WorkLeft(After(INITIAL, acts)) ==>
              var s := After(INITIAL, acts + Turns(envs));
              AllDone(s) && multiset(TasksOf(s.origin, s.coNum)) == AllArriving(INITIAL, acts + Turns(envs))
  {
    hide After, Rounds, AllDone, WorkLeft, Inv, TasksOf, AllArriving;
    Reached(acts);
    AfterBoth(INITIAL, acts, Turns(envs));
    TurnsAre(After(INITIAL, acts), envs);
    if AllSilent(envs) && |envs| >= WorkLeft(After(INITIAL, acts)) {
      EverythingFrom(After(INITIAL, acts), envs);
      EveryTaskAccounted(acts + Turns(envs));
    }
  }

  lemma {:induction false} EverythingFrom(s: State, envs: seq<Env>)
    requires Inv(s) && AllSilent(envs) && |envs| >= WorkLeft(s)
    ensures AllDone(Rounds(s, envs)) && Rounds(s, envs).pending == []
  {
    RoundsKeep(s, envs);
    AllTasksEnd(s, envs);
    NothingLeft(Rounds(s, envs));
  }
}
