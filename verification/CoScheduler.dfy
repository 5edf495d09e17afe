/** The coroutine scheduler as the source has it: an object whose methods update its
    fields, proved to do exactly what the functions of CoModel say. */
module CoSchedulers {
  import opened CoModel
  import opened CoTheorems

  class CoScheduler {
    var coStore: map<nat, Coroutine>
    var coNum: nat
    var curCo: int
    var pendingTasks: seq<Task>
    var quit: bool
    var clock: nat   // how many events there have been: the time other threads go by

    /** The fields above and the history. */
    ghost var model: State

    ghost predicate Matches()
      reads this
    {
      && coStore == model.store && coNum == model.coNum && curCo == model.curCo
      && pendingTasks == model.pending && quit == model.quit
      && clock == |model.trace|
    }

    /** What holds while start takes a turn. */
    ghost predicate InTurn()
      reads this
    {
      Matches() && StoreOk(model)
    }

    /** Every task handed in is accounted for, and every coroutine has done exactly the
        beginning of its task. */
    ghost predicate Valid()
      reads this
    {
      Matches() && Inv(model)
    }

    constructor ()
      ensures Valid() && model == INITIAL
      ensures coStore == map[] && coNum == 0 && curCo == -1 && pendingTasks == [] && !quit
    {
      coStore, coNum, curCo, pendingTasks, quit, clock := map[], 0, -1, [], false, 0;
      model := INITIAL;
    }

    method SetStatus(id: nat, status: Status)
      requires Matches() && id in coStore
      modifies this`coStore, this`model
      ensures Matches()
      ensures model == old(model).(store := old(model.store)[id := old(model.store)[id].(status := status)])
    {
      coStore := coStore[id := coStore[id].(status := status)];
      model := model.(store := coStore);
    }

    /** create_coroutine; tasks are only stored at once on the scheduler's own thread,
        outside coroutines. */
    method CreateCoroutine(onSchedulerThread: bool, task: Task)
      requires Matches()
      modifies this
      ensures Matches() && model == Create(old(model), onSchedulerThread, task)
      ensures if onSchedulerThread && old(curCo) == -1
              then coStore == old(coStore)[coNum - 1 := Coroutine(READY, task)] && pendingTasks == old(pendingTasks)
                   && coNum - 1 == old(coNum)
              else pendingTasks == old(pendingTasks) + [task] && coStore == old(coStore) && coNum == old(coNum)
      ensures old(Valid()) ==> Valid()
    {
      if Inv(model) {
        ActKeeps(model, Submit(onSchedulerThread, task));
      }
      model := Create(model, onSchedulerThread, task);
      if !onSchedulerThread || curCo != -1 {
        pendingTasks := pendingTasks + [task];
      } else {
        coStore := coStore[coNum := Coroutine(READY, task)];
        coNum := coNum + 1;
      }
    }

    /** What other threads hand in, all at once. */
    method Arrive(tasks: seq<Task>)
      requires Matches()
      modifies this
      ensures Matches() && model == Post(old(model), tasks)
    {
      pendingTasks := pendingTasks + tasks;
      model := Post(model, tasks);
    }

    /** swapcontext to coroutine id: its task runs until it yields or ends. */
    method SwapContext(id: nat, outside: nat -> seq<Task>)
      requires Matches() && id in coStore && curCo == id
      modifies this
      ensures Matches() && model == RunSlice(old(model), id, outside)
    {
      ghost var goal := RunSlice(model, id, outside);
      var switched := false;
      while !switched
        invariant Matches() && id in coStore
        invariant !switched ==> curCo == id && RunSlice(model, id, outside) == goal
        invariant switched ==> model == goal
        decreases !switched, if id in coStore then coStore[id].todo else End
      {
        match coStore[id].todo
        case End =>
          curCo := -1;
          coStore := coStore[id := Coroutine(FINISHED, End)];
          model := model.(curCo := -1, store := coStore);
          switched := true;
        case Do(op, rest) =>
          Arrive(outside(clock));
          clock := clock + 1;
          coStore := coStore[id := Coroutine(if op.Yield? then SUSPENDED else RUNNING, rest)];
          model := model.(store := coStore, trace := model.trace + [Event(id, op)]);
          match op
          case Work(_) =>
          case Yield => switched := true;
          case Spawn(task) => CreateCoroutine(true, task);
          case Quit =>
            quit := true;
            model := model.(quit := true);
      }
    }

    /** What both live arms of the switch in start do. */
    method Resume(id: nat, outside: nat -> seq<Task>)
      requires Matches() && id in coStore
      modifies this
      ensures Matches()
      ensures var s := old(model);
              model == RunSlice(s.(curCo := id, store := s.store[id := s.store[id].(status := RUNNING)]), id, outside)
    {
      curCo := id;
      model := model.(curCo := id);
      SetStatus(id, RUNNING);
      SwapContext(id, outside);
    }

    /** One turn of the inner loop of start; the default arm of its switch is dead. */
    method VisitCoroutine(id: nat, outside: nat -> seq<Task>)
      requires InTurn() && id in coStore
      modifies this
      ensures InTurn() && model == Visit(old(model), id, outside) && coNum == old(coNum)
    {
      Visited(model, id, outside);
      ghost var goal := Visit(model, id, outside);
      VisitStore(model, goal, id, outside);
      match coStore[id].status {
        case READY => Resume(id, outside);
        case SUSPENDED => Resume(id, outside);
        case _ => assert false;
      }
      if curCo == -1 && id in coStore && coStore[id].status == FINISHED {
        coStore := coStore - {id};
      }
      model := goal;
    }

    /** The inner loop of start, over the stored coroutines in ascending order of id. */
    method VisitAll(outside: nat -> seq<Task>)
      requires InTurn()
      modifies this
      ensures Matches() && model == VisitsFrom(old(model), 0, outside)
    {
      ghost var goal := VisitsFrom(model, 0, outside);
      for id := 0 to coNum
        invariant InTurn() && coNum == old(coNum) && VisitsFrom(model, id, outside) == goal
      {
        if id in coStore {
          VisitCoroutine(id, outside);
        }
      }
    }

    method HandlePendingTasks()
      requires Matches()
      modifies this
      ensures Matches() && model == HandlePending(old(model))
    {
      var tasks := pendingTasks;
      pendingTasks := [];
      ghost var goal := HandlePending(model);
      model := model.(pending := []);
      for i := 0 to |tasks|
        invariant Matches() && StoreAll(model, tasks[i..]) == goal
      {
        assert tasks[i..][1..] == tasks[i + 1..];
        model := CoModel.Store(model, tasks[i]);
        coStore := coStore[coNum := Coroutine(READY, tasks[i])];
        coNum := coNum + 1;
      }
    }

    /** One turn of the outer loop of start. */
    method TakeTurn(env: Env)
      requires Valid()
      modifies this
      ensures Valid() && model == Round(old(model), env)
    {
      RoundKeeps(model, env);
      VisitAll(env.outside);
      quit := quit || env.quit;
      model := model.(quit := quit);
      Arrive(env.late);
      HandlePendingTasks();
    }

    /** start, watched for at most |envs| turns of its loop: it leaves at the first test
        that finds m_quit set, and not before. */
    method Start(envs: seq<Env>) returns (turns: nat)
      requires Valid()
      modifies this
      ensures Valid() && turns <= |envs|
      ensures model == Rounds(old(model).(quit := false), envs[..turns])
      ensures turns < |envs| ==> quit
      ensures forall i | 0 <= i < turns :: !Rounds(old(model).(quit := false), envs[..i]).quit
    {
      quit := false;
      model := model.(quit := false);
      ghost var start := model;
      turns := 0;
      while !quit && turns < |envs|
        invariant Valid() && turns <= |envs|
        invariant model == Rounds(start, envs[..turns])
        invariant forall i | 0 <= i < turns :: !Rounds(start, envs[..i]).quit
      {
        assert envs[..turns + 1] == envs[..turns] + [envs[turns]];
        RoundsSnoc(start, envs[..turns], envs[turns]);
        TakeTurn(envs[turns]);
        turns := turns + 1;
      }
    }
  }
}
