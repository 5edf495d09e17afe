# A verified model of the tools library

The library is a set of C++ components for event-driven servers: a timer scheduler, a
thread pool, a coroutine scheduler, two pollers and a logger. This project models the
five components that keep state over time, and proves what they promise over all their
runs. `dafny verify dfyconfig.toml` checks all of it.

## What is modelled

**Timers** (`Timestamp`, `TimerQueue`, `TimerModel`, `TimerInvariants`, `TimerSteps`,
`TimerReturns`, `TimerTheorems`, `TimerRequests`, `TimerEarly`, `TimerExact`,
`TimerScheduler`). The scheduler's two ordered sets, the set of cancellations made during
callbacks, the kernel's one-shot timer and the queue of requests are a machine of small
steps. A step is a call made on the loop thread or in a callback, a step of another thread,
the kernel timer going off, or one piece of `handle_event`; callbacks may add and cancel
timers while a batch is in flight, and a freed address may be handed out again at once. A
failing assertion of the source, freeing twice, and reading freed memory all raise a `fault`
flag, which is shown never to be raised. The one read that can touch freed memory, the last
thing `add_timer` does on another thread, is recorded apart, in `late`; C++ promises nothing
after it, and the machine goes on as if it were harmless. `TimerSchedulers.TimerScheduler`
is the source's object: its methods update its fields, and are proved to make exactly the
machine's steps.

**The mailbox** (`Mailbox`). The loop of `start`, the eventfd, the queue of requests and
`m_quit`, with any number of other threads, in every interleaving.

**The thread pool** (`ThreadPool`). Workers, callers and a stopper, with the mutex, the
condition variable (spurious wake-ups included) and the start-up latch, in every
interleaving.

**Coroutines** (`CoModel`, `CoTheorems`, `CoScheduler`). A task is the finite script of
what it does: work, yield, spawn another task, quit. Switching context means running the
script up to its next yield or its end. `CoSchedulers.CoScheduler` is the source's object.

**Pollers** (`Channel`, `Poller`, `PollPoller`, `EPollPoller`, `PollerWants`, `PollerRuns`).
The poll(2) back end with its dense list and back-indices, the epoll(4) back end with the
kernel's interest set and its growing event list, what a run of calls asks for, read off the
calls alone, and the runs in which both back ends behave the same.

**The logger** (`LogBuffer`, `NumberText`, `LogFormat`, `LogOutput`, `LogReads`,
`LogExamples`, `LogPrint`, `LogFile`). The bounded buffer, the hand-written `vprintf` against
a grammar of formats and a meaning of their conversions, a reader that tells every printed
text from its argument, and the file that rolls by size, by number of lines and by day.

## What the code does not do

Some things one might expect are false of the code. The code is kept as it is, with a run
that shows it and the exact condition.

- `add_timer` on another thread reads the timer's sequence after it has posted the timer
  (`tools/timer/TimerScheduler.cpp:149-157`), when the loop thread may have run and freed
  it. `TimerReturns.ReadSafeIff`: the read is safe exactly as long as the timer has not
  been freed. `TimerReturns.ReadsFreedIff`: if nobody cancels the timer, some run reads it
  too late exactly if it does not repeat. `TimerReturns.ReturnsAnothersId`: the id that is
  returned may then be another timer's.
- A cancel that is processed before its timer is inserted has no effect, and the timer
  goes on (`tools/timer/TimerScheduler.cpp:160-176`). `TimerEarly.RunsAnyway` is a run in
  which the callback runs although its timer was cancelled, and
  `TimerEarly.EarlyCancelDoesNothing` says that such a cancel makes no difference to any
  continuation. `TimerTheorems.CancelDoomsIff`: a cancel works exactly if the insertion
  has been processed. `TimerRequests.CancelFindsInserted`: a cancel from another thread
  works exactly if the timer had been posted when the cancel was.
- The kernel timer can be set for a time after the earliest expiration: the wait is never
  shorter than 100 microseconds (`tools/timer/TimerScheduler.cpp:34-45`).
  `TimerTheorems.LateByTheClamp` is such a run, and `TimerTheorems.OnTimeIff` says exactly
  when it is on time, in every run. `TimerTheorems.NoTimerForgotten` bounds the delay from
  the clock reading at which the kernel timer was last set; a timer inserted with an
  earlier expiration sets it anew, so inserting ever earlier timers can put off the
  delivery of one that is due.
- A `quit` before `start` is lost, because `start` clears `m_quit`
  (`tools/timer/TimerScheduler.cpp:96-98`). `Mailbox.QuitLost` gives two such runs, and
  `Mailbox.QuitCountsFromStart` says, for every interleaving, that the loop ends exactly
  if somebody has called `quit` since.
- `yield` does not reset `m_curCo` (`tools/coroutine/CoScheduler.cpp:70-80`), so after a
  turn `create_coroutine` on the scheduler's thread can queue a task although no coroutine
  is running. `CoTheorems.QueuedOutside` is such a run, and `CoTheorems.StoredAtOnceIff`
  says that the task is stored at once exactly if the last coroutine of the turn has
  ended, or there was none and `m_curCo` was -1. For the same reason a `yield` outside any
  coroutine is not always ignored: when `m_curCo` names a coroutine that has yielded, it
  saves the context of the caller over that coroutine's. The model assumes, as the source
  does, that only coroutines yield.
- `stop` sets `m_stop` without the mutex (`tools/threadpool/ThreadPool.cpp:45-51`), so its
  broadcast can come between a worker's test and its wait, and the worker then sleeps.
  `ThreadPools.StopCanStrand` is such a run, and `ThreadPools.StopStrandsIff` says exactly
  when it can happen.
- The epoll(4) back end leaves out some of what is ready while its event list is too
  short (`tools/poller/EPollPoller.cpp:30-50`). `PollerRuns.LeavesOneOut` is such a poll,
  `PollerRuns.PollEPoll` says that a report is complete exactly if what is ready fits, and
  `PollerRuns.EnoughIff` after exactly how many polls it does.

## Model

| member | source | states |
|---|---|---|
| TimerTheorems.IndexesAgree | tools/timer/TimerScheduler.cpp:160-198 | In every run no assertion fails, nothing is freed twice, m_timers holds exactly the (expiration, timer) of the (timer, sequence) in m_activeTimers, and no freed timer is read, but for the last read of add_timer on another thread, which is safe exactly if the timer has not been freed |
| TimerReturns.ReadSafeIff | tools/timer/TimerScheduler.cpp:142-158 | In every run, the thread that posted a timer reads that timer exactly as long as it has not been freed, and the reads that come too late are all recorded |
| TimerReturns.ReadsFreedIff | tools/timer/TimerScheduler.cpp:142-158 | For all expirations and intervals: some run in which nobody cancels the timer reads it after it was freed if and only if it does not repeat |
| TimerReturns.RepeatingNotFreed | tools/timer/TimerScheduler.cpp:142-158 | In every run, a repeating timer that nobody has cancelled is there to be read |
| TimerReturns.ReturnsAnothersId | tools/timer/TimerScheduler.cpp:157 | A run after which add_timer returns the id of another timer, which has been given the same address |
| TimerTheorems.Conservation | tools/timer/TimerScheduler.cpp:142-176 | In every run each timer ever created is freed or in exactly one place: held by its creator, posted, active, or in the batch in flight; created = freed + allocated |
| TimerTheorems.FreedForGood | tools/timer/TimerScheduler.cpp:236-246 | A freed timer stays freed: its sequence number never names memory again, whoever gets its address |
| TimerTheorems.Cancellation | tools/timer/TimerScheduler.cpp:160-176 | In every run: a cancel of an inserted timer leaves its callback exactly one more run if it is ahead in the batch in flight, in that batch, and otherwise none, whatever happens next, and after the batch it is freed; a cancel of any other timer changes nothing |
| TimerTheorems.CancelDoomsIff | tools/timer/TimerScheduler.cpp:160-176 | A cancel stops the timer if and only if the timer's insertion has been processed |
| TimerTheorems.CancelTooEarly | tools/timer/TimerScheduler.cpp:160-176 | A cancel before the insertion leaves the timers, both indexes and the queue as they are |
| TimerEarly.EarlyCancelDoesNothing | tools/timer/TimerScheduler.cpp:160-176 | In every run, a cancel before the insertion makes no difference to what follows, whatever that is: the two runs are the same but for the notes of what was cancelled |
| TimerEarly.RunsAnyway | tools/timer/TimerScheduler.cpp:160-176 | A run in which the id is returned and cancelled before the insertion, and the callback runs |
| TimerEarly.StepSame | tools/timer/TimerScheduler.cpp:142-269 | No step looks at the noted cancels, except reset at the id of the timer it handles |
| TimerTheorems.RemoteCancellation | tools/timer/TimerScheduler.cpp:128-140 | The same for another thread's cancel when it is taken from the queue; the timer then never runs again |
| TimerRequests.CancelFindsInserted | tools/timer/TimerScheduler.cpp:128-158 | In every run, another thread's cancel is handled after exactly those requests posted before it, and then finds its timer inserted or gone if and only if the timer had been posted when the cancel was |
| TimerRequests.ToComeStep | tools/timer/TimerScheduler.cpp:128-158 | No step changes whether the insertion of a timer comes before or after a cancel in the queue |
| TimerTheorems.OthersUntouched | tools/timer/TimerScheduler.cpp:160-176 | A cancel changes nothing about any timer with another id, even one at the same address |
| TimerTheorems.FreedForAReason | tools/timer/TimerScheduler.cpp:236-246 | A timer is only freed if its own id was cancelled, or it is a one-shot timer that has run |
| TimerTheorems.NoTimerForgotten | tools/timer/TimerScheduler.cpp:178-256 | Outside handle_event, with a timer in the queue, the kernel timer has gone off or is set for no later than the earliest expiration, or 100us after the reading it was set at |
| TimerTheorems.OnTimeIffFarEnough | tools/timer/TimerScheduler.cpp:34-57 | Setting the kernel timer always arms it, and meets the expiration if and only if that is at least 100us ahead |
| TimerTheorems.OnTimeIff | tools/timer/TimerScheduler.cpp:34-57 | In every run, with no expiry waiting, the kernel timer is set for no later than the earliest expiration if and only if that is at least 100us after the reading it was set at |
| TimerTheorems.LateByTheClamp | tools/timer/TimerScheduler.cpp:34-38 | A concrete run after which the kernel timer is set for later than the earliest expiration |
| TimerTheorems.CallbacksOnTime | tools/timer/TimerScheduler.cpp:200-246 | In every run no callback is early, a batch runs in order of expiration, first runs are due when asked, repeats are due their interval after the batch before, and one-shot timers run at most once |
| TimerTheorems.RepeatsApart | tools/timer/Timer.cpp:13-20 | Two runs of one repeating timer are at least its interval, in whole microseconds, apart |
| TimerTheorems.DoomedRun | tools/timer/TimerScheduler.cpp:200-246 | From any state on, a cancelled timer's callback runs exactly as often as it is still ahead in the batch in flight |
| TimerSteps.StepKeeps | tools/timer/TimerScheduler.cpp:142-269 | Every step of the loop thread, a callback, another thread or the kernel keeps the whole invariant |
| TimerExact.AddExact | tools/timer/TimerScheduler.cpp:142-198 | In every run: the new timer is at its address with the next sequence, goes into both indexes, and the kernel timer is set for it, exactly, if it comes first, and else left alone |
| TimerExact.BeginExact | tools/timer/TimerScheduler.cpp:200-234 | In every run: exactly the timers with expiration <= now leave both indexes for the batch, in order; those after now stay |
| TimerExact.CallExact | tools/timer/TimerScheduler.cpp:209-211 | In every run the next callback is that of the next entry of the batch, whose timer is still there |
| TimerExact.ResetExact | tools/timer/TimerScheduler.cpp:236-246 | In every run: the first timer of the batch is inserted again for now and its interval if it repeats and was not cancelled, and otherwise freed |
| TimerExact.FinishExact | tools/timer/TimerScheduler.cpp:248-255 | In every run: the kernel timer is set for the later of the earliest expiration and reading + 100us, and left alone if no timer is left |
| TimerExact.DispatchExact | tools/timer/TimerScheduler.cpp:258-269 | In every run the first request is handled: its timer is inserted, or its id cancelled |
| TimerExact.CancelExact | tools/timer/TimerScheduler.cpp:160-176 | In every run, cancelling an active timer takes it, and no other, out of both indexes, frees it, and leaves the kernel timer alone |
| TimerQueue.SentinelSplit | tools/timer/TimerScheduler.cpp:221-225 | The sentinel (now, UINTPTR_MAX) splits the set exactly at expiration <= now |
| TimerQueue.Insert | tools/timer/TimerScheduler.cpp:188-189 | Inserting adds exactly one entry, keeps the order, and says what is first afterwards |
| TimerQueue.Erase | tools/timer/TimerScheduler.cpp:166-169 | Erasing removes exactly one entry and keeps the order |
| TimerInvariants.ArmedFor | tools/timer/TimerScheduler.cpp:34-57 | Seconds and nanoseconds lose nothing, the clamp never yields the disarming value, and the timer is set for the later of the expiration and reading + 100us |
| TimerSchedulers.TimerScheduler.CancelTimer | tools/timer/TimerScheduler.cpp:160-176 | The method makes the machine's cancel step |
| TimerSchedulers.TimerScheduler.Insert | tools/timer/TimerScheduler.cpp:178-198 | The method makes the machine's insert step; the source's assertions hold in it |
| TimerSchedulers.TimerScheduler.AddTimer | tools/timer/TimerScheduler.cpp:142-147 | On the loop thread: the machine's step, a new sequence number, and the timer active |
| TimerSchedulers.TimerScheduler.RemoteNew | tools/timer/TimerScheduler.cpp:143 | On another thread: the timer is created, in no index and in no queue |
| TimerSchedulers.TimerScheduler.RemotePost | tools/timer/TimerScheduler.cpp:148-155 | The insertion is put at the end of the queue, and the sequence is still to be read |
| TimerSchedulers.TimerScheduler.RemoteReturn | tools/timer/TimerScheduler.cpp:157 | The id returned is the timer's own if and only if the timer has not been freed |
| TimerSchedulers.TimerScheduler.GetExpired | tools/timer/TimerScheduler.cpp:217-234 | Takes out of both sets exactly the timers with expiration <= now, in order |
| TimerSchedulers.TimerScheduler.Reset | tools/timer/TimerScheduler.cpp:236-256 | Makes the machine's steps for every entry of the batch; then, if a timer is left, the kernel timer is set for exactly the earliest expiration, or 100us from the reading if that is later |
| TimerSchedulers.TimerScheduler.RunCallback | tools/timer/TimerScheduler.cpp:209-211 | A callback that does any script of calls, while other threads and the kernel act, makes exactly those steps |
| TimerSchedulers.TimerScheduler.HandleEvent | tools/timer/TimerScheduler.cpp:200-215 | With any callbacks, ends in exactly the state of the machine's run of that event, with the kernel timer set for exactly the earliest expiration left, or 100us from the last reading |
| TimerSchedulers.TimerScheduler.HandlePendingFunctor | tools/timer/TimerScheduler.cpp:258-269 | Runs the posted requests, each once and in order |
| Mailbox.NoRequestLost | tools/timer/TimerScheduler.cpp:128-158 | In every interleaving the requests that threads post are run exactly once, in that order; the loop never sleeps on a request or a quit without the eventfd being, or about to be, readable; and its read of the eventfd never blocks |
| Mailbox.PostedArrive | tools/timer/TimerScheduler.cpp:148-155 | In every run, from any state, exactly what the threads post is put into the queue, in order |
| Mailbox.WritesCounted | tools/timer/TimerScheduler.cpp:271-285 | In every run the eventfd counts the writes since it was last read; one that comes after a poll that found it empty is still there for the next |
| Mailbox.TurnDrains | tools/timer/TimerScheduler.cpp:258-277 | One undisturbed turn of the loop runs the whole queue and empties the eventfd |
| Mailbox.QuitCountsFromStart | tools/timer/TimerScheduler.cpp:96-114 | In every interleaving the loop's test of m_quit ends it if and only if somebody has called quit since start cleared it; what was called before does not matter |
| Mailbox.QuitStays | tools/timer/TimerScheduler.cpp:96-114 | In every run without a start, m_quit is set if and only if it was or somebody calls quit |
| Mailbox.QuitLost | tools/timer/TimerScheduler.cpp:96-114 | Two runs in which a quit before start is lost, one with its write to the eventfd after start |
| ThreadPools.NoTaskForgotten | tools/threadpool/ThreadPool.cpp:33-87 | In every interleaving before stop, with spurious wake-ups: nobody waits, or awake workers and callers yet to signal are at least as many as queued tasks; no worker has left; and when the queue is not empty, some worker is neither blocked nor gone, or some caller is about to signal |
| ThreadPools.WorkerServes | tools/threadpool/ThreadPool.cpp:59-84 | A worker with the mutex free takes the first task, runs it, and is back at the lock |
| ThreadPools.WorkerWaits | tools/threadpool/ThreadPool.cpp:63-70 | With nothing to do it counts the latch down, unless that is zero, and waits without the mutex |
| ThreadPools.WorkerLeaves | tools/threadpool/ThreadPool.cpp:72-75 | Once m_stop is set it leaves, whatever is queued, and gives the mutex back |
| ThreadPools.CallerCalls | tools/threadpool/ThreadPool.cpp:33-38 | A call puts exactly its task at the end of the queue and wakes one waiting worker, if there is one |
| ThreadPools.LatchOpens | tools/threadpool/ThreadPool.cpp:64-70 | In every interleaving the start-up latch is at m_threadNum minus the times a worker found nothing to do, or zero; and it is zero when m_threadNum workers wait |
| ThreadPools.OneInside | tools/threadpool/ThreadPool.cpp:33-87 | Two threads in the critical sections are the same thread |
| ThreadPools.TasksInOrder | tools/threadpool/ThreadPool.cpp:33-87 | Popped tasks followed by the queue are the pushed tasks; no pop from an empty queue; m_runningNum counts the running workers; the latch is never negative |
| ThreadPools.TasksStartedOnce | tools/threadpool/ThreadPool.cpp:59-87 | In every interleaving each popped task has been started, once, or exactly one worker holds it and is about to start it; a worker runs the task it popped, and no two run the same one |
| ThreadPools.AtMostOneAfterStop | tools/threadpool/ThreadPool.cpp:45-79 | At most one task is popped after m_stop is set |
| ThreadPools.StopStrandsIff | tools/threadpool/ThreadPool.cpp:45-70 | After the broadcast some continuation leaves a worker asleep if and only if, at the broadcast, some worker had found nothing to do and was not waiting yet |
| ThreadPools.StopCanStrand | tools/threadpool/ThreadPool.cpp:45-70 | A run in which that is so |
| ThreadPools.ConservedStep | tools/threadpool/ThreadPool.cpp:33-87 | Every single step keeps work conservation |
| CoTheorems.ExactSchedule | tools/coroutine/CoScheduler.cpp:21-64 | While start keeps taking turns, a coroutine with k yields does exactly one slice in each of the next k + 1 turns, nothing after, and is erased in the last |
| CoTheorems.RoundExact | tools/coroutine/CoScheduler.cpp:21-64 | One turn runs one slice of each stored coroutine in ascending order of id and erases the ended; exactly the tasks pending before, posted by other threads and spawned in the turn become coroutines, in this order, with the next ids, and none of them runs in it |
| CoTheorems.NewRunNext | tools/coroutine/CoScheduler.cpp:21-64 | A coroutine that a turn creates, for a spawned task too, has done nothing after it, and exactly its first slice after the next |
| CoTheorems.EveryTaskAccounted | tools/coroutine/CoScheduler.cpp:82-117 | In every run the tasks handed in and spawned are, one for one, those of the coroutines created and those pending; none stored is running or finished between turns; what a coroutine did is the beginning of its task, or all of it |
| CoTheorems.IdsNotReused | tools/coroutine/CoScheduler.cpp:82-117 | In every run an id stands for one task for ever, and nothing is stored under it again once its coroutine is erased |
| CoTheorems.AllTasksEnd | tools/coroutine/CoScheduler.cpp:21-64 | While start keeps taking turns, any finite family of tasks that spawn tasks drains completely, in at most as many turns as there is work |
| CoTheorems.EverythingRuns | tools/coroutine/CoScheduler.cpp:21-117 | After any run, and enough quiet turns while start keeps taking them, every task ever handed in or spawned is that of a coroutine that has done it whole |
| CoTheorems.Visited | tools/coroutine/CoScheduler.cpp:25-60 | A visit runs the task to its next yield or end, leaves the status that fits, and erases the coroutine exactly if it ended |
| CoModel.SliceRuns | tools/coroutine/CoScheduler.cpp:70-102 | Between two context switches a coroutine does exactly its next slice, and exactly the tasks that it spawns, and that other threads post meanwhile, join the queue, in order |
| CoModel.OpsTell | tools/coroutine/CoScheduler.cpp:94-102 | A task is told by its operations: none is left out, and their order is kept |
| CoSchedulers.CoScheduler.CreateCoroutine | tools/coroutine/CoScheduler.cpp:82-92 | On the scheduler's thread with m_curCo equal to -1 exactly the store grows, by a coroutine with the next id that has not run, and else exactly the queue, at its end; everything handed in stays accounted for |
| CoTheorems.StoredAtOnceIff | tools/coroutine/CoScheduler.cpp:70-92 | After a turn, a task is stored at once on the scheduler's thread if and only if the last coroutine of the turn has ended, or there was none and m_curCo was -1 |
| CoTheorems.QueuedOutside | tools/coroutine/CoScheduler.cpp:70-92 | A run in which a task is queued although no coroutine is running |
| CoTheorems.RoundKeeps | tools/coroutine/CoScheduler.cpp:21-64 | A turn keeps the accounting of all tasks and their scripts; CoScheduler is valid only while that holds |
| CoSchedulers.CoScheduler.VisitCoroutine | tools/coroutine/CoScheduler.cpp:25-60 | The method does what the model's visit does; the default arm of the switch is dead |
| CoSchedulers.CoScheduler.HandlePendingTasks | tools/coroutine/CoScheduler.cpp:104-117 | Every pending task gets the next id, in order |
| CoSchedulers.CoScheduler.Start | tools/coroutine/CoScheduler.cpp:21-64 | Makes the model's turns, and leaves at the first test that finds m_quit set and not before |
| PollPollers.PollPoller.UpdateChannel | tools/poller/PollPoller.cpp:44-73 | What is watched changes for this channel only; every back-index still points at its entry |
| PollPollers.PollPoller.RemoveChannel | tools/poller/PollPoller.cpp:75-97 | Exactly this channel is no longer watched; swap-with-last keeps every other entry and back-index |
| PollPollers.PollPoller.FillActiveChannels | tools/poller/PollPoller.cpp:27-42 | Stopping early still reports every ready entry, in the order of the list |
| PollPollers.PollPoller.Poll | tools/poller/PollPoller.cpp:9-25 | Reports exactly the watched channels that something happened to, each once, in the order of the list, and tells them what; an interrupted poll reports nothing |
| PollPollers.RemoveDense | tools/poller/PollPoller.cpp:81-96 | Moving the last entry into the gap keeps the list dense and its fds distinct |
| PollPollers.RemoveView | tools/poller/PollPoller.cpp:81-96 | It changes what is watched by exactly the entry removed |
| PollPollers.ReadyRest | tools/poller/PollPoller.cpp:30-32 | Once numEvents entries have been seen, no later entry is ready |
| PollPollers.AnswersTold | tools/poller/PollPoller.cpp:30-41 | The ready entries are exactly the watched fds that are ready, and telling them tells all |
| EPollPollers.EPollPoller.UpdateChannel | tools/poller/EPollPoller.cpp:68-89 | What the kernel watches changes for this channel only; the kernel never refuses |
| EPollPollers.EPollPoller.RemoveChannel | tools/poller/EPollPoller.cpp:91-102 | Exactly this channel is no longer watched; the kernel never refuses |
| EPollPollers.EPollPoller.Update | tools/poller/EPollPoller.cpp:104-119 | When the kernel accepts an operation, and what is watched then |
| EPollPollers.EPollPoller.FillActiveChannels | tools/poller/EPollPoller.cpp:52-66 | Reports the channels of all events in order, and tells them; they are all stored |
| EPollPollers.EPollPoller.Poll | tools/poller/EPollPoller.cpp:30-50 | Reports what the kernel chose, tells those channels, and doubles the event list exactly if it was full |
| EPollPollers.AllReported | tools/poller/EPollPoller.cpp:30-66 | If what is ready fits the event list, whatever the kernel chooses is all of it |
| PollerRuns.SomeLeftOut | tools/poller/EPollPoller.cpp:30-66 | If it does not fit, something that is ready is not reported, whatever the kernel chooses |
| PollerRuns.RunPoll | tools/poller/PollPoller.cpp:44-97 | Any run of enabling, disabling and removing leaves the poll(2) list asking for exactly what the channels want, which the calls alone say, bit by bit |
| PollerRuns.RunEPoll | tools/poller/EPollPoller.cpp:68-119 | The same run leaves the epoll(4) interest set asking for exactly that, bit by bit |
| PollerWants.AskedAfter | tools/poller/Channel.h:39-57 | In every run, by bits: a file descriptor is watched if and only if some call on it comes after its last removal, or it was watched and is not removed; a bit is asked for if and only if the last enabling or disabling of it enables it, or there is none and it was set |
| PollerWants.AllAsked | tools/poller/Channel.h:39-57 | The same for all file descriptors and bits at once |
| PollerRuns.RunBoth | tools/poller/EPollPoller.cpp:68-119 | The same calls on both back ends leave both watching the same events for the same fds |
| PollerRuns.PollBoth | tools/poller/EPollPoller.cpp:30-66 | Then, asked when the same has happened, they give the same report if and only if what is ready fits the event list |
| PollerRuns.PollPoll | tools/poller/PollPoller.cpp:9-42 | The poll(2) back end always reports correctly and completely, and tells each watched channel what happened to it and no other anything |
| PollerRuns.PollEPoll | tools/poller/EPollPoller.cpp:30-66 | The epoll(4) back end reports correctly and completely if and only if what is ready fits its event list |
| PollerRuns.PollTells | tools/poller/EPollPoller.cpp:30-66 | It tells exactly the channels of the events what happened, reports them in that order, and doubles the event list if and only if it was full |
| PollerRuns.LeavesOneOut | tools/poller/EPollPoller.cpp:30-66 | A new poller with 17 channels ready does not report them all |
| PollerRuns.SameReports | tools/poller/EPollPoller.cpp:30-66 | Two correct reports of the same readiness name the same fds and the same events |
| PollerRuns.SizeDoubles | tools/poller/EPollPoller.cpp:44-46 | While too short the event list doubles at every poll; it never grows beyond twice what is ready |
| PollerRuns.EnoughIff | tools/poller/EPollPoller.cpp:44-46 | With R channels staying ready, the poll number n (from 0) is complete if and only if size * 2^n >= R, and then so is the next |
| PollerRuns.EnoughExists | tools/poller/EPollPoller.cpp:44-46 | There is such an n, and the least one is the logarithm of R / size, rounded up |
| PollerRuns.PollAgain | tools/poller/EPollPoller.cpp:30-50 | After n polls of the same the report is complete if and only if size * 2^(n-1) is enough |
| Channels.Enabled | tools/poller/Channel.h:39-52 | Enabling sets exactly the bits of the mask |
| Channels.Disabled | tools/poller/Channel.h:44-57 | Disabling clears exactly the bits of the mask |
| LogPrints.LogPrint.Vprintf | tools/log/LogPrint.cpp:24-231 | For every well-formed format and fitting arguments the buffer then holds what it held and the unbounded output, cut off at capacity - 1 |
| LogPrints.LogPrint.PrintCalls | tools/log/LogPrint.cpp:15-22 | So does it after any sequence of calls, as if all had been printed at once |
| LogPrints.LogPrint.PrintfNum | tools/log/LogPrint.cpp:233-269 | Prints the padded digits, cut off; the scratch array is never overrun |
| LogPrints.LogPrint.FillScratch | tools/log/LogPrint.cpp:234-259 | Filling from behind yields the digits, and never goes below index 11 |
| LogPrints.LogPrint.PrintFixed | tools/log/LogPrint.cpp:150-170 | Prints sign, whole part, point and fraction of the rounded number |
| LogPrints.LogPrint.ReadFlags | tools/log/LogPrint.cpp:70-115 | Reads all flags, whatever their number and order, and prints their prefixes |
| LogPrints.ReadWidth | tools/log/LogPrint.cpp:61-66 | Reads a number modulo 256, up to the first character that is no digit |
| LogFormats.ParseText | tools/log/LogPrint.cpp:39-115 | The text of any valid sequence of items parses as that sequence: a format means just one |
| LogFormats.Parse | tools/log/LogPrint.cpp:39-115 | What parses is the text of the items it parses as, and they are valid |
| LogFormats.WellFormed | tools/log/LogPrint.cpp:39-115 | A format is well formed if and only if it is the text of some valid items |
| LogOutputs.SignedReads | tools/log/LogPrint.cpp:219-227 | A printed signed number, of any width and padding, reads back as the number |
| LogOutputs.FixedReads | tools/log/LogPrint.cpp:150-170 | The printed %f reads as floor(\|x\| * 10^w + 1/2), with exactly w digits after the point (one if w is 0) |
| LogReads.ConversionPrints | tools/log/LogPrint.cpp:117-227 | The whole output of a conversion is its prefixes and then a text that belongs to the argument: %b is true exactly for a nonzero one, %c the one byte congruent to it, %d and %l read as it with digits of the case asked for, %f as it rounded, %p is 16 upper-case digits that read as it, %s is the text |
| LogReads.FlagsMean | tools/log/LogPrint.cpp:70-115 | A number is signed exactly without u, x and X; the last x or X says which digits it has; the last .n, modulo 256, how many come after the point, else 6; and each x and X prints its prefix, in order |
| LogReads.OthersPrint | tools/log/LogPrint.cpp:203-216 | A character prints itself, and so does a conversion character that takes no argument, after the prefixes |
| LogReads.OutputBoth | tools/log/LogPrint.cpp:24-231 | A format that is two put together prints the text of the first, then that of the second for the arguments left |
| LogReads.PaddedPrints | tools/log/LogPrint.cpp:233-269 | A padded number is padding, only up to the width, and then the digits of the number, of the right case and without a superfluous zero |
| LogReads.SignedPrints | tools/log/LogPrint.cpp:219-227 | A minus sign exactly for a negative number, then its padded digits |
| LogReads.FixedPrints | tools/log/LogPrint.cpp:150-170 | Sign, padded whole part, point, and exactly w digits, which together are the number rounded to w digits |
| LogReads.DigitsCase | tools/log/LogPrint.cpp:239-259 | All digits are of the case asked for |
| LogReads.DigitValues | tools/log/LogPrint.cpp:239-259 | What the sixteen characters of each case are worth |
| LogExamples.Numbers | examples/log/LogPrint_test.cpp:15-73 | %d and %l print 1 and -1 as the test program expects |
| LogExamples.UnsignedNumbers | examples/log/LogPrint_test.cpp:44-50 | %ud prints 1 |
| LogExamples.LowerNumbers | examples/log/LogPrint_test.cpp:75-81 | %xd prints 31 as 0x1f |
| LogExamples.UpperNumbers | examples/log/LogPrint_test.cpp:83-89 | %Xd prints 31 as 0X1F |
| LogExamples.Booleans | examples/log/LogPrint_test.cpp:91-98 | %b prints false and true |
| LogExamples.Others | tools/log/LogPrint.cpp:117-231 | %c prints the byte, %s the text, and %% a percent sign |
| LogExamples.Widths | tools/log/LogPrint.cpp:61-66 | %5d and %05d pad 42 with blanks and with zeros |
| LogExamples.Fractions | tools/log/LogPrint.cpp:150-170 | %.1f prints 2.5 and -2.5 as they are |
| NumberTexts.PaddedReads | tools/log/LogPrint.cpp:233-269 | A printed number reads, without its padding, as the number; its length is the larger of the width and its digits |
| NumberTexts.DigitsRead | tools/log/LogPrint.cpp:239-259 | The digits read as the number, in decimal and both hexadecimal cases |
| NumberTexts.DigitsClean | tools/log/LogPrint.cpp:239-259 | The digits have no superfluous zero in front |
| NumberTexts.DigitsLength | tools/log/LogPrint.cpp:239-259 | There are at most n digits if and only if the number is below base^n |
| NumberTexts.DigitsFit | tools/log/LogPrint.cpp:234-259 | A 64-bit number has at most 20 decimal or 16 hexadecimal digits |
| NumberTexts.FixedRounds | tools/log/LogPrint.cpp:157-162 | whole * 10^w + frac = floor(x * 10^w + 1/2), with 0 <= frac < 10^w after the carry |
| NumberTexts.FixedClose | tools/log/LogPrint.cpp:157-162 | What is printed is within half a unit of its last digit |
| LogBuffers.LogBuffer.Append | tools/log/LogBuffer.cpp:17-21 | Appends what fits below the reserved last byte, which stays zero |
| LogBuffers.LogBuffer.AppendChar | tools/log/LogBuffer.cpp:23-28 | Appends the character if it fits |
| LogBuffers.CutCut | tools/log/LogBuffer.cpp:17-21 | Cutting off at every step is cutting off at the end |
| LogFiles.LogFile.Append | tools/log/LogFile.cpp:22-59 | The line is added to what the files hold; the file is closed if and only if the line made it longer than rollSize, or a check is due and another day has begun; it is flushed if and only if a check is due or it is closed; and all that the invariant promises still holds |
| LogFiles.AppendExact | tools/log/LogFile.cpp:27-59 | The exact condition for closing and for flushing, and what each leaves behind in every field |
| LogFiles.AppendKeeps | tools/log/LogFile.cpp:27-59 | Every append keeps the bounds on size, on unflushed lines, on late lines and on closed files; a clock reading is within flushInterval of the last flush |
| LogFiles.LoggingConserves | tools/log/LogFile.cpp:27-75 | In every run the files, in order, hold exactly the lines appended, in order |
| LogFiles.LoggingBounds | tools/log/LogFile.cpp:27-75 | In every run each closed file was closed because it was longer than rollSize or its last line is of another day, is within rollSize without that line, and has at most checkEveryN lines of a later day; the open one is within rollSize, and fewer than checkEveryN lines of it are unflushed |
| LogFiles.LogFile.RollFile | tools/log/LogFile.cpp:66-75 | Nothing written is lost: the old file is closed with all its lines on disk, the new one is empty, and if the old one was within bounds all the bounds hold again |
| LogFiles.LogFile.Flush | tools/log/LogFile.cpp:61-64 | Puts on disk all that is written, changes nothing else, and keeps the bounds |
| LogFiles.ClockMonotone | tools/base/Timestamp.h:34-43 | Seconds and days do not go back when the clock does not |
| Timestamps.MicrosWhole | tools/base/Timestamp.h:52-55 | An interval is its length in microseconds, cut to whole ones towards zero |
| Timestamps.SecondsWhole | tools/base/Timestamp.h:34-43 | Seconds and days are whole ones, cut |

## Left out

- System calls (epoll, poll, timerfd, eventfd, pthread, ucontext, file streams): each is a small abstract step or a parameter; their failures that the source treats as fatal do not occur, and fatal errors are not modelled.
- The clock is a parameter of every step that reads it; readings are not assumed to advance, except that handle_event reads a time that is not negative, and that the log file's clock does not go back.
- Integer overflow of time stamps, sequence numbers, coroutine ids and the eventfd counter is not modelled; these are unbounded.
- Timer and Coroutine objects are values, kept by address in a heap map or by id in the store; what is updated in place in them is updated in the map, and their freeing is explicit.
- TimerScheduler::start and CoScheduler::start run for ever unless quit is called: the first is a step of the mailbox machine, the second is watched for any finite number of turns.
- run_at, run_after and run_every only choose the arguments of add_timer and are not separate members.
- The destructors of TimerScheduler and ThreadPool, the joining of the pool's threads, whether stop ends, and when ThreadPool::start returns.
- CountDownLatch on its own: only the reading and counting down that the pool's workers do is part of the pool's machine.
- CoSchedulerThread and TimerSchedulerThread, which only start a scheduler on a new thread.
- A yield outside any coroutine.
- Channel::handle_event and the callbacks of a channel; a channel belongs to one poller, and one channel stands for each file descriptor in a run.
- poll(2) reporting something negative, which the source skips: what the kernel reports is positive.
- Formats in which a % does not reach a conversion character, arguments that do not fit their conversions, the smallest 64-bit number for a signed %l, %f with more than 19 digits after the point or a number beyond 64 bits: undefined in C++.
- Floating point: %f is over exact real numbers.
- Strings are sequences of bytes without the terminating zero of C; the argument of %s is all of its text.
- In printf_num the three loops, for decimal and the two hexadecimal cases, are one loop over the base; masking with 0xf and shifting by 4 are written as the remainder and quotient by 16.
- printf_buffer, the cookies of the buffer, and log.cpp with its levels and macros.
- The names of log files: two files opened in the same second share a name, so the claims are about each file as it was opened; changing the parameters of a log file while it is used.
- Formatting of time stamps, ConfigFile, Singleton, ProcessInfo, CurrentThread, Exception and the sockets: plumbing without state worth proving.
