/** The worker pool behind `network_scan`: one producer, a number of workers, a
    WaitGroup closer and a collector, sharing two bounded channels. The protocol
    is a step relation over every interleaving; it is parametric in the number
    of workers, in the channel capacity and in which addresses accept a dial. */
module ScanPool {

  datatype Job = Job(host: string, port: int)

  datatype Config = Config(workers: nat, capacity: nat, jobs: seq<Job>, accepts: Job -> bool)

  /** A buffered Go channel. */
  datatype Channel = Channel(buffer: seq<Job>, closed: bool)

  datatype Worker =
    | Idle               // at the top of `for j := range jobs`
    | Dialing(job: Job)
    | Sending(job: Job)  // at `results <- ...`
    | Exited

  /** `refused` only records where failed dials went. `panicked` is set by every
      operation on which the Go runtime panics: a send on a closed channel, a
      second close, a WaitGroup counter below zero. */
  datatype State = State(
    todo: seq<Job>, producing: bool, jobs: Channel,
    workers: seq<Worker>, wg: int, waiting: bool,
    results: Channel, found: seq<Job>, collecting: bool,
    refused: multiset<Job>, panicked: bool)

  datatype Action =
    | Produce | CloseJobs
    | Take(w: nat) | Exit(w: nat) | Dial(w: nat) | Send(w: nat)
    | CloseResults
    | Collect | Finish

  function Init(c: Config): State {
    State(c.jobs, true, Channel([], false),
          seq(c.workers, _ => Idle), c.workers, true,
          Channel([], false), [], true,
          multiset{}, false)
  }

  // ---- steps ----

  /** A send can proceed when there is room, and also, fatally, when the channel is closed. */
  predicate CanSend(c: Config, ch: Channel) {
    ch.closed || |ch.buffer| < c.capacity
  }

  predicate Enabled(c: Config, s: State, a: Action) {
    !s.panicked &&
    match a
    case Produce => s.producing && s.todo != [] && CanSend(c, s.jobs)
    case CloseJobs => s.producing && s.todo == []
    case Take(w) => w < |s.workers| && s.workers[w].Idle? && s.jobs.buffer != []
    case Exit(w) => w < |s.workers| && s.workers[w].Idle? && s.jobs.buffer == [] && s.jobs.closed
    case Dial(w) => w < |s.workers| && s.workers[w].Dialing?
    case Send(w) => w < |s.workers| && s.workers[w].Sending? && CanSend(c, s.results)
    case CloseResults => s.waiting && s.wg == 0
    case Collect => s.collecting && s.results.buffer != []
    case Finish => s.collecting && s.results.buffer == [] && s.results.closed
  }

  function Step(c: Config, s: State, a: Action): State
    requires Enabled(c, s, a)
  {
    match a
    case Produce =>
      if s.jobs.closed then s.(panicked := true)
      else s.(todo := s.todo[1..], jobs := s.jobs.(buffer := s.jobs.buffer + [s.todo[0]]))
    case CloseJobs =>
      if s.jobs.closed then s.(panicked := true)
      else s.(producing := false, jobs := s.jobs.(closed := true))
    case Take(w) =>
      s.(workers := s.workers[w := Dialing(s.jobs.buffer[0])],
         jobs := s.jobs.(buffer := s.jobs.buffer[1..]))
    case Exit(w) =>
      s.(workers := s.workers[w := Exited], wg := s.wg - 1, panicked := s.wg <= 0)
    case Dial(w) =>
      var job := s.workers[w].job;
      if c.accepts(job) then s.(workers := s.workers[w := Sending(job)])
      else s.(workers := s.workers[w := Idle], refused := s.refused + multiset{job})
    case Send(w) =>
      if s.results.closed then s.(panicked := true)
      else s.(workers := s.workers[w := Idle],
              results := s.results.(buffer := s.results.buffer + [s.workers[w].job]))
    case CloseResults =>
      if s.results.closed then s.(panicked := true)
      else s.(waiting := false, results := s.results.(closed := true))
    case Collect =>
      s.(results := s.results.(buffer := s.results.buffer[1..]), found := s.found + [s.results.buffer[0]])
    case Finish =>
      s.(collecting := false)
  }

  /** `run` is a run of the pool: every action is enabled where it is taken. */
  ghost predicate IsRun(c: Config, s: State, run: seq<Action>)
    decreases |run|
  {
    run == [] || (Enabled(c, s, run[0]) && IsRun(c, Step(c, s, run[0]), run[1..]))
  }

  ghost function After(c: Config, s: State, run: seq<Action>): State
    requires IsRun(c, s, run)
    decreases |run|
  {
    if run == [] then s else After(c, Step(c, s, run[0]), run[1..])
  }

  ghost predicate Stuck(c: Config, s: State) {
    forall a :: !Enabled(c, s, a)
  }

  // ---- what the workers hold ----

  function Holds(w: Worker): multiset<Job> {
    match w
    case Dialing(job) => multiset{job}
    case Sending(job) => multiset{job}
    case _ => multiset{}
  }

  function Held(ws: seq<Worker>): multiset<Job> {
    if ws == [] then multiset{} else Holds(ws[0]) + Held(ws[1..])
  }

  /** Workers that have not yet run their deferred `wg.Done()`. */
  function Live(ws: seq<Worker>): nat {
    if ws == [] then 0 else (if ws[0].Exited? then 0 else 1) + Live(ws[1..])
  }

  /** What the workers still have to do, in steps. */
  function Work(w: Worker): nat {
    match w
    case Idle => 1
    case Dialing(_) => 4
    case Sending(_) => 3
    case Exited => 0
  }

  function TotalWork(ws: seq<Worker>): nat {
    if ws == [] then 0 else Work(ws[0]) + TotalWork(ws[1..])
  }

  lemma {:induction false} UpdateHeld(ws: seq<Worker>, i: nat, w: Worker, j: Job)
    requires i < |ws|
    ensures Held(ws[i := w])[j] + Holds(ws[i])[j] == Held(ws)[j] + Holds(w)[j]
  {
    var us := ws[i := w];
    if i == 0 {
      assert us[1..] == ws[1..];
    } else {
      UpdateHeld(ws[1..], i - 1, w, j);
      assert us[1..] == ws[1..][i - 1 := w] && ws[1..][i - 1] == ws[i];
    }
  }

  lemma {:induction false} UpdateWorker(ws: seq<Worker>, i: nat, w: Worker)
    requires i < |ws|
    ensures Live(ws[i := w]) == Live(ws) - (if ws[i].Exited? then 0 else 1) + (if w.Exited? then 0 else 1)
    ensures TotalWork(ws[i := w]) == TotalWork(ws) - Work(ws[i]) + Work(w)
    ensures ws[i].Exited? || Live(ws) > 0
  {
    var us := ws[i := w];
    if i == 0 {
      assert us[1..] == ws[1..];
    } else {
      UpdateWorker(ws[1..], i - 1, w);
      assert us[1..] == ws[1..][i - 1 := w] && ws[1..][i - 1] == ws[i];
    }
  }

  lemma {:induction false} FreshWorkers(n: nat)
    ensures Held(seq(n, _ => Idle)) == multiset{}
    ensures Live(seq(n, _ => Idle)) == n
    ensures TotalWork(seq(n, _ => Idle)) == n
  {
    if n > 0 {
      FreshWorkers(n - 1);
      assert seq(n, _ => Idle)[1..] == seq(n - 1, _ => Idle);
    }
  }

  lemma {:induction false} NobodyLive(ws: seq<Worker>)
    ensures Live(ws) == 0 <==> forall i :: 0 <= i < |ws| ==> ws[i].Exited?
    ensures Live(ws) == 0 ==> Held(ws) == multiset{}
  {
    if ws != [] {
      NobodyLive(ws[1..]);
      if Live(ws) == 0 {
        forall i | 0 <= i < |ws| ensures ws[i].Exited? {
          if i > 0 { assert ws[i] == ws[1..][i - 1]; }
        }
      }
      if forall i :: 0 <= i < |ws| ==> ws[i].Exited? {
        forall i | 0 <= i < |ws[1..]| ensures ws[1..][i].Exited? { assert ws[1..][i] == ws[i + 1]; }
      }
    }
  }

  /** The number of steps the pool can still take. */
  function Measure(s: State): nat {
    5 * |s.todo| + 4 * |s.jobs.buffer| + TotalWork(s.workers) + |s.results.buffer|
    + (if s.producing then 1 else 0) + (if s.waiting then 1 else 0) + (if s.collecting then 1 else 0)
  }

  // ---- the invariant ----

  /** How many copies of a job there are, wherever they are: not yet queued, queued, held by
      a worker, refused, queued as a result, or collected. */
  function Located(s: State, j: Job): nat {
    multiset(s.todo)[j] + multiset(s.jobs.buffer)[j] + Held(s.workers)[j]
    + s.refused[j] + multiset(s.results.buffer)[j] + multiset(s.found)[j]
  }

  ghost predicate Conserved(c: Config, s: State) {
    forall j :: Located(s, j) == multiset(c.jobs)[j]
  }

  ghost predicate DialsRecorded(c: Config, s: State) {
    && (forall j :: j in s.refused ==> !c.accepts(j))
    && (forall j :: j in s.results.buffer ==> c.accepts(j))
    && (forall j :: j in s.found ==> c.accepts(j))
    && (forall i :: 0 <= i < |s.workers| && s.workers[i].Sending? ==> c.accepts(s.workers[i].job))
  }

  ghost predicate Shutdown(c: Config, s: State) {
    && |s.workers| == c.workers
    && s.jobs.closed == !s.producing
    && (s.jobs.closed ==> s.todo == [])
    && s.wg == Live(s.workers)
    && (forall i :: 0 <= i < |s.workers| && s.workers[i].Exited? ==> s.jobs.closed && s.jobs.buffer == [])
    && s.results.closed == !s.waiting
    && (s.results.closed ==> s.wg == 0)
    && (!s.collecting ==> s.results.closed && s.results.buffer == [])
  }

  ghost predicate Bounded(c: Config, s: State) {
    |s.jobs.buffer| <= c.capacity && |s.results.buffer| <= c.capacity
  }

  ghost predicate Inv(c: Config, s: State) {
    !s.panicked && Conserved(c, s) && DialsRecorded(c, s) && Shutdown(c, s) && Bounded(c, s)
  }

  lemma InitInv(c: Config)
    ensures Inv(c, Init(c))
  {
    FreshWorkers(c.workers);
  }

  lemma HeadTail(q: seq<Job>)
    requires q != []
    ensures multiset(q) == multiset{q[0]} + multiset(q[1..])
  {
    assert q == [q[0]] + q[1..];
  }

  /** The state in which a worker's own step leaves it. */
  function Moved(c: Config, s: State, a: Action): Worker
    requires Enabled(c, s, a) && (a.Take? || a.Exit? || a.Dial? || a.Send?)
  {
    match a
    case Take(_) => Dialing(s.jobs.buffer[0])
    case Exit(_) => Exited
    case Dial(w) => if c.accepts(s.workers[w].job) then Sending(s.workers[w].job) else Idle
    case Send(w) => if s.results.closed then s.workers[w] else Idle
  }

  lemma ChannelStepLocated(c: Config, s: State, a: Action, j: Job)
    requires Enabled(c, s, a)
    requires a.Produce? || a.CloseJobs? || a.CloseResults? || a.Collect? || a.Finish?
    ensures Located(Step(c, s, a), j) == Located(s, j)
  {
    if a.Produce? { HeadTail(s.todo); }
    if a.Collect? { HeadTail(s.results.buffer); }
  }

  lemma TakeLocated(c: Config, s: State, w: nat, j: Job)
    requires Enabled(c, s, Take(w))
    ensures Located(Step(c, s, Take(w)), j) == Located(s, j)
  {
    HeadTail(s.jobs.buffer);
    UpdateHeld(s.workers, w, Dialing(s.jobs.buffer[0]), j);
  }

  lemma SendLocated(c: Config, s: State, w: nat, j: Job)
    requires Enabled(c, s, Send(w))
    ensures Located(Step(c, s, Send(w)), j) == Located(s, j)
  {
    UpdateHeld(s.workers, w, Idle, j);
  }

  lemma DialLocated(c: Config, s: State, w: nat, j: Job)
    requires Enabled(c, s, Dial(w))
    ensures Located(Step(c, s, Dial(w)), j) == Located(s, j)
  {
    var job := s.workers[w].job;
    UpdateHeld(s.workers, w, if c.accepts(job) then Sending(job) else Idle, j);
  }

  lemma ExitLocated(c: Config, s: State, w: nat, j: Job)
    requires Enabled(c, s, Exit(w))
    ensures Located(Step(c, s, Exit(w)), j) == Located(s, j)
  {
    UpdateHeld(s.workers, w, Exited, j);
  }

  /** No step loses or duplicates a job. */
  lemma StepLocated(c: Config, s: State, a: Action, j: Job)
    requires Enabled(c, s, a)
    ensures Located(Step(c, s, a), j) == Located(s, j)
  {
    match a
    case Take(w) => TakeLocated(c, s, w, j);
    case Send(w) => SendLocated(c, s, w, j);
    case Dial(w) => DialLocated(c, s, w, j);
    case Exit(w) => ExitLocated(c, s, w, j);
    case _ => ChannelStepLocated(c, s, a, j);
  }

  lemma StepConserves(c: Config, s: State, a: Action)
    requires Conserved(c, s) && Enabled(c, s, a)
    ensures Conserved(c, Step(c, s, a))
  {
    forall j ensures Located(Step(c, s, a), j) == multiset(c.jobs)[j] {
      StepLocated(c, s, a, j);
    }
  }

  lemma ChannelStepRecordsDials(c: Config, s: State, a: Action)
    requires DialsRecorded(c, s) && Enabled(c, s, a)
    requires a.Produce? || a.CloseJobs? || a.CloseResults? || a.Collect? || a.Finish?
    ensures DialsRecorded(c, Step(c, s, a))
  {
  }

  lemma TransferStepRecordsDials(c: Config, s: State, a: Action)
    requires DialsRecorded(c, s) && Enabled(c, s, a)
    requires a.Take? || a.Exit?
    ensures DialsRecorded(c, Step(c, s, a))
  {
  }

  lemma DialStepRecordsDials(c: Config, s: State, w: nat)
    requires DialsRecorded(c, s) && Enabled(c, s, Dial(w))
    ensures DialsRecorded(c, Step(c, s, Dial(w)))
  {
    var n := Step(c, s, Dial(w));
    assert forall i :: 0 <= i < |n.workers| && i != w ==> n.workers[i] == s.workers[i];
  }

  lemma SendStepRecordsDials(c: Config, s: State, w: nat)
    requires DialsRecorded(c, s) && Enabled(c, s, Send(w))
    ensures DialsRecorded(c, Step(c, s, Send(w)))
  {
    var n, job := Step(c, s, Send(w)), s.workers[w].job;
    assert c.accepts(job);
    assert forall i :: 0 <= i < |n.workers| && i != w ==> n.workers[i] == s.workers[i];
    assert forall j :: j in s.results.buffer + [job] ==> j in s.results.buffer || j == job;
  }

  lemma WorkerStepRecordsDials(c: Config, s: State, a: Action)
    requires DialsRecorded(c, s) && Enabled(c, s, a)
    requires a.Take? || a.Exit? || a.Dial? || a.Send?
    ensures DialsRecorded(c, Step(c, s, a))
  {
    hide DialsRecorded, Enabled, Step;
    match a
    case Dial(w) => DialStepRecordsDials(c, s, w);
    case Send(w) => SendStepRecordsDials(c, s, w);
    case _ => TransferStepRecordsDials(c, s, a);
  }

  lemma ChannelStepShutdown(c: Config, s: State, a: Action)
    requires Shutdown(c, s) && Bounded(c, s) && Enabled(c, s, a)
    requires a.Produce? || a.CloseJobs? || a.CloseResults? || a.Collect? || a.Finish?
    ensures !Step(c, s, a).panicked
    ensures Shutdown(c, Step(c, s, a)) && Bounded(c, Step(c, s, a))
    ensures Measure(Step(c, s, a)) < Measure(s)
  {
    NobodyLive(s.workers);
  }

  lemma DialStepShutdown(c: Config, s: State, a: Action)
    requires Shutdown(c, s) && Bounded(c, s) && Enabled(c, s, a)
    requires a.Dial?
    ensures !Step(c, s, a).panicked
    ensures Shutdown(c, Step(c, s, a)) && Bounded(c, Step(c, s, a))
    ensures Measure(Step(c, s, a)) < Measure(s)
  {
    UpdateWorker(s.workers, a.w, Moved(c, s, a));
  }

  lemma TransferStepShutdown(c: Config, s: State, a: Action)
    requires Shutdown(c, s) && Bounded(c, s) && Enabled(c, s, a)
    requires a.Take? || a.Send?
    ensures !Step(c, s, a).panicked
    ensures Shutdown(c, Step(c, s, a)) && Bounded(c, Step(c, s, a))
    ensures Measure(Step(c, s, a)) < Measure(s)
  {
    UpdateWorker(s.workers, a.w, Moved(c, s, a));
  }

  lemma ExitStepShutdown(c: Config, s: State, a: Action)
    requires Shutdown(c, s) && Bounded(c, s) && Enabled(c, s, a)
    requires a.Exit?
    ensures !Step(c, s, a).panicked
    ensures Shutdown(c, Step(c, s, a)) && Bounded(c, Step(c, s, a))
    ensures Measure(Step(c, s, a)) < Measure(s)
  {
    UpdateWorker(s.workers, a.w, Exited);
  }

  /** No step leaves the invariant, in particular no step panics; and every step uses up work. */
  lemma StepInv(c: Config, s: State, a: Action)
    requires Inv(c, s) && Enabled(c, s, a)
    ensures Inv(c, Step(c, s, a))
    ensures Measure(Step(c, s, a)) < Measure(s)
  {
    StepConserves(c, s, a);
    if a.Take? || a.Exit? || a.Dial? || a.Send? {
      WorkerStepRecordsDials(c, s, a);
      if a.Dial? { DialStepShutdown(c, s, a); }
      else if a.Exit? { ExitStepShutdown(c, s, a); }
      else { TransferStepShutdown(c, s, a); }
    } else {
      ChannelStepRecordsDials(c, s, a);
      ChannelStepShutdown(c, s, a);
    }
  }

  // ---- progress ----

  function Busy(ws: seq<Worker>): (r: int)
    ensures -1 <= r < |ws|
    ensures r >= 0 ==> ws[r].Dialing? || ws[r].Sending?
    ensures r == -1 ==> forall i :: 0 <= i < |ws| ==> ws[i].Idle? || ws[i].Exited?
  {
    if ws == [] then -1
    else if ws[|ws| - 1].Dialing? || ws[|ws| - 1].Sending? then |ws| - 1
    else Busy(ws[..|ws| - 1])
  }

  function FirstIdle(ws: seq<Worker>): (r: int)
    ensures -1 <= r < |ws|
    ensures r >= 0 ==> ws[r].Idle?
    ensures r == -1 ==> forall i :: 0 <= i < |ws| ==> !ws[i].Idle?
  {
    if ws == [] then -1
    else if ws[|ws| - 1].Idle? then |ws| - 1
    else FirstIdle(ws[..|ws| - 1])
  }

  /** While the collector has not returned, some step is enabled: the pool cannot deadlock. */
  function Progress(c: Config, s: State): (a: Action)
    requires Inv(c, s) && s.collecting
    requires c.workers >= 1 && c.capacity >= 1
    ensures Enabled(c, s, a)
  {
    if s.results.buffer != [] then Collect
    else if Busy(s.workers) >= 0 then
      (if s.workers[Busy(s.workers)].Dialing? then Dial(Busy(s.workers)) else Send(Busy(s.workers)))
    else if s.jobs.buffer != [] then assert s.workers[0].Idle?; Take(0)
    else if s.producing then (if s.todo == [] then CloseJobs else Produce)
    else if FirstIdle(s.workers) >= 0 then Exit(FirstIdle(s.workers))
    else NobodyLive(s.workers); if s.waiting then CloseResults else Finish
  }

  // ---- whole runs ----

  lemma {:induction false} RunInv(c: Config, s: State, run: seq<Action>)
    requires Inv(c, s) && IsRun(c, s, run)
    ensures Inv(c, After(c, s, run))
    ensures |run| + Measure(After(c, s, run)) <= Measure(s)
    decreases |run|
  {
    if run != [] {
      StepInv(c, s, run[0]);
      RunInv(c, Step(c, s, run[0]), run[1..]);
    }
  }

  /** Over every run of the pool, however it is interleaved: nothing panics, no job is
      lost or duplicated, and the run is at most `5 * jobs + workers + 3` steps long. */
  lemma RunSafe(c: Config, run: seq<Action>)
    requires IsRun(c, Init(c), run)
    ensures var s := After(c, Init(c), run); !s.panicked && Conserved(c, s)
    ensures |run| <= 5 * |c.jobs| + c.workers + 3
  {
    InitInv(c);
    FreshWorkers(c.workers);
    RunInv(c, Init(c), run);
  }

  /** In no reachable state is the next operation of any goroutine one on which the Go runtime panics: what
      it sends on or closes is open, and a worker's `wg.Done` finds the counter above zero. */
  lemma NothingPanics(c: Config, run: seq<Action>, a: Action)
    requires IsRun(c, Init(c), run) && Enabled(c, After(c, Init(c), run), a)
    ensures var s := After(c, Init(c), run);
      && (a.Produce? || a.CloseJobs? ==> !s.jobs.closed)
      && (a.Send? || a.CloseResults? ==> !s.results.closed)
      && (a.Exit? ==> s.wg > 0)
  {
    InitInv(c);
    RunInv(c, Init(c), run);
    var s := After(c, Init(c), run);
    NobodyLive(s.workers);
    hide After, Conserved, DialsRecorded;
  }

  function Accepted(c: Config, jobs: seq<Job>): (r: seq<Job>)
    ensures forall j :: multiset(r)[j] == if c.accepts(j) then multiset(jobs)[j] else 0
  {
    if jobs == [] then []
    else
      assert jobs == [jobs[0]] + jobs[1..];
      (if c.accepts(jobs[0]) then [jobs[0]] else []) + Accepted(c, jobs[1..])
  }

  /** Once the collector has returned, both channels are closed and drained, every
      worker has exited, and `found` is exactly the accepting jobs, with multiplicity. */
  lemma CollectedAll(c: Config, s: State)
    requires Inv(c, s) && !s.collecting && c.workers >= 1
    ensures s.jobs == Channel([], true) && s.results == Channel([], true)
    ensures forall i :: 0 <= i < |s.workers| ==> s.workers[i].Exited?
    ensures multiset(s.found) == multiset(Accepted(c, c.jobs))
  {
    NobodyLive(s.workers);
    assert s.workers[0].Exited?;
    forall j ensures multiset(s.found)[j] == multiset(Accepted(c, c.jobs))[j] {
      assert Located(s, j) == multiset(c.jobs)[j];
    }
  }

  /** The collector's return is the one way a run can come to a stop. */
  lemma StuckIffCollected(c: Config, s: State)
    requires Inv(c, s) && c.workers >= 1 && c.capacity >= 1
    ensures Stuck(c, s) <==> !s.collecting
  {
    if s.collecting {
      assert Enabled(c, s, Progress(c, s));
    } else {
      CollectedAll(c, s);
    }
  }

  /** A run that cannot be extended has delivered everything: no interleaving deadlocks half way. */
  lemma MaximalRunComplete(c: Config, run: seq<Action>)
    requires c.workers >= 1 && c.capacity >= 1
    requires IsRun(c, Init(c), run) && Stuck(c, After(c, Init(c), run))
    ensures var s := After(c, Init(c), run);
      && !s.collecting && !s.panicked
      && s.jobs == Channel([], true) && s.results == Channel([], true)
      && multiset(s.found) == multiset(Accepted(c, c.jobs))
  {
    InitInv(c);
    RunInv(c, Init(c), run);
    StuckIffCollected(c, After(c, Init(c), run));
    CollectedAll(c, After(c, Init(c), run));
  }

  /** Every run can be continued to the collector's return. */
  lemma Completable(c: Config, s: State) returns (rest: seq<Action>)
    requires Inv(c, s) && c.workers >= 1 && c.capacity >= 1
    ensures IsRun(c, s, rest) && !After(c, s, rest).collecting
    decreases Measure(s)
  {
    if !s.collecting {
      rest := [];
    } else {
      var a := Progress(c, s);
      StepInv(c, s, a);
      var more := Completable(c, Step(c, s, a));
      rest := [a] + more;
      assert rest[1..] == more;
    }
  }
}
