/** The two locks of a driver runtime. `mu` guards the Lua VM; `udMu`, a readers-writer
    lock, guards the context data that host functions use while a call holds `mu`. Any
    number of goroutines (poll loop, command callbacks, watchdog callbacks) make any
    number of calls, interleaved lock operation by lock operation. */
module RuntimeLocks {
  import opened Common

  // ---- what the runtime's methods do to the locks ----

  datatype Op =
    | LockMu | UnlockMu
    | RLockData | RUnlockData
    | LockData | UnlockData
    | UseVM     // touches the Lua state
    | ReadData  // reads the context data
    | WriteData // changes the context data

  /** What a host function does when the running driver calls it. */
  datatype HostCall = Plain | ReadsData | WritesData

  /** A method call on the runtime. `BuildTable` is the pattern Lock, State, ..., Unlock. */
  datatype Call =
    | Init | Close | RegisterHostFunc | BuildTable
    | DoString(host: seq<HostCall>)
    | CallGlobal(host: seq<HostCall>)
    | GetUserData | SetUserData

  function DataCode(write: bool): seq<Op> {
    if write then [LockData, WriteData, UnlockData] else [RLockData, ReadData, RUnlockData]
  }

  function HostCode(h: HostCall): seq<Op> {
    match h
    case Plain => [UseVM]
    case ReadsData => DataCode(false) + [UseVM]
    case WritesData => DataCode(true) + [UseVM]
  }

  function HostCodes(hs: seq<HostCall>): seq<Op> {
    if hs == [] then [] else HostCode(hs[0]) + HostCodes(hs[1..])
  }

  function Code(c: Call): seq<Op> {
    match c
    case GetUserData => DataCode(false)
    case SetUserData => DataCode(true)
    case DoString(host) => [LockMu, UseVM] + HostCodes(host) + [UnlockMu]
    case CallGlobal(host) => [LockMu, UseVM] + HostCodes(host) + [UnlockMu]
    case _ => [LockMu, UseVM, UnlockMu]
  }

  function Program(calls: seq<Call>): seq<Op> {
    if calls == [] then [] else Code(calls[0]) + Program(calls[1..])
  }

  function HostCallsOf(c: Call): seq<HostCall> {
    if c.DoString? || c.CallGlobal? then c.host else []
  }

  /** What each call does, whatever its locks: it changes the data exactly if it sets user data or its
      driver code calls a host function that does, reads them exactly if it gets user data or its driver
      code calls one that does, and touches the VM unless it only gets or sets user data. */
  lemma CallDoes(c: Call)
    ensures WriteData in Code(c) <==> c.SetUserData? || WritesData in HostCallsOf(c)
    ensures ReadData in Code(c) <==> c.GetUserData? || ReadsData in HostCallsOf(c)
    ensures UseVM in Code(c) <==> !c.GetUserData? && !c.SetUserData?
  {
    HostCodesDo(HostCallsOf(c));
  }

  lemma {:induction false} HostCodesDo(hs: seq<HostCall>)
    ensures WriteData in HostCodes(hs) <==> WritesData in hs
    ensures ReadData in HostCodes(hs) <==> ReadsData in hs
  {
    if hs != [] {
      HostCodesDo(hs[1..]);
    }
  }

  /** A program changes the data as often as its calls ask for. */
  lemma {:induction false} ProgramDoes(calls: seq<Call>)
    ensures WriteData in Program(calls) <==>
            exists i :: 0 <= i < |calls| && (calls[i].SetUserData? || WritesData in HostCallsOf(calls[i]))
  {
    if calls != [] {
      CallDoes(calls[0]);
      ProgramDoes(calls[1..]);
      assert forall i :: 0 <= i < |calls| - 1 ==> calls[1..][i] == calls[i + 1];
      assert WriteData in Program(calls) <==> WriteData in Code(calls[0]) || WriteData in Program(calls[1..]);
      hide Code, Program, HostCallsOf;
    }
  }

  // ---- the discipline ----

  datatype Hold = Nothing | Reading | Writing

  /** The operations are well bracketed, the VM is touched only under `mu`, the data are read only under
      `udMu` and changed only under its write lock, and nothing is acquired while `udMu` is held: `udMu` may
      be taken under `mu`, never the other way round. */
  predicate Disciplined(ops: seq<Op>, mu: bool, data: Hold) {
    if ops == [] then !mu && data == Nothing
    else match ops[0]
      case LockMu => !mu && data == Nothing && Disciplined(ops[1..], true, Nothing)
      case UnlockMu => mu && data == Nothing && Disciplined(ops[1..], false, Nothing)
      case RLockData => data == Nothing && Disciplined(ops[1..], mu, Reading)
      case RUnlockData => data == Reading && Disciplined(ops[1..], mu, Nothing)
      case LockData => data == Nothing && Disciplined(ops[1..], mu, Writing)
      case UnlockData => data == Writing && Disciplined(ops[1..], mu, Nothing)
      case UseVM => mu && data == Nothing && Disciplined(ops[1..], mu, data)
      case ReadData => data != Nothing && Disciplined(ops[1..], mu, data)
      case WriteData => data == Writing && Disciplined(ops[1..], mu, data)
  }

  lemma DataCodeDisciplined(write: bool, next: seq<Op>, mu: bool)
    requires Disciplined(next, mu, Nothing)
    ensures Disciplined(DataCode(write) + next, mu, Nothing)
  {
    var ops := DataCode(write) + next;
    assert ops[1..][1..][1..] == next;
  }

  lemma {:induction false} HostCodesDisciplined(hs: seq<HostCall>, rest: seq<Op>)
    requires Disciplined(rest, true, Nothing)
    ensures Disciplined(HostCodes(hs) + rest, true, Nothing)
  {
    if hs == [] {
      assert HostCodes(hs) + rest == rest;
    } else {
      HostCodesDisciplined(hs[1..], rest);
      var next := HostCodes(hs[1..]) + rest;
      assert HostCodes(hs) + rest == HostCode(hs[0]) + next;
      HostCodeDisciplined(hs[0], next);
    }
  }

  lemma HostCodeDisciplined(h: HostCall, next: seq<Op>)
    requires Disciplined(next, true, Nothing)
    ensures Disciplined(HostCode(h) + next, true, Nothing)
  {
    var after := [UseVM] + next;
    assert after[1..] == next && Disciplined(after, true, Nothing);
    hide Disciplined, DataCode;
    if h == Plain {
      assert HostCode(h) + next == after;
    } else {
      DataCodeDisciplined(h == WritesData, after, true);
      assert HostCode(h) + next == DataCode(h == WritesData) + after;
    }
  }

  lemma LockedCodeDisciplined(host: seq<HostCall>, next: seq<Op>)
    requires Disciplined(next, false, Nothing)
    ensures Disciplined([LockMu, UseVM] + HostCodes(host) + [UnlockMu] + next, false, Nothing)
  {
    var unlock := [UnlockMu] + next;
    assert unlock[1..] == next;
    HostCodesDisciplined(host, unlock);
    var ops := [LockMu, UseVM] + HostCodes(host) + [UnlockMu] + next;
    assert ops[1..][1..] == HostCodes(host) + unlock;
  }

  lemma CodeDisciplined(call: Call, next: seq<Op>)
    requires Disciplined(next, false, Nothing)
    ensures Disciplined(Code(call) + next, false, Nothing)
  {
    hide Disciplined, DataCode;
    if call.GetUserData? || call.SetUserData? {
      DataCodeDisciplined(call.SetUserData?, next, false);
    } else if call.DoString? || call.CallGlobal? {
      LockedCodeDisciplined(call.host, next);
    } else {
      LockedCodeDisciplined([], next);
      assert [LockMu, UseVM] + HostCodes([]) + [UnlockMu] == [LockMu, UseVM, UnlockMu];
    }
  }

  /** Whatever calls a goroutine makes, its lock operations follow the discipline. */
  lemma {:induction false} ProgramDisciplined(calls: seq<Call>)
    ensures Disciplined(Program(calls), false, Nothing)
  {
    if calls != [] {
      ProgramDisciplined(calls[1..]);
      CodeDisciplined(calls[0], Program(calls[1..]));
    }
  }

  // ---- interleavings ----

  /** `rest[t]` is what goroutine `t` still has to do. A writer first announces itself, which
      keeps new readers out, and then waits for the readers inside. */
  datatype State = State(rest: seq<seq<Op>>, mu: Option<nat>, readers: set<nat>, writer: Option<nat>, writing: bool)

  function Initial(programs: seq<seq<Op>>): State {
    State(programs, None, {}, None, false)
  }

  predicate Unfinished(s: State, t: nat) {
    t < |s.rest| && s.rest[t] != []
  }

  predicate Enabled(s: State, t: nat) {
    Unfinished(s, t) &&
    match s.rest[t][0]
    case LockMu => s.mu == None
    case RLockData => s.writer == None
    case LockData => s.writer == None || (s.writer == Some(t) && s.readers == {})
    case _ => true
  }

  function Step(s: State, t: nat): State
    requires Enabled(s, t)
  {
    var next := s.(rest := s.rest[t := s.rest[t][1..]]);
    match s.rest[t][0]
    case LockMu => next.(mu := Some(t))
    case UnlockMu => next.(mu := None)
    case RLockData => next.(readers := s.readers + {t})
    case RUnlockData => next.(readers := s.readers - {t})
    case LockData => if s.writer == None then s.(writer := Some(t)) else next.(writing := true)
    case UnlockData => next.(writer := None, writing := false)
    case UseVM => next
    case ReadData => next
    case WriteData => next
  }

  predicate IsRun(s: State, run: seq<nat>)
    decreases |run|
  {
    run == [] || (Enabled(s, run[0]) && IsRun(Step(s, run[0]), run[1..]))
  }

  function After(s: State, run: seq<nat>): State
    requires IsRun(s, run)
    decreases |run|
  {
    if run == [] then s else After(Step(s, run[0]), run[1..])
  }

  // ---- the invariant ----

  function HoldOf(s: State, t: nat): Hold {
    if t in s.readers then Reading
    else if s.writer == Some(t) && s.writing then Writing
    else Nothing
  }

  ghost predicate Inv(s: State) {
    && (forall t :: 0 <= t < |s.rest| ==> Disciplined(s.rest[t], s.mu == Some(t), HoldOf(s, t)))
    && (s.mu.Some? ==> s.mu.value < |s.rest|)
    && (forall t :: t in s.readers ==> t < |s.rest|)
    && (s.writer.Some? ==> s.writer.value < |s.rest| && s.writer.value !in s.readers)
    && (s.writer.Some? && !s.writing ==> Unfinished(s, s.writer.value) && s.rest[s.writer.value][0] == LockData)
    && (s.writing ==> s.writer.Some? && s.readers == {})
  }

  lemma InitInv(threads: seq<seq<Call>>)
    ensures Inv(Initial(Programs(threads)))
  {
    forall t | 0 <= t < |threads| ensures Disciplined(Program(threads[t]), false, Nothing) {
      ProgramDisciplined(threads[t]);
    }
  }

  function Programs(threads: seq<seq<Call>>): (r: seq<seq<Op>>)
    ensures |r| == |threads| && forall t :: 0 <= t < |r| ==> r[t] == Program(threads[t])
  {
    seq(|threads|, t requires 0 <= t < |threads| => Program(threads[t]))
  }

  lemma OwnStep(s: State, t: nat)
    requires Inv(s) && Enabled(s, t)
    ensures var n := Step(s, t); Disciplined(n.rest[t], n.mu == Some(t), HoldOf(n, t))
  {
    assert Disciplined(s.rest[t], s.mu == Some(t), HoldOf(s, t));
  }

  lemma OtherStep(s: State, t: nat, u: nat)
    requires Inv(s) && Enabled(s, t) && u < |s.rest| && u != t
    ensures var n := Step(s, t); n.rest[u] == s.rest[u]
    ensures var n := Step(s, t); (n.mu == Some(u) <==> s.mu == Some(u)) && HoldOf(n, u) == HoldOf(s, u)
  {
    assert Disciplined(s.rest[t], s.mu == Some(t), HoldOf(s, t));
  }

  lemma StepLocks(s: State, t: nat)
    requires Inv(s) && Enabled(s, t)
    ensures var n := Step(s, t);
      && (n.mu.Some? ==> n.mu.value < |n.rest|)
      && (forall u :: u in n.readers ==> u < |n.rest|)
      && (n.writer.Some? ==> n.writer.value < |n.rest| && n.writer.value !in n.readers)
      && (n.writing ==> n.writer.Some? && n.readers == {})
  {
    assert Disciplined(s.rest[t], s.mu == Some(t), HoldOf(s, t));
  }

  lemma StepWaiting(s: State, t: nat)
    requires Inv(s) && Enabled(s, t)
    ensures var n := Step(s, t);
      n.writer.Some? && !n.writing ==> Unfinished(n, n.writer.value) && n.rest[n.writer.value][0] == LockData
  {
    assert Disciplined(s.rest[t], s.mu == Some(t), HoldOf(s, t));
  }

  lemma StepInv(s: State, t: nat)
    requires Inv(s) && Enabled(s, t)
    ensures Inv(Step(s, t))
  {
    var n := Step(s, t);
    forall u | 0 <= u < |n.rest| ensures Disciplined(n.rest[u], n.mu == Some(u), HoldOf(n, u)) {
      if u == t { OwnStep(s, t); } else { OtherStep(s, t, u); }
    }
    StepLocks(s, t);
    StepWaiting(s, t);
  }

  lemma {:induction false} RunInv(s: State, run: seq<nat>)
    requires Inv(s) && IsRun(s, run)
    ensures Inv(After(s, run))
    ensures |run| + Remaining(After(s, run)) <= Remaining(s)
    decreases |run|
  {
    if run != [] {
      StepInv(s, run[0]);
      StepRemaining(s, run[0]);
      RunInv(Step(s, run[0]), run[1..]);
    }
  }

  // ---- exclusion ----

  predicate About(s: State, t: nat, op: Op) {
    Unfinished(s, t) && s.rest[t][0] == op
  }

  /** In every reachable state at most one goroutine is inside the VM, and one that is about to change
      the context data is the only one about to touch them. */
  lemma Exclusion(threads: seq<seq<Call>>, run: seq<nat>, t: nat, u: nat)
    requires IsRun(Initial(Programs(threads)), run)
    ensures var s := After(Initial(Programs(threads)), run);
      && (About(s, t, UseVM) && About(s, u, UseVM) ==> t == u)
      && (About(s, t, WriteData) && (About(s, u, ReadData) || About(s, u, WriteData)) ==> t == u)
  {
    InitInv(threads);
    RunInv(Initial(Programs(threads)), run);
    Exclusive(After(Initial(Programs(threads)), run), t, u);
  }

  lemma Exclusive(s: State, t: nat, u: nat)
    requires Inv(s)
    ensures About(s, t, UseVM) && About(s, u, UseVM) ==> t == u
    ensures About(s, t, WriteData) && (About(s, u, ReadData) || About(s, u, WriteData)) ==> t == u
  {
    if t < |s.rest| && u < |s.rest| {
      assert Disciplined(s.rest[t], s.mu == Some(t), HoldOf(s, t));
      assert Disciplined(s.rest[u], s.mu == Some(u), HoldOf(s, u));
    }
  }

  // ---- waiting ----

  /** `t` cannot move until `u` has: `u` holds, or has announced, what `t` wants. */
  predicate WaitsFor(s: State, t: nat, u: nat) {
    Unfinished(s, t) && u < |s.rest| &&
    match s.rest[t][0]
    case LockMu => s.mu == Some(u)
    case RLockData => s.writer == Some(u)
    case LockData => (s.writer == Some(u) && u != t) || (s.writer == Some(t) && u in s.readers)
    case _ => false
  }

  lemma BlockedWaits(s: State, t: nat)
    requires Inv(s) && Unfinished(s, t)
    ensures !Enabled(s, t) <==> exists u :: WaitsFor(s, t, u)
  {
    if !Enabled(s, t) {
      match s.rest[t][0]
      case LockMu => assert WaitsFor(s, t, s.mu.value);
      case RLockData => assert WaitsFor(s, t, s.writer.value);
      case LockData =>
        if s.writer == Some(t) {
          var u :| u in s.readers;
          assert WaitsFor(s, t, u);
        } else {
          assert WaitsFor(s, t, s.writer.value);
        }
    }
  }

  /** How far a goroutine is from moving: waiting for `mu`, for a place among the readers or
      writers, for the readers inside, or not waiting. */
  function Rank(s: State, t: nat): nat {
    if !Unfinished(s, t) then 3
    else match s.rest[t][0]
      case LockMu => 0
      case RLockData => if s.writer.Some? then 1 else 3
      case LockData => if s.writer == Some(t) then 2 else if s.writer.Some? then 1 else 3
      case _ => 3
  }

  lemma WaitingRaisesRank(s: State, t: nat, u: nat)
    requires Inv(s) && WaitsFor(s, t, u)
    ensures Rank(s, t) < Rank(s, u)
  {
    assert Disciplined(s.rest[t], s.mu == Some(t), HoldOf(s, t));
    assert Disciplined(s.rest[u], s.mu == Some(u), HoldOf(s, u));
  }

  ghost predicate WaitChain(s: State, chain: seq<nat>) {
    forall i :: 0 <= i < |chain| - 1 ==> WaitsFor(s, chain[i], chain[i + 1])
  }

  lemma {:induction false} ChainRaisesRank(s: State, chain: seq<nat>)
    requires Inv(s) && WaitChain(s, chain) && |chain| >= 2
    ensures Rank(s, chain[0]) < Rank(s, chain[|chain| - 1])
    decreases |chain|
  {
    WaitingRaisesRank(s, chain[0], chain[1]);
    if |chain| > 2 {
      var tail := chain[1..];
      forall i | 0 <= i < |tail| - 1 ensures WaitsFor(s, tail[i], tail[i + 1]) {
        assert WaitsFor(s, chain[i + 1], chain[i + 1 + 1]);
      }
      ChainRaisesRank(s, tail);
    }
  }

  /** No reachable state has a cyclic wait. */
  lemma NoCyclicWait(threads: seq<seq<Call>>, run: seq<nat>, chain: seq<nat>)
    requires IsRun(Initial(Programs(threads)), run)
    requires |chain| >= 2 && chain[0] == chain[|chain| - 1]
    ensures !WaitChain(After(Initial(Programs(threads)), run), chain)
  {
    InitInv(threads);
    RunInv(Initial(Programs(threads)), run);
    if WaitChain(After(Initial(Programs(threads)), run), chain) {
      ChainRaisesRank(After(Initial(Programs(threads)), run), chain);
    }
  }

  // ---- progress ----

  /** While some goroutine is unfinished, some goroutine can move. */
  lemma Progress(s: State, t: nat) returns (u: nat)
    requires Inv(s) && Unfinished(s, t)
    ensures Enabled(s, u)
    decreases 3 - Rank(s, t)
  {
    if Enabled(s, t) {
      u := t;
    } else {
      BlockedWaits(s, t);
      var v :| WaitsFor(s, t, v);
      WaitingRaisesRank(s, t, v);
      HolderUnfinished(s, t, v);
      u := Progress(s, v);
    }
  }

  lemma HolderUnfinished(s: State, t: nat, u: nat)
    requires Inv(s) && WaitsFor(s, t, u)
    ensures Unfinished(s, u)
  {
    assert Disciplined(s.rest[u], s.mu == Some(u), HoldOf(s, u));
  }

  function TotalLength(rest: seq<seq<Op>>): nat {
    if rest == [] then 0 else |rest[0]| + TotalLength(rest[1..])
  }

  lemma {:induction false} ShorterBy(rest: seq<seq<Op>>, t: nat, ops: seq<Op>)
    requires t < |rest| && |ops| + 1 == |rest[t]|
    ensures TotalLength(rest[t := ops]) + 1 == TotalLength(rest)
  {
    var shorter := rest[t := ops];
    if t == 0 {
      assert shorter[1..] == rest[1..];
    } else {
      ShorterBy(rest[1..], t - 1, ops);
      assert shorter[1..] == rest[1..][t - 1 := ops];
    }
  }

  /** An announcement is half an operation. */
  function Remaining(s: State): nat {
    2 * TotalLength(s.rest) + if s.writer.Some? then 0 else 1
  }

  lemma StepRemaining(s: State, t: nat)
    requires Inv(s) && Enabled(s, t)
    ensures Remaining(Step(s, t)) < Remaining(s)
  {
    ShorterBy(s.rest, t, s.rest[t][1..]);
  }

  /** Every run is finite, and one that cannot go on has finished every goroutine's calls with
      both locks free: the discipline rules out deadlock. */
  lemma RunsFinish(threads: seq<seq<Call>>, run: seq<nat>)
    requires IsRun(Initial(Programs(threads)), run)
    ensures |run| <= 2 * TotalLength(Programs(threads)) + 1
    ensures var s := After(Initial(Programs(threads)), run);
      (forall t :: !Enabled(s, t)) ==>
        && (forall t :: 0 <= t < |s.rest| ==> s.rest[t] == [])
        && s.mu == None && s.readers == {} && s.writer == None
  {
    var s := After(Initial(Programs(threads)), run);
    InitInv(threads);
    RunInv(Initial(Programs(threads)), run);
    if forall t :: !Enabled(s, t) {
      NobodyMoves(s);
    }
  }

  lemma AllFree(s: State)
    requires Inv(s) && forall t :: 0 <= t < |s.rest| ==> s.rest[t] == []
    ensures s.mu == None && s.readers == {} && s.writer == None
  {
    forall t | 0 <= t < |s.rest| ensures s.mu != Some(t) && HoldOf(s, t) == Nothing {
      assert Disciplined(s.rest[t], s.mu == Some(t), HoldOf(s, t));
    }
    assert forall t :: t in s.readers ==> HoldOf(s, t) == Reading;
  }

  // ---- the runtime ----

  class Runtime {
    var mu: Option<nat>
    var readers: set<nat>
    var writer: Option<nat>
    var writing: bool
    /** What each goroutine still has to do. */
    var rest: seq<seq<Op>>

    ghost function View(): State
      reads this
    {
      State(rest, mu, readers, writer, writing)
    }

    constructor (threads: seq<seq<Call>>)
      ensures View() == Initial(Programs(threads)) && Inv(View())
    {
      mu, readers, writer, writing, rest := None, {}, None, false, Programs(threads);
      new;
      InitInv(threads);
    }

    predicate CanMove(t: nat)
      reads this
      ensures CanMove(t) <==> Enabled(View(), t)
    {
      t < |rest| && rest[t] != [] &&
      match rest[t][0]
      case LockMu => mu == None
      case RLockData => writer == None
      case LockData => writer == None || (writer == Some(t) && readers == {})
      case _ => true
    }

    /** Goroutine `t` performs its next lock operation. */
    method Move(t: nat)
      requires Inv(View()) && CanMove(t)
      modifies this
      ensures View() == Step(old(View()), t) && Inv(View())
    {
      StepInv(View(), t);
      var op := rest[t][0];
      if op == LockData && writer == None {
        writer := Some(t);
        return;
      }
      rest := rest[t := rest[t][1..]];
      match op {
        case LockMu => mu := Some(t);
        case UnlockMu => mu := None;
        case RLockData => readers := readers + {t};
        case RUnlockData => readers := readers - {t};
        case LockData => writing := true;
        case UnlockData => writer, writing := None, false;
        case UseVM =>
        case ReadData =>
        case WriteData =>
      }
    }

    /** Lets the goroutines run until none can move, in the order `schedule` proposes. */
    method RunAll(schedule: seq<nat>)
      requires Inv(View())
      modifies this
      ensures Inv(View())
      ensures forall t :: 0 <= t < |rest| ==> rest[t] == []
      ensures mu == None && readers == {} && writer == None
    {
      var next := 0;
      while true
        invariant Inv(View())
        decreases Remaining(View())
      {
        var t := 0;
        if next < |schedule| && CanMove(schedule[next]) {
          t := schedule[next];
        } else {
          while t < |rest| && !CanMove(t)
            invariant t <= |rest| && forall u :: 0 <= u < t ==> !CanMove(u)
          {
            t := t + 1;
          }
        }
        next := next + 1;
        if t == |rest| {
          forall u | 0 <= u < |View().rest| ensures !Enabled(View(), u) {
            assert !CanMove(u);
          }
          NobodyMoves(View());
          return;
        }
        StepRemaining(View(), t);
        Move(t);
      }
    }
  }

  lemma NobodyMoves(s: State)
    requires Inv(s) && forall t :: 0 <= t < |s.rest| ==> !Enabled(s, t)
    ensures forall t :: 0 <= t < |s.rest| ==> s.rest[t] == []
    ensures s.mu == None && s.readers == {} && s.writer == None
  {
    forall t | 0 <= t < |s.rest| ensures s.rest[t] == [] {
      if s.rest[t] != [] {
        var u := Progress(s, t);
      }
    }
    AllFree(s);
  }
}
