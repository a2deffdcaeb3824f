/** The protocol by which gometalinter runs its linters: one goroutine per partition, a semaphore
    for the number that execute at once, a wait group, a goroutine that closes the channels, and
    a bounded channel of errors. Every step of every goroutine is a step of the machine. */
module RunLinters {
  import opened Options

  /** One execution of a linter: it sends some issues, then succeeds or fails. */
  datatype Job = Job(linter: nat, part: nat, issues: nat, fails: bool)

  /** A linter, in the order in which they are met: its arguments could not be partitioned, or
      it has a job for each partition. */
  datatype Linter = Bad | Good(jobs: seq<Job>)

  datatype Config = Config(linters: seq<Linter>, concurrency: nat)

  /** What the calling goroutine does, one after the other. */
  datatype Instr = SendError | AddOne | Acquire | Spawn(job: Job) | Return

  datatype Phase = Sending(left: nat) | Failing | Releasing | Finishing | Gone

  datatype Worker = Worker(job: Job, phase: Phase)

  datatype Closer = NotStarted | Waiting | ClosingErrors | AllClosed

  /** `errs` is the number of errors in the channel, `read` that of errors taken from it. */
  datatype State = State(pc: nat, workers: seq<Worker>, wg: int, tokens: int, closer: Closer,
                         errs: nat, read: nat, sent: nat)

  datatype Step = Main | Work(i: nat) | Close | Read

  function JobProgram(jobs: seq<Job>): seq<Instr> {
    if jobs == [] then [] else [AddOne, Acquire, Spawn(jobs[0])] + JobProgram(jobs[1..])
  }

  function OneLinter(linter: Linter): seq<Instr> {
    match linter
    case Bad => [SendError]
    case Good(jobs) => JobProgram(jobs)
  }

  function LinterProgram(linters: seq<Linter>): seq<Instr> {
    if linters == [] then [] else OneLinter(linters[0]) + LinterProgram(linters[1..])
  }

  function Program(cfg: Config): seq<Instr> {
    LinterProgram(cfg.linters) + [Return]
  }

  function Capacity(cfg: Config): nat {
    |cfg.linters|
  }

  const START := State(0, [], 0, 0, NotStarted, 0, 0, 0)

  predicate IssuesClosed(s: State) {
    s.closer.ClosingErrors? || s.closer.AllClosed?
  }

  function WithPhase(s: State, i: nat, ph: Phase): State
    requires i < |s.workers|
  {
    s.(workers := s.workers[i := s.workers[i].(phase := ph)])
  }

  /** The state after a step, if the step can be taken. A send to a full channel and a wait for a
      counter that is not zero cannot. The errors are read once the issues have ended. */
  function Do(cfg: Config, s: State, step: Step): Option<State> {
    match step
    case Main =>
      if s.pc >= |Program(cfg)| then None
      else
        var next := s.(pc := s.pc + 1);
        (match Program(cfg)[s.pc]
         case SendError => if s.errs < Capacity(cfg) then Some(next.(errs := s.errs + 1)) else None
         case AddOne => Some(next.(wg := s.wg + 1))
         case Acquire => if s.tokens < cfg.concurrency then Some(next.(tokens := s.tokens + 1)) else None
         case Spawn(job) => Some(next.(workers := s.workers + [Worker(job, Sending(job.issues))]))
         case Return => Some(next.(closer := Waiting)))
    case Work(i) =>
      if i >= |s.workers| then None
      else
        var w := s.workers[i];
        (match w.phase
         case Sending(left) =>
           if left > 0 then Some(WithPhase(s, i, Sending(left - 1)).(sent := s.sent + 1))
           else Some(WithPhase(s, i, if w.job.fails then Failing else Releasing))
         case Failing => if s.errs < Capacity(cfg) then Some(WithPhase(s, i, Releasing).(errs := s.errs + 1)) else None
         case Releasing => if s.tokens > 0 then Some(WithPhase(s, i, Finishing).(tokens := s.tokens - 1)) else None
         case Finishing => Some(WithPhase(s, i, Gone).(wg := s.wg - 1))
         case Gone => None)
    case Close =>
      (match s.closer
       case Waiting => if s.wg == 0 then Some(s.(closer := ClosingErrors)) else None
       case ClosingErrors => Some(s.(closer := AllClosed))
       case _ => None)
    case Read =>
      if IssuesClosed(s) && s.errs > 0 then Some(s.(errs := s.errs - 1, read := s.read + 1)) else None
  }

  /** The state after a schedule, if it can be followed. */
  function Run(cfg: Config, steps: seq<Step>): Option<State> {
    if steps == [] then Some(START)
    else
      var s := Run(cfg, steps[..|steps| - 1]);
      if s.None? then None else Do(cfg, s.value, steps[|steps| - 1])
  }

  ghost predicate Stuck(cfg: Config, s: State) {
    forall step :: Do(cfg, s, step).None?
  }

  // ----- counting -----

  /** What is counted of a worker: whether it has not finished, executes, has sent an error; how
      many issues it has sent; how many steps it has before it. */
  datatype Quantity = Alive | Executing | Erred | IssuesSent | StepsLeft

  function Of(w: Worker, q: Quantity): nat {
    match q
    case Alive => if w.phase.Gone? then 0 else 1
    case Executing => if w.phase.Sending? || w.phase.Failing? || w.phase.Releasing? then 1 else 0
    case Erred => if w.job.fails && (w.phase.Releasing? || w.phase.Finishing? || w.phase.Gone?) then 1 else 0
    case IssuesSent => if w.phase.Sending? then if w.phase.left <= w.job.issues then w.job.issues - w.phase.left else 0
        else w.job.issues
    case StepsLeft =>
      match w.phase
      case Sending(left) => left + 6
      case Failing => 5
      case Releasing => 2
      case Finishing => 1
      case Gone => 0
  }

  function Total(ws: seq<Worker>, q: Quantity): nat {
    if ws == [] then 0 else Total(ws[..|ws| - 1], q) + Of(ws[|ws| - 1], q)
  }

  lemma TotalMore(ws: seq<Worker>, w: Worker, q: Quantity)
    ensures Total(ws + [w], q) == Total(ws, q) + Of(w, q)
  {
    assert (ws + [w])[..|ws + [w]| - 1] == ws;
  }

  lemma {:induction false} TotalUpdate(ws: seq<Worker>, i: nat, w: Worker, q: Quantity)
    requires i < |ws|
    ensures Total(ws[i := w], q) == Total(ws, q) - Of(ws[i], q) + Of(w, q)
    decreases |ws|
  {
    hide Of;
    var n := |ws| - 1;
    if i < n {
      TotalUpdate(ws[..n], i, w, q);
      assert ws[i := w][..n] == ws[..n][i := w];
    } else {
      assert ws[i := w][..n] == ws[..n];
    }
  }

  lemma {:induction false} TotalSome(ws: seq<Worker>, q: Quantity) returns (i: nat)
    requires Total(ws, q) > 0
    ensures i < |ws| && Of(ws[i], q) > 0
    decreases |ws|
  {
    hide Of;
    if Of(ws[|ws| - 1], q) > 0 {
      i := |ws| - 1;
    } else {
      i := TotalSome(ws[..|ws| - 1], q);
    }
  }

  lemma {:induction false} TotalNone(ws: seq<Worker>, q: Quantity, i: nat)
    requires Total(ws, q) == 0 && i < |ws|
    ensures Of(ws[i], q) == 0
    decreases |ws|
  {
    hide Of;
    if i < |ws| - 1 { TotalNone(ws[..|ws| - 1], q, i); }
  }

  datatype Kind = Sends | Adds | Acquires | Spawns

  predicate IsKind(x: Instr, k: Kind) {
    match k
    case Sends => x.SendError?
    case Adds => x.AddOne?
    case Acquires => x.Acquire?
    case Spawns => x.Spawn?
  }

  /** The instructions of a kind among the first `n`. */
  function Count(p: seq<Instr>, n: nat, k: Kind): nat
    requires n <= |p|
  {
    if n == 0 then 0 else Count(p, n - 1, k) + if IsKind(p[n - 1], k) then 1 else 0
  }

  function Spawned(p: seq<Instr>, n: nat): seq<Job>
    requires n <= |p|
  {
    if n == 0 then [] else Spawned(p, n - 1) + if p[n - 1].Spawn? then [p[n - 1].job] else []
  }

  // ----- the program of the calling goroutine -----

  /** Each job is announced, gets its slot and is started, in this order and with nothing between. */
  predicate InTriples(p: seq<Instr>) {
    forall n {:trigger p[n]} :: 0 <= n < |p| ==>
      && (p[n].AddOne? ==> n + 2 < |p| && p[n + 1].Acquire? && p[n + 2].Spawn?)
      && (p[n].Acquire? ==> n > 0 && p[n - 1].AddOne?)
      && (p[n].Spawn? ==> n > 1 && p[n - 1].Acquire?)
  }

  lemma TriplesConcat(p: seq<Instr>, q: seq<Instr>)
    requires InTriples(p) && InTriples(q)
    ensures InTriples(p + q)
  {
    forall n | 0 <= n < |p + q|
      ensures (p + q)[n].AddOne? ==> n + 2 < |p + q| && (p + q)[n + 1].Acquire? && (p + q)[n + 2].Spawn?
      ensures (p + q)[n].Acquire? ==> n > 0 && (p + q)[n - 1].AddOne?
      ensures (p + q)[n].Spawn? ==> n > 1 && (p + q)[n - 1].Acquire?
    {
      if n < |p| { assert (p + q)[n] == p[n]; } else { assert (p + q)[n] == q[n - |p|]; }
    }
  }

  lemma {:induction false} JobTriples(jobs: seq<Job>)
    ensures InTriples(JobProgram(jobs))
    decreases |jobs|
  {
    if jobs != [] {
      JobTriples(jobs[1..]);
      TriplesConcat([AddOne, Acquire, Spawn(jobs[0])], JobProgram(jobs[1..]));
    }
  }

  lemma {:induction false} ProgramTriples(linters: seq<Linter>)
    ensures InTriples(LinterProgram(linters))
    decreases |linters|
  {
    if linters != [] {
      ProgramTriples(linters[1..]);
      if linters[0].Good? { JobTriples(linters[0].jobs); }
      TriplesConcat(OneLinter(linters[0]), LinterProgram(linters[1..]));
    }
  }

  lemma {:induction false} NoReturn(linters: seq<Linter>)
    ensures Return !in LinterProgram(linters)
    decreases |linters|
  {
    if linters != [] {
      NoReturn(linters[1..]);
      if linters[0].Good? { NoReturnIn(linters[0].jobs); }
    }
  }

  lemma {:induction false} NoReturnIn(jobs: seq<Job>)
    ensures Return !in JobProgram(jobs)
    decreases |jobs|
  {
    if jobs != [] { NoReturnIn(jobs[1..]); }
  }

  lemma ProgramShape(cfg: Config)
    ensures InTriples(Program(cfg))
    ensures forall n {:trigger Program(cfg)[n]} :: 0 <= n < |Program(cfg)| ==>
        (Program(cfg)[n].Return? <==> n == |Program(cfg)| - 1)
  {
    ProgramTriples(cfg.linters);
    TriplesConcat(LinterProgram(cfg.linters), [Return]);
    NoReturn(cfg.linters);
    var q := LinterProgram(cfg.linters);
    forall n | 0 <= n < |q|
      ensures !q[n].Return?
    {
      assert q[n] in q;
    }
  }

  /** How many jobs have been announced and have got a slot, against those started. */
  lemma {:induction false} Balance(p: seq<Instr>, n: nat)
    requires InTriples(p) && n <= |p|
    ensures var a, c, s := Count(p, n, Adds), Count(p, n, Acquires), Count(p, n, Spawns);
            && a == s + (if n < |p| && (p[n].Acquire? || p[n].Spawn?) then 1 else 0)
            && c == s + (if n < |p| && p[n].Spawn? then 1 else 0)
    decreases n
  {
    if n > 0 {
      Balance(p, n - 1);
      assert p[n - 1].AddOne? ==> p[n].Acquire?;
      if n < |p| {
        assert p[n].Acquire? ==> p[n - 1].AddOne?;
        assert p[n].Spawn? ==> p[n - 1].Acquire?;
      }
      if p[n - 1].Acquire? {
        assert p[n - 2].AddOne?;
        assert n < |p| && p[n].Spawn?;
      }
    }
  }

  // ----- the invariant -----

  function Fails(jobs: seq<Job>): nat {
    if jobs == [] then 0 else Fails(jobs[..|jobs| - 1]) + if jobs[|jobs| - 1].fails then 1 else 0
  }

  function Issues(jobs: seq<Job>): nat {
    if jobs == [] then 0 else Issues(jobs[..|jobs| - 1]) + jobs[|jobs| - 1].issues
  }

  function AllJobs(cfg: Config): seq<Job> {
    Spawned(Program(cfg), |Program(cfg)|)
  }

  /** How many errors are sent when everything has been done. */
  function Errors(cfg: Config): nat {
    Count(Program(cfg), |Program(cfg)|, Sends) + Fails(AllJobs(cfg))
  }

  predicate PhaseOk(w: Worker) {
    (w.phase.Sending? ==> w.phase.left <= w.job.issues) && (w.phase.Failing? ==> w.job.fails)
  }

  /** The workers are those for the jobs started so far. */
  ghost predicate WorkersOk(ws: seq<Worker>, jobs: seq<Job>) {
    |ws| == |jobs| && forall i {:trigger ws[i]} :: 0 <= i < |ws| ==> ws[i].job == jobs[i] && PhaseOk(ws[i])
  }

  ghost predicate Counters(cfg: Config, s: State)
    requires s.pc <= |Program(cfg)|
  {
    var p := Program(cfg);
    && s.wg == Total(s.workers, Alive) + Count(p, s.pc, Adds) - Count(p, s.pc, Spawns)
    && s.tokens == Total(s.workers, Executing) + Count(p, s.pc, Acquires) - Count(p, s.pc, Spawns)
    && s.errs + s.read == Total(s.workers, Erred) + Count(p, s.pc, Sends)
    && s.sent == Total(s.workers, IssuesSent)
  }

  ghost predicate Inv(cfg: Config, s: State) {
    && s.pc <= |Program(cfg)|
    && WorkersOk(s.workers, Spawned(Program(cfg), s.pc))
    && Counters(cfg, s)
    && s.tokens <= cfg.concurrency && (cfg.concurrency == 0 ==> Count(Program(cfg), s.pc, Acquires) == 0)
    && s.errs <= Capacity(cfg) && (!IssuesClosed(s) ==> s.read == 0)
    && (s.closer.NotStarted? <==> s.pc < |Program(cfg)|)
    && (IssuesClosed(s) ==> Total(s.workers, Alive) == 0 && Errors(cfg) <= Capacity(cfg))
  }

  lemma MainKeeps(cfg: Config, s: State)
    requires Inv(cfg, s) && Do(cfg, s, Main).Some?
    ensures Inv(cfg, Do(cfg, s, Main).value)
  {
    hide Program;
    ProgramShape(cfg);
    var p, x := Program(cfg), Program(cfg)[s.pc];
    var s' := Do(cfg, s, Main).value;
    if x.Spawn? {
      var w := Worker(x.job, Sending(x.job.issues));
      TotalMore(s.workers, w, Alive);
      TotalMore(s.workers, w, Executing);
      TotalMore(s.workers, w, Erred);
      TotalMore(s.workers, w, IssuesSent);
    }
    Balance(p, s.pc);
    CountNext(p, s.pc);
    hide Count, Total, InTriples, Of;
  }

  lemma CountNext(p: seq<Instr>, n: nat)
    requires n < |p|
    ensures forall k :: Count(p, n + 1, k) == Count(p, n, k) + if IsKind(p[n], k) then 1 else 0
  {}

  /** What a step changes in the counts. */
  lemma PhaseCounts(s: State, i: nat, ph: Phase)
    requires i < |s.workers|
    ensures forall q :: Total(WithPhase(s, i, ph).workers, q) ==
                        Total(s.workers, q) - Of(s.workers[i], q) + Of(s.workers[i].(phase := ph), q)
  {
    forall q
      ensures Total(WithPhase(s, i, ph).workers, q) ==
              Total(s.workers, q) - Of(s.workers[i], q) + Of(s.workers[i].(phase := ph), q)
    {
      TotalUpdate(s.workers, i, s.workers[i].(phase := ph), q);
    }
  }

  function NextPhase(w: Worker): Phase {
    match w.phase
    case Sending(left) => if left > 0 then Sending(left - 1) else if w.job.fails then Failing else Releasing
    case Failing => Releasing
    case Releasing => Finishing
    case _ => Gone
  }

  lemma WorkKeeps(cfg: Config, s: State, i: nat)
    requires Inv(cfg, s) && Do(cfg, s, Work(i)).Some?
    ensures Inv(cfg, Do(cfg, s, Work(i)).value)
  {
    hide Program, Total, Count, Spawned;
    var w := s.workers[i];
    var s' := Do(cfg, s, Work(i)).value;
    PhaseCounts(s, i, NextPhase(w));
    assert s'.workers == WithPhase(s, i, NextPhase(w)).workers;
    if IssuesClosed(s) {
      TotalNone(s.workers, Alive, i);
      assert false;
    }
  }

  /** When all workers have finished, all errors have been sent. */
  lemma {:induction false} AllErred(ws: seq<Worker>, jobs: seq<Job>)
    requires WorkersOk(ws, jobs) && Total(ws, Alive) == 0
    ensures Total(ws, Erred) == Fails(jobs) && Total(ws, IssuesSent) == Issues(jobs) && Total(ws, Executing) == 0
    decreases |ws|
  {
    if ws != [] { AllErred(ws[..|ws| - 1], jobs[..|jobs| - 1]); }
  }

  lemma CloseKeeps(cfg: Config, s: State, step: Step)
    requires Inv(cfg, s) && (step.Close? || step.Read?) && Do(cfg, s, step).Some?
    ensures Inv(cfg, Do(cfg, s, step).value)
  {
    hide Program, Total, Count, Spawned;
    ProgramShape(cfg);
    if step.Close? && s.closer.Waiting? {
      Balance(Program(cfg), s.pc);
      AllErred(s.workers, Spawned(Program(cfg), s.pc));
    }
  }

  /** Every step keeps the invariant. */
  lemma StepKeeps(cfg: Config, s: State, step: Step)
    requires Inv(cfg, s) && Do(cfg, s, step).Some?
    ensures Inv(cfg, Do(cfg, s, step).value)
  {
    hide Inv, Do;
    match step
    case Main => MainKeeps(cfg, s);
    case Work(i) => WorkKeeps(cfg, s, i);
    case _ => CloseKeeps(cfg, s, step);
  }

  lemma {:induction false} RunKeeps(cfg: Config, steps: seq<Step>)
    requires Run(cfg, steps).Some?
    ensures Inv(cfg, Run(cfg, steps).value)
    decreases |steps|
  {
    hide Do;
    if steps == [] {
      assert |Program(cfg)| > 0;
    } else {
      RunKeeps(cfg, steps[..|steps| - 1]);
      hide Inv;
      StepKeeps(cfg, Run(cfg, steps[..|steps| - 1]).value, steps[|steps| - 1]);
    }
  }

  // ----- what the program runs -----

  function JobsOf(linters: seq<Linter>): seq<Job> {
    if linters == [] then []
    else (if linters[0].Bad? then [] else linters[0].jobs) + JobsOf(linters[1..])
  }

  function Bads(linters: seq<Linter>): nat {
    if linters == [] then 0 else (if linters[0].Bad? then 1 else 0) + Bads(linters[1..])
  }

  lemma {:induction false} TakenConcat(p: seq<Instr>, q: seq<Instr>, n: nat)
    requires n <= |q|
    ensures Spawned(p + q, |p| + n) == Spawned(p, |p|) + Spawned(q, n)
    ensures Count(p + q, |p| + n, Sends) == Count(p, |p|, Sends) + Count(q, n, Sends)
    decreases n
  {
    if n == 0 {
      TakenPrefix(p, q, |p|);
    } else {
      TakenConcat(p, q, n - 1);
    }
  }

  lemma {:induction false} TakenPrefix(p: seq<Instr>, q: seq<Instr>, n: nat)
    requires n <= |p|
    ensures Spawned(p + q, n) == Spawned(p, n) && Count(p + q, n, Sends) == Count(p, n, Sends)
    decreases n
  {
    if n > 0 { TakenPrefix(p, q, n - 1); }
  }

  lemma {:induction false} JobProgramRuns(jobs: seq<Job>)
    ensures Spawned(JobProgram(jobs), |JobProgram(jobs)|) == jobs
    ensures Count(JobProgram(jobs), |JobProgram(jobs)|, Sends) == 0
    decreases |jobs|
  {
    if jobs != [] {
      var p := [AddOne, Acquire, Spawn(jobs[0])];
      JobProgramRuns(jobs[1..]);
      TakenConcat(p, JobProgram(jobs[1..]), |JobProgram(jobs[1..])|);
      assert Spawned(p, 1) == [] && Spawned(p, 2) == [] && Spawned(p, 3) == [jobs[0]];
      assert Count(p, 1, Sends) == 0 && Count(p, 2, Sends) == 0 && Count(p, 3, Sends) == 0;
    }
  }

  lemma {:induction false} LinterProgramRuns(linters: seq<Linter>)
    ensures var p := LinterProgram(linters); Spawned(p, |p|) == JobsOf(linters) && Count(p, |p|, Sends) == Bads(linters)
    decreases |linters|
  {
    if linters != [] {
      LinterProgramRuns(linters[1..]);
      OneLinterRuns(linters[0]);
      hide Spawned, Count, OneLinter;
      TakenConcat(OneLinter(linters[0]), LinterProgram(linters[1..]), |LinterProgram(linters[1..])|);
    }
  }

  lemma OneLinterRuns(linter: Linter)
    ensures var p := OneLinter(linter);
            && Spawned(p, |p|) == (if linter.Bad? then [] else linter.jobs)
            && Count(p, |p|, Sends) == (if linter.Bad? then 1 else 0)
  {
    if linter.Good? {
      JobProgramRuns(linter.jobs);
    } else {
      assert Spawned([SendError], 1) == Spawned([SendError], 0);
      assert Count([SendError], 1, Sends) == Count([SendError], 0, Sends) + 1;
    }
  }

  /** The jobs of the program are those of the linters, in order, and the errors sent are those of
      partitioning and of executions that fail. */
  lemma ProgramRuns(cfg: Config)
    ensures AllJobs(cfg) == JobsOf(cfg.linters)
    ensures Errors(cfg) == Bads(cfg.linters) + Fails(JobsOf(cfg.linters))
  {
    var p := LinterProgram(cfg.linters);
    LinterProgramRuns(cfg.linters);
    TakenConcat(p, [Return], 1);
    assert Spawned([Return], 1) == Spawned([Return], 0) && Count([Return], 1, Sends) == Count([Return], 0, Sends);
  }

  lemma {:induction false} SpawnedGrows(p: seq<Instr>, n: nat, m: nat)
    requires n <= m <= |p|
    ensures Spawned(p, n) <= Spawned(p, m) && Count(p, n, Sends) <= Count(p, m, Sends)
    decreases m
  {
    if n < m { SpawnedGrows(p, n, m - 1); }
  }

  // ----- safety, in every run -----

  /** At most `concurrency` executions at a time; the jobs are started in order and each once; when
      the issue channel is closed, all goroutines that send have ended; the wait group does not
      fall below zero, and the number of errors in the channel stays within its capacity. */
  lemma Safety(cfg: Config, steps: seq<Step>)
    requires Run(cfg, steps).Some?
    ensures var s := Run(cfg, steps).value;
            && Total(s.workers, Executing) <= cfg.concurrency
            && |s.workers| <= |JobsOf(cfg.linters)|
            && (forall i :: 0 <= i < |s.workers| ==> s.workers[i].job == JobsOf(cfg.linters)[i])
            && (IssuesClosed(s) ==>
                  && s.pc == |Program(cfg)| && |s.workers| == |JobsOf(cfg.linters)|
                  && forall i :: 0 <= i < |s.workers| ==> s.workers[i].phase.Gone?)
            && s.wg >= 0 && s.errs <= Capacity(cfg)
  {
    var s := Run(cfg, steps).value;
    RunKeeps(cfg, steps);
    hide Run, Program, Count, Spawned, Total;
    var p := Program(cfg);
    ProgramShape(cfg);
    ProgramRuns(cfg);
    Balance(p, s.pc);
    SpawnedGrows(p, s.pc, |p|);
    if IssuesClosed(s) {
      forall i | 0 <= i < |s.workers|
        ensures s.workers[i].phase.Gone?
      {
        TotalNone(s.workers, Alive, i);
      }
    }
  }

  // ----- every run ends -----

  function Weight(x: Instr): nat {
    match x
    case SendError => 2
    case Spawn(job) => job.issues + 7
    case _ => 1
  }

  function WeightFrom(p: seq<Instr>, n: nat): nat
    requires n <= |p|
    decreases |p| - n
  {
    if n == |p| then 0 else Weight(p[n]) + WeightFrom(p, n + 1)
  }

  function Measure(cfg: Config, s: State): nat
    requires s.pc <= |Program(cfg)|
  {
    WeightFrom(Program(cfg), s.pc) + Total(s.workers, StepsLeft) + s.errs
    + match s.closer case NotStarted => 2 case Waiting => 2 case ClosingErrors => 1 case AllClosed => 0
  }

  lemma StepShrinks(cfg: Config, s: State, step: Step)
    requires Inv(cfg, s) && Do(cfg, s, step).Some?
    ensures Do(cfg, s, step).value.pc <= |Program(cfg)|
    ensures Measure(cfg, Do(cfg, s, step).value) < Measure(cfg, s)
  {
    hide Program, Total, Counters, WorkersOk;
    match step
    case Main =>
      ProgramShape(cfg);
      var x := Program(cfg)[s.pc];
      if x.Spawn? { TotalMore(s.workers, Worker(x.job, Sending(x.job.issues)), StepsLeft); }
    case Work(i) =>
      var w := s.workers[i];
      PhaseCounts(s, i, NextPhase(w));
      assert Do(cfg, s, step).value.workers == WithPhase(s, i, NextPhase(w)).workers;
    case _ =>
  }

  /** No run is longer than the measure of the start. */
  lemma {:induction false} RunIsBounded(cfg: Config, steps: seq<Step>)
    requires Run(cfg, steps).Some?
    ensures Run(cfg, steps).value.pc <= |Program(cfg)|
    ensures |steps| + Measure(cfg, Run(cfg, steps).value) <= Measure(cfg, START)
    decreases |steps|
  {
    hide Do, Inv, Measure;
    if steps != [] {
      var s := Run(cfg, steps[..|steps| - 1]).value;
      RunIsBounded(cfg, steps[..|steps| - 1]);
      RunKeeps(cfg, steps[..|steps| - 1]);
      StepShrinks(cfg, s, steps[|steps| - 1]);
    }
  }

  /** Every run can be continued until it cannot go on. */
  lemma {:induction false} RunsGoOn(cfg: Config, steps: seq<Step>) returns (full: seq<Step>)
    requires Run(cfg, steps).Some?
    ensures steps <= full && Run(cfg, full).Some? && Stuck(cfg, Run(cfg, full).value)
    decreases Measure(cfg, START) - |steps|
  {
    hide Do, Measure, Inv;
    RunIsBounded(cfg, steps);
    var s := Run(cfg, steps).value;
    if Stuck(cfg, s) {
      full := steps;
    } else {
      var step :| Do(cfg, s, step).Some?;
      assert (steps + [step])[..|steps + [step]| - 1] == steps;
      RunIsBounded(cfg, steps + [step]);
      full := RunsGoOn(cfg, steps + [step]);
    }
  }

  // ----- when it ends well -----

  lemma {:induction false} ErredBelow(ws: seq<Worker>, jobs: seq<Job>)
    requires WorkersOk(ws, jobs)
    ensures Total(ws, Erred) <= Fails(jobs)
    ensures forall i {:trigger ws[i]} :: 0 <= i < |ws| && ws[i].phase.Failing? ==> Total(ws, Erred) < Fails(jobs)
    decreases |ws|
  {
    if ws != [] {
      ErredBelow(ws[..|ws| - 1], jobs[..|jobs| - 1]);
      forall i | 0 <= i < |ws| && ws[i].phase.Failing?
        ensures Total(ws, Erred) < Fails(jobs)
      {
        if i < |ws| - 1 { assert ws[..|ws| - 1][i] == ws[i]; }
      }
    }
  }

  lemma {:induction false} FailsGrow(a: seq<Job>, b: seq<Job>)
    requires a <= b
    ensures Fails(a) <= Fails(b)
    decreases |b|
  {
    if |a| < |b| { FailsGrow(a, b[..|b| - 1]); } else { assert a == b; }
  }

  /** As long as the errors fit in their channel, a worker that has not finished can go on. */
  lemma WorkerGoesOn(cfg: Config, s: State, i: nat)
    requires Inv(cfg, s) && Errors(cfg) <= Capacity(cfg)
    requires i < |s.workers| && !s.workers[i].phase.Gone?
    ensures !Stuck(cfg, s)
  {
    var p := Program(cfg);
    var jobs := Spawned(p, s.pc);
    ProgramShape(cfg);
    hide Program, Count, Spawned, Total, Fails;
    Balance(p, s.pc);
    ErredBelow(s.workers, jobs);
    SpawnedGrows(p, s.pc, |p|);
    FailsGrow(jobs, AllJobs(cfg));
    if s.workers[i].phase.Releasing? { SomeExecutes(s.workers, i); }
    assert Do(cfg, s, Work(i)).Some?;
  }

  lemma {:induction false} SomeExecutes(ws: seq<Worker>, i: nat)
    requires i < |ws| && Of(ws[i], Executing) > 0
    ensures Total(ws, Executing) > 0
    decreases |ws|
  {
    if i < |ws| - 1 { SomeExecutes(ws[..|ws| - 1], i); }
  }

  /** If the errors fit in their channel and anything can be executed, some step can be taken until
      both channels are closed and the errors have been read. */
  lemma GoesOn(cfg: Config, s: State)
    requires Inv(cfg, s) && Errors(cfg) <= Capacity(cfg) && (cfg.concurrency > 0 || AllJobs(cfg) == [])
    requires !s.closer.AllClosed? || s.errs > 0
    ensures !Stuck(cfg, s)
  {
    var p := Program(cfg);
    ProgramShape(cfg);
    Balance(p, s.pc);
    if IssuesClosed(s) {
      assert Do(cfg, s, if s.errs > 0 then Read else Close).Some?;
    } else if s.pc == |p| {
      if s.wg == 0 {
        assert Do(cfg, s, Close).Some?;
      } else {
        var i := TotalSome(s.workers, Alive);
        WorkerGoesOn(cfg, s, i);
      }
    } else {
      MainGoesOn(cfg, s);
    }
  }

  lemma MainGoesOn(cfg: Config, s: State)
    requires Inv(cfg, s) && Errors(cfg) <= Capacity(cfg) && (cfg.concurrency > 0 || AllJobs(cfg) == [])
    requires s.pc < |Program(cfg)|
    ensures !Stuck(cfg, s)
  {
    var p := Program(cfg);
    ProgramShape(cfg);
    hide Program, Total, Count, Spawned, Fails;
    Balance(p, s.pc);
    CountNext(p, s.pc);
    SpawnedGrows(p, s.pc + 1, |p|);
    SpawnedGrows(p, s.pc, |p|);
    ErredBelow(s.workers, Spawned(p, s.pc));
    FailsGrow(Spawned(p, s.pc), AllJobs(cfg));
    if p[s.pc].Acquire? && s.tokens == cfg.concurrency {
      if cfg.concurrency == 0 {
        NoJobs(p, s.pc);
        assert false;
      }
      var i := TotalSome(s.workers, Executing);
      WorkerGoesOn(cfg, s, i);
    } else {
      assert Do(cfg, s, Main).Some?;
    }
  }

  lemma NoJobs(p: seq<Instr>, n: nat)
    requires InTriples(p) && n < |p| && p[n].Acquire?
    ensures Spawned(p, |p|) != []
  {
    assert p[n - 1].AddOne?;
    assert p[n + 1].Spawn?;
    SpawnedGrows(p, n + 2, |p|);
  }

  /** A run that cannot go on has closed both channels iff the errors of all linters together are
      not more than there are linters (and something can be executed, if there is anything to do).
      Then every job has been executed, and every issue and error has been delivered. */
  lemma MaximalRuns(cfg: Config, steps: seq<Step>)
    requires Run(cfg, steps).Some? && Stuck(cfg, Run(cfg, steps).value)
    ensures var s := Run(cfg, steps).value;
            var jobs := JobsOf(cfg.linters);
            var errors := Bads(cfg.linters) + Fails(jobs);
            && (s.closer.AllClosed? <==> errors <= |cfg.linters| && (cfg.concurrency > 0 || jobs == []))
            && (s.closer.AllClosed? ==>
                |s.workers| == |jobs| && s.sent == Issues(jobs) && s.read == errors
                && s.errs == 0)
  {
    var s := Run(cfg, steps).value;
    RunKeeps(cfg, steps);
    ProgramRuns(cfg);
    if Errors(cfg) <= Capacity(cfg) && (cfg.concurrency > 0 || AllJobs(cfg) == []) {
      if !s.closer.AllClosed? || s.errs > 0 { GoesOn(cfg, s); }
    }
    if s.closer.AllClosed? {
      ClosedFacts(cfg, s);
      assert s.errs == 0 by { assert Do(cfg, s, Read).None?; }
    }
  }

  lemma ClosedFacts(cfg: Config, s: State)
    requires Inv(cfg, s) && s.closer.AllClosed?
    ensures Errors(cfg) <= Capacity(cfg) && (cfg.concurrency > 0 || AllJobs(cfg) == [])
    ensures |s.workers| == |AllJobs(cfg)| && s.sent == Issues(AllJobs(cfg)) && s.errs + s.read == Errors(cfg)
  {
    var p := Program(cfg);
    ProgramShape(cfg);
    hide Program, Total, Count, Fails, Issues;
    Balance(p, s.pc);
    AllErred(s.workers, Spawned(p, s.pc));
    if cfg.concurrency == 0 { NoSpawns(p, |p|); }
  }

  lemma {:induction false} NoSpawns(p: seq<Instr>, n: nat)
    requires n <= |p| && Count(p, n, Spawns) == 0
    ensures Spawned(p, n) == []
    decreases n
  {
    if n > 0 { NoSpawns(p, n - 1); }
  }

  /** With more errors than linters, the channels are closed in no run. */
  lemma TooManyErrors(cfg: Config, steps: seq<Step>)
    requires Run(cfg, steps).Some? && Bads(cfg.linters) + Fails(JobsOf(cfg.linters)) > |cfg.linters|
    ensures !IssuesClosed(Run(cfg, steps).value)
  {
    RunKeeps(cfg, steps);
    ProgramRuns(cfg);
  }

  /** It is enough that both partitions of a single linter fail: nobody reads the first error
      before the second one is sent. */
  lemma TwoFailuresBlock(steps: seq<Step>)
    requires Run(Config([Good([Job(0, 0, 0, true), Job(0, 1, 0, true)])], 1), steps).Some?
    ensures !IssuesClosed(Run(Config([Good([Job(0, 0, 0, true), Job(0, 1, 0, true)])], 1), steps).value)
  {
    var a, b := Job(0, 0, 0, true), Job(0, 1, 0, true);
    var linters := [Good([a, b])];
    hide Run, Do;
    assert JobsOf(linters[1..]) == [] && JobsOf(linters) == [a, b] + [];
    assert [a, b] + [] == [a, b] && [a, b][..1] == [a] && [a][..0] == [];
    assert Fails([]) == 0 && Fails([a]) == 1 && Fails([a, b]) == 2;
    TooManyErrors(Config(linters, 1), steps);
  }

  // ----- before anything has been executed -----

  /** The same partitions, whatever their executions do. */
  predicate SamePartitions(a: seq<Linter>, b: seq<Linter>) {
    && |a| == |b|
    && forall i {:trigger a[i]} :: 0 <= i < |a| ==>
        (a[i].Bad? <==> b[i].Bad?) && (a[i].Good? ==> |a[i].jobs| == |b[i].jobs|)
  }

  /** Every run that goes on as long as it can closes both channels, whatever executions do. */
  ghost predicate AlwaysCloses(linters: seq<Linter>, concurrency: nat) {
    forall ls, steps {:trigger SamePartitions(linters, ls), Run(Config(ls, concurrency), steps)} ::
      && SamePartitions(linters, ls)
      && Run(Config(ls, concurrency), steps).Some?
          && Stuck(Config(ls, concurrency), Run(Config(ls, concurrency), steps).value)
      ==> Run(Config(ls, concurrency), steps).value.closer.AllClosed?
  }

  lemma {:induction false} SameCounts(a: seq<Linter>, b: seq<Linter>)
    requires SamePartitions(a, b)
    ensures Bads(a) == Bads(b) && |JobsOf(a)| == |JobsOf(b)|
    decreases |a|
  {
    if a != [] {
      assert a[0].Bad? <==> b[0].Bad?;
      assert SamePartitions(a[1..], b[1..]) by {
        forall i | 0 <= i < |a[1..]|
          ensures a[1..][i].Bad? <==> b[1..][i].Bad?
          ensures a[1..][i].Good? ==> |a[1..][i].jobs| == |b[1..][i].jobs|
        {
          assert a[1..][i] == a[i + 1] && b[1..][i] == b[i + 1];
        }
      }
      SameCounts(a[1..], b[1..]);
    }
  }

  lemma {:induction false} FailsBounds(jobs: seq<Job>)
    ensures Fails(jobs) <= |jobs|
    ensures (forall i :: 0 <= i < |jobs| ==> jobs[i].fails) ==> Fails(jobs) == |jobs|
    decreases |jobs|
  {
    if jobs != [] {
      FailsBounds(jobs[..|jobs| - 1]);
    }
  }

  function FailAll(jobs: seq<Job>): (r: seq<Job>)
    ensures |r| == |jobs| && forall i :: 0 <= i < |r| ==> r[i].fails
  {
    seq(|jobs|, i requires 0 <= i < |jobs| => jobs[i].(fails := true))
  }

  /** All executions fail. */
  function Worst(linters: seq<Linter>): (r: seq<Linter>)
    ensures SamePartitions(linters, r)
    ensures forall i :: 0 <= i < |JobsOf(r)| ==> JobsOf(r)[i].fails
  {
    if linters == [] then []
    else
      var rest := Worst(linters[1..]);
      var r := [if linters[0].Bad? then Bad else Good(FailAll(linters[0].jobs))] + rest;
      assert r[1..] == rest;
      assert forall i :: 1 <= i < |linters| ==> linters[i] == linters[1..][i - 1] && r[i] == rest[i - 1];
      r
  }

  /** What can be said of a configuration before its jobs run: the channels are sure to be closed
      iff partitions that could not be made and jobs together are not more than the linters. */
  lemma AlwaysClosesIff(linters: seq<Linter>, concurrency: nat)
    ensures AlwaysCloses(linters, concurrency) <==>
        Bads(linters) + |JobsOf(linters)| <= |linters| && (concurrency > 0 || JobsOf(linters) == [])
  {
    hide Run, Stuck, SamePartitions, Worst;
    if AlwaysCloses(linters, concurrency) {
      var ls := Worst(linters);
      var cfg := Config(ls, concurrency);
      SameCounts(linters, ls);
      SameLength(linters, ls);
      FailsBounds(JobsOf(ls));
      StartRuns(cfg);
      var full := RunsGoOn(cfg, []);
      MaximalRuns(cfg, full);
      assert Run(Config(ls, concurrency), full).Some?;
    }
    if Bads(linters) + |JobsOf(linters)| <= |linters| && (concurrency > 0 || JobsOf(linters) == []) {
      forall ls, steps | SamePartitions(linters, ls) && Run(Config(ls, concurrency), steps).Some?
                         && Stuck(Config(ls, concurrency), Run(Config(ls, concurrency), steps).value)
        ensures Run(Config(ls, concurrency), steps).value.closer.AllClosed?
      {
        SameCounts(linters, ls);
        FailsBounds(JobsOf(ls));
        SameLength(linters, ls);
        MaximalRuns(Config(ls, concurrency), steps);
      }
    }
  }

  lemma StartRuns(cfg: Config)
    ensures Run(cfg, []).Some?
  {}

  lemma SameLength(a: seq<Linter>, b: seq<Linter>)
    requires SamePartitions(a, b)
    ensures |a| == |b|
  {}
}
