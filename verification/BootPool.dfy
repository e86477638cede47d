// The bounded boot pool, runPool (run.go:276-311): the caller's goroutine and one per boot, step by step.
module BootPool {
  import opened Options

  // What runBoot returns for a boot: a status, or an error and no status.
  datatype BootResult = Finished(status: int) | Failed(err: int)

  datatype Config = Config(jobs: int, dry: bool, results: seq<BootResult>) {
    function Cap(): (c: nat)
      ensures c >= 1 && c >= jobs && (jobs >= 1 ==> c == jobs)
    {
      if jobs < 1 then 1 else jobs
    }

    // Boot i is recorded: it succeeded and this is not a dry run.
    predicate Records(i: nat)
      requires i < |results|
    {
      results[i].Finished? && !dry
    }
  }

  // runPool's result: the first error in boot order, or every status.
  datatype Return = Error(err: int) | Statuses(statuses: seq<Option<int>>)

  // Where the caller is: at the head of the loop, before the channel send,
  // before the go statement, in wg.Wait, or done.
  datatype Main = Loop | Acquire | Spawn | Wait | Returned(r: Return)

  // Where a boot's goroutine is: in runBoot, before mu.Lock, before the slot
  // is stored, before e.record, before the deferred mu.Unlock, before the
  // deferred receive from sem, before the deferred wg.Done, ended.
  datatype Worker = Absent | Booting | Locking | Storing | Recording | Unlocking | Releasing | Leaving | Gone

  datatype State = State(
    main: Main, next: nat, sem: int, wg: int, locked: bool, workers: seq<Worker>,
    statuses: seq<Option<int>>, errs: seq<Option<int>>,
    ran: seq<nat>,      // the boots runBoot has returned for, in order
    records: seq<nat>)  // the boots recorded, in order

  datatype Thread = Caller | Boot(i: nat)

  function Init(cfg: Config): State {
    var n := |cfg.results|;
    State(Loop, 0, 0, 0, false, seq(n, _ => Absent), seq(n, _ => None), seq(n, _ => None), [], [])
  }

  // --- steps --------------------------------------------------------------

  // The state after t's next step; None when t is blocked or has ended.
  function Step(cfg: Config, s: State, t: Thread): Option<State> {
    match t
    case Caller => CallerStep(cfg, s)
    case Boot(i) =>
      if i < |s.workers| && i < |cfg.results| && i < |s.statuses| && i < |s.errs| then BootStep(cfg, s, i) else None
  }

  function CallerStep(cfg: Config, s: State): Option<State> {
    match s.main
    case Loop =>
      if s.next < |cfg.results| then Some(s.(wg := s.wg + 1, main := Acquire)) else Some(s.(main := Wait))
    case Acquire =>
      if s.sem < cfg.Cap() then Some(s.(sem := s.sem + 1, main := Spawn)) else None
    case Spawn =>
      if s.next < |s.workers| then
        Some(s.(workers := s.workers[s.next := Booting], next := s.next + 1, main := Loop))
      else None
    case Wait =>
      if s.wg == 0 then Some(s.(main := Returned(Result(s.statuses, s.errs)))) else None
    case Returned(_) => None
  }

  function BootStep(cfg: Config, s: State, i: nat): Option<State>
    requires i < |s.workers| && i < |cfg.results| && i < |s.statuses| && i < |s.errs|
  {
    match s.workers[i]
    case Absent => None
    case Booting => Some(s.(workers := s.workers[i := Locking], ran := s.ran + [i]))
    case Locking => if s.locked then None else Some(s.(workers := s.workers[i := Storing], locked := true))
    case Storing =>
      Some(s.(workers := s.workers[i := Recording],
              statuses := s.statuses[i := StatusOf(cfg.results[i])], errs := s.errs[i := ErrOf(cfg.results[i])]))
    case Recording =>
      Some(s.(workers := s.workers[i := Unlocking],
              records := if cfg.Records(i) then s.records + [i] else s.records))
    case Unlocking => Some(s.(workers := s.workers[i := Releasing], locked := false))
    case Releasing => if s.sem > 0 then Some(s.(workers := s.workers[i := Leaving], sem := s.sem - 1)) else None
    case Leaving => Some(s.(workers := s.workers[i := Gone], wg := s.wg - 1))
    case Gone => None
  }

  function StatusOf(r: BootResult): Option<int> {
    match r case Finished(st) => Some(st) case Failed(_) => None
  }

  function ErrOf(r: BootResult): Option<int> {
    match r case Finished(_) => None case Failed(e) => Some(e)
  }

  function Result(statuses: seq<Option<int>>, errs: seq<Option<int>>): Return {
    match FirstError(errs)
    case Some(e) => Error(e)
    case None => Statuses(statuses)
  }

  function FirstError(errs: seq<Option<int>>): Option<int> {
    if errs == [] then None else if errs[0].Some? then errs[0] else FirstError(errs[1..])
  }

  // A schedule: the threads in the order they step, none of them blocked.
  ghost predicate Run(cfg: Config, s: State, ts: seq<Thread>, s': State)
    decreases |ts|
  {
    if ts == [] then s' == s
    else Step(cfg, s, ts[0]).Some? && Run(cfg, Step(cfg, s, ts[0]).value, ts[1..], s')
  }

  // --- counting goroutines ------------------------------------------------

  // How far a goroutine has come.
  function Rank(w: Worker): nat {
    match w
    case Absent => 0 case Booting => 1 case Locking => 2 case Storing => 3 case Recording => 4
    case Unlocking => 5 case Releasing => 6 case Leaving => 7 case Gone => 8
  }

  // The goroutines between two ranks.
  function Between(ws: seq<Worker>, lo: nat, hi: nat): nat {
    if ws == [] then 0 else (if lo <= Rank(ws[0]) <= hi then 1 else 0) + Between(ws[1..], lo, hi)
  }

  lemma {:induction false} BetweenMove(ws: seq<Worker>, i: nat, w: Worker, lo: nat, hi: nat)
    requires i < |ws|
    ensures Between(ws[i := w], lo, hi) ==
      Between(ws, lo, hi) - (if lo <= Rank(ws[i]) <= hi then 1 else 0) + (if lo <= Rank(w) <= hi then 1 else 0)
  {
    if i == 0 {
      assert ws[i := w][1..] == ws[1..];
    } else {
      BetweenMove(ws[1..], i - 1, w, lo, hi);
      assert ws[i := w][1..] == ws[1..][i - 1 := w];
    }
  }

  // Nobody there, or a first one.
  lemma {:induction false} BetweenWitness(ws: seq<Worker>, lo: nat, hi: nat) returns (i: nat)
    ensures Between(ws, lo, hi) == 0 ==> forall j | 0 <= j < |ws| :: !(lo <= Rank(ws[j]) <= hi)
    ensures Between(ws, lo, hi) > 0 ==> i < |ws| && lo <= Rank(ws[i]) <= hi
  {
    i := 0;
    if ws != [] && !(lo <= Rank(ws[0]) <= hi) {
      i := BetweenWitness(ws[1..], lo, hi);
      i := i + 1;
      assert forall j | 1 <= j < |ws| :: ws[j] == ws[1..][j - 1];
    }
  }

  lemma {:induction false} BetweenMember(ws: seq<Worker>, i: nat, lo: nat, hi: nat)
    requires i < |ws| && 1 <= lo <= Rank(ws[i]) <= hi
    ensures Between(ws, lo, hi) >= 1
    ensures forall j | 0 <= j < |ws| && j != i && lo <= Rank(ws[j]) <= hi :: Between(ws, lo, hi) >= 2
  {
    forall j | 0 <= j < |ws| && j != i && lo <= Rank(ws[j]) <= hi ensures Between(ws, lo, hi) >= 2 {
      BetweenMove(ws, i, Absent, lo, hi);
      BetweenMove(ws[i := Absent], j, Absent, lo, hi);
    }
    BetweenMove(ws, i, Absent, lo, hi);
  }

  lemma {:induction false} BetweenMonotone(ws: seq<Worker>, lo: nat, hi: nat, lo': nat, hi': nat)
    requires lo' <= lo && hi <= hi'
    ensures Between(ws, lo, hi) <= Between(ws, lo', hi')
  {
    if ws != [] {
      BetweenMonotone(ws[1..], lo, hi, lo', hi');
    }
  }

  // --- the invariant ------------------------------------------------------

  predicate NoRepeats(s: seq<nat>) {
    forall i, j | 0 <= i < j < |s| :: s[i] != s[j]
  }

  ghost predicate Shape(cfg: Config, s: State) {
    && |s.workers| == |s.statuses| == |s.errs| == |cfg.results| && s.next <= |s.workers|
    && (forall i | 0 <= i < |s.workers| :: s.workers[i] == Absent <==> i >= s.next)
    && (s.main == Acquire || s.main == Spawn ==> s.next < |s.workers|)
    && (s.main == Wait || s.main.Returned? ==> s.next == |s.workers|)
  }

  // The channel holds one token per goroutine up to its deferred receive, the
  // wait group counts goroutines up to their Done, the mutex is one
  // goroutine's; each also counts what the caller has done ahead of a spawn.
  ghost predicate Counts(cfg: Config, s: State) {
    && s.sem == Between(s.workers, 1, 6) + (if s.main == Spawn then 1 else 0)
    && s.sem <= cfg.Cap()
    && s.wg == Between(s.workers, 1, 7) + (if s.main == Acquire || s.main == Spawn then 1 else 0)
    && Between(s.workers, 3, 5) == (if s.locked then 1 else 0)
    && (s.main.Returned? ==> s.wg == 0 && s.main.r == Result(s.statuses, s.errs))
  }

  // Each goroutine has filled its own slot and nothing else, has run its boot
  // once, and has recorded it once if it is to be recorded.
  ghost predicate Effects(cfg: Config, s: State)
    requires Shape(cfg, s)
  {
    && (forall i | 0 <= i < |s.workers| ::
          s.statuses[i] == (if Rank(s.workers[i]) >= 4 then StatusOf(cfg.results[i]) else None))
    && (forall i | 0 <= i < |s.workers| ::
          s.errs[i] == (if Rank(s.workers[i]) >= 4 then ErrOf(cfg.results[i]) else None))
    && NoRepeats(s.ran) && NoRepeats(s.records)
    && (forall i: nat :: i in s.ran <==> i < |s.workers| && Rank(s.workers[i]) >= 2)
    && (forall i: nat :: i in s.records <==> i < |s.workers| && Rank(s.workers[i]) >= 5 && cfg.Records(i))
  }

  ghost predicate Inv(cfg: Config, s: State) {
    Shape(cfg, s) && Counts(cfg, s) && Effects(cfg, s)
  }

  lemma {:induction false} BetweenAbsent(n: nat, lo: nat, hi: nat)
    requires lo >= 1
    ensures Between(seq(n, _ => Absent), lo, hi) == 0
  {
    if n > 0 {
      BetweenAbsent(n - 1, lo, hi);
      assert seq(n, _ => Absent)[1..] == seq(n - 1, _ => Absent);
    }
  }

  lemma InvInit(cfg: Config)
    ensures Inv(cfg, Init(cfg))
  {
    BetweenAbsent(|cfg.results|, 1, 6);
    BetweenAbsent(|cfg.results|, 1, 7);
    BetweenAbsent(|cfg.results|, 3, 5);
  }

  lemma InvCaller(cfg: Config, s: State)
    requires Inv(cfg, s) && CallerStep(cfg, s).Some?
    ensures Inv(cfg, CallerStep(cfg, s).value)
  {
    if s.main == Spawn {
      BetweenMove(s.workers, s.next, Booting, 1, 6);
      BetweenMove(s.workers, s.next, Booting, 1, 7);
      BetweenMove(s.workers, s.next, Booting, 3, 5);
    }
  }

  // A goroutine moves on by one place.
  function Onward(w: Worker): Worker {
    match w
    case Absent => Booting case Booting => Locking case Locking => Storing case Storing => Recording
    case Recording => Unlocking case Unlocking => Releasing case Releasing => Leaving case _ => Gone
  }

  // A boot's step moves its goroutine on and no other.
  lemma BootMoves(cfg: Config, s: State, i: nat)
    requires Shape(cfg, s) && i < |s.workers| && BootStep(cfg, s, i).Some?
    ensures var s' := BootStep(cfg, s, i).value;
      && s'.workers == s.workers[i := Onward(s.workers[i])] && s'.main == s.main && s'.next == s.next
      && 1 <= Rank(s.workers[i]) <= 7 && Rank(Onward(s.workers[i])) == Rank(s.workers[i]) + 1
      && Shape(cfg, s')
  {
  }

  lemma InvBoot(cfg: Config, s: State, i: nat)
    requires Inv(cfg, s) && i < |s.workers| && BootStep(cfg, s, i).Some?
    ensures Inv(cfg, BootStep(cfg, s, i).value)
  {
    hide Effects;
    BootMoves(cfg, s, i);
    CountsBoot(cfg, s, i);
    EffectsBoot(cfg, s, i);
  }

  lemma CountsBoot(cfg: Config, s: State, i: nat)
    requires Shape(cfg, s) && Counts(cfg, s) && i < |s.workers| && BootStep(cfg, s, i).Some?
    ensures Counts(cfg, BootStep(cfg, s, i).value)
  {
    hide Shape;
    hide Rank;
    hide Result;
    BootMoves(cfg, s, i);
    var w := s.workers[i];
    BetweenMove(s.workers, i, Onward(w), 1, 6);
    BetweenMove(s.workers, i, Onward(w), 1, 7);
    BetweenMove(s.workers, i, Onward(w), 3, 5);
    BetweenMember(s.workers, i, 1, 7);
    RankOf(w);
  }

  lemma RankOf(w: Worker)
    ensures Rank(w) == 2 <==> w == Locking
    ensures Rank(w) == 5 <==> w == Unlocking
    ensures Rank(w) == 6 <==> w == Releasing
    ensures Rank(w) == 7 <==> w == Leaving
  {
  }

  lemma EffectsBoot(cfg: Config, s: State, i: nat)
    requires Shape(cfg, s) && Effects(cfg, s) && i < |s.workers| && BootStep(cfg, s, i).Some?
    ensures var s' := BootStep(cfg, s, i).value; Shape(cfg, s') && Effects(cfg, s')
  {
    hide Between;
    BootMoves(cfg, s, i);
    var s' := BootStep(cfg, s, i).value;
    forall j | 0 <= j < |s.workers| && j != i ensures s'.workers[j] == s.workers[j] {}
    Appended(s.ran, i);
    Appended(s.records, i);
  }

  lemma Appended(s: seq<nat>, i: nat)
    requires NoRepeats(s)
    ensures i !in s ==> NoRepeats(s + [i])
    ensures forall j: nat :: j in s + [i] <==> j in s || j == i
  {
  }

  // Every schedule keeps the invariant.
  lemma {:induction false} InvRun(cfg: Config, s: State, ts: seq<Thread>, s': State)
    requires Inv(cfg, s) && Run(cfg, s, ts, s')
    ensures Inv(cfg, s')
    decreases |ts|
  {
    if ts != [] {
      match ts[0] {
        case Caller => InvCaller(cfg, s);
        case Boot(i) => InvBoot(cfg, s, i);
      }
      InvRun(cfg, Step(cfg, s, ts[0]).value, ts[1..], s');
    }
  }

  // --- the theorems -------------------------------------------------------

  // The goroutines inside runBoot.
  function Running(s: State): nat {
    Between(s.workers, 1, 1)
  }

  // Whatever the schedule: never more than max(1, jobs) boots at once, no
  // boot run or recorded twice, and a slot is empty or its own boot's result.
  lemma BoundedAndOnce(cfg: Config, ts: seq<Thread>, s: State)
    requires Run(cfg, Init(cfg), ts, s)
    ensures Running(s) <= cfg.Cap()
    ensures NoRepeats(s.ran) && NoRepeats(s.records) && forall i <- s.records :: i in s.ran
    ensures |s.statuses| == |s.errs| == |cfg.results|
    ensures forall i | 0 <= i < |s.statuses| ::
      (s.statuses[i], s.errs[i]) == (None, None)
      || (s.statuses[i], s.errs[i]) == (StatusOf(cfg.results[i]), ErrOf(cfg.results[i]))
  {
    InvInit(cfg);
    InvRun(cfg, Init(cfg), ts, s);
    BetweenMonotone(s.workers, 1, 1, 1, 6);
  }

  // Until the pool returns, some thread can step: no deadlock.
  lemma NoDeadlock(cfg: Config, s: State) returns (t: Thread)
    requires Inv(cfg, s) && !s.main.Returned?
    ensures Step(cfg, s, t).Some?
  {
    hide Effects;
    t := Caller;
    if CallerStep(cfg, s).None? {
      // Blocked on the full channel or in wg.Wait: some goroutine is alive.
      var i := BetweenWitness(s.workers, 1, if s.main == Acquire then 6 else 7);
      if s.workers[i] == Locking && s.locked {
        i := BetweenWitness(s.workers, 3, 5);
      } else if s.workers[i] == Releasing {
        BetweenMember(s.workers, i, 1, 6);
      }
      t := Boot(i);
    }
  }

  // The steps left: two for the caller at the end, three for it and seven for
  // the boot for every boot still to come.
  function Left(ws: seq<Worker>): nat {
    if ws == [] then 0
    else (if ws[0] == Absent then 7 else 8 - Rank(ws[0])) + Left(ws[1..])
  }

  function Measure(s: State): int {
    Left(s.workers) + match s.main
    case Loop => 3 * (|s.workers| - s.next) + 2
    case Acquire => 3 * (|s.workers| - s.next) + 1
    case Spawn => 3 * (|s.workers| - s.next)
    case Wait => 1
    case Returned(_) => 0
  }

  lemma {:induction false} LeftMove(ws: seq<Worker>, i: nat, w: Worker)
    requires i < |ws|
    ensures Left(ws[i := w]) == Left(ws) - (if ws[i] == Absent then 7 else 8 - Rank(ws[i]))
      + (if w == Absent then 7 else 8 - Rank(w))
  {
    if i == 0 {
      assert ws[i := w][1..] == ws[1..];
    } else {
      LeftMove(ws[1..], i - 1, w);
      assert ws[i := w][1..] == ws[1..][i - 1 := w];
    }
  }

  lemma StepMeasure(cfg: Config, s: State, t: Thread)
    requires Inv(cfg, s) && Step(cfg, s, t).Some?
    ensures Measure(Step(cfg, s, t).value) == Measure(s) - 1
  {
    hide Effects;
    hide Counts;
    match t {
      case Caller => if s.main == Spawn { LeftMove(s.workers, s.next, Booting); }
      case Boot(i) => BootMoves(cfg, s, i); LeftMove(s.workers, i, Onward(s.workers[i]));
    }
  }

  lemma {:induction false} RunMeasure(cfg: Config, s: State, ts: seq<Thread>, s': State)
    requires Inv(cfg, s) && Run(cfg, s, ts, s')
    ensures Measure(s') == Measure(s) - |ts|
    decreases |ts|
  {
    if ts != [] {
      var s1 := Step(cfg, s, ts[0]).value;
      StepMeasure(cfg, s, ts[0]);
      InvRun(cfg, s, [ts[0]], s1);
      RunMeasure(cfg, s1, ts[1..], s');
    }
  }

  lemma {:induction false} LeftAbsent(n: nat)
    ensures Left(seq(n, _ => Absent)) == 7 * n
  {
    if n > 0 {
      LeftAbsent(n - 1);
      assert seq(n, _ => Absent)[1..] == seq(n - 1, _ => Absent);
    }
  }

  lemma {:induction false} LeftGone(ws: seq<Worker>)
    requires forall i | 0 <= i < |ws| :: ws[i] == Gone
    ensures Left(ws) == 0
  {
    if ws != [] {
      LeftGone(ws[1..]);
    }
  }

  // Every schedule ends: with n boots the pool has returned after exactly
  // 10n + 2 steps, whatever their order, and not before.
  lemma AlwaysReturns(cfg: Config, ts: seq<Thread>, s: State)
    requires Run(cfg, Init(cfg), ts, s)
    ensures |ts| <= 10 * |cfg.results| + 2
    ensures s.main.Returned? <==> |ts| == 10 * |cfg.results| + 2
  {
    InvInit(cfg);
    InvRun(cfg, Init(cfg), ts, s);
    RunMeasure(cfg, Init(cfg), ts, s);
    LeftAbsent(|cfg.results|);
    if s.main.Returned? {
      AllGone(cfg, s);
      LeftGone(s.workers);
    }
  }

  lemma AllGone(cfg: Config, s: State)
    requires Inv(cfg, s) && s.main.Returned?
    ensures forall i | 0 <= i < |s.workers| :: s.workers[i] == Gone
  {
    hide Effects;
    var i := BetweenWitness(s.workers, 1, 7);
  }

  // The first error of the boots, in boot order.
  function FirstFailure(results: seq<BootResult>): Option<int> {
    if results == [] then None
    else if results[0].Failed? then Some(results[0].err)
    else FirstFailure(results[1..])
  }

  lemma {:induction false} FirstErrorIsFirstFailure(results: seq<BootResult>, errs: seq<Option<int>>)
    requires |errs| == |results| && forall i | 0 <= i < |errs| :: errs[i] == ErrOf(results[i])
    ensures FirstError(errs) == FirstFailure(results)
  {
    if errs != [] {
      FirstErrorIsFirstFailure(results[1..], errs[1..]);
    }
  }

  // What the pool returns and leaves behind depends on the boots' results
  // alone: the lowest-index error wins, every boot ran exactly once, and
  // exactly the successes of a run that is not dry are recorded.
  lemma ReturnIsDetermined(cfg: Config, ts: seq<Thread>, s: State)
    requires Run(cfg, Init(cfg), ts, s) && s.main.Returned?
    ensures match FirstFailure(cfg.results)
      case Some(e) => s.main.r == Error(e)
      case None =>
        s.main.r == Statuses(seq(|cfg.results|, i requires 0 <= i < |cfg.results| => StatusOf(cfg.results[i])))
    ensures NoRepeats(s.ran) && forall i: nat :: i in s.ran <==> i < |cfg.results|
    ensures NoRepeats(s.records) && forall i: nat :: i in s.records <==> i < |cfg.results| && cfg.Records(i)
  {
    InvInit(cfg);
    InvRun(cfg, Init(cfg), ts, s);
    AllGone(cfg, s);
    FirstErrorIsFirstFailure(cfg.results, s.errs);
    if FirstFailure(cfg.results).None? {
      assert s.statuses == seq(|cfg.results|, i requires 0 <= i < |cfg.results| => StatusOf(cfg.results[i]));
    }
  }

  // --- one job ------------------------------------------------------------

  predicate Increasing(s: seq<nat>) {
    forall i, j | 0 <= i < j < |s| :: s[i] < s[j]
  }

  // With one token a boot is spawned only after the one before has given its
  // token back, having recorded itself.
  ghost predicate InOrder(s: State) {
    && (forall i, j | 0 <= i < j < |s.workers| && s.workers[j] != Absent :: Rank(s.workers[i]) >= 7)
    && (s.main == Spawn ==> forall i | 0 <= i < |s.workers| && s.workers[i] != Absent :: Rank(s.workers[i]) >= 7)
    && Increasing(s.records)
  }

  lemma InOrderStep(cfg: Config, s: State, t: Thread)
    requires Inv(cfg, s) && InOrder(s) && cfg.Cap() == 1 && Step(cfg, s, t).Some?
    ensures InOrder(Step(cfg, s, t).value)
  {
    var s' := Step(cfg, s, t).value;
    match t {
      case Caller =>
        if s.main == Acquire {
          var i := BetweenWitness(s.workers, 1, 6);
        }
      case Boot(i) =>
        BootMoves(cfg, s, i);
        RecordsBefore(cfg, s, i);
    }
  }

  lemma RecordsBefore(cfg: Config, s: State, i: nat)
    requires Inv(cfg, s) && InOrder(s) && i < |s.workers| && s.workers[i] != Absent
    ensures Rank(s.workers[i]) < 5 ==> forall r <- s.records :: r < i
    ensures Rank(s.workers[i]) < 5 ==> Increasing(s.records + [i])
  {
    assert forall k | 0 <= k < |s.records| :: s.records[k] in s.records;
  }

  lemma {:induction false} InOrderRun(cfg: Config, s: State, ts: seq<Thread>, s': State)
    requires Inv(cfg, s) && InOrder(s) && cfg.Cap() == 1 && Run(cfg, s, ts, s')
    ensures InOrder(s')
    decreases |ts|
  {
    if ts != [] {
      var s1 := Step(cfg, s, ts[0]).value;
      InOrderStep(cfg, s, ts[0]);
      InvRun(cfg, s, [ts[0]], s1);
      InOrderRun(cfg, s1, ts[1..], s');
    }
  }

  // The boots to record, in boot order.
  function ToRecord(cfg: Config, n: nat): (r: seq<nat>)
    requires n <= |cfg.results|
    ensures forall i: nat :: i in r <==> i < n && cfg.Records(i)
    ensures Increasing(r)
  {
    if n == 0 then [] else
    var r := ToRecord(cfg, n - 1);
    assert forall k | 0 <= k < |r| :: r[k] in r;
    if cfg.Records(n - 1) then r + [n - 1] else r
  }

  lemma NoneIn(b: seq<nat>)
    ensures (forall i: nat :: i !in b) ==> b == []
  {
    if b != [] { assert b[0] in b; }
  }

  lemma {:induction false} IncreasingUnique(a: seq<nat>, b: seq<nat>)
    requires Increasing(a) && Increasing(b) && forall i: nat :: i in a <==> i in b
    ensures a == b
  {
    if a == [] {
      NoneIn(b);
    } else {
      assert a[0] in a && a[0] in b && b != [] && b[0] in b;
      var k :| 0 <= k < |b| && b[k] == a[0];
      var j :| 0 <= j < |a| && a[j] == b[0];
      assert a[0] == b[0];
      forall i: nat ensures i in a[1..] <==> i in b[1..] {
        if i in a[1..] { assert i in a && i > a[0]; }
        if i in b[1..] { assert i in b && i > b[0]; }
      }
      IncreasingUnique(a[1..], b[1..]);
    }
  }

  // With one job the records are made in boot order: at every moment they
  // are increasing, and when the pool returns they are the successes in turn.
  lemma OneJobRecordsInOrder(cfg: Config, ts: seq<Thread>, s: State)
    requires cfg.jobs <= 1 && Run(cfg, Init(cfg), ts, s)
    ensures Increasing(s.records)
    ensures s.main.Returned? ==> s.records == ToRecord(cfg, |cfg.results|)
  {
    InvInit(cfg);
    InOrderRun(cfg, Init(cfg), ts, s);
    if s.main.Returned? {
      ReturnIsDetermined(cfg, ts, s);
      IncreasingUnique(s.records, ToRecord(cfg, |cfg.results|));
    }
  }
}
