// guestRun and its alarm (main.go:78-176): the vCPU thread, the alarm's goroutine and the world, step by step.
module Alarm {
  import opened Options

  const EXIT_MMIO: int := 6
  const MMIO_REPORT: nat := 0xd000_0000
  const MMIO_EVENT: nat := 0xd000_1000

  datatype Errno = EINTR | Other(code: int)

  // One return of KVM_RUN without an error.
  datatype Exit = Mmio(write: bool, pa: nat, data: nat) | NotMmio(reason: int)

  datatype Outcome = Outcome(
    reports: nat, lastRflags: nat, events: nat, lastEvent: nat, exits: nat, stoppedBy: Option<int>, err: Option<Errno>)

  // The vCPU thread: at the loop test, inside KVM_RUN, back from it with an
  // error or an exit, before close(a.stop), in <-a.done, back in the caller.
  datatype Main = Check | InRun | Errored(e: Errno) | Exited(x: Exit) | Cancelling | Joining | Returned

  // The alarm's goroutine: in its first select, before fired.Store, before
  // Tgkill, in the second select, before the deferred close of done, ended.
  datatype Goroutine = Waiting | Storing | Killing | Pausing | Closing | Ended

  datatype State = State(
    main: Main, o: Outcome, alarm: Goroutine, fired: bool, stop: bool, done: bool,
    signal: bool,   // this alarm's SIGALRM has reached the thread inside KVM_RUN
    sent: nat,      // Tgkills so far
    strays: nat,    // interruptions that are not this alarm's still to come
    log: seq<Exit>) // the exits handled so far, in order

  // What can happen next.  The thread's own steps and the world's answers to
  // KVM_RUN are the run; Timer, Stop, and Proceed are the goroutine's.
  datatype Event =
    | Thread                       // the vCPU thread's next statement
    | Interrupt(own: bool)         // KVM_RUN returns EINTR
    | Fail(code: int)              // KVM_RUN returns another error
    | GuestExit(x: Exit)           // KVM_RUN returns 0
    | Timer                        // a timer the goroutine selects on expires
    | StopSeen                     // the goroutine's select takes the closed stop
    | Proceed                      // the goroutine's next statement

  function Init(strays: nat): State {
    State(Check, Outcome(0, 0, 0, 0, 0, None, None), Waiting, false, false, false, false, 0, strays, [])
  }

  // The state after an event; None when it cannot happen now.
  function Step(want: int, s: State, e: Event): Option<State> {
    match e
    case Thread => ThreadStep(want, s)
    case Interrupt(own) =>
      if s.main != InRun then None
      else if own then (if s.signal then Some(s.(main := Errored(EINTR), signal := false)) else None)
      else if s.strays > 0 then Some(s.(main := Errored(EINTR), strays := s.strays - 1, signal := false)) else None
    case Fail(code) =>
      if s.main == InRun then Some(s.(main := Errored(Other(code)), signal := false)) else None
    case GuestExit(x) =>
      if s.main == InRun then Some(s.(main := Exited(x), signal := false)) else None
    case Timer =>
      if s.alarm == Waiting then Some(s.(alarm := Storing))
      else if s.alarm == Pausing then Some(s.(alarm := Killing)) else None
    case StopSeen =>
      if (s.alarm == Waiting || s.alarm == Pausing) && s.stop then Some(s.(alarm := Closing)) else None
    case Proceed =>
      match s.alarm
      case Storing => Some(s.(alarm := Killing, fired := true))
      // Outside KVM_RUN the handler runs at once and the signal is gone.
      case Killing => Some(s.(alarm := Pausing, sent := s.sent + 1, signal := s.signal || s.main == InRun))
      case Closing => Some(s.(alarm := Ended, done := true))
      case _ => None
  }

  // One exit into the outcome; false when it ends the loop.
  function Handle(was: Outcome, x: Exit): (Outcome, bool) {
    var o := was.(exits := was.exits + 1);
    if x.NotMmio? then (o.(stoppedBy := Some(x.reason)), false)
    else if !x.write then (o.(stoppedBy := Some(EXIT_MMIO)), false)
    else if x.pa == MMIO_REPORT then (o.(lastRflags := x.data, reports := o.reports + 1), true)
    else if x.pa == MMIO_EVENT then (o.(lastEvent := x.data, events := o.events + 1), false)
    else (o.(stoppedBy := Some(EXIT_MMIO)), false)
  }

  function ThreadStep(want: int, s: State): Option<State> {
    match s.main
    case Check => Some(s.(main := if s.o.reports < want then InRun else Cancelling))
    case InRun => None
    case Errored(e) =>
      if e == EINTR && !s.fired then Some(s.(main := Check))
      else Some(s.(o := s.o.(err := Some(e)), main := Cancelling))
    case Exited(x) =>
      var (o, more) := Handle(s.o, x);
      Some(s.(o := o, log := s.log + [x], main := if more then Check else Cancelling))
    case Cancelling => Some(s.(stop := true, main := Joining))
    case Joining => if s.done then Some(s.(main := Returned)) else None
    case Returned => None
  }

  ghost predicate Run(want: int, s: State, es: seq<Event>, s': State)
    decreases |es|
  {
    if es == [] then s' == s
    else Step(want, s, es[0]).Some? && Run(want, Step(want, s, es[0]).value, es[1..], s')
  }

  // --- what the outcome should say ----------------------------------------

  predicate IsReport(x: Exit) {
    x.Mmio? && x.write && x.pa == MMIO_REPORT
  }

  predicate IsEvent(x: Exit) {
    x.Mmio? && x.write && x.pa == MMIO_EVENT
  }

  // How many of a run's exits were reports, or events, and what the last one
  // carried.
  function Count(log: seq<Exit>, events: bool): nat {
    if log == [] then 0 else
    var x := log[|log| - 1];
    Count(log[..|log| - 1], events) + if (if events then IsEvent(x) else IsReport(x)) then 1 else 0
  }

  function LastData(log: seq<Exit>, events: bool): nat {
    if log == [] then 0 else
    var x := log[|log| - 1];
    if x.Mmio? && (if events then IsEvent(x) else IsReport(x)) then x.data else LastData(log[..|log| - 1], events)
  }

  // The reason of a run whose last exit was neither report nor event.
  function StopReason(log: seq<Exit>): Option<int> {
    if log == [] then None else
    var x := log[|log| - 1];
    if x.NotMmio? then Some(x.reason) else if IsReport(x) || IsEvent(x) then None else Some(EXIT_MMIO)
  }

  ghost predicate Tells(o: Outcome, log: seq<Exit>) {
    && o.exits == |log| && o.reports == Count(log, false) && o.events == Count(log, true)
    && o.lastRflags == LastData(log, false) && o.lastEvent == LastData(log, true)
    && o.stoppedBy == StopReason(log)
  }

  // --- the invariant ------------------------------------------------------

  // Why the loop was left, if it was: an event report, a stop, or an error.
  function Breaks(o: Outcome): nat {
    o.events + (if o.stoppedBy.Some? then 1 else 0) + (if o.err.Some? then 1 else 0)
  }

  predicate Left(m: Main) {
    m == Cancelling || m == Joining || m == Returned
  }

  ghost predicate Inv(want: int, s: State) {
    // The account of KVM_RUN's returns.
    && s.o.exits == s.o.reports + s.o.events + (if s.o.stoppedBy.Some? then 1 else 0)
    && Tells(s.o, s.log)
    && (s.o.reports <= want || s.o.reports == 0)
    && (s.main == InRun || s.main.Errored? || s.main.Exited? ==> s.o.reports < want)
    && Breaks(s.o) <= 1
    && (Breaks(s.o) == 1 ==> Left(s.main) && s.o.reports < want)
    && (Left(s.main) ==> Breaks(s.o) == 1 || s.o.reports >= want)
    && (s.o.err == Some(EINTR) ==> s.fired)
    // The alarm's life: it fires before it signals, and ends only when told.
    && (s.alarm == Waiting || s.alarm == Storing ==> !s.fired)
    && (s.alarm == Killing || s.alarm == Pausing ==> s.fired)
    && (s.sent > 0 || s.signal ==> s.fired)
    && (s.stop <==> s.main == Joining || s.main == Returned)
    && (s.alarm == Closing || s.alarm == Ended ==> s.stop)
    && (s.done <==> s.alarm == Ended)
    && (s.main == Returned ==> s.done)
    && (s.signal ==> s.main == InRun)
  }

  lemma InvStep(want: int, s: State, e: Event)
    requires Inv(want, s) && Step(want, s, e).Some?
    ensures Inv(want, Step(want, s, e).value)
  {
    hide Tells;
    TellsStep(want, s, e);
  }

  lemma TellsStep(want: int, s: State, e: Event)
    requires Tells(s.o, s.log) && Step(want, s, e).Some? && (s.main.Exited? ==> Breaks(s.o) == 0)
    ensures var s' := Step(want, s, e).value; Tells(s'.o, s'.log)
  {
    hide Handle;
    hide Count;
    hide LastData;
    hide StopReason;
    if e == Thread && s.main.Exited? {
      HandleTells(s.o, s.log, s.main.x);
    }
  }

  lemma HandleTells(o: Outcome, log: seq<Exit>, x: Exit)
    requires Tells(o, log) && Breaks(o) == 0
    ensures Tells(Handle(o, x).0, log + [x])
  {
    assert (log + [x])[..|log|] == log;
  }

  lemma InvInit(want: int, strays: nat)
    ensures Inv(want, Init(strays))
  {
  }

  lemma {:induction false} InvRun(want: int, s: State, es: seq<Event>, s': State)
    requires Inv(want, s) && Run(want, s, es, s')
    ensures Inv(want, s')
    decreases |es|
  {
    hide Tells;
    if es != [] {
      InvStep(want, s, es[0]);
      InvRun(want, Step(want, s, es[0]).value, es[1..], s');
    }
  }

  // --- the theorems -------------------------------------------------------

  // The outcome tells the exits the run has handled -- their number, the
  // reports and events among them and the last of each -- and accounts for
  // every one at every moment; and a run that has returned did so for exactly one reason: the
  // reports it waited for, an event, a stop, or an error -- EINTR only if
  // this run's own alarm had fired.
  lemma Accounts(want: int, strays: nat, es: seq<Event>, s: State)
    requires Run(want, Init(strays), es, s)
    ensures Tells(s.o, s.log)
    ensures s.o.exits == s.o.reports + s.o.events + (if s.o.stoppedBy.Some? then 1 else 0)
    ensures s.o.err == Some(EINTR) ==> s.fired
    ensures s.main == Returned ==> Breaks(s.o) == if s.o.reports >= want then 0 else 1
    ensures s.o.reports > 0 ==> s.o.reports <= want
  {
    hide Tells;
    InvInit(want, strays);
    InvRun(want, Init(strays), es, s);
  }

  // An EINTR before the alarm has fired -- a runtime signal, a leftover
  // SIGALRM -- costs a retry and nothing else; the alarm's own never does.
  lemma RetryIsFree(want: int, s: State)
    requires Inv(want, s) && s.main == Errored(EINTR)
    ensures !s.fired ==> ThreadStep(want, s) == Some(s.(main := Check))
    ensures s.fired ==> ThreadStep(want, s) == Some(s.(o := s.o.(err := Some(EINTR)), main := Cancelling))
    ensures s.sent > 0 ==> s.fired
  {
    hide Tells;
  }

  // The goroutine is there until cancel closes stop, so done is never closed
  // ahead of it; and once cancel has returned nothing happens any more: no
  // signal is sent to the thread of a later run.
  lemma QuietAfterCancel(want: int, strays: nat, es: seq<Event>, s: State, e: Event)
    requires Run(want, Init(strays), es, s)
    ensures s.done || s.alarm == Closing ==> s.stop
    ensures s.main == Returned ==> Step(want, s, e).None?
  {
    hide Tells;
    InvInit(want, strays);
    InvRun(want, Init(strays), es, s);
  }

  // The events that need nothing from the guest, KVM or stray signals.
  predicate OwnEvent(e: Event) {
    e == Thread || e == Timer || e == StopSeen || e == Proceed || e == Interrupt(true)
  }

  // The next of them on the way out.
  function Rescue(s: State): Event {
    match s.main
    case InRun =>
      if s.signal then Interrupt(true)
      else if s.alarm == Waiting || s.alarm == Pausing then Timer
      else Proceed
    case Joining =>
      if s.done then Thread else if s.alarm == Waiting || s.alarm == Pausing then StopSeen else Proceed
    case _ => Thread
  }

  // What is left of the way out, with no more guest exits.
  function Distance(s: State): nat {
    match s.main
    case InRun => 20 + (if s.signal then 0 else match s.alarm
      case Waiting => 3 case Storing => 2 case Pausing => 2 case _ => 1)
    case Errored(e) => if e == EINTR && !s.fired then 25 else 19
    case Exited(x) => 25
    case Check => 24
    case Cancelling => 18
    case Joining => if s.done then 1 else (match s.alarm
      case Storing => 6 case Killing => 5 case Closing => 2 case _ => 4)
    case Returned => 0
  }

  // No deadlock, and no hang on a guest that never exits: from every
  // reachable state the two threads alone reach the return.
  lemma {:induction false} Rescued(want: int, s: State) returns (es: seq<Event>, s': State)
    requires Inv(want, s)
    ensures Run(want, s, es, s') && s'.main == Returned && forall e <- es :: OwnEvent(e)
    ensures |es| <= Distance(s)
    ensures s.fired ==> s'.fired
    ensures Left(s.main) ==> s'.o == s.o
    ensures s.main == InRun || (s.main == Errored(EINTR) && s.fired) ==> s'.o == s.o.(err := Some(EINTR)) && s'.fired
    ensures s.main == InRun || (s.main == Errored(EINTR) && s.fired) || Left(s.main) ==> s'.log == s.log
    decreases Distance(s)
  {
    hide Tells;
    if s.main == Returned {
      es, s' := [], s;
    } else {
      var e := Rescue(s);
      RescueSteps(want, s);
      var s1 := Step(want, s, e).value;
      InvStep(want, s, e);
      es, s' := Rescued(want, s1);
      es := [e] + es;
    }
  }

  lemma RescueSteps(want: int, s: State)
    requires Inv(want, s) && s.main != Returned
    ensures Step(want, s, Rescue(s)).Some?
    ensures Distance(Step(want, s, Rescue(s)).value) < Distance(s)
  {
    hide Tells;
  }

  // --- stray interruptions never show -------------------------------------

  // es' is es with some of the thread's steps and stray interruptions left out.
  ghost predicate Thinned(es: seq<Event>, es': seq<Event>)
    decreases |es|
  {
    if es == [] then es' == []
    else
      || (es' != [] && es'[0] == es[0] && Thinned(es[1..], es'[1..]))
      || ((es[0] == Thread || es[0] == Interrupt(false)) && Thinned(es[1..], es'))
  }

  // Interruptions a schedule takes that are not the alarm's.
  function Strays(es: seq<Event>): nat {
    if es == [] then 0 else (if es[0] == Interrupt(false) then 1 else 0) + Strays(es[1..])
  }

  // t is s with no stray interruptions: still inside KVM_RUN where s is on its
  // way round to it again.  A signal s missed on that way may have reached t.
  ghost predicate Undisturbed(want: int, s: State, t: State) {
    && t == s.(main := t.main, signal := t.signal, strays := 0)
    && (s.signal ==> t.signal)
    && (t.main == s.main || (t.main == InRun && (s.main == Errored(EINTR) || (s.main == Check && s.o.reports < want))))
  }

  // The steps t still saves: the interruption was one, the rest is to come.
  function Ahead(s: State, t: State): nat {
    if t.main == s.main then 0 else if s.main == Check then 1 else 2
  }

  // Once the loop is left, outcome and log are final.
  lemma {:induction false} LeftIsFinal(want: int, s: State, es: seq<Event>, s': State)
    requires Run(want, s, es, s') && Left(s.main)
    ensures s'.o == s.o && s'.log == s.log
    decreases |es|
  {
    if es != [] {
      LeftIsFinal(want, Step(want, s, es[0]).value, es[1..], s');
    }
  }

  // The same schedule for t, an event at a time: t takes what s takes, but for
  // a stray interruption and the two steps back into KVM_RUN.
  lemma UndisturbedStep(want: int, s: State, t: State, e: Event)
    requires Inv(want, s) && Inv(want, t) && Undisturbed(want, s, t) && Step(want, s, e).Some?
    requires !(e == Thread && t.main != s.main && s.main == Errored(EINTR) && s.fired)
    ensures var s1 := Step(want, s, e).value;
      if e == Interrupt(false) || (e == Thread && t.main != s.main) then
        Undisturbed(want, s1, t) && Ahead(s1, t) == Ahead(s, t) + if e == Thread then -1 else 2
      else
        Step(want, t, e).Some? && Undisturbed(want, s1, Step(want, t, e).value)
        && Ahead(s1, Step(want, t, e).value) == Ahead(s, t)
  {
    hide Tells;
    hide Handle;
  }

  lemma {:induction false} UndisturbedRun(want: int, s: State, t: State, es: seq<Event>, s': State)
      returns (es': seq<Event>, t': State)
    requires Inv(want, s) && Inv(want, t) && Undisturbed(want, s, t)
    requires Run(want, s, es, s') && s'.main == Returned
    ensures Run(want, t, es', t') && t'.main == Returned && t'.o == s'.o && t'.log == s'.log
    ensures s'.o.err != Some(EINTR) ==> Thinned(es, es') && |es'| == |es| - 3 * Strays(es) - Ahead(s, t)
    decreases |es|
  {
    hide Tells;
    hide Step;
    hide Inv;
    if es == [] {
      es', t' := [], t;
      assert t.main == s.main;
    } else {
      var e := es[0];
      var s1 := Step(want, s, e).value;
      InvStep(want, s, e);
      if e == Thread && t.main != s.main && s.main == Errored(EINTR) && s.fired {
        es', t' := Rescued(want, t);
        FailsWith(want, s);
        LeftIsFinal(want, s1, es[1..], s');
      } else {
        UndisturbedStep(want, s, t, e);
        if e == Interrupt(false) || (e == Thread && t.main != s.main) {
          es', t' := UndisturbedRun(want, s1, t, es[1..], s');
        } else {
          var t1 := Step(want, t, e).value;
          InvStep(want, t, e);
          es', t' := UndisturbedRun(want, s1, t1, es[1..], s');
          es' := [e] + es';
          assert es'[1..] == es'[1..];
        }
      }
    }
  }

  lemma FailsWith(want: int, s: State)
    requires Inv(want, s) && s.main == Errored(EINTR) && s.fired
    ensures Step(want, s, Thread) == Some(s.(o := s.o.(err := Some(EINTR)), main := Cancelling))
  {
    RetryIsFree(want, s);
  }

  // Any run that has returned, whatever interrupted it, has a run without
  // stray interruptions that returned with the same outcome after the same
  // exits.  Unless it was the alarm that ended it, that run is the same
  // schedule with each stray interruption and its two steps left out.
  lemma StraysAreFree(want: int, strays: nat, es: seq<Event>, s: State) returns (es': seq<Event>, s': State)
    requires Run(want, Init(strays), es, s) && s.main == Returned
    ensures Run(want, Init(0), es', s') && s'.main == Returned && s'.o == s.o && s'.log == s.log
    ensures s.o.err != Some(EINTR) ==> Thinned(es, es') && |es'| == |es| - 3 * Strays(es)
  {
    hide Tells;
    InvInit(want, strays);
    InvInit(want, 0);
    es', s' := UndisturbedRun(want, Init(strays), Init(0), es, s);
  }

  // A run stays possible with more interruptions in store.
  function Stocked(s: State, n: nat): State {
    s.(strays := s.strays + n)
  }

  lemma StockedThread(want: int, s: State, n: nat)
    requires ThreadStep(want, s).Some?
    ensures ThreadStep(want, Stocked(s, n)) == Some(Stocked(ThreadStep(want, s).value, n))
  {
    hide Handle;
  }

  lemma StockedStep(want: int, s: State, e: Event, n: nat)
    requires Step(want, s, e).Some?
    ensures Step(want, Stocked(s, n), e) == Some(Stocked(Step(want, s, e).value, n))
  {
    hide ThreadStep;
    if e == Thread {
      StockedThread(want, s, n);
    }
  }

  lemma {:induction false} StockedRun(want: int, s: State, es: seq<Event>, s': State, n: nat)
    requires Run(want, s, es, s')
    ensures Run(want, Stocked(s, n), es, Stocked(s', n))
    decreases |es|
  {
    hide Step;
    hide Stocked;
    if es != [] {
      StockedStep(want, s, es[0], n);
      StockedRun(want, Step(want, s, es[0]).value, es[1..], s', n);
    }
  }

  ghost predicate CanReturn(want: int, strays: nat, o: Outcome, log: seq<Exit>) {
    exists es: seq<Event>, s: State :: Run(want, Init(strays), es, s) && s.main == Returned && s.o == o && s.log == log
  }

  // What guestRun can return does not depend on the interruptions at all.
  lemma StraysNeverShow(want: int, strays: nat, o: Outcome, log: seq<Exit>)
    ensures CanReturn(want, strays, o, log) <==> CanReturn(want, 0, o, log)
  {
    if CanReturn(want, strays, o, log) {
      var es: seq<Event>, s: State :| Run(want, Init(strays), es, s) && s.main == Returned && s.o == o && s.log == log;
      var es', s' := StraysAreFree(want, strays, es, s);
    }
    if CanReturn(want, 0, o, log) {
      var es: seq<Event>, s: State :| Run(want, Init(0), es, s) && s.main == Returned && s.o == o && s.log == log;
      StockedRun(want, Init(0), es, s, strays);
      assert Run(want, Init(strays), es, Stocked(s, strays));
    }
  }

  // --- the run is bounded -------------------------------------------------

  // The vCPU thread's and KVM_RUN's share of a schedule.
  predicate InLoop(e: Event) {
    e == Thread || e.Interrupt? || e.Fail? || e.GuestExit?
  }

  function LoopEvents(es: seq<Event>): nat {
    if es == [] then 0 else (if InLoop(es[0]) then 1 else 0) + LoopEvents(es[1..])
  }

  // Each report wanted and each interruption in store pays for three steps.
  function Budget(want: int, s: State): int {
    3 * (if want > s.o.reports then want - s.o.reports else 0) + 3 * s.strays + match s.main
    case Check => 6
    case InRun => 5
    case Errored(e) => if e == EINTR && !s.fired then 7 else 4
    case Exited(_) => 4
    case Cancelling => 2
    case Joining => 1
    case Returned => 0
  }

  lemma BudgetStep(want: int, s: State, e: Event)
    requires Inv(want, s) && Step(want, s, e).Some?
    ensures Budget(want, Step(want, s, e).value) <= Budget(want, s) - if InLoop(e) then 1 else 0
  {
    hide Tells;
  }

  lemma {:induction false} BudgetRun(want: int, s: State, es: seq<Event>, s': State)
    requires Inv(want, s) && Run(want, s, es, s')
    ensures LoopEvents(es) <= Budget(want, s) - Budget(want, s')
    decreases |es|
  {
    hide Tells;
    if es != [] {
      var s1 := Step(want, s, es[0]).value;
      InvStep(want, s, es[0]);
      BudgetStep(want, s, es[0]);
      BudgetRun(want, s1, es[1..], s');
    }
  }

  // However often the alarm goes round, the loop itself takes at most three
  // steps for each report wanted and each stray interruption, and six more.
  lemma LoopIsBounded(want: int, strays: nat, es: seq<Event>, s: State)
    requires Run(want, Init(strays), es, s)
    ensures LoopEvents(es) <= 3 * (if want > 0 then want else 0) + 3 * strays + 6
  {
    hide Tells;
    InvInit(want, strays);
    InvRun(want, Init(strays), es, s);
    BudgetRun(want, Init(strays), es, s);
  }
}
