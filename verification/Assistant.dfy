/** The desktop assistant: requests, cancels and the exit, each on a thread of its
    own, share the busy flag, the cancelled flag and the slot that holds the
    model's server. Every interleaving of their steps is a run. */
module Assistant {
  import opened Common

  /** One llama-server; `running` until it is killed or exits by itself, and
      `loaded` once it answers that it is ready. */
  datatype Process = Process(stopped: bool, running: bool, loaded: bool)

  datatype Outcome = Answer | Cancelled | Failed | NotSpawned | Refused | Nothing

  /** Where a thread is: in `ask`, in `cancel`, or in the `shut_down` that ends a
      cancel and is the whole of an exit. `p` is a server's number. */
  datatype Thread =
    | Ask
    | Reset
    | Locking
    | Looking
    | Spawned(p: nat)
    | Waiting(p: nat)
    | Checking(p: nat)
    | Stopping(p: nat)
    | Killing(p: nat)
    | Drafting(p: nat)
    | Failing(stopped: bool)
    | Ending(outcome: Outcome)
    | Cancel
    | Flagging
    | Taking
    | ToStop(p: nat)
    | ToKill(p: nat)
    | Done(outcome: Outcome)

  /** What the threads share. */
  datatype App = App(busy: bool, cancelled: bool, locked: bool, slot: Option<nat>, servers: seq<Process>)

  datatype State = State(app: App, threads: seq<Thread>)

  /** What a step comes to where the thread does not decide it. */
  datatype Choice = Goes | Fails | StopsShort

  predicate Alive(a: App)
    requires a.slot.Some? ==> a.slot.value < |a.servers|
  {
    a.slot.Some? && a.servers[a.slot.value].running && !a.servers[a.slot.value].stopped
  }

  function ServerOf(thread: Thread): Option<nat> {
    match thread
    case Spawned(p) => Some(p)
    case Waiting(p) => Some(p)
    case Checking(p) => Some(p)
    case Stopping(p) => Some(p)
    case Killing(p) => Some(p)
    case Drafting(p) => Some(p)
    case ToStop(p) => Some(p)
    case ToKill(p) => Some(p)
    case _ => None
  }

  predicate Known(a: App, p: Option<nat>) {
    p.Some? ==> p.value < |a.servers|
  }

  predicate Shaped(s: State) {
    Known(s.app, s.app.slot) && forall t :: 0 <= t < |s.threads| ==> Known(s.app, ServerOf(s.threads[t]))
  }

  function Loaded(a: App, p: nat): App
    requires p < |a.servers|
  {
    a.(servers := a.servers[p := a.servers[p].(loaded := true)])
  }

  function Stopped(a: App, p: nat): App
    requires p < |a.servers|
  {
    a.(servers := a.servers[p := a.servers[p].(stopped := true)])
  }

  function Exited(a: App, p: nat): App
    requires p < |a.servers|
  {
    a.(servers := a.servers[p := a.servers[p].(running := false)])
  }

  /** One step of a thread; it stays where it is when it has to wait. */
  function Act(a: App, thread: Thread, choice: Choice): (App, Thread)
    requires Known(a, a.slot) && Known(a, ServerOf(thread))
  {
    match thread
    // ask
    case Ask => if a.busy then (a, Done(Refused)) else (a.(busy := true), Reset)
    case Reset => (a.(cancelled := false), Locking)
    case Locking => if a.locked then (a, thread) else (a.(locked := true), Looking)
    case Looking =>
      if Alive(a) then (a.(locked := false), Drafting(a.slot.value))
      else if choice.Fails? then (a.(locked := false), Ending(NotSpawned))
      else (a.(servers := a.servers + [Process(false, true, false)]), Spawned(|a.servers|))
    case Spawned(p) => (a.(slot := Some(p), locked := false), Waiting(p))
    case Waiting(p) =>
      (match choice
       case Fails => (a, Failing(false))
       case StopsShort => (a, if a.servers[p].stopped then Failing(true) else thread)
       case Goes => (a, if a.servers[p].running && a.servers[p].loaded then Checking(p) else thread))
    case Checking(p) => (a, if a.cancelled then Stopping(p) else Drafting(p))
    case Stopping(p) => (Stopped(a, p), Killing(p))
    case Killing(p) => (Exited(a, p), Ending(Cancelled))
    case Drafting(p) =>
      (match choice
       case Fails => (a, Failing(false))
       case StopsShort => (a, if a.servers[p].stopped then Failing(true) else thread)
       case Goes => (a, if a.servers[p].running && a.servers[p].loaded then Ending(Answer) else thread))
    case Failing(stopped) => (a, Ending(if a.cancelled || stopped then Cancelled else Failed))
    case Ending(outcome) => (a.(busy := false), Done(outcome))
    // cancel
    case Cancel => (a, if a.busy then Flagging else Done(Nothing))
    case Flagging => (a.(cancelled := true), Taking)
    // shut_down
    case Taking =>
      if a.locked then (a, thread)
      else if a.slot.None? then (a, Done(Nothing))
      else (a.(slot := None), ToStop(a.slot.value))
    case ToStop(p) => (Stopped(a, p), ToKill(p))
    case ToKill(p) => (Exited(a, p), Done(Nothing))
    case Done(_) => (a, thread)
  }

  function Move(s: State, t: nat, choice: Choice): State
    requires Shaped(s) && t < |s.threads|
  {
    var (a, thread) := Act(s.app, s.threads[t], choice);
    State(a, s.threads[t := thread])
  }

  predicate Exits(s: State, next: State, p: nat) {
    p < |s.app.servers| && next == s.(app := Exited(s.app, p))
  }

  /** A server loads by itself, whoever waits for it. */
  predicate Loads(s: State, next: State, p: nat) {
    p < |s.app.servers| && s.app.servers[p].running && next == s.(app := Loaded(s.app, p))
  }

  ghost predicate Step(s: State, next: State) {
    && Shaped(s)
    && ((exists t, choice :: 0 <= t < |s.threads| && next == Move(s, t, choice))
        || (exists p :: Exits(s, next, p)) || (exists p :: Loads(s, next, p)))
  }

  /** Requests, cancels and exits yet to start, and no server. */
  predicate Start(s: State) {
    && s.app == App(false, false, false, None, [])
    && forall t :: 0 <= t < |s.threads| ==> s.threads[t] == Ask || s.threads[t] == Cancel || s.threads[t] == Taking
  }

  ghost predicate StepAt(run: seq<State>, k: nat) {
    0 < k < |run| && Step(run[k - 1], run[k])
  }

  ghost predicate Run(run: seq<State>) {
    |run| > 0 && Start(run[0]) && forall k :: 0 < k < |run| ==> StepAt(run, k)
  }

  function Last(run: seq<State>): State
    requires run != []
  {
    run[|run| - 1]
  }

  // -------------------------------------------------------------------------
  // What every step keeps
  // -------------------------------------------------------------------------

  /** The request that set `busy`, until it clears it. */
  predicate Owner(thread: Thread) {
    || thread.Reset? || thread.Locking? || thread.Looking? || thread.Spawned? || thread.Waiting? || thread.Checking?
    || thread.Stopping? || thread.Killing? || thread.Drafting? || thread.Failing? || thread.Ending?
  }

  predicate HasLock(thread: Thread) {
    thread.Looking? || thread.Spawned?
  }

  ghost predicate AnyOwner(threads: seq<Thread>) {
    exists t :: 0 <= t < |threads| && Owner(threads[t])
  }

  ghost predicate AnyLock(threads: seq<Thread>) {
    exists t :: 0 <= t < |threads| && HasLock(threads[t])
  }

  /** At most one request is under way, `busy` says whether one is, and `locked`
      whether it is looking for its server. */
  ghost predicate OneOwner(s: State) {
    && (forall t, u :: 0 <= t < u < |s.threads| ==> !(Owner(s.threads[t]) && Owner(s.threads[u])))
    && (s.app.busy <==> AnyOwner(s.threads))
    && (s.app.locked <==> AnyLock(s.threads))
  }

  /** The thread is about to stop the server, or to put it in the slot. */
  predicate Holds(thread: Thread, p: nat) {
    ServerOf(thread) == Some(p) && !thread.Waiting? && !thread.Checking? && !thread.Drafting?
  }

  /** The thread is about to kill the server. */
  predicate Kills(thread: Thread, p: nat) {
    thread == ToKill(p) || thread == Killing(p)
  }

  ghost predicate InHand(threads: seq<Thread>, p: nat) {
    exists t :: 0 <= t < |threads| && Holds(threads[t], p)
  }

  ghost predicate OnItsWay(threads: seq<Thread>, p: nat) {
    exists t :: 0 <= t < |threads| && Kills(threads[t], p)
  }

  /** No running server is lost sight of. */
  ghost predicate ServerFits(s: State, p: nat)
    requires p < |s.app.servers|
  {
    && (s.app.servers[p].running ==> s.app.slot == Some(p) || InHand(s.threads, p))
    && (s.app.servers[p].running && s.app.servers[p].stopped ==> OnItsWay(s.threads, p))
  }

  /** A cancelled request's server is about to be stopped. */
  ghost predicate ThreadFits(s: State, thread: Thread)
    requires Known(s.app, s.app.slot) && Known(s.app, ServerOf(thread))
  {
    match thread
    case Drafting(p) => s.app.cancelled && s.app.servers[p].running ==> Threatened(s, p)
    case Locking => s.app.cancelled && s.app.slot.Some? ==> Taking in s.threads
    case Looking => s.app.cancelled && s.app.slot.Some? ==> Taking in s.threads
    case Spawned(p) => !Alive(s.app) && s.app.slot != Some(p)
    case _ => true
  }

  ghost predicate Threatened(s: State, p: nat) {
    (s.app.slot == Some(p) && Taking in s.threads) || ToStop(p) in s.threads || ToKill(p) in s.threads
  }

  ghost predicate Inv(s: State) {
    && Shaped(s) && OneOwner(s)
    && (forall p :: 0 <= p < |s.app.servers| ==> ServerFits(s, p))
    && (forall t :: 0 <= t < |s.threads| ==> ThreadFits(s, s.threads[t]))
  }

  /** A step sets `busy` or the lock when its thread takes it, and clears it when
      its thread lets go. */
  lemma ActOwns(a: App, thread: Thread, choice: Choice)
    requires Known(a, a.slot) && Known(a, ServerOf(thread))
    ensures var (b, next) := Act(a, thread, choice);
      && (if Owner(next) && !Owner(thread) then !a.busy && b.busy else b.busy == (a.busy && !(Owner(thread) && !Owner(next))))
      && (if HasLock(next) && !HasLock(thread) then !a.locked && b.locked else b.locked == (a.locked && !(HasLock(thread) && !HasLock(next))))
      && (HasLock(thread) ==> Owner(thread))
  {
  }

  lemma OwnerKeeps(s: State, t: nat, choice: Choice)
    requires Shaped(s) && OneOwner(s) && t < |s.threads|
    ensures OneOwner(Move(s, t, choice))
  {
    var next := Move(s, t, choice);
    ActOwns(s.app, s.threads[t], choice);
    assert next.threads[t] == Act(s.app, s.threads[t], choice).1;
    assert forall u :: 0 <= u < |s.threads| && u != t ==> next.threads[u] == s.threads[u];
  }

  /** Only the thread that moves leaves where it was. */
  lemma OthersStay(threads: seq<Thread>, t: nat, next: Thread, thread: Thread)
    requires t < |threads|
    ensures next in threads[t := next]
    ensures thread in threads && thread != threads[t] ==> thread in threads[t := next]
  {
    assert threads[t := next][t] == next;
    if thread in threads && thread != threads[t] {
      var u :| 0 <= u < |threads| && threads[u] == thread;
      assert threads[t := next][u] == thread;
    }
  }

  lemma InHandStays(threads: seq<Thread>, t: nat, next: Thread, p: nat)
    requires t < |threads|
    ensures Holds(next, p) || (InHand(threads, p) && !Holds(threads[t], p)) ==> InHand(threads[t := next], p)
    ensures Kills(next, p) || (OnItsWay(threads, p) && !Kills(threads[t], p)) ==> OnItsWay(threads[t := next], p)
  {
    var after := threads[t := next];
    assert after[t] == next;
    assert forall u :: 0 <= u < |threads| && u != t ==> after[u] == threads[u];
  }

  /** What a step can do to a server that runs after it. */
  lemma ActServer(a: App, thread: Thread, choice: Choice, p: nat)
    requires Known(a, a.slot) && Known(a, ServerOf(thread)) && p < |Act(a, thread, choice).0.servers| && Act(a, thread, choice).0.servers[p].running
    ensures var (b, next) := Act(a, thread, choice);
      && (!Holds(next, p) ==> p < |a.servers| && a.servers[p].running)
      && (!Holds(next, p) && Holds(thread, p) ==> b.slot == Some(p))
      && (!Holds(next, p) && a.slot == Some(p) && !thread.Spawned? ==> b.slot == Some(p))
  {
  }

  lemma ActStops(a: App, thread: Thread, choice: Choice, p: nat)
    requires Known(a, a.slot) && Known(a, ServerOf(thread)) && p < |Act(a, thread, choice).0.servers|
    requires var b := Act(a, thread, choice).0; b.servers[p].running && b.servers[p].stopped
    ensures var next := Act(a, thread, choice).1;
      Kills(next, p) || (p < |a.servers| && a.servers[p].running && a.servers[p].stopped && !Kills(thread, p))
  {
  }

  lemma ServerKeeps(s: State, t: nat, choice: Choice, p: nat)
    requires Shaped(s) && t < |s.threads| && ThreadFits(s, s.threads[t]) && p < |Move(s, t, choice).app.servers|
    requires p < |s.app.servers| ==> ServerFits(s, p)
    ensures ServerFits(Move(s, t, choice), p)
  {
    var (a, next) := Act(s.app, s.threads[t], choice);
    InHandStays(s.threads, t, next, p);
    if a.servers[p].running {
      ActServer(s.app, s.threads[t], choice, p);
      if a.servers[p].stopped { ActStops(s.app, s.threads[t], choice, p); }
      if s.threads[t].Spawned? && s.app.slot == Some(p) {
        assert OnItsWay(s.threads, p);
        var u :| 0 <= u < |s.threads| && Kills(s.threads[u], p);
        assert Holds(s.threads[u], p) && Holds(s.threads[t := next][u], p);
      }
    }
  }

  /** Losing sight of the request under way, or of a thread that threatens its
      server, takes that thread's own step. */
  lemma ThreadKeeps(s: State, t: nat, choice: Choice, u: nat)
    requires Inv(s) && t < |s.threads| && u < |s.threads| && u != t
    ensures var next := Move(s, t, choice);
      Known(next.app, next.app.slot) && Known(next.app, ServerOf(s.threads[u])) && ThreadFits(next, s.threads[u])
  {
    var (a, after) := Act(s.app, s.threads[t], choice);
    var thread := s.threads[u];
    assert ThreadFits(s, thread) && ThreadFits(s, s.threads[t]);
    OthersStay(s.threads, t, after, Taking);
    if Owner(thread) { assert !Owner(s.threads[t]); }
    if thread.Drafting? {
      OthersStay(s.threads, t, after, ToStop(thread.p));
      OthersStay(s.threads, t, after, ToKill(thread.p));
      assert ServerFits(s, thread.p);
    }
  }

  lemma OwnThreadKeeps(s: State, t: nat, choice: Choice)
    requires Inv(s) && t < |s.threads|
    ensures var next := Move(s, t, choice);
      Known(next.app, next.app.slot) && Known(next.app, ServerOf(next.threads[t])) && ThreadFits(next, next.threads[t])
  {
    var (a, after) := Act(s.app, s.threads[t], choice);
    assert ThreadFits(s, s.threads[t]);
    if after == s.threads[t] {
      assert s.threads[t := after] == s.threads;
    } else {
      OthersStay(s.threads, t, after, Taking);
    }
  }

  lemma MoveKeeps(s: State, t: nat, choice: Choice)
    requires Inv(s) && t < |s.threads|
    ensures Inv(Move(s, t, choice))
  {
    var next := Move(s, t, choice);
    OwnerKeeps(s, t, choice);
    OwnThreadKeeps(s, t, choice);
    forall u | 0 <= u < |s.threads| && u != t ensures Known(next.app, ServerOf(s.threads[u])) && ThreadFits(next, s.threads[u]) {
      ThreadKeeps(s, t, choice, u);
    }
    assert forall u :: 0 <= u < |s.threads| && u != t ==> next.threads[u] == s.threads[u];
    assert ThreadFits(s, s.threads[t]);
    forall p | 0 <= p < |next.app.servers| ensures ServerFits(next, p) { ServerKeeps(s, t, choice, p); }
  }

  lemma ExitKeeps(s: State, p: nat)
    requires Inv(s) && p < |s.app.servers|
    ensures Inv(s.(app := Exited(s.app, p)))
  {
    var next := s.(app := Exited(s.app, p));
    forall q | 0 <= q < |s.app.servers| ensures ServerFits(next, q) { assert ServerFits(s, q); }
    forall t | 0 <= t < |s.threads| ensures Known(next.app, ServerOf(s.threads[t])) && ThreadFits(next, s.threads[t]) {
      assert ThreadFits(s, s.threads[t]);
    }
  }

  lemma LoadKeeps(s: State, p: nat)
    requires Inv(s) && p < |s.app.servers|
    ensures Inv(s.(app := Loaded(s.app, p)))
  {
    var next := s.(app := Loaded(s.app, p));
    forall q | 0 <= q < |s.app.servers| ensures ServerFits(next, q) { assert ServerFits(s, q); }
    forall t | 0 <= t < |s.threads| ensures Known(next.app, ServerOf(s.threads[t])) && ThreadFits(next, s.threads[t]) {
      assert ThreadFits(s, s.threads[t]);
    }
  }

  lemma StepKeeps(s: State, next: State)
    requires Inv(s) && Step(s, next)
    ensures Inv(next)
  {
    if t: nat, choice :| t < |s.threads| && next == Move(s, t, choice) {
      MoveKeeps(s, t, choice);
    } else if p :| Exits(s, next, p) {
      ExitKeeps(s, p);
    } else {
      var p :| Loads(s, next, p);
      LoadKeeps(s, p);
    }
  }

  lemma {:induction false} RunKeeps(run: seq<State>, k: nat)
    requires Run(run) && k < |run|
    ensures Inv(run[k])
  {
    if k > 0 {
      RunKeeps(run, k - 1);
      StepKeeps(run[k - 1], run[k]) by { assert StepAt(run, k); }
    } else {
      StartFits(run[0]);
    }
  }

  lemma StartFits(s: State)
    requires Start(s)
    ensures Inv(s)
  {
  }

  /** In every state at most one request is under way and `busy` says whether one
      is; and every server still running is in the slot, or with a thread that
      is about to put it there or to stop it. */
  lemma OneRequestNoStrays(run: seq<State>, k: nat)
    requires Run(run) && k < |run|
    ensures OneOwner(run[k])
    ensures forall p :: 0 <= p < |run[k].app.servers| && run[k].app.servers[p].running ==> run[k].app.slot == Some(p) || InHand(run[k].threads, p)
  {
    RunKeeps(run, k);
    forall p | 0 <= p < |run[k].app.servers| && run[k].app.servers[p].running ensures run[k].app.slot == Some(p) || InHand(run[k].threads, p) {
      assert ServerFits(run[k], p);
    }
  }

  /** A request that wants its server, and whoever would stop it, wait exactly
      while another request looks for its own; then the server is taken out of
      the slot if there is one. */
  lemma WaitsItsTurn(s: State, t: nat, choice: Choice)
    requires Inv(s) && t < |s.threads| && (s.threads[t].Locking? || s.threads[t].Taking?)
    ensures var next := Move(s, t, choice);
      if exists u :: 0 <= u < |s.threads| && (s.threads[u].Looking? || s.threads[u].Spawned?) then next == s
      else if s.threads[t].Locking? then next == State(s.app.(locked := true), s.threads[t := Looking])
      else if s.app.slot.None? then next == s.(threads := s.threads[t := Done(Nothing)])
      else next == State(s.app.(slot := None), s.threads[t := ToStop(s.app.slot.value)])
  {
    assert s.app.locked <==> AnyLock(s.threads);
    if AnyLock(s.threads) {
      var u :| 0 <= u < |s.threads| && HasLock(s.threads[u]);
      assert s.threads[t := s.threads[t]] == s.threads;
    }
  }

  /** A request that notices that its server was stopped ends as cancelled, flag
      or no flag; and it does not notice what did not happen. */
  lemma NoticesStop(s: State, t: nat, later: State, choice: Choice)
    requires Shaped(s) && t < |s.threads| && (s.threads[t].Waiting? || s.threads[t].Drafting?)
    requires Shaped(later) && t < |later.threads| && later.threads[t] == Move(s, t, StopsShort).threads[t]
    ensures s.app.servers[s.threads[t].p].stopped ==> Move(later, t, choice).threads[t] == Ending(Cancelled)
    ensures !s.app.servers[s.threads[t].p].stopped ==> Move(s, t, StopsShort) == s
  {
    assert s.threads[t := s.threads[t]] == s.threads;
  }

  // -------------------------------------------------------------------------
  // What a cancel does
  // -------------------------------------------------------------------------

  /** A request past its reset whose end is not yet decided. */
  predicate Undecided(thread: Thread) {
    Owner(thread) && !thread.Reset? && !thread.Ending?
  }

  /** It ends as cancelled, or because its server could not be started; or, if
      `answered`, with an answer. */
  predicate EndsCut(thread: Thread, answered: bool) {
    (thread.Ending? || thread.Done?) && (thread.outcome.Cancelled? || thread.outcome.NotSpawned? || (answered && thread.outcome.Answer?))
  }

  /** Nothing clears the flag of a request under way. */
  lemma FlagStays(s: State, next: State, t: nat)
    requires Inv(s) && Step(s, next) && t < |s.threads| && s.app.cancelled && Undecided(s.threads[t])
    ensures t < |next.threads| && next.app.cancelled
    ensures next.threads[t] == s.threads[t] || Undecided(next.threads[t]) || EndsCut(next.threads[t], true)
  {
    if u: nat, choice :| u < |s.threads| && next == Move(s, u, choice) {
      if u != t { assert !Owner(s.threads[u]); }
    }
  }

  lemma EndStays(s: State, next: State, t: nat, answered: bool)
    requires Step(s, next) && t < |s.threads| && EndsCut(s.threads[t], answered)
    ensures t < |next.threads| && EndsCut(next.threads[t], answered)
  {
    if u: nat, choice :| u < |s.threads| && next == Move(s, u, choice) {
      assert u != t ==> next.threads[t] == s.threads[t];
    }
  }

  /** A cancel whose flag is set after the request's reset is not lost: the
      request ends as cancelled, unless its answer comes back or its server could
      not even be started. */
  lemma {:induction false} CancelHolds(run: seq<State>, k: nat, j: nat, t: nat)
    requires Run(run) && k <= j < |run| && t < |run[k].threads| && run[k].app.cancelled && Undecided(run[k].threads[t])
    ensures t < |run[j].threads|
    ensures (run[j].app.cancelled && Undecided(run[j].threads[t])) || EndsCut(run[j].threads[t], true)
    decreases j
  {
    if k < j {
      CancelHolds(run, k, j - 1, t);
      RunKeeps(run, j - 1);
      assert StepAt(run, j);
      HoldsOn(run[j - 1], run[j], t);
    }
  }

  lemma HoldsOn(s: State, next: State, t: nat)
    requires Inv(s) && Step(s, next) && t < |s.threads|
    requires (s.app.cancelled && Undecided(s.threads[t])) || EndsCut(s.threads[t], true)
    ensures t < |next.threads|
    ensures (next.app.cancelled && Undecided(next.threads[t])) || EndsCut(next.threads[t], true)
  {
    if EndsCut(s.threads[t], true) {
      EndStays(s, next, t, true);
    } else {
      FlagStays(s, next, t);
    }
  }

  /** The flag is set and the server the request would use is gone. */
  ghost predicate Cut(s: State, thread: Thread)
    requires Known(s.app, ServerOf(thread))
  {
    && s.app.cancelled && Undecided(thread)
    && (thread.Drafting? ==> !s.app.servers[thread.p].running)
    && (thread.Locking? || thread.Looking? ==> s.app.slot.None?)
  }

  lemma ActCuts(a: App, thread: Thread, choice: Choice, threads: seq<Thread>)
    requires Known(a, a.slot) && Known(a, ServerOf(thread)) && Cut(State(a, threads), thread)
    ensures var (b, next) := Act(a, thread, choice);
      && Known(b, ServerOf(next))
      && (Cut(State(b, threads), next) || EndsCut(next, false))
  {
  }

  lemma OthersCut(a: App, thread: Thread, other: Thread, choice: Choice, threads: seq<Thread>)
    requires Known(a, a.slot) && Known(a, ServerOf(thread)) && Known(a, ServerOf(other)) && Cut(State(a, threads), thread) && !Owner(other)
    ensures var b := Act(a, other, choice).0; Known(b, ServerOf(thread)) && Cut(State(b, threads), thread)
  {
  }

  lemma CutStays(s: State, next: State, t: nat)
    requires Inv(s) && Step(s, next) && t < |s.threads| && Cut(s, s.threads[t])
    ensures t < |next.threads| && Known(next.app, ServerOf(next.threads[t]))
    ensures Cut(next, next.threads[t]) || EndsCut(next.threads[t], false)
  {
    if u: nat, choice :| u < |s.threads| && next == Move(s, u, choice) {
      if u == t {
        ActCuts(s.app, s.threads[t], choice, next.threads);
      } else {
        assert !Owner(s.threads[u]) && next.threads[t] == s.threads[t];
        OthersCut(s.app, s.threads[t], s.threads[u], choice, next.threads);
      }
    }
  }

  /** No cancel or exit is on its way through `shut_down`. */
  predicate Quiet(s: State) {
    forall t :: 0 <= t < |s.threads| ==> !s.threads[t].Taking? && !s.threads[t].ToStop? && !s.threads[t].ToKill?
  }

  lemma QuietCuts(s: State, t: nat)
    requires Inv(s) && t < |s.threads| && s.app.cancelled && Undecided(s.threads[t]) && Quiet(s)
    ensures CutOff(s, t)
  {
    assert ThreadFits(s, s.threads[t]);
  }

  /** Thread `t` ended without an answer, or can only do so. */
  ghost predicate CutOff(s: State, t: nat) {
    && t < |s.threads| && Known(s.app, ServerOf(s.threads[t]))
    && (Cut(s, s.threads[t]) || EndsCut(s.threads[t], false))
  }

  lemma CutOffStays(s: State, next: State, t: nat)
    requires Inv(s) && Inv(next) && Step(s, next) && CutOff(s, t)
    ensures CutOff(next, t)
  {
    if EndsCut(s.threads[t], false) {
      EndStays(s, next, t, false);
    } else {
      CutStays(s, next, t);
    }
  }

  /** Once such a cancel has run its course the request cannot come out with an
      answer any more. */
  lemma {:induction false} CancelCuts(run: seq<State>, k: nat, j: nat, t: nat)
    requires Run(run) && k <= j < |run| && t < |run[k].threads| && run[k].app.cancelled && Undecided(run[k].threads[t]) && Quiet(run[k])
    ensures CutOff(run[j], t)
    decreases j
  {
    RunKeeps(run, j);
    if k == j {
      QuietCuts(run[k], t);
    } else {
      CancelCuts(run, k, j - 1, t);
      RunKeeps(run, j - 1);
      assert StepAt(run, j);
      CutOffStays(run[j - 1], run[j], t);
    }
  }

  // -------------------------------------------------------------------------
  // Who may stop a server
  // -------------------------------------------------------------------------

  /** A cancel that finds no request under way changes nothing, and is done. */
  lemma IdleCancelDoesNothing(run: seq<State>, k: nat, t: nat, choice: Choice)
    requires Run(run) && k < |run| && t < |run[k].threads| && run[k].threads[t] == Cancel && !AnyOwner(run[k].threads)
    ensures Shaped(run[k]) && Move(run[k], t, choice) == State(run[k].app, run[k].threads[t := Done(Nothing)])
  {
    RunKeeps(run, k);
  }

  /** The thread is a cancel that looks, and finds a request under way. */
  ghost predicate FindsRequest(s: State, next: State, t: nat) {
    t < |s.threads| && t < |next.threads| && s.threads[t] == Cancel && next.threads[t] == Flagging && AnyOwner(s.threads)
  }

  ghost predicate FindsAt(run: seq<State>, j: nat, t: nat) {
    0 < j < |run| && FindsRequest(run[j - 1], run[j], t)
  }

  /** Up to there, the thread was a cancel that found a request under way. */
  ghost predicate Found(run: seq<State>, k: nat, t: nat) {
    exists j: nat :: j <= k && FindsAt(run, j, t)
  }

  predicate ShutsDown(thread: Thread) {
    thread.Taking? || thread.ToStop? || thread.ToKill?
  }

  /** Only a cancel that found a request sets the flag, and only it, or an exit,
      goes on to shut the server down. */
  ghost predicate Entitled(run: seq<State>, k: nat, t: nat)
    requires k < |run| && t < |run[k].threads| && t < |run[0].threads|
  {
    && (run[k].threads[t].Flagging? ==> Found(run, k, t))
    && (ShutsDown(run[k].threads[t]) ==> run[0].threads[t] == Taking || Found(run, k, t))
  }

  lemma SameThreads(run: seq<State>, k: nat)
    requires Run(run) && 0 < k < |run|
    ensures |run[k].threads| == |run[k - 1].threads| && Shaped(run[k - 1])
  {
    assert StepAt(run, k);
  }

  lemma FoundLater(run: seq<State>, k: nat, t: nat)
    requires 0 < k < |run|
    ensures Found(run, k - 1, t) || FindsRequest(run[k - 1], run[k], t) ==> Found(run, k, t)
  {
    if FindsRequest(run[k - 1], run[k], t) { assert FindsAt(run, k, t); }
  }

  /** How a thread comes to set the flag, or to shut the server down. */
  lemma StepEntitles(s: State, next: State, t: nat)
    requires Inv(s) && Step(s, next) && t < |s.threads|
    ensures t < |next.threads|
    ensures next.threads[t].Flagging? && !s.threads[t].Flagging? ==> FindsRequest(s, next, t)
    ensures ShutsDown(next.threads[t]) && !ShutsDown(s.threads[t]) ==> s.threads[t].Flagging?
  {
    if u: nat, choice :| u < |s.threads| && next == Move(s, u, choice) {
      assert u != t ==> next.threads[t] == s.threads[t];
    }
  }

  lemma {:induction false} OnlyEntitled(run: seq<State>, k: nat, t: nat)
    requires Run(run) && k < |run| && t < |run[0].threads|
    ensures t < |run[k].threads| && Entitled(run, k, t)
  {
    if k > 0 {
      OnlyEntitled(run, k - 1, t);
      RunKeeps(run, k - 1);
      SameThreads(run, k);
      assert StepAt(run, k);
      StepEntitles(run[k - 1], run[k], t);
      FoundLater(run, k, t);
    }
  }

  /** What a step does to the servers that are there. */
  lemma StepStops(s: State, next: State, p: nat)
    requires Inv(s) && Step(s, next) && p < |s.app.servers|
    ensures p < |next.app.servers|
    ensures next.app.servers[p].stopped && !s.app.servers[p].stopped ==> ToStop(p) in s.threads || Stopping(p) in s.threads
    ensures !next.app.servers[p].running && s.app.servers[p].running ==>
      Exits(s, next, p) || ToKill(p) in s.threads || Killing(p) in s.threads
  {
    if u: nat, choice :| u < |s.threads| && next == Move(s, u, choice) {
      ActStopsOne(s.app, s.threads[u], choice, p);
    } else if q :| Exits(s, next, q) {
      assert q != p ==> next.app.servers[p] == s.app.servers[p];
    }
  }

  lemma ActStopsOne(a: App, thread: Thread, choice: Choice, p: nat)
    requires Known(a, a.slot) && Known(a, ServerOf(thread)) && p < |a.servers|
    ensures var b := Act(a, thread, choice).0;
      && p < |b.servers|
      && (b.servers[p].stopped && !a.servers[p].stopped ==> thread == ToStop(p) || thread == Stopping(p))
      && (!b.servers[p].running && a.servers[p].running ==> thread == ToKill(p) || thread == Killing(p))
  {
  }

  /** The thread is an exit, or a cancel that found a request under way. */
  ghost predicate MayStop(run: seq<State>, k: nat, t: nat) {
    run != [] && t < |run[0].threads| && (run[0].threads[t] == Taking || Found(run, k, t))
  }

  /** A server is told to stop by an exit, by a cancel that found a request under
      way, or by a request itself, one that found its flag set. */
  lemma WhoStops(run: seq<State>, k: nat, p: nat) returns (t: nat)
    requires Run(run) && 0 < k < |run| && p < |run[k - 1].app.servers| && p < |run[k].app.servers|
    requires run[k].app.servers[p].stopped && !run[k - 1].app.servers[p].stopped
    ensures t < |run[k - 1].threads| && (MayStop(run, k - 1, t) || run[k - 1].threads[t] == Stopping(p))
  {
    RunKeeps(run, k - 1);
    assert StepAt(run, k);
    StepStops(run[k - 1], run[k], p);
    t :| t < |run[k - 1].threads| && (run[k - 1].threads[t] == ToStop(p) || run[k - 1].threads[t] == Stopping(p));
    ThreadsAtStart(run, k - 1);
    OnlyEntitled(run, k - 1, t);
  }

  /** And killed by the same, if it did not exit by itself. */
  lemma WhoKills(run: seq<State>, k: nat, p: nat) returns (t: nat)
    requires Run(run) && 0 < k < |run| && p < |run[k - 1].app.servers| && p < |run[k].app.servers|
    requires !run[k].app.servers[p].running && run[k - 1].app.servers[p].running && !Exits(run[k - 1], run[k], p)
    ensures t < |run[k - 1].threads| && (MayStop(run, k - 1, t) || run[k - 1].threads[t] == Killing(p))
  {
    RunKeeps(run, k - 1);
    assert StepAt(run, k);
    StepStops(run[k - 1], run[k], p);
    t :| t < |run[k - 1].threads| && (run[k - 1].threads[t] == ToKill(p) || run[k - 1].threads[t] == Killing(p));
    ThreadsAtStart(run, k - 1);
    OnlyEntitled(run, k - 1, t);
  }

  lemma {:induction false} ThreadsAtStart(run: seq<State>, k: nat)
    requires Run(run) && k < |run|
    ensures |run[k].threads| == |run[0].threads|
  {
    if k > 0 {
      ThreadsAtStart(run, k - 1);
      SameThreads(run, k);
    }
  }

  /** The flag is set, and no other way, by a cancel that found a request. */
  lemma WhoCancels(run: seq<State>, k: nat) returns (t: nat)
    requires Run(run) && 0 < k < |run| && run[k].app.cancelled && !run[k - 1].app.cancelled
    ensures t < |run[k - 1].threads| && Found(run, k - 1, t)
  {
    RunKeeps(run, k - 1);
    assert StepAt(run, k);
    t := WhoFlags(run[k - 1], run[k]);
    ThreadsAtStart(run, k - 1);
    OnlyEntitled(run, k - 1, t);
  }

  lemma WhoFlags(s: State, next: State) returns (t: nat)
    requires Inv(s) && Step(s, next) && next.app.cancelled && !s.app.cancelled
    ensures t < |s.threads| && s.threads[t] == Flagging
  {
    var u: nat, choice :| u < |s.threads| && next == Move(s, u, choice);
    ActFlags(s.app, s.threads[u], choice);
    t := u;
  }

  lemma ActFlags(a: App, thread: Thread, choice: Choice)
    requires Known(a, a.slot) && Known(a, ServerOf(thread)) && Act(a, thread, choice).0.cancelled && !a.cancelled
    ensures thread == Flagging
  {
  }

  // -------------------------------------------------------------------------
  // How a request may end
  // -------------------------------------------------------------------------

  /** Without a cancel and without an exit: nothing is flagged, stopped or reported
      as cancelled. */
  ghost predicate Undisturbed(s: State) {
    && !s.app.cancelled && (forall p :: 0 <= p < |s.app.servers| ==> !s.app.servers[p].stopped)
    && forall t :: 0 <= t < |s.threads| ==> Calm(s.threads[t])
  }

  predicate Calm(thread: Thread) {
    match thread
    case Stopping(_) => false
    case Killing(_) => false
    case Failing(stopped) => !stopped
    case Ending(outcome) => !outcome.Cancelled?
    case Done(outcome) => !outcome.Cancelled?
    case Cancel => false
    case Flagging => false
    case Taking => false
    case ToStop(_) => false
    case ToKill(_) => false
    case _ => true
  }

  lemma ActCalm(a: App, thread: Thread, choice: Choice)
    requires Known(a, a.slot) && Known(a, ServerOf(thread)) && Calm(thread) && !a.cancelled
    requires forall p :: 0 <= p < |a.servers| ==> !a.servers[p].stopped
    ensures var (b, next) := Act(a, thread, choice);
      Calm(next) && !b.cancelled && forall p :: 0 <= p < |b.servers| ==> !b.servers[p].stopped
  {
  }

  lemma StepCalm(s: State, next: State)
    requires Step(s, next) && Undisturbed(s)
    ensures Undisturbed(next)
  {
    if t: nat, choice :| t < |s.threads| && next == Move(s, t, choice) {
      ActCalm(s.app, s.threads[t], choice);
    }
  }

  /** With no cancel and no exit among the threads, no request ends as cancelled. */
  lemma {:induction false} NobodyCancels(run: seq<State>, k: nat)
    requires Run(run) && k < |run| && forall t :: 0 <= t < |run[0].threads| ==> run[0].threads[t] == Ask
    ensures Undisturbed(run[k])
  {
    if k > 0 {
      NobodyCancels(run, k - 1);
      assert StepAt(run, k);
      StepCalm(run[k - 1], run[k]);
    }
  }

  /** A request comes out with an answer only from a server that runs and has
      loaded, is refused only while another is under way, and is not spawned only
      when no server could be used. */
  lemma WhyItEnds(s: State, next: State, t: nat)
    requires Inv(s) && Step(s, next) && t < |s.threads|
    ensures t < |next.threads|
    ensures next.threads[t] == Ending(Answer) && s.threads[t] != Ending(Answer) ==>
      s.threads[t].Drafting? && IsLoaded(s.app, s.threads[t].p) && s.app.servers[s.threads[t].p].running
    ensures next.threads[t] == Done(Refused) && s.threads[t] != Done(Refused) && !s.threads[t].Ending? ==> s.threads[t] == Ask && AnyOwner(s.threads) && next.app == s.app
    ensures next.threads[t] == Ending(NotSpawned) && s.threads[t] != Ending(NotSpawned) ==> !Alive(s.app)
    ensures next.threads[t].Done? && s.threads[t].Ending? ==> next.threads[t].outcome == s.threads[t].outcome
  {
    if u: nat, choice :| u < |s.threads| && next == Move(s, u, choice) {
      assert u != t ==> next.threads[t] == s.threads[t];
    }
  }

  // -------------------------------------------------------------------------
  // What goes wrong
  // -------------------------------------------------------------------------

  lemma OneMore(run: seq<State>, more: seq<State>)
    requires Run(run) && |more| == |run| + 1 && run <= more && Step(Last(run), Last(more))
    ensures Run(more)
  {
    forall k | 0 < k < |more| ensures StepAt(more, k) {
      assert k < |run| ==> StepAt(run, k);
    }
  }

  /** Thread `t` goes on to `next`. */
  lemma Extend(run: seq<State>, t: nat, choice: Choice, a: App, next: Thread) returns (more: seq<State>)
    requires Run(run) && Shaped(Last(run)) && t < |Last(run).threads| && Act(Last(run).app, Last(run).threads[t], choice) == (a, next)
    ensures Run(more) && Shaped(Last(more)) && run <= more
    ensures Last(more) == State(a, Last(run).threads[t := next])
  {
    more := run + [Move(Last(run), t, choice)];
    assert Step(Last(run), Last(more));
    OneMore(run, more);
    RunKeeps(more, |more| - 1);
  }

  lemma ExtendExit(run: seq<State>, p: nat) returns (more: seq<State>)
    requires Run(run) && Shaped(Last(run)) && p < |Last(run).app.servers|
    ensures Run(more) && Last(more) == Last(run).(app := Exited(Last(run).app, p)) && Shaped(Last(more)) && run <= more
  {
    more := run + [Last(run).(app := Exited(Last(run).app, p))];
    assert Exits(Last(run), Last(more), p);
    OneMore(run, more);
    RunKeeps(more, |more| - 1);
  }

  lemma ExtendLoad(run: seq<State>, p: nat) returns (more: seq<State>)
    requires Run(run) && Shaped(Last(run)) && p < |Last(run).app.servers| && Last(run).app.servers[p].running
    ensures Run(more) && Last(more) == Last(run).(app := Loaded(Last(run).app, p)) && Shaped(Last(more)) && run <= more
  {
    more := run + [Last(run).(app := Loaded(Last(run).app, p))];
    assert Loads(Last(run), Last(more), p);
    OneMore(run, more);
    RunKeeps(more, |more| - 1);
  }

  lemma LockIsFree(s: State, t: nat)
    requires OneOwner(s) && t < |s.threads| && Owner(s.threads[t]) && !HasLock(s.threads[t])
    ensures !s.app.locked
  {
  }

  /** A request that has its server, not cancelled, can come out with an answer. */
  lemma Answers(run: seq<State>, t: nat) returns (more: seq<State>)
    requires Run(run) && t < |Last(run).threads| && Last(run).threads[t].Waiting? && Shaped(Last(run))
    requires Known(Last(run).app, ServerOf(Last(run).threads[t])) && Last(run).app.servers[Last(run).threads[t].p].running && !Last(run).app.cancelled
    ensures Run(more) && run <= more && t < |Last(more).threads| && Last(more).threads[t] == Done(Answer)
  {
    var p := Last(run).threads[t].p;
    var a := Loaded(Last(run).app, p);
    more := ExtendLoad(run, p);
    more := Extend(more, t, Goes, a, Checking(p));
    more := Extend(more, t, Goes, a, Drafting(p));
    more := Extend(more, t, Goes, a, Ending(Answer));
    more := Extend(more, t, Goes, a.(busy := false), Done(Answer));
  }

  /** The server in the slot, if there is one, may exit. */
  lemma WithoutServer(run: seq<State>) returns (more: seq<State>)
    requires Run(run) && Shaped(Last(run))
    ensures Run(more) && run <= more && Shaped(Last(more)) && !Alive(Last(more).app)
    ensures Last(more).threads == Last(run).threads && Last(more).app.locked == Last(run).app.locked
  {
    more := run;
    if Last(more).app.slot.Some? { more := ExtendExit(more, Last(more).app.slot.value); }
  }

  /** A cancel whose flag is set between the swap of `busy` and the reset is lost:
      from there the request can still come out with an answer. */
  lemma LostBeforeReset(run: seq<State>, t: nat) returns (more: seq<State>)
    requires Run(run) && t < |Last(run).threads| && Last(run).threads[t] == Reset
    ensures Run(more) && run <= more && t < |Last(more).threads| && Last(more).threads[t] == Done(Answer)
  {
    RunKeeps(run, |run| - 1);
    LockIsFree(Last(run), t);
    more := WithoutServer(run);
    var a := Last(more).app.(cancelled := false);
    var p := |a.servers|;
    more := Extend(more, t, Goes, a, Locking);
    more := Extend(more, t, Goes, a.(locked := true), Looking);
    var b := a.(locked := true, servers := a.servers + [Process(false, true, false)]);
    more := Extend(more, t, Goes, b, Spawned(p));
    more := Extend(more, t, Goes, b.(slot := Some(p), locked := false), Waiting(p));
    more := Answers(more, t);
  }

  /** Thread `t` gives up waiting for a server that runs and was not stopped. */
  predicate GivesUp(s: State, next: State, t: nat, p: nat) {
    && t < |s.threads| && t < |next.threads| && s.threads[t] == Waiting(p) && next.threads[t] == Failing(false)
    && p < |s.app.servers| && s.app.servers[p].running && !s.app.servers[p].stopped
  }

  ghost predicate IsGivenUp(s: State, next: State, p: nat) {
    exists t :: GivesUp(s, next, t, p)
  }

  ghost predicate GivenUpAt(run: seq<State>, j: nat, p: nat) {
    0 < j < |run| && IsGivenUp(run[j - 1], run[j], p)
  }

  /** Up to there, some request gave up waiting for the server. */
  ghost predicate GivenUp(run: seq<State>, k: nat, p: nat) {
    exists j: nat :: j <= k && GivenUpAt(run, j, p)
  }

  predicate IsLoaded(a: App, p: nat) {
    p < |a.servers| && a.servers[p].loaded
  }

  predicate Uses(thread: Thread, p: nat) {
    thread == Checking(p) || thread == Drafting(p)
  }

  /** A server in the slot that has not loaded is waited for, or was given up, as
      is one that a request goes on to draft on. */
  ghost predicate Awaited(s: State, given: iset<nat>) {
    && (Known(s.app, s.app.slot) && Alive(s.app) ==>
          var p := s.app.slot.value; IsLoaded(s.app, p) || p in given || Waiting(p) in s.threads)
    && (forall t, p :: 0 <= t < |s.threads| && Uses(s.threads[t], p) ==> IsLoaded(s.app, p) || p in given)
  }

  /** Nothing unloads a server. */
  lemma ActLoaded(a: App, thread: Thread, choice: Choice, p: nat)
    requires Known(a, a.slot) && Known(a, ServerOf(thread)) && IsLoaded(a, p)
    ensures IsLoaded(Act(a, thread, choice).0, p)
  {
  }

  /** The thread that moves goes on to a server that has loaded, or to the one in
      the slot. */
  lemma ActUses(a: App, thread: Thread, choice: Choice, p: nat)
    requires Known(a, a.slot) && Known(a, ServerOf(thread)) && Uses(Act(a, thread, choice).1, p)
    ensures IsLoaded(a, p) || Uses(thread, p) || (thread.Looking? && Alive(a) && a.slot.value == p)
  {
  }

  /** A server that is in the slot after a step was there before, or was put there
      by a request that now waits for it; and a request stops waiting for one that
      has not loaded only by giving up, or when it was stopped. */
  lemma ActSlot(a: App, thread: Thread, choice: Choice)
    requires Known(a, a.slot) && Known(a, ServerOf(thread))
    ensures var (b, next) := Act(a, thread, choice);
      Known(b, b.slot) && Alive(b) ==> next == Waiting(b.slot.value) || (a.slot == b.slot && Alive(a))
    ensures var next := Act(a, thread, choice).1;
      thread.Waiting? && next != thread ==>
        next == Failing(false) || IsLoaded(a, thread.p) || a.servers[thread.p].stopped
  {
  }

  lemma SlotAwaited(s: State, t: nat, choice: Choice, given: iset<nat>, now: iset<nat>)
    requires Inv(s) && t < |s.threads| && Awaited(s, given) && given <= now
    requires forall p :: GivesUp(s, Move(s, t, choice), t, p) ==> p in now
    ensures var next := Move(s, t, choice); Known(next.app, next.app.slot) && Alive(next.app) ==>
      var p := next.app.slot.value; IsLoaded(next.app, p) || p in now || Waiting(p) in next.threads
  {
    var (b, after) := Act(s.app, s.threads[t], choice);
    ActSlot(s.app, s.threads[t], choice);
    OthersStay(s.threads, t, after, after);
    if Known(b, b.slot) && Alive(b) && after != Waiting(b.slot.value) {
      var p := b.slot.value;
      OthersStay(s.threads, t, after, Waiting(p));
      if IsLoaded(s.app, p) { ActLoaded(s.app, s.threads[t], choice, p); }
      assert after == Failing(false) && s.threads[t] == Waiting(p) ==> GivesUp(s, Move(s, t, choice), t, p);
    }
  }

  lemma UsesAwaited(s: State, t: nat, choice: Choice, given: iset<nat>, u: nat, p: nat)
    requires Inv(s) && t < |s.threads| && Awaited(s, given) && u < |s.threads| && Uses(Move(s, t, choice).threads[u], p)
    ensures IsLoaded(Move(s, t, choice).app, p) || p in given
  {
    if u == t { ActUses(s.app, s.threads[t], choice, p); }
    if s.threads[t].Looking? { NobodyWaits(s, t, p); }
    if IsLoaded(s.app, p) { ActLoaded(s.app, s.threads[t], choice, p); }
  }

  lemma NobodyWaits(s: State, t: nat, p: nat)
    requires OneOwner(s) && t < |s.threads| && s.threads[t].Looking?
    ensures Waiting(p) !in s.threads
  {
    forall v | 0 <= v < |s.threads| ensures s.threads[v] != Waiting(p) {
      assert Owner(s.threads[t]);
    }
  }

  lemma StepAwaits(s: State, next: State, given: iset<nat>, now: iset<nat>)
    requires Inv(s) && Step(s, next) && Awaited(s, given) && given <= now
    requires forall p :: IsGivenUp(s, next, p) ==> p in now
    ensures Awaited(next, now)
  {
    if t: nat, choice :| t < |s.threads| && next == Move(s, t, choice) {
      SlotAwaited(s, t, choice, given, now);
      forall u, p | 0 <= u < |next.threads| && Uses(next.threads[u], p) ensures IsLoaded(next.app, p) || p in now {
        UsesAwaited(s, t, choice, given, u, p);
      }
    } else if p :| Exits(s, next, p) {
      assert forall q :: IsLoaded(s.app, q) ==> IsLoaded(next.app, q);
    } else {
      var p :| Loads(s, next, p);
      assert forall q :: IsLoaded(s.app, q) ==> IsLoaded(next.app, q);
    }
  }

  ghost function AllGivenUp(run: seq<State>, k: nat): iset<nat> {
    iset p | GivenUp(run, k, p)
  }

  /** A request goes on to draft on a server that has not loaded only if some
      request before gave up waiting for it while it ran and was not stopped. */
  lemma {:induction false} OnlyGivenUpIsUnloaded(run: seq<State>, k: nat)
    requires Run(run) && k < |run|
    ensures Awaited(run[k], AllGivenUp(run, k))
  {
    if k > 0 {
      OnlyGivenUpIsUnloaded(run, k - 1);
      RunKeeps(run, k - 1);
      GivenUpLater(run, k);
      assert StepAt(run, k);
      StepAwaits(run[k - 1], run[k], AllGivenUp(run, k - 1), AllGivenUp(run, k));
    }
  }

  lemma GivenUpLater(run: seq<State>, k: nat)
    requires 0 < k < |run|
    ensures AllGivenUp(run, k - 1) <= AllGivenUp(run, k)
    ensures forall p :: IsGivenUp(run[k - 1], run[k], p) ==> p in AllGivenUp(run, k)
  {
    forall p: nat | IsGivenUp(run[k - 1], run[k], p) ensures p in AllGivenUp(run, k) { assert GivenUpAt(run, k, p); }
  }

  /** That is: whatever a request drafts on, or is about to, had loaded, or was
      given up. */
  lemma UnloadedWasGivenUp(run: seq<State>, k: nat, t: nat)
    requires Run(run) && k < |run| && t < |run[k].threads| && (run[k].threads[t].Drafting? || run[k].threads[t].Checking?)
    ensures var p := run[k].threads[t].p; IsLoaded(run[k].app, p) || GivenUp(run, k, p)
  {
    OnlyGivenUpIsUnloaded(run, k);
    assert Uses(run[k].threads[t], run[k].threads[t].p);
  }

  /** A server that did not load in time is left in the slot, and the next
      request drafts on it unloaded. */
  lemma ReusedUnloaded(run: seq<State>, t: nat, u: nat) returns (more: seq<State>)
    requires Run(run) && t < |Last(run).threads| && u < |Last(run).threads| && Last(run).threads[t].Waiting? && Last(run).threads[u].Ask?
    requires var p := Last(run).threads[t].p;
      Last(run).app.slot == Some(p) && p < |Last(run).app.servers| && Alive(Last(run).app) && !Last(run).app.cancelled && !Last(run).app.servers[p].loaded
    ensures var p := Last(run).threads[t].p;
      && Run(more) && run <= more && u < |Last(more).threads| && Last(more).threads[u] == Drafting(p)
      && p < |Last(more).app.servers| && !Last(more).app.servers[p].loaded
  {
    RunKeeps(run, |run| - 1);
    LockIsFree(Last(run), t);
    var p, a := Last(run).threads[t].p, Last(run).app;
    more := Extend(run, t, Fails, a, Failing(false));
    more := Extend(more, t, Goes, a, Ending(Failed));
    more := Extend(more, t, Goes, a.(busy := false), Done(Failed));
    more := Extend(more, u, Goes, a.(busy := true), Reset);
    more := Extend(more, u, Goes, a.(busy := true), Locking);
    more := Extend(more, u, Goes, a.(busy := true, locked := true), Looking);
    more := Extend(more, u, Goes, a.(busy := true), Drafting(p));
  }

  /** It does happen: a request and a cancel, from the start. */
  lemma CancelLost() returns (run: seq<State>)
    ensures Run(run) && |Last(run).threads| > 0 && Last(run).threads[0] == Done(Answer)
    ensures exists k :: 0 <= k < |run| && run[k].app.cancelled && run[k].threads == [Reset, Taking]
  {
    var b := App(true, false, false, None, []);
    run := Extend([State(b.(busy := false), [Ask, Cancel])], 0, Goes, b, Reset);
    run := Extend(run, 1, Goes, b, Flagging);
    run := Extend(run, 1, Goes, b.(cancelled := true), Taking);
    var k := |run| - 1;
    assert run[k].threads == [Reset, Taking];
    run := LostBeforeReset(run, 0);
  }

  /** And so does this: two requests, from the start. */
  lemma UnloadedReused() returns (run: seq<State>)
    ensures Run(run) && |Last(run).threads| > 1 && Last(run).threads[1] == Drafting(0)
    ensures |Last(run).app.servers| > 0 && !Last(run).app.servers[0].loaded
  {
    var b := App(true, false, false, None, []);
    run := Extend([State(b.(busy := false), [Ask, Ask])], 0, Goes, b, Reset);
    run := Extend(run, 0, Goes, b, Locking);
    run := Extend(run, 0, Goes, b.(locked := true), Looking);
    var c := b.(locked := true, servers := b.servers + [Process(false, true, false)]);
    run := Extend(run, 0, Goes, c, Spawned(0));
    run := Extend(run, 0, Goes, c.(locked := false, slot := Some(0)), Waiting(0));
    run := ReusedUnloaded(run, 0, 1);
  }
}
