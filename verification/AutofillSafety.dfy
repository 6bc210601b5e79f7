/** Whole-run safety of the autofill controller: when fills may begin, and what its flags say. */
module AutofillSafety {
  import opened Autofill

  // ---- properties of a history ----

  predicate SawFull(c: Config, e: Event) {
    e.Saw? && e.tankTemp <= c.emptyTemp
  }

  /** Low pressure, a warm tank and autofill enabled. */
  predicate SawCause(c: Config, e: Event) {
    e.Saw? && e.pressure < c.limitPressure && e.tankTemp > c.emptyTemp && e.enabled
  }

  predicate FollowedBy(h: seq<Event>, i: nat, e: Event) {
    exists k | i < k < |h| :: h[k] == e
  }

  /** After event i the dewar was filled, or a fill completed and a later tick saw the tank full. */
  predicate Cleared(c: Config, h: seq<Event>, i: nat) {
    || FollowedBy(h, i, DewarFilled)
    || exists k | i < k < |h| :: SawFull(c, h[k]) && FollowedBy(h[..k], i, FillComplete)
  }

  predicate FillsCleared(c: Config, h: seq<Event>) {
    forall i | 0 <= i < |h| && h[i] == FillBegin :: Cleared(c, h, i)
  }

  predicate FillsComplete(h: seq<Event>) {
    forall i | 0 <= i < |h| && h[i] == FillBegin :: FollowedBy(h, i, FillComplete)
  }

  predicate DewarRefilled(h: seq<Event>) {
    forall i | 0 <= i < |h| && h[i] == DewarEmpty :: FollowedBy(h, i, DewarFilled)
  }

  predicate TankTended(h: seq<Event>) {
    forall i | 0 <= i < |h| && h[i] == TankEmpty :: FollowedBy(h, i, FillComplete)
  }

  function LastSeen(h: seq<Event>): Event {
    if h == [] then FillComplete
    else if h[|h| - 1].Saw? then h[|h| - 1]
    else LastSeen(h[..|h| - 1])
  }

  /** Whenever a fill begins, every earlier fill is over and has been cleared, the dewar has been refilled
      since it was last found empty, and the tick at hand saw low pressure, a warm tank and
      autofill enabled; the dewar is found empty only after it was refilled, and the tank is
      reported empty only after the fill that followed the last report. */
  predicate Safe(c: Config, h: seq<Event>) {
    forall j | 0 <= j < |h| :: SafeAt(c, h[..j], h[j])
  }

  predicate SafeAt(c: Config, before: seq<Event>, e: Event) {
    match e
    case FillBegin =>
      && FillsComplete(before) && FillsCleared(c, before) && DewarRefilled(before)
      && SawCause(c, LastSeen(before))
    case DewarEmpty => DewarRefilled(before)
    case TankEmpty => TankTended(before)
    case FillComplete | DewarFilled | Saw(_, _, _) => true
  }

  lemma StillFollowed(h: seq<Event>, e: Event)
    ensures forall i: nat, x | FollowedBy(h, i, x) :: FollowedBy(h + [e], i, x)
    ensures forall i: nat | i < |h| :: FollowedBy(h + [e], i, e)
  {
    forall i: nat, x | FollowedBy(h, i, x) ensures FollowedBy(h + [e], i, x) {
      var k :| i < k < |h| && h[k] == x;
      assert (h + [e])[k] == x;
    }
    forall i: nat | i < |h| ensures FollowedBy(h + [e], i, e) {
      assert (h + [e])[|h|] == e;
    }
  }

  lemma StillCleared(c: Config, h: seq<Event>, e: Event, i: nat)
    requires i < |h|
    ensures Cleared(c, h, i) ==> Cleared(c, h + [e], i)
    ensures SawFull(c, e) && FollowedBy(h, i, FillComplete) ==> Cleared(c, h + [e], i)
  {
    StillFollowed(h, e);
    var h' := h + [e];
    if Cleared(c, h, i) && !FollowedBy(h, i, DewarFilled) {
      var k :| i < k < |h| && SawFull(c, h[k]) && FollowedBy(h[..k], i, FillComplete);
      assert h'[k] == h[k] && h'[..k] == h[..k];
    }
    assert h'[|h|] == e && h'[..|h|] == h;
  }

  /** What one more event does to everything that is tracked of a history. */
  lemma Appended(c: Config, h: seq<Event>, e: Event)
    ensures var h' := h + [e];
            && (FillsCleared(c, h) && e != FillBegin ==> FillsCleared(c, h'))
            && (e == DewarFilled ==> FillsCleared(c, h'))
            && (SawFull(c, e) && FillsComplete(h) ==> FillsCleared(c, h'))
            && (FillsComplete(h) && e != FillBegin ==> FillsComplete(h'))
            && (e == FillComplete ==> FillsComplete(h'))
            && (DewarRefilled(h) && e != DewarEmpty ==> DewarRefilled(h'))
            && (e == DewarFilled ==> DewarRefilled(h'))
            && (TankTended(h) && e != TankEmpty ==> TankTended(h'))
            && (e == FillComplete ==> TankTended(h'))
            && (LastSeen(h') == if e.Saw? then e else LastSeen(h))
            && (Safe(c, h) && SafeAt(c, h, e) ==> Safe(c, h'))
  {
    var h' := h + [e];
    StillFollowed(h, e);
    forall i | 0 <= i < |h| ensures h'[i] == h[i] && (Cleared(c, h, i) ==> Cleared(c, h', i))
      ensures SawFull(c, e) && FollowedBy(h, i, FillComplete) ==> Cleared(c, h', i)
    {
      StillCleared(c, h, e, i);
    }
    assert h'[..|h|] == h;
    forall j | 0 <= j < |h| ensures h'[..j] == h[..j] {
    }
  }

  // ---- the same, tracked event by event ----

  datatype Facts = Facts(cleared: bool, complete: bool, refilled: bool, tended: bool, seen: Event, safe: bool)

  predicate Allowed(c: Config, f: Facts, e: Event) {
    match e
    case FillBegin => f.complete && f.cleared && f.refilled && SawCause(c, f.seen)
    case DewarEmpty => f.refilled
    case TankEmpty => f.tended
    case FillComplete | DewarFilled | Saw(_, _, _) => true
  }

  function Update(c: Config, f: Facts, e: Event): Facts {
    var f' := f.(safe := f.safe && Allowed(c, f, e));
    match e
    case FillBegin => f'.(cleared := false, complete := false)
    case FillComplete => f'.(complete := true, tended := true)
    case TankEmpty => f'.(tended := false)
    case DewarEmpty => f'.(refilled := false)
    case DewarFilled => f'.(cleared := true, refilled := true)
    case Saw(_, _, _) => f'.(seen := e, cleared := f.cleared || (SawFull(c, e) && f.complete))
  }

  function Tracked(c: Config, h: seq<Event>): Facts {
    if h == [] then Facts(true, true, true, true, FillComplete, true)
    else Update(c, Tracked(c, h[..|h| - 1]), h[|h| - 1])
  }

  lemma TrackedNext(c: Config, h: seq<Event>, e: Event)
    ensures Tracked(c, h + [e]) == Update(c, Tracked(c, h), e)
  {
    assert (h + [e])[..|h|] == h;
  }

  lemma UpdateHolds(c: Config, h: seq<Event>, f: Facts, e: Event)
    requires f.cleared ==> FillsCleared(c, h)
    requires f.complete ==> FillsComplete(h)
    requires f.refilled ==> DewarRefilled(h)
    requires f.tended ==> TankTended(h)
    requires f.seen == LastSeen(h) && (f.safe ==> Safe(c, h))
    ensures var f', h' := Update(c, f, e), h + [e];
            && (f'.cleared ==> FillsCleared(c, h')) && (f'.complete ==> FillsComplete(h'))
            && (f'.refilled ==> DewarRefilled(h')) && (f'.tended ==> TankTended(h'))
            && f'.seen == LastSeen(h') && (f'.safe ==> Safe(c, h'))
  {
    hide Cleared, FollowedBy, LastSeen;
    Appended(c, h, e);
  }

  /** What is tracked holds of the history. */
  lemma {:induction false} TrackedHolds(c: Config, h: seq<Event>)
    ensures var f := Tracked(c, h);
            && (f.cleared ==> FillsCleared(c, h)) && (f.complete ==> FillsComplete(h))
            && (f.refilled ==> DewarRefilled(h)) && (f.tended ==> TankTended(h))
            && f.seen == LastSeen(h) && (f.safe ==> Safe(c, h))
  {
    if h == [] {
    } else {
      hide Cleared, FollowedBy, SafeAt, LastSeen, Update;
      var n := |h| - 1;
      TrackedHolds(c, h[..n]);
      UpdateHolds(c, h[..n], Tracked(c, h[..n]), h[n]);
      assert h == h[..n] + [h[n]];
    }
  }

  // ---- the invariant of timely runs ----

  /** What the state remembers of its history. */
  predicate Recalls(s: State, f: Facts) {
    && f.safe && s.older == Idle
    && (f.cleared || s.phase != Idle || s.fillJustDone || s.dewarEmpty)
    && (s.ticking && s.fillJustDone ==> f.cleared || s.dewarEmpty)
    && (s.phase.Idle? || s.phase.Logged? || s.phase.Deactivated? || s.phase.Finished? <==> f.complete)
    && (s.fillJustDone ==> s.phase == Idle)
    && (f.refilled || s.dewarEmpty)
    && (f.tended || s.loggedTankEmpty)
    && (s.phase != Idle || (s.fillJustDone && !s.ticking) ==> s.loggedTankEmpty)
    && (s.phase.Logged? || s.phase.Deactivated? || s.phase.Finished? || s.fillJustDone ==> f.tended)
  }

  predicate Remembers(c: Config, s: State) {
    Recalls(s, Tracked(c, s.history))
  }

  predicate InProgress(p: Phase) {
    p.Started? || p.Pouring? || p.Poured? || p.Logged? || p.Deactivated?
  }

  lemma ObserveRemembers(c: Config, s: State, env: Env)
    requires Remembers(c, s) && !s.ticking
    ensures var s' := Observe(c, s, env);
            && Remembers(c, s')
            && Tracked(c, s'.history).seen == Saw(env.pressure, env.tankTemp, s.flags.enable == Is(true))
            && (Tracked(c, s.history).cleared ==> Tracked(c, s'.history).cleared)
            && (TankIsFull(c, env) && s.fillJustDone ==> Tracked(c, s'.history).cleared)
  {
    hide Tracked;
    TrackedNext(c, s.history, Saw(env.pressure, env.tankTemp, s.flags.enable == Is(true)));
  }

  lemma CheckDewarRemembers(c: Config, s: State)
    requires Remembers(c, s) && !s.ticking
    ensures var s' := CheckDewar(s);
            && Remembers(c, s') && Tracked(c, s'.history).seen == Tracked(c, s.history).seen
            && (Tracked(c, s.history).cleared || s.flags.dewarFilled == Is(true) ==> Tracked(c, s'.history).cleared)
  {
    hide Tracked;
    TrackedNext(c, s.history, DewarFilled);
  }

  lemma CheckTankRemembers(c: Config, s: State, full: bool)
    requires Remembers(c, s) && !s.ticking && s.fillInProgress == InProgress(s.phase)
    requires s.phase != Launched && s.phase != Finished
    requires full && s.fillJustDone ==> Tracked(c, s.history).cleared
    ensures var (s', needed) := CheckTank(s, full);
            && Remembers(c, s'.(ticking := true)) && Tracked(c, s'.history).seen == Tracked(c, s.history).seen
            && (needed ==> !full && s'.phase == Idle && s'.loggedTankEmpty)
  {
    hide Tracked;
    if !full {
      TrackedNext(c, s.history, TankEmpty);
      if s.fillJustDone {
        assert s.loggedTankEmpty;
        TrackedNext(c, s.history, DewarEmpty);
      }
    }
  }

  lemma StartFillRemembers(c: Config, s: State, needed: bool, pumpdown: bool)
    requires Remembers(c, s.(ticking := true)) && (needed ==> s.phase == Idle && s.loggedTankEmpty)
    requires needed && pumpdown && s.flags.enable == Is(true) ==> SawCause(c, Tracked(c, s.history).seen)
    ensures Remembers(c, StartFill(s, needed, pumpdown).(ticking := true))
  {
    hide Tracked;
    TrackedNext(c, s.history, FillBegin);
  }

  /** A timely tick as it turns to the tank, having seen the vacuum and the dewar. */
  predicate Looked(c: Config, s: State, env: Env) {
    && Remembers(c, s) && !s.ticking && s.fillInProgress == InProgress(s.phase)
    && s.phase != Launched && s.phase != Finished
    && (TankIsFull(c, env) && s.fillJustDone ==> Tracked(c, s.history).cleared)
    && Tracked(c, s.history).seen == Saw(env.pressure, env.tankTemp, s.flags.enable == Is(true))
  }

  lemma LookingRemembers(c: Config, s: State, env: Env)
    requires Remembers(c, s) && !s.ticking && s.fillInProgress == InProgress(s.phase)
    requires s.phase != Launched && s.phase != Finished
    ensures Looked(c, CheckDewar(Observe(c, s, env)), env)
  {
    hide Tracked;
    ObserveRemembers(c, s, env);
    CheckDewarRemembers(c, Observe(c, s, env));
  }

  lemma TankRemembers(c: Config, s: State, env: Env)
    requires Looked(c, s, env)
    ensures var (s', needed) := CheckTank(s, TankIsFull(c, env));
            Remembers(c, StartFill(s', needed, PumpedDown(c, env)).(ticking := true))
  {
    hide Tracked;
    CheckTankRemembers(c, s, TankIsFull(c, env));
    var (s', needed) := CheckTank(s, TankIsFull(c, env));
    assert s'.flags.enable == s.flags.enable;
    StartFillRemembers(c, s', needed, PumpedDown(c, env));
  }

  lemma TickBodyRemembers(c: Config, s: State, env: Env)
    requires Remembers(c, s) && !s.ticking && s.fillInProgress == InProgress(s.phase)
    requires s.phase != Launched && s.phase != Finished
    ensures Remembers(c, TickBodyOf(c, s, env))
  {
    hide Tracked;
    LookingRemembers(c, s, env);
    TankRemembers(c, CheckDewar(Observe(c, s, env)), env);
  }

  lemma ThreadRemembers(c: Config, s: State)
    requires Remembers(c, s) && s.phase != Idle && !(s.phase == Finished && s.ticking)
    ensures Remembers(c, ThreadStep(c, s))
  {
    hide Tracked;
    if s.phase == Poured {
      TrackedNext(c, s.history, FillComplete);
    }
  }

  // ---- what the flags say, in every run ----

  /** fill_in_progress, the fillactive flag and the relay. */
  datatype Signals = Signals(inProgress: bool, active: bool, relay: bool)

  function Shown(s: State): Signals {
    Signals(s.fillInProgress, s.flags.fillActive == Is(true), s.relay)
  }

  /** What a thread in phase p should make them show. */
  function Due(c: Config, p: Phase): Signals {
    match p
    case Idle | Finished => Signals(false, false, false)
    case Launched => Signals(false, true, false)
    case Started | Poured | Logged => Signals(true, true, false)
    case Pouring => Signals(true, true, !c.dryrun)
    case Deactivated => Signals(true, false, false)
  }

  function Either(a: Signals, b: Signals): Signals {
    Signals(a.inProgress || b.inProgress, a.active || b.active, a.relay || b.relay)
  }

  /** The flags and the relay tell what the fill threads are doing, and dewarfull what the
      controller thinks of the dewar. */
  predicate Agrees(c: Config, s: State) {
    Shown(s) == Either(Due(c, s.phase), Due(c, s.older)) && DewarAgrees(s)
  }

  predicate DewarAgrees(s: State) {
    if s.flags.dewarFull == Unset then !s.dewarEmpty else s.flags.dewarFull == Is(!s.dewarEmpty)
  }

  /** At most one thread has a fill before it. */
  predicate OneFill(s: State) {
    s.older == Idle || s.older == Finished
  }

  /** What a tick launches a fill upon: pumped down, a warm tank, no fill in progress or just done,
      a dewar not found empty or refilled since, autofill enabled. */
  predicate Launches(c: Config, s: State, env: Env) {
    && env.pressure < c.limitPressure && env.tankTemp > c.emptyTemp && !s.fillInProgress && !s.fillJustDone
    && (!s.dewarEmpty || s.flags.dewarFilled == Is(true)) && s.flags.enable == Is(true)
  }

  lemma ObserveShows(c: Config, s: State, env: Env)
    ensures var s' := Observe(c, s, env);
            && s'.(flags := s.flags, history := s.history) == s
            && s'.flags.(pumpdown := s.flags.pumpdown) == s.flags
            && s'.history == s.history + [Saw(env.pressure, env.tankTemp, s.flags.enable == Is(true))]
  {
  }

  lemma LookingShows(c: Config, s: State, env: Env)
    ensures var s' := CheckDewar(Observe(c, s, env));
            && s'.phase == s.phase && s'.older == s.older && s'.fillInProgress == s.fillInProgress
            && s'.fillJustDone == s.fillJustDone && s'.flags.enable == s.flags.enable
            && s'.dewarEmpty == (s.dewarEmpty && s.flags.dewarFilled != Is(true))
  {
    hide Observe;
    ObserveShows(c, s, env);
  }

  lemma TankLaunches(s: State, full: bool, pumpdown: bool)
    ensures var (s', needed) := CheckTank(s, full);
            var launched := StartFill(s', needed, pumpdown);
            if !full && !s.fillInProgress && !s.fillJustDone && pumpdown && !s.dewarEmpty && s.flags.enable == Is(true)
            then launched.phase == Launched && launched.older == s.phase
            else launched.phase == s.phase && launched.older == s.older
  {
  }

  lemma TickLaunches(c: Config, s: State, env: Env)
    ensures var s' := TickBodyOf(c, s, env);
            if Launches(c, s, env) then s'.phase == Launched && s'.older == s.phase
            else s'.phase == s.phase && s'.older == s.older
  {
    hide Observe, CheckDewar, CheckTank, StartFill;
    LookingShows(c, s, env);
    TankLaunches(CheckDewar(Observe(c, s, env)), TankIsFull(c, env), PumpedDown(c, env));
  }

  /** After a tick the flags tell its readings. */
  lemma TickReports(c: Config, s: State, env: Env)
    ensures var flags := TickBodyOf(c, s, env).flags;
            && flags.pumpdown == Is(env.pressure < c.limitPressure)
            && flags.tankFull == Is(env.tankTemp <= c.emptyTemp)
  {
    hide CheckWarmTank;
    var s1 := CheckDewar(Observe(c, s, env));
    assert s1.flags.pumpdown == Is(env.pressure < c.limitPressure);
    TankReports(s1, TankIsFull(c, env), PumpedDown(c, env));
  }

  lemma TankReports(s: State, full: bool, pumpdown: bool)
    ensures var (s', needed) := CheckTank(s, full);
            var flags := StartFill(s', needed, pumpdown).flags;
            flags.pumpdown == s.flags.pumpdown && flags.tankFull == Is(full)
  {
  }

  /** A tick that launches a fill while the thread of the last one has not begun. */
  predicate DoubleLaunch(c: Config, s: State, step: Step) {
    step.TickBody? && s.phase == Launched && Launches(c, s, step.env)
  }

  function DoubleLaunches(c: Config, steps: seq<Step>): nat {
    if steps == [] then 0
    else
      var before, last := steps[..|steps| - 1], steps[|steps| - 1];
      DoubleLaunches(c, before) + if DoubleLaunch(c, After(c, before), last) then 1 else 0
  }

  lemma OneMore(c: Config, steps: seq<Step>, step: Step)
    ensures var more := steps + [step];
            && After(c, more) == Next(c, After(c, steps), step)
            && Legal(c, more) == (Legal(c, steps) && Enabled(After(c, steps), step))
            && Untimely(c, more) == Untimely(c, steps) + (if TimelyStep(After(c, steps), step) then 0 else 1)
            && DoubleLaunches(c, more)
               == DoubleLaunches(c, steps) + if DoubleLaunch(c, After(c, steps), step) then 1 else 0
  {
    assert (steps + [step])[..|steps|] == steps;
  }

  lemma ObserveAgrees(c: Config, s: State, env: Env)
    requires Agrees(c, s)
    ensures var s' := Observe(c, s, env); Agrees(c, s') && s'.phase == s.phase && s'.older == s.older
  {
  }

  lemma CheckDewarAgrees(c: Config, s: State)
    requires Agrees(c, s)
    ensures var s' := CheckDewar(s); Agrees(c, s') && s'.phase == s.phase && s'.older == s.older
  {
  }

  lemma CheckTankAgrees(c: Config, s: State, full: bool)
    requires Agrees(c, s)
    ensures var (s', needed) := CheckTank(s, full);
            && Agrees(c, s') && s'.phase == s.phase && s'.older == s.older
            && (needed ==> !s'.fillInProgress && !s'.fillJustDone)
  {
  }

  /** A launch keeps the agreement for the moment, whatever the thread it replaces is doing. */
  lemma StartFillAgrees(c: Config, s: State, needed: bool, pumpdown: bool)
    requires Agrees(c, s) && s.older == Idle && (needed ==> !s.fillInProgress)
    ensures var s' := StartFill(s, needed, pumpdown);
            Agrees(c, s') && (OneFill(s') || (s.phase == s'.phase == s'.older == Launched))
  {
  }

  lemma TankAgrees(c: Config, s: State, env: Env)
    requires Agrees(c, s) && s.older == Idle
    ensures var (s3, needed) := CheckTank(s, TankIsFull(c, env));
            var s' := StartFill(s3, needed, PumpedDown(c, env));
            Agrees(c, s') && (OneFill(s') || (s.phase == s'.phase == s'.older == Launched))
  {
    CheckTankAgrees(c, s, TankIsFull(c, env));
    var (s3, needed) := CheckTank(s, TankIsFull(c, env));
    StartFillAgrees(c, s3, needed, PumpedDown(c, env));
  }

  lemma TickBodyAgrees(c: Config, s: State, env: Env)
    requires Agrees(c, s) && s.older == Idle
    ensures var s' := TickBodyOf(c, s, env);
            Agrees(c, s') && (OneFill(s') || (s.phase == s'.phase == s'.older == Launched))
  {
    hide Observe, CheckDewar, CheckTank, StartFill, Due;
    ObserveAgrees(c, s, env);
    CheckDewarAgrees(c, Observe(c, s, env));
    TankAgrees(c, CheckDewar(Observe(c, s, env)), env);
  }

  /** Between ticks no replaced thread is alive. */
  predicate Waited(s: State) {
    s.ticking || s.older == Idle
  }

  lemma ActionShows(c: Config, s: State)
    requires Shown(s) == Due(c, s.phase)
    ensures var s' := ThreadAction(c, s, s.phase);
            Shown(s') == Due(c, PhaseAfter(s.phase)) && s'.older == s.older && s'.ticking == s.ticking
  {
  }

  lemma ActionKeepsDewar(c: Config, s: State)
    ensures var s' := ThreadAction(c, s, s.phase);
            s'.flags.dewarFull == s.flags.dewarFull && s'.dewarEmpty == s.dewarEmpty
  {
  }

  lemma ThreadAgrees(c: Config, s: State)
    requires Agrees(c, s) && OneFill(s)
    ensures var s' := ThreadStep(c, s);
            Agrees(c, s') && s'.older == s.older && s'.ticking == s.ticking
  {
    ActionShows(c, s);
    ActionKeepsDewar(c, s);
    hide ThreadAction, PhaseAfter;
  }

  lemma StepAgrees(c: Config, s: State, step: Step)
    requires Agrees(c, s) && OneFill(s) && Waited(s) && Enabled(s, step)
    ensures var s' := Next(c, s, step);
            && Agrees(c, s') && Waited(s')
            && (OneFill(s') <==> !DoubleLaunch(c, s, step))
            && (!OneFill(s') ==> s'.phase == s'.older == Launched)
  {
    if step.TickBody? {
      TickBodyAgrees(c, s, step.env);
      TickLaunches(c, s, step.env);
      hide TickBodyOf;
    } else if step.Thread? {
      ThreadAgrees(c, s);
      hide ThreadStep;
    }
  }

  /** The flags and the relay agree with the fill threads at every step of every run, timely or
      not, in which no tick launches a fill before the last one's thread has begun. */
  lemma {:induction false} RunAgrees(c: Config, steps: seq<Step>)
    requires Legal(c, steps) && DoubleLaunches(c, steps) == 0
    ensures Agrees(c, After(c, steps)) && OneFill(After(c, steps)) && Waited(After(c, steps))
  {
    if steps == [] {
    } else {
      var n := |steps| - 1;
      RunAgrees(c, steps[..n]);
      StepAgrees(c, After(c, steps[..n]), steps[n]);
    }
  }

  /** Two threads whose fills overlap: the last one has begun, the replaced one has r actions
      behind it. */
  predicate Overlapping(s: State, r: nat) {
    s.phase == Started && Rank(s.older) == r && (r == 7 ==> !s.fillInProgress)
  }

  lemma OlderStep(c: Config, s: State, r: nat)
    requires Overlapping(s, r) && 1 <= r <= 6
    ensures Overlapping(OlderThreadStep(c, s), r + 1)
  {
  }

  /** After a double launch the run can go on until fill_in_progress is false in the middle of a
      fill. */
  lemma OverlapDisagrees(c: Config, steps: seq<Step>) returns (more: seq<Step>)
    requires Legal(c, steps) && After(c, steps).phase == After(c, steps).older == Launched
    ensures Legal(c, steps + more) && DoubleLaunches(c, steps + more) == DoubleLaunches(c, steps)
    ensures !Agrees(c, After(c, steps + more))
  {
    OneMore(c, steps, Thread);
    more := [Thread];
    for k := 1 to 7
      invariant Legal(c, steps + more) && DoubleLaunches(c, steps + more) == DoubleLaunches(c, steps)
      invariant Overlapping(After(c, steps + more), k)
    {
      OlderStep(c, After(c, steps + more), k);
      OneMore(c, steps + more, OlderThread);
      assert steps + (more + [OlderThread]) == steps + more + [OlderThread];
      more := more + [OlderThread];
    }
  }

  /** Main result: a tick is the end of the agreement exactly when it launches a fill before the
      last one's thread has begun. */
  lemma AgreementEnds(c: Config, steps: seq<Step>, env: Env)
    requires Legal(c, steps + [TickBody(env)]) && DoubleLaunches(c, steps) == 0
    ensures var run := steps + [TickBody(env)];
            (forall more | Legal(c, run + more) && DoubleLaunches(c, run + more) == DoubleLaunches(c, run) ::
               Agrees(c, After(c, run + more)))
            <==> !DoubleLaunch(c, After(c, steps), TickBody(env))
  {
    var run, s := steps + [TickBody(env)], After(c, steps);
    OneMore(c, steps, TickBody(env));
    RunAgrees(c, steps);
    StepAgrees(c, s, TickBody(env));
    if DoubleLaunch(c, s, TickBody(env)) {
      var more := OverlapDisagrees(c, run);
    } else {
      forall more | Legal(c, run + more) && DoubleLaunches(c, run + more) == DoubleLaunches(c, run)
        ensures Agrees(c, After(c, run + more))
      {
        RunAgrees(c, run + more);
      }
    }
  }

  /** A tick has launched a fill over a thread that only had fill_just_done left to set, and waits
      for it; what fill_just_done says in the meantime is forgotten when the tick ends. */
  predicate Waiting(c: Config, s: State) {
    && s.ticking && s.phase != Idle && OneFill(s)
    && Remembers(c, s.(older := Idle, fillJustDone := false))
  }

  /** What holds throughout a run whose steps are timely. */
  predicate Kept(c: Config, s: State) {
    && Agrees(c, s) && OneFill(s) && Waited(s)
    && (Remembers(c, s) || Waiting(c, s))
  }

  lemma WaitingGoesOn(c: Config, s: State, step: Step)
    requires Waiting(c, s) && Enabled(s, step) && TimelyStep(s, step)
    ensures var s' := Next(c, s, step); Remembers(c, s') || Waiting(c, s')
  {
    hide Tracked;
    if step.Thread? {
      ThreadRemembers(c, s.(older := Idle, fillJustDone := false));
    }
  }

  lemma TimelyStepKeeps(c: Config, s: State, step: Step)
    requires Kept(c, s) && Enabled(s, step) && TimelyStep(s, step)
    ensures Kept(c, Next(c, s, step)) && (Remembers(c, s) ==> Remembers(c, Next(c, s, step)))
  {
    hide Tracked, TickBodyOf, ThreadStep, DewarAgrees;
    StepAgrees(c, s, step);
    if !Remembers(c, s) {
      WaitingGoesOn(c, s, step);
    } else {
      match step
      case TickBody(env) => TickBodyRemembers(c, s, env);
      case Thread => ThreadRemembers(c, s);
      case TickEnd | OlderThread | UserFilledDewar(_) | UserEnables(_) =>
    }
  }

  lemma {:induction false} TimelyGoesOn(c: Config, run: seq<Step>, more: seq<Step>)
    requires Kept(c, After(c, run)) && Legal(c, run + more) && Untimely(c, run + more) == Untimely(c, run)
    ensures Kept(c, After(c, run + more)) && (Remembers(c, After(c, run)) ==> Remembers(c, After(c, run + more)))
    decreases |more|
  {
    hide Kept, Remembers, Legal, After, Untimely, DoubleLaunches, DoubleLaunch, Next, TimelyStep;
    if more == [] {
      assert run + more == run;
    } else {
      var n := |more| - 1;
      assert run + more == run + more[..n] + [more[n]];
      OneMore(c, run + more[..n], more[n]);
      UntimelyGrows(c, run, more[..n]);
      TimelyGoesOn(c, run, more[..n]);
      TimelyStepKeeps(c, After(c, run + more[..n]), more[n]);
    }
  }

  lemma {:induction false} UntimelyGrows(c: Config, run: seq<Step>, more: seq<Step>)
    ensures Untimely(c, run + more) >= Untimely(c, run)
    decreases |more|
  {
    if more == [] {
      assert run + more == run;
    } else {
      var n := |more| - 1;
      assert run + more == run + more[..n] + [more[n]];
      OneMore(c, run + more[..n], more[n]);
      UntimelyGrows(c, run, more[..n]);
    }
  }

  // ---- main results ----

  /** Between any two fill_begin events there is a dewar_filled event, or a fill_complete and
      after it a tick that saw the tank full. */
  predicate FillsApart(c: Config, h: seq<Event>) {
    forall i, j | 0 <= i < j < |h| && h[i] == FillBegin && h[j] == FillBegin ::
      (exists k | i < k < j :: h[k] == DewarFilled)
      || (exists m, k | i < m < k < j :: h[m] == FillComplete && SawFull(c, h[k]))
  }

  /** At most one fill runs at a time. */
  predicate OneAtATime(h: seq<Event>) {
    forall i, j | 0 <= i < j < |h| && h[i] == FillBegin && h[j] == FillBegin ::
      exists k | i < k < j :: h[k] == FillComplete
  }

  /** Neither a second dewar_empty nor a fill_begin follows a dewar_empty before the next
      dewar_filled. */
  predicate EmptiesApart(h: seq<Event>) {
    forall i, j | 0 <= i < j < |h| && h[i] == DewarEmpty && (h[j] == DewarEmpty || h[j] == FillBegin) ::
      exists k | i < k < j :: h[k] == DewarFilled
  }

  /** A fill begins only in a tick that saw low pressure, a warm tank and autofill enabled. */
  predicate FillsCaused(c: Config, h: seq<Event>) {
    forall j | 0 <= j < |h| && h[j] == FillBegin ::
      exists i | 0 <= i < j ::
        && h[i].Saw? && h[i].pressure < c.limitPressure && h[i].tankTemp > c.emptyTemp && h[i].enabled
        && forall k | i < k < j :: !h[k].Saw?
  }

  /** The tank is reported empty at most once per fill. */
  predicate TankReportsApart(h: seq<Event>) {
    forall i, j | 0 <= i < j < |h| && h[i] == TankEmpty && h[j] == TankEmpty ::
      exists k | i < k < j :: h[k] == FillComplete
  }

  lemma {:induction false} SawLast(h: seq<Event>) returns (i: nat)
    requires LastSeen(h).Saw?
    ensures i < |h| && h[i] == LastSeen(h) && forall k | i < k < |h| :: !h[k].Saw?
  {
    var n := |h| - 1;
    if h[n].Saw? {
      i := n;
    } else {
      i := SawLast(h[..n]);
    }
  }

  lemma FillsAreApart(c: Config, h: seq<Event>)
    requires Safe(c, h)
    ensures FillsApart(c, h) && OneAtATime(h)
  {
    forall i, j | 0 <= i < j < |h| && h[i] == FillBegin && h[j] == FillBegin
      ensures exists k | i < k < j :: h[k] == FillComplete
      ensures (exists k | i < k < j :: h[k] == DewarFilled)
              || (exists m, k | i < m < k < j :: h[m] == FillComplete && SawFull(c, h[k]))
    {
      var b := h[..j];
      assert SafeAt(c, b, h[j]) && b[i] == FillBegin && Cleared(c, b, i) && FollowedBy(b, i, FillComplete);
      var n :| i < n < |b| && b[n] == FillComplete;
      assert h[n] == FillComplete;
      if FollowedBy(b, i, DewarFilled) {
        var k :| i < k < |b| && b[k] == DewarFilled;
        assert h[k] == DewarFilled;
      } else {
        var k :| i < k < |b| && SawFull(c, b[k]) && FollowedBy(b[..k], i, FillComplete);
        var m :| i < m < k && b[..k][m] == FillComplete;
        assert h[m] == FillComplete && h[k] == b[k];
      }
    }
  }

  lemma EmptiesAreApart(c: Config, h: seq<Event>)
    requires Safe(c, h)
    ensures EmptiesApart(h) && TankReportsApart(h)
  {
    forall i, j | 0 <= i < j < |h| && h[i] == DewarEmpty && (h[j] == DewarEmpty || h[j] == FillBegin)
      ensures exists k | i < k < j :: h[k] == DewarFilled
    {
      var b := h[..j];
      assert SafeAt(c, b, h[j]) && b[i] == DewarEmpty && FollowedBy(b, i, DewarFilled);
      var k :| i < k < |b| && b[k] == DewarFilled;
      assert h[k] == DewarFilled;
    }
    forall i, j | 0 <= i < j < |h| && h[i] == TankEmpty && h[j] == TankEmpty
      ensures exists k | i < k < j :: h[k] == FillComplete
    {
      var b := h[..j];
      assert SafeAt(c, b, h[j]) && b[i] == TankEmpty && FollowedBy(b, i, FillComplete);
      var k :| i < k < |b| && b[k] == FillComplete;
      assert h[k] == FillComplete;
    }
  }

  lemma FillsAreCaused(c: Config, h: seq<Event>)
    requires Safe(c, h)
    ensures FillsCaused(c, h)
  {
    forall j | 0 <= j < |h| && h[j] == FillBegin
      ensures exists i | 0 <= i < j :: SawCause(c, h[i]) && forall k | i < k < j :: !h[k].Saw?
    {
      var b := h[..j];
      assert SafeAt(c, b, h[j]);
      var i := SawLast(b);
      assert h[i] == b[i] && forall k | i < k < j :: h[k] == b[k];
    }
  }

  predicate SafeHistory(c: Config, h: seq<Event>) {
    OneAtATime(h) && FillsApart(c, h) && EmptiesApart(h) && FillsCaused(c, h) && TankReportsApart(h)
  }

  lemma KeptIsSafe(c: Config, s: State)
    requires Kept(c, s)
    ensures SafeHistory(c, s.history)
  {
    TrackedHolds(c, s.history);
    FillsAreApart(c, s.history);
    EmptiesAreApart(c, s.history);
    FillsAreCaused(c, s.history);
  }

  lemma TimelyRunKeeps(c: Config, steps: seq<Step>)
    requires Legal(c, steps) && Untimely(c, steps) == 0
    ensures Kept(c, After(c, steps)) && Remembers(c, After(c, steps))
  {
    assert [] + steps == steps;
    TimelyGoesOn(c, [], steps);
  }

  /** Main result: over every timely run of ticks, fill-thread steps and user actions, in any
      interleaving. */
  lemma AutofillIsSafe(c: Config, steps: seq<Step>)
    requires Legal(c, steps) && Untimely(c, steps) == 0
    ensures SafeHistory(c, After(c, steps).history)
  {
    TimelyRunKeeps(c, steps);
    KeptIsSafe(c, After(c, steps));
  }

  // ---- what one untimely step may do ----

  predicate LastFill(h: seq<Event>, i: nat) {
    i < |h| && h[i] == FillBegin && forall k | i < k < |h| :: h[k] != FillBegin
  }

  lemma StillLast(c: Config, h: seq<Event>, e: Event, i: nat)
    requires LastFill(h + [e], i) && i < |h|
    ensures LastFill(h, i) && e != FillBegin
    ensures FollowedBy(h + [e], i, FillComplete) <==> FollowedBy(h, i, FillComplete) || e == FillComplete
    ensures Cleared(c, h + [e], i)
            <==> Cleared(c, h, i) || e == DewarFilled || (SawFull(c, e) && FollowedBy(h, i, FillComplete))
  {
    var h' := h + [e];
    assert h'[i] == h[i] && h'[|h|] == e;
    assert forall k | i < k < |h| :: h'[k] == h[k] && h'[..k] == h[..k];
    StillFollowed(h, e);
    StillCleared(c, h, e, i);
    if Cleared(c, h', i) && !FollowedBy(h', i, DewarFilled) {
      var k :| i < k < |h'| && SawFull(c, h'[k]) && FollowedBy(h'[..k], i, FillComplete);
      assert h'[..|h|] == h;
    }
  }

  /** What is tracked of the last fill is exact. */
  lemma {:induction false} TrackedIsExact(c: Config, h: seq<Event>, i: nat)
    requires LastFill(h, i)
    ensures Tracked(c, h).complete <==> FollowedBy(h, i, FillComplete)
    ensures Tracked(c, h).cleared <==> Cleared(c, h, i)
  {
    var n := |h| - 1;
    assert h == h[..n] + [h[n]];
    if i == n {
    } else {
      StillLast(c, h[..n], h[n], i);
      TrackedIsExact(c, h[..n], i);
      hide FollowedBy, Cleared;
    }
  }

  lemma {:induction false} FillOf(c: Config, h: seq<Event>) returns (i: nat)
    requires !Tracked(c, h).complete || !Tracked(c, h).cleared
    ensures LastFill(h, i)
  {
    var n := |h| - 1;
    if h[n] == FillBegin {
      i := n;
    } else {
      i := FillOf(c, h[..n]);
    }
  }

  lemma ClearedIsExact(c: Config, h: seq<Event>)
    ensures Tracked(c, h).cleared <==> FillsCleared(c, h)
  {
    TrackedHolds(c, h);
    if !Tracked(c, h).cleared {
      var i := FillOf(c, h);
      TrackedIsExact(c, h, i);
    }
  }

  /** The untimely steps after which timely ones can do no harm: a tick that launches no fill, or
      launches it while the last thread has only fill_just_done left to set and its fill is
      cleared, if only by this tick; and a fill's end within a tick if the fill is cleared, or the
      dewar known to be empty. */
  predicate Harmless(c: Config, s: State, step: Step) {
    match step
    case TickBody(env) =>
      Launches(c, s, env) ==> s.phase == Finished && (FillsCleared(c, s.history) || s.flags.dewarFilled == Is(true))
    case Thread => FillsCleared(c, s.history) || s.dewarEmpty
    case TickEnd | OlderThread | UserFilledDewar(_) | UserEnables(_) => true
  }

  lemma TankIdles(s: State, full: bool, pumpdown: bool)
    requires !s.fillInProgress && !s.fillJustDone && s.loggedTankEmpty
    ensures var (s', needed) := CheckTank(s, full);
            var s'' := StartFill(s', needed, pumpdown);
            if !full && pumpdown && !s.dewarEmpty && s.flags.enable == Is(true) then
              s''.(flags := s.flags)
              == s.(phase := Launched, older := s.phase, history := s.history + [FillBegin])
            else s''.(flags := s.flags) == s
  {
  }

  lemma LookingLogs(c: Config, s: State, env: Env)
    ensures var s' := CheckDewar(Observe(c, s, env));
            && s'.loggedTankEmpty == s.loggedTankEmpty && s'.ticking == s.ticking
            && s'.history
               == s.history + [Saw(env.pressure, env.tankTemp, s.flags.enable == Is(true))]
                  + if s.flags.dewarFilled == Is(true) then [DewarFilled] else []
  {
    hide Observe;
    ObserveShows(c, s, env);
  }

  /** The states before a tick that is not timely. */
  predicate OffTime(c: Config, s: State) {
    && Remembers(c, s) && !s.ticking && (s.phase == Launched || s.phase == Finished)
    && !s.fillInProgress && !s.fillJustDone && s.loggedTankEmpty
  }

  lemma LookingKeeps(c: Config, s: State, env: Env)
    requires Remembers(c, s) && !s.ticking
    ensures var s' := CheckDewar(Observe(c, s, env));
            && Remembers(c, s') && !s'.ticking
            && Tracked(c, s'.history).seen == Saw(env.pressure, env.tankTemp, s.flags.enable == Is(true))
            && (Tracked(c, s.history).cleared || s.flags.dewarFilled == Is(true) ==> Tracked(c, s'.history).cleared)
  {
    hide Tracked;
    ObserveRemembers(c, s, env);
    CheckDewarRemembers(c, Observe(c, s, env));
  }

  lemma IdleTickKeeps(c: Config, s: State, env: Env)
    requires OffTime(c, s) && !Launches(c, s, env)
    ensures Remembers(c, TickBodyOf(c, s, env))
  {
    hide Tracked, Observe, CheckDewar, CheckTank, StartFill;
    LookingKeeps(c, s, env);
    LookingShows(c, s, env);
    LookingLogs(c, s, env);
    TankIdles(CheckDewar(Observe(c, s, env)), TankIsFull(c, env), PumpedDown(c, env));
  }

  lemma LaunchingTick(c: Config, s: State, env: Env)
    requires OffTime(c, s) && Launches(c, s, env)
    ensures var s2, s' := CheckDewar(Observe(c, s, env)), TickBodyOf(c, s, env);
            && s'.(flags := s2.flags)
               == s2.(phase := Launched, older := s.phase, ticking := true, history := s2.history + [FillBegin])
            && s2.history == s.history + [Saw(env.pressure, env.tankTemp, true)]
                             + (if s.flags.dewarFilled == Is(true) then [DewarFilled] else [])
            && !s2.dewarEmpty && !s2.fillJustDone && s2.phase == s.phase
  {
    hide Tracked, Observe, CheckDewar, CheckTank, StartFill;
    LookingShows(c, s, env);
    LookingLogs(c, s, env);
    TankIdles(CheckDewar(Observe(c, s, env)), TankIsFull(c, env), PumpedDown(c, env));
  }

  lemma LaunchKeeps(c: Config, s: State, env: Env)
    requires OffTime(c, s) && Launches(c, s, env) && Harmless(c, s, TickBody(env))
    ensures Waiting(c, TickBodyOf(c, s, env))
  {
    hide Tracked, Observe, CheckDewar, CheckTank, StartFill, TickBodyOf, FillsCleared;
    LaunchingTick(c, s, env);
    LookingKeeps(c, s, env);
    ClearedIsExact(c, s.history);
    TrackedNext(c, CheckDewar(Observe(c, s, env)).history, FillBegin);
  }

  lemma KeptOffTime(c: Config, s: State, step: Step)
    requires Kept(c, s) && Remembers(c, s) && Enabled(s, step) && !TimelyStep(s, step)
    ensures step.TickBody? ==> OffTime(c, s)
    ensures step.Thread? ==> s.phase == Finished && s.ticking && !s.fillJustDone
  {
    hide Tracked, DewarAgrees;
  }

  lemma HarmlessKeeps(c: Config, s: State, step: Step)
    requires Kept(c, s) && Remembers(c, s) && Enabled(s, step) && !TimelyStep(s, step) && Harmless(c, s, step)
    ensures Kept(c, Next(c, s, step))
  {
    hide Tracked, TickBodyOf, FillsCleared, DewarAgrees;
    KeptOffTime(c, s, step);
    StepAgrees(c, s, step);
    if step.TickBody? {
      if Launches(c, s, step.env) {
        LaunchKeeps(c, s, step.env);
      } else {
        IdleTickKeeps(c, s, step.env);
      }
    } else {
      ClearedIsExact(c, s.history);
    }
  }

  function Warm(c: Config): Step {
    TickBody(Env(c.limitPressure - 1.0, c.emptyTemp + 1.0))
  }

  function SawWarm(c: Config): Event {
    Saw(c.limitPressure - 1.0, c.emptyTemp + 1.0, true)
  }

  /** What a warm tick does when the dewar was not refilled and autofill is enabled. */
  lemma WarmTick(c: Config, s: State)
    requires (s.flags.enable == Is(true)) && s.flags.dewarFilled != Is(true) && !s.dewarEmpty && !s.fillJustDone
    ensures var s' := TickBodyOf(c, s, Warm(c).env);
            && s'.ticking && !s'.dewarEmpty && !s'.fillJustDone && s'.fillInProgress == s.fillInProgress
            && s'.flags.enable == Is(true) && s'.flags.dewarFilled != Is(true)
            && s'.history == s.history + [SawWarm(c)]
                             + (if s.fillInProgress then [] else
                                  (if s.loggedTankEmpty then [] else [TankEmpty]) + [FillBegin])
            && s'.loggedTankEmpty == (s.loggedTankEmpty || !s.fillInProgress)
            && s'.phase == (if s.fillInProgress then s.phase else Launched)
            && s'.older == if s.fillInProgress then s.older else s.phase
  {
    var s1 := CheckDewar(Observe(c, s, Warm(c).env));
    assert s1.history == s.history + [SawWarm(c)];
    var (s2, needed) := CheckTank(s1, false);
    assert needed == !s.fillInProgress;
  }

  lemma TwoFills(c: Config, h: seq<Event>, i: nat, j: nat)
    requires i < j < |h| && h[i] == FillBegin && h[j] == FillBegin
    requires forall k | i < k < j :: h[k] != DewarFilled && !SawFull(c, h[k])
    ensures !FillsApart(c, h)
  {
  }

  lemma TwoAtATime(h: seq<Event>, i: nat, j: nat)
    requires i < j < |h| && h[i] == FillBegin && h[j] == FillBegin
    requires forall k | i < k < j :: h[k] != FillComplete
    ensures !OneAtATime(h)
  {
  }

  /** A fill that begins while the last one is not over. */
  lemma SecondBegins(c: Config, h: seq<Event>, between: seq<Event>)
    requires !Tracked(c, h).complete && FillComplete !in between
    ensures !OneAtATime(h + between + [FillBegin])
  {
    var i := FillOf(c, h);
    TrackedIsExact(c, h, i);
    TwoAtATime(h + between + [FillBegin], i, |h + between|);
  }

  /** A fill that begins before the last one was cleared. */
  lemma UnclearedBegins(c: Config, h: seq<Event>, seen: Event)
    requires !Tracked(c, h).cleared && !SawFull(c, seen) && seen.Saw?
    ensures !FillsApart(c, h + [seen, FillBegin])
  {
    var i := FillOf(c, h);
    TrackedIsExact(c, h, i);
    var h' := h + [seen, FillBegin];
    var j := |h| + 1;
    assert h'[i] == FillBegin && h'[j] == FillBegin;
    forall k | i < k < j ensures h'[k] != DewarFilled {
      assert k < |h| ==> h'[k] == h[k];
    }
    forall m, k | i < m < k < j ensures !(h'[m] == FillComplete && SawFull(c, h'[k])) {
      if k < |h| && h'[m] == FillComplete && SawFull(c, h'[k]) {
        assert h[..k][m] == h'[m] && h[k] == h'[k];
        assert FollowedBy(h[..k], i, FillComplete);
      }
    }
  }

  /** A tick that does harm does it at once. */
  lemma HarmfulTick(c: Config, s: State, env: Env)
    requires OffTime(c, s) && !Harmless(c, s, TickBody(env))
    ensures !SafeHistory(c, TickBodyOf(c, s, env).history)
  {
    hide Tracked, TickBodyOf, FillsCleared, OneAtATime, FillsApart;
    LaunchingTick(c, s, env);
    var seen, h' := Saw(env.pressure, env.tankTemp, true), TickBodyOf(c, s, env).history;
    if s.phase == Launched {
      var between := [seen] + if s.flags.dewarFilled == Is(true) then [DewarFilled] else [];
      assert h' == s.history + between + [FillBegin];
      SecondBegins(c, s.history, between);
    } else {
      ClearedIsExact(c, s.history);
      assert h' == s.history + [seen, FillBegin];
      UnclearedBegins(c, s.history, seen);
    }
  }

  /** A fill that ended within a tick, once the tick is over and the user has enabled autofill. */
  lemma ForgottenFill(c: Config, s: State)
    requires Remembers(c, s) && s.phase == Finished && s.ticking && !s.fillInProgress && !s.dewarEmpty
    requires !FillsCleared(c, s.history)
    ensures var s1 := Next(c, ThreadStep(c, s), TickEnd);
            var s3 := Next(c, Next(c, s1, UserFilledDewar(false)), UserEnables(true));
            && !s3.ticking && s3.phase == Idle && !SafeHistory(c, TickBodyOf(c, s3, Warm(c).env).history)
  {
    hide Tracked, TickBodyOf, FillsCleared, OneAtATime, FillsApart;
    var s1 := Next(c, ThreadStep(c, s), TickEnd);
    var s3 := Next(c, Next(c, s1, UserFilledDewar(false)), UserEnables(true));
    WarmTick(c, s3);
    ClearedIsExact(c, s.history);
    UnclearedBegins(c, s.history, SawWarm(c));
    assert TickBodyOf(c, s3, Warm(c).env).history == s.history + [SawWarm(c), FillBegin];
  }

  lemma HarmfulEnd(c: Config, steps: seq<Step>) returns (more: seq<Step>)
    requires Legal(c, steps + [Thread]) && Remembers(c, After(c, steps)) && Kept(c, After(c, steps))
    requires !TimelyStep(After(c, steps), Thread) && !Harmless(c, After(c, steps), Thread)
    ensures var run := steps + [Thread] + more;
            && Legal(c, run) && Untimely(c, run) == Untimely(c, steps + [Thread])
            && !SafeHistory(c, After(c, run).history)
  {
    hide Legal, Untimely, After, DoubleLaunches, DoubleLaunch, Tracked, FillsCleared, SafeHistory, TickBodyOf;
    hide DewarAgrees;
    var s, run := After(c, steps), steps + [Thread];
    ForgottenFill(c, s);
    OneMore(c, steps, Thread);
    OneMore(c, run, TickEnd);
    OneMore(c, run + [TickEnd], UserFilledDewar(false));
    OneMore(c, run + [TickEnd] + [UserFilledDewar(false)], UserEnables(true));
    OneMore(c, run + [TickEnd] + [UserFilledDewar(false)] + [UserEnables(true)], Warm(c));
    more := [TickEnd] + [UserFilledDewar(false)] + [UserEnables(true)] + [Warm(c)];
    assert run + more == run + [TickEnd] + [UserFilledDewar(false)] + [UserEnables(true)] + [Warm(c)];
  }

  lemma HarmfulStep(c: Config, steps: seq<Step>, step: Step) returns (more: seq<Step>)
    requires Legal(c, steps + [step]) && Remembers(c, After(c, steps)) && Kept(c, After(c, steps))
    requires !TimelyStep(After(c, steps), step) && !Harmless(c, After(c, steps), step)
    ensures var run := steps + [step] + more;
            && Legal(c, run) && Untimely(c, run) == Untimely(c, steps + [step])
            && !SafeHistory(c, After(c, run).history)
  {
    hide Kept, Remembers, Harmless, SafeHistory, After, TickBodyOf, ThreadStep;
    OneMore(c, steps, step);
    if step.Thread? {
      more := HarmfulEnd(c, steps);
    } else {
      KeptOffTime(c, After(c, steps), step);
      HarmfulTick(c, After(c, steps), step.env);
      more := [];
      assert steps + [step] + more == steps + [step];
    }
  }

  /** Main result: after any timely run, one untimely step leaves every further timely run safe
      exactly when it is harmless. */
  lemma OneUntimelyStepIsSafe(c: Config, steps: seq<Step>, step: Step)
    requires Legal(c, steps + [step]) && Untimely(c, steps) == 0 && !TimelyStep(After(c, steps), step)
    ensures var run := steps + [step];
            (forall more | Legal(c, run + more) && Untimely(c, run + more) == 1 ::
               SafeHistory(c, After(c, run + more).history))
            <==> Harmless(c, After(c, steps), step)
  {
    hide Kept, Remembers, Harmless, SafeHistory, After, TimelyStep, Enabled, Next;
    var s, run := After(c, steps), steps + [step];
    OneMore(c, steps, step);
    TimelyRunKeeps(c, steps);
    if Harmless(c, s, step) {
      HarmlessKeeps(c, s, step);
      forall more | Legal(c, run + more) && Untimely(c, run + more) == 1
        ensures SafeHistory(c, After(c, run + more).history)
      {
        TimelyGoesOn(c, run, more);
        KeptIsSafe(c, After(c, run + more));
      }
    } else {
      var more := HarmfulStep(c, steps, step);
    }
  }

  // ---- each part of timeliness is needed ----

  /** A tick with low pressure and a warm tank has launched a fill. */
  predicate FillLaunched(c: Config, s: State) {
    && s.phase == Launched && s.older == Idle && !s.ticking && !s.fillInProgress && !s.fillJustDone && !s.dewarEmpty
    && s.loggedTankEmpty && s.history == [SawWarm(c), TankEmpty, FillBegin]
    && (s.flags.enable == Is(true)) && s.flags.dewarFilled != Is(true)
  }

  lemma FirstFill(c: Config) returns (steps: seq<Step>)
    ensures Legal(c, steps) && Untimely(c, steps) == 0 && FillLaunched(c, After(c, steps))
  {
    OneMore(c, [], UserEnables(true));
    var one := [] + [UserEnables(true)];
    OneMore(c, one, Warm(c));
    var two := one + [Warm(c)];
    WarmTick(c, After(c, one));
    OneMore(c, two, TickEnd);
    steps := two + [TickEnd];
  }

  function Rank(p: Phase): nat {
    match p
    case Idle => 0
    case Launched => 1
    case Started => 2
    case Pouring => 3
    case Poured => 4
    case Logged => 5
    case Deactivated => 6
    case Finished => 7
  }

  function Begun(c: Config): seq<Event> {
    [SawWarm(c), TankEmpty, FillBegin]
  }

  /** A fill that has come as far as rank r, in which nothing else has happened. */
  predicate MidFill(s: State, before: seq<Event>, r: nat) {
    && Rank(s.phase) == r && s.older == Idle && !s.ticking && !s.fillJustDone && !s.dewarEmpty && s.loggedTankEmpty
    && s.fillInProgress == InProgress(s.phase)
    && (s.flags.enable == Is(true)) && s.flags.dewarFilled != Is(true)
    && s.history == before + if r <= 4 then [] else [FillComplete]
  }

  lemma MidFillStep(c: Config, s: State, before: seq<Event>, r: nat)
    requires MidFill(s, before, r) && 1 <= r <= 6
    ensures MidFill(ThreadStep(c, s), before, r + 1)
  {
    assert before + [] == before;
  }

  /** n actions of the fill thread, taking it from its launch at most to where only
      fill_just_done is missing. */
  lemma FillGoesOn(c: Config, n: nat) returns (steps: seq<Step>)
    requires n <= 6
    ensures Legal(c, steps) && Untimely(c, steps) == 0 && MidFill(After(c, steps), Begun(c), n + 1)
  {
    steps := FirstFill(c);
    assert Begun(c) + [] == Begun(c);
    for k := 0 to n
      invariant Legal(c, steps) && Untimely(c, steps) == 0 && MidFill(After(c, steps), Begun(c), k + 1)
    {
      MidFillStep(c, After(c, steps), Begun(c), k + 1);
      OneMore(c, steps, Thread);
      steps := steps + [Thread];
    }
  }

  /** The only untimely step of a run is `step`, taken after `before`. */
  predicate OneUntimelyStep(c: Config, before: seq<Step>, step: Step, steps: seq<Step>) {
    && Legal(c, steps) && Untimely(c, steps) == 1
    && before + [step] <= steps && Legal(c, before) && !TimelyStep(After(c, before), step)
  }

  /** Whatever the configuration, a tick before the launched thread has set fill_in_progress
      can start a second fill. */
  lemma TickBeforeThreadRuns(c: Config) returns (before: seq<Step>, steps: seq<Step>)
    ensures DoubleLaunch(c, After(c, before), Warm(c)) && OneUntimelyStep(c, before, Warm(c), steps)
    ensures !FillsApart(c, After(c, steps).history)
  {
    hide Legal, Untimely, After, DoubleLaunches;
    before := FirstFill(c);
    WarmTick(c, After(c, before));
    OneMore(c, before, Warm(c));
    steps := before + [Warm(c)];
    TwoFills(c, After(c, steps).history, 2, 4);
  }

  /** Between the thread's last two assignments, a warm tick starts another fill. */
  lemma WarmTickAtTheEnd(c: Config, s: State)
    requires MidFill(s, Begun(c), 7)
    ensures !FillsApart(c, TickBodyOf(c, s, Warm(c).env).history)
  {
    WarmTick(c, s);
    TwoFills(c, TickBodyOf(c, s, Warm(c).env).history, 2, 5);
  }

  /** So can a tick between the thread's last two assignments. */
  lemma TickBetweenLastAssignments(c: Config) returns (before: seq<Step>, steps: seq<Step>)
    ensures After(c, before).phase == Finished && OneUntimelyStep(c, before, Warm(c), steps)
    ensures !FillsApart(c, After(c, steps).history)
  {
    before := FillGoesOn(c, 6);
    WarmTickAtTheEnd(c, After(c, before));
    OneMore(c, before, Warm(c));
    steps := before + [Warm(c)];
  }

  /** A fill that ends between the halves of a tick is forgotten. */
  lemma Forgotten(c: Config, s: State)
    requires MidFill(s, Begun(c), 6)
    ensures var s1 := TickBodyOf(c, s, Warm(c).env);
            var s2 := ThreadStep(c, s1);
            var s3 := ThreadStep(c, s2);
            && s1.phase == Deactivated && s1.ticking && s2.phase == Finished && s2.ticking && s3.ticking
            && s3.phase == s3.older == Idle
            && !FillsApart(c, TickBodyOf(c, Next(c, s3, TickEnd), Warm(c).env).history)
  {
    WarmTick(c, s);
    var s4 := Next(c, ThreadStep(c, ThreadStep(c, TickBodyOf(c, s, Warm(c).env))), TickEnd);
    assert s4.history == Begun(c) + [FillComplete, SawWarm(c)];
    WarmTick(c, s4);
    TwoFills(c, TickBodyOf(c, s4, Warm(c).env).history, 2, 6);
  }

  /** And so can a fill that ends within a tick. */
  lemma FillEndsWithinTick(c: Config) returns (before: seq<Step>, steps: seq<Step>)
    ensures After(c, before).ticking && OneUntimelyStep(c, before, Thread, steps)
    ensures !FillsApart(c, After(c, steps).history)
  {
    hide Legal, Untimely, After, DoubleLaunches, DoubleLaunch, FillsApart, TickBodyOf, ThreadAction;
    var first := FillGoesOn(c, 5);
    Forgotten(c, After(c, first));
    OneMore(c, first, Warm(c));
    var second := first + [Warm(c)];
    OneMore(c, second, Thread);
    before := second + [Thread];
    OneMore(c, before, Thread);
    var fourth := before + [Thread];
    OneMore(c, fourth, TickEnd);
    var fifth := fourth + [TickEnd];
    OneMore(c, fifth, Warm(c));
    steps := fifth + [Warm(c)];
  }
}
