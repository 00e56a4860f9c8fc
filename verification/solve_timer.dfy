/**
  The solve timer of CamelCube (the timer logic of `Root` in main.py).

  The source never names its states: it encodes them in which key handlers
  are bound. Releasing a key in the idle view starts the timer, pressing
  space while it runs stops it, and the stopped view offers two buttons,
  "count" and "skip", that both return to the idle view; "count" stores the
  elapsed time when it beats the current best.

  The model keeps that encoding (bindings, buttons, the polling flag and
  the two fields `timer` and `req_to_stop_timer`) and recovers the three
  phases Idle, Running and AwaitingDecision from it. Wall-clock sampling
  becomes `Tick` events that carry a non-negative elapsed amount.
 */
module SolveTimer {
  import opened Wrappers
  import opened RecordStore

  /** An amount of elapsed wall-clock time. */
  type Duration = d: real | d >= 0.0

  /** What `<KeyRelease>` is bound to. */
  datatype ReleaseHandler = ReleaseUnbound | StartOnRelease

  /** What `<KeyPress-space>` is bound to: nothing, the idle label refresh, or stop. */
  datatype SpaceHandler = SpaceUnbound | ShowOnSpace | StopOnSpace

  /**
    The timer view: its two key bindings, whether the count/skip buttons
    are shown, whether the polling loop of `_start_timer` is active, the
    flag `req_to_stop_timer` and the elapsed `timer`.
   */
  datatype Ui = Ui(
    release: ReleaseHandler,
    space: SpaceHandler,
    buttons: bool,
    polling: bool,
    stopRequested: bool,
    timer: real)

  datatype Phase = Idle | Running | AwaitingDecision

  /** What the user (and the clock, while polling) can do. */
  datatype Event = KeyRelease | SpacePress | Tick(delta: Duration) | CountClick | SkipClick

  /** The whole application: the timer view and the record file. */
  datatype App = App(ui: Ui, file: File)

  // ---------------------------------------------------------------------
  // The phases, as the bindings encode them
  // ---------------------------------------------------------------------

  predicate IsIdle(u: Ui) {
    && u.release == StartOnRelease && u.space == ShowOnSpace
    && !u.buttons && !u.polling && !u.stopRequested && u.timer == 0.0
  }

  predicate IsRunning(u: Ui) {
    && u.release == ReleaseUnbound && u.space == StopOnSpace
    && !u.buttons && u.polling && !u.stopRequested && u.timer >= 0.0
  }

  predicate IsAwaiting(u: Ui) {
    && u.release == ReleaseUnbound && u.space == SpaceUnbound
    && u.buttons && !u.polling && u.stopRequested && u.timer >= 0.0
  }

  /** The views the program can be in. */
  predicate Valid(u: Ui) {
    IsIdle(u) || IsRunning(u) || IsAwaiting(u)
  }

  function PhaseOf(u: Ui): Phase
    requires Valid(u)
  {
    if IsIdle(u) then Idle else if IsRunning(u) then Running else AwaitingDecision
  }

  /** The transition table of the timer, independent of any binding. */
  function Next(p: Phase, e: Event): Phase {
    match (p, e)
    case (Idle, KeyRelease) => Running
    case (Running, SpacePress) => AwaitingDecision
    case (AwaitingDecision, CountClick) => Idle
    case (AwaitingDecision, SkipClick) => Idle
    case _ => p
  }

  // ---------------------------------------------------------------------
  // The handlers
  // ---------------------------------------------------------------------

  /**
    `_start_timer` on entry: unbinds `<KeyRelease>`, binds space to stop
    and enters the polling loop, keeping the elapsed time at zero.
   */
  function StartTimer(u: Ui): (r: Ui)
    ensures IsIdle(u) ==> IsRunning(r) && r.timer == 0.0
    ensures r.release == ReleaseUnbound
  {
    u.(release := ReleaseUnbound, space := StopOnSpace, polling := true)
  }

  /** One iteration of the polling loop of `_start_timer`. */
  function AddTick(u: Ui, d: Duration): (r: Ui)
    ensures IsRunning(u) ==> IsRunning(r)
    ensures r.timer >= u.timer
  {
    u.(timer := u.timer + d)
  }

  /**
    `_stop_timer`: requests the loop to stop, unbinds space and shows the
    count/skip buttons; the elapsed time is frozen.
   */
  function StopTimer(u: Ui): (r: Ui)
    ensures IsRunning(u) ==> IsAwaiting(r)
    ensures r.timer == u.timer
  {
    u.(stopRequested := true, space := SpaceUnbound, polling := false, buttons := true)
  }

  /** The record rule: a time is a new best when there is none or it is strictly smaller. */
  predicate Improves(t: real, best: Time) {
    best == None || t < best.value
  }

  /**
    The record check `_reset_timer` makes after "count": the time is stored
    when there is no best or it is strictly smaller than the best.
    `get_record_now` is consulted once, and a second time only when a best
    exists; both reads repair the file.
   */
  function Decide(f: File, t: real, tag: TagFn): (r: File)
    ensures WellFormed(r) && Healthy(Load(r), tag)
    ensures Best(r, tag) == if Improves(t, Best(f, tag)) then Some(t) else Best(f, tag)
    ensures Improves(t, Best(f, tag)) ==> Load(r).before.time == Best(f, tag)
    ensures !Improves(t, Best(f, tag)) ==> r == GetRecordNow(f, tag).file
  {
    var first := GetRecordNow(f, tag);
    ReadIsStable(f, tag);
    if first.best == None then
      SetThenGet(first.file, t, tag);
      SetNewRecord(first.file, t, tag)
    else
      var second := GetRecordNow(first.file, tag);
      if t < second.best.value then
        SetThenGet(second.file, t, tag);
        SetNewRecord(second.file, t, tag)
      else
        second.file
  }

  /** The bindings and fields `_reset_timer` re-establishes on its way out. */
  function IdleView(): (r: Ui)
    ensures IsIdle(r)
  {
    Ui(StartOnRelease, ShowOnSpace, false, false, false, 0.0)
  }

  /**
    `_reset_timer` after "count" (`count` true) or "skip" (`count` false):
    hides the buttons, applies the record rule only for "count", and
    returns to the idle view with the timer at zero.
   */
  function ResetTimer(a: App, count: bool, tag: TagFn): (r: App)
    ensures IsIdle(r.ui)
    ensures !count ==> r.file == a.file
    ensures count ==> r.file == Decide(a.file, a.ui.timer, tag)
  {
    var file := if count then Decide(a.file, a.ui.timer, tag) else a.file;
    App(IdleView(), file)
  }

  /**
    Start-up: `Data()` in `Root.__init__` repairs the file, and opening
    the timer view (`_init_timer_menu`, then `_reset_timer` with
    `on_start`) reads the best for its label and binds the idle handlers.
   */
  function Launch(f: File, tag: TagFn): (r: App)
    ensures IsIdle(r.ui)
    ensures WellFormed(r.file) && Healthy(Load(r.file), tag)
    ensures Best(r.file, tag) == Best(f, tag)
    ensures Load(r.file) == CheckTimes(f, tag)
  {
    CheckTimesIdempotent(f, tag);
    var repaired := Open(f, tag);
    var shown := GetRecordNow(repaired, tag);
    ReadIsStable(f, tag);
    App(IdleView(), shown.file)
  }

  /**
    Event dispatch: an event reaches a handler only when the current
    bindings, buttons or polling loop let it through; otherwise nothing
    happens. The phase then moves as the transition table says.
   */
  function Step(a: App, e: Event, tag: TagFn): (r: App)
    ensures Valid(a.ui) ==> Valid(r.ui) && PhaseOf(r.ui) == Next(PhaseOf(a.ui), e)
    ensures !e.CountClick? ==> r.file == a.file
  {
    match e
    case KeyRelease =>
      if a.ui.release == StartOnRelease then a.(ui := StartTimer(a.ui)) else a
    case SpacePress =>
      // In the idle view space only refreshes the label.
      if a.ui.space == StopOnSpace then a.(ui := StopTimer(a.ui)) else a
    case Tick(d) =>
      if a.ui.polling then a.(ui := AddTick(a.ui, d)) else a
    case CountClick =>
      if a.ui.buttons then ResetTimer(a, true, tag) else a
    case SkipClick =>
      if a.ui.buttons then ResetTimer(a, false, tag) else a
  }

  // ---------------------------------------------------------------------
  // Properties of single steps
  // ---------------------------------------------------------------------

  /** A key release starts the timer only in the idle view; elsewhere it is ignored. */
  lemma StartOnlyWhenIdle(a: App, tag: TagFn)
    requires Valid(a.ui)
    ensures PhaseOf(a.ui) != Idle ==> Step(a, KeyRelease, tag) == a
    ensures PhaseOf(a.ui) == Idle ==> Step(a, KeyRelease, tag) != a
  {
  }

  /** Space stops the timer only while it runs; elsewhere state and file stay as they are. */
  lemma StopOnlyWhenRunning(a: App, tag: TagFn)
    requires Valid(a.ui)
    ensures PhaseOf(a.ui) != Running ==> Step(a, SpacePress, tag) == a
    ensures PhaseOf(a.ui) == Running ==> Step(a, SpacePress, tag).ui.timer == a.ui.timer
  {
  }

  /** Elapsed time accumulates only while running. */
  lemma TickOnlyWhenRunning(a: App, d: Duration, tag: TagFn)
    requires Valid(a.ui)
    ensures PhaseOf(a.ui) != Running ==> Step(a, Tick(d), tag) == a
    ensures PhaseOf(a.ui) == Running ==> Step(a, Tick(d), tag).ui.timer == a.ui.timer + d
  {
  }

  /** "count" and "skip" act only in the stopped view. */
  lemma DecisionOnlyWhenAwaiting(a: App, tag: TagFn)
    requires Valid(a.ui) && PhaseOf(a.ui) != AwaitingDecision
    ensures Step(a, CountClick, tag) == a
    ensures Step(a, SkipClick, tag) == a
  {
  }

  /**
    "count" with elapsed `t`: the best becomes `t` exactly when there was
    no best or `t` is strictly smaller; the old best is then shifted into
    `record_before`. The view returns to idle with the timer at zero.
   */
  lemma CountRule(a: App, tag: TagFn)
    requires Valid(a.ui) && PhaseOf(a.ui) == AwaitingDecision
    ensures var r := Step(a, CountClick, tag);
      && IsIdle(r.ui)
      && (Best(r.file, tag) != Best(a.file, tag) <==> Improves(a.ui.timer, Best(a.file, tag)))
      && (!Improves(a.ui.timer, Best(a.file, tag)) ==> r.file == GetRecordNow(a.file, tag).file)
      && (Improves(a.ui.timer, Best(a.file, tag)) ==>
            Best(r.file, tag) == Some(a.ui.timer) && Load(r.file).before.time == Best(a.file, tag))
  {
    var t, b := a.ui.timer, Best(a.file, tag);
    if Improves(t, b) {
      assert b != Some(t) by {
        if b != None { assert t < b.value; }
      }
    }
  }

  /** A tie with the current best writes nothing to a healthy file. */
  lemma TieWritesNothing(a: App, tag: TagFn)
    requires Valid(a.ui) && PhaseOf(a.ui) == AwaitingDecision
    requires WellFormed(a.file) && Healthy(Load(a.file), tag)
    requires Best(a.file, tag) == Some(a.ui.timer)
    ensures Step(a, CountClick, tag).file == a.file
  {
    CheckedHealthyFile(a.file, tag);
  }

  /** "skip" never touches the file and returns to idle with the timer at zero. */
  lemma SkipRule(a: App, tag: TagFn)
    requires Valid(a.ui) && PhaseOf(a.ui) == AwaitingDecision
    ensures Step(a, SkipClick, tag).file == a.file
    ensures IsIdle(Step(a, SkipClick, tag).ui)
  {
  }

  /** `after` is at least as good a best time as `before`. */
  predicate NoWorse(after: Time, before: Time) {
    before == None || (after != None && after.value <= before.value)
  }

  /** No single event makes the best time worse or forgets it. */
  lemma StepNoWorse(a: App, e: Event, tag: TagFn)
    ensures NoWorse(Best(Step(a, e, tag).file, tag), Best(a.file, tag))
  {
  }

  // ---------------------------------------------------------------------
  // Runs of events
  // ---------------------------------------------------------------------

  /** The application after handling `events` in order. */
  function Run(a: App, events: seq<Event>, tag: TagFn): App
    decreases |events|
  {
    if |events| == 0 then a
    else Step(Run(a, events[..|events| - 1], tag), events[|events| - 1], tag)
  }

  /** The phase after handling `events` in order, by the transition table alone. */
  function NextAll(p: Phase, events: seq<Event>): Phase
    decreases |events|
  {
    if |events| == 0 then p else Next(NextAll(p, events[..|events| - 1]), events[|events| - 1])
  }

  /** Every run from a valid view stays valid and follows the transition table. */
  lemma {:induction false} RunFollowsTable(a: App, events: seq<Event>, tag: TagFn)
    requires Valid(a.ui)
    ensures Valid(Run(a, events, tag).ui)
    ensures PhaseOf(Run(a, events, tag).ui) == NextAll(PhaseOf(a.ui), events)
    decreases |events|
  {
    if |events| > 0 {
      RunFollowsTable(a, events[..|events| - 1], tag);
    }
  }

  lemma NoWorseTransitive(x: Time, y: Time, z: Time)
    requires NoWorse(x, y) && NoWorse(y, z)
    ensures NoWorse(x, z)
  {
  }

  /** Over any run the best time only improves. */
  lemma {:induction false} RunNoWorse(a: App, events: seq<Event>, tag: TagFn)
    ensures NoWorse(Best(Run(a, events, tag).file, tag), Best(a.file, tag))
    decreases |events|
  {
    if |events| > 0 {
      var prefix := events[..|events| - 1];
      RunNoWorse(a, prefix, tag);
      StepNoWorse(Run(a, prefix, tag), events[|events| - 1], tag);
      NoWorseTransitive(Best(Run(a, events, tag).file, tag),
                        Best(Run(a, prefix, tag).file, tag),
                        Best(a.file, tag));
    }
  }

  /**
    The Tk main loop: dispatches each event in turn, so the result is the
    run of those events. From a valid view
    every view it passes through is valid and the best never gets worse.
   */
  method MainLoop(a: App, events: seq<Event>, tag: TagFn) returns (r: App)
    requires Valid(a.ui)
    ensures r == Run(a, events, tag)
    ensures Valid(r.ui)
    ensures PhaseOf(r.ui) == NextAll(PhaseOf(a.ui), events)
    ensures NoWorse(Best(r.file, tag), Best(a.file, tag))
  {
    r := a;
    var i := 0;
    while i < |events|
      invariant 0 <= i <= |events|
      invariant r == Run(a, events[..i], tag)
      invariant Valid(r.ui)
      invariant PhaseOf(r.ui) == NextAll(PhaseOf(a.ui), events[..i])
      invariant NoWorse(Best(r.file, tag), Best(a.file, tag))
    {
      var before := r;
      r := Step(r, events[i], tag);
      StepNoWorse(before, events[i], tag);
      NoWorseTransitive(Best(r.file, tag), Best(before.file, tag), Best(a.file, tag));
      assert events[..i + 1][..i] == events[..i];
      i := i + 1;
    }
    assert events[..i] == events;
  }
}
