/**
  Sliding metric windows and the quarantine they trigger. Every clock reading of
  the source is a separate value; readings never go backwards. `all` is the
  history of a window: every timestamp ever added to it.
 */
module Quarantine {
  import opened Prelude

  datatype Window = Window(span: real, events: seq<real>, all: seq<real>)

  datatype Metric = Errors | ToolCalls | Writes | ApiCalls

  /** The `quarantine` section of the configuration. */
  datatype Config = Config(enabled: bool, maxErrors: int, maxCalls: int, maxWrites: int, maxApi: int)

  datatype Hold = Hold(start: real, reason: Metric)

  /** `config` is None when the file has no quarantine section; `cooldown` then has its default. */
  datatype Monitor = Monitor(
    config: Option<Config>, cooldown: real, errors: Window, calls: Window, writes: Window, api: Window,
      hold: Option<Hold>, clock: real)

  // ---- one window ---------------------------------------------------------

  /** `_cleanup`: drop from the left while the oldest event is before the cutoff. */
  function Dropped(events: seq<real>, cutoff: real): seq<real> {
    if events != [] && events[0] < cutoff then Dropped(events[1..], cutoff) else events
  }

  function Added(w: Window, stamp: real, now: real): Window {
    Window(w.span, Dropped(w.events + [stamp], now - w.span), w.all + [stamp])
  }

  function Cleaned(w: Window, now: real): Window {
    w.(events := Dropped(w.events, now - w.span))
  }

  /** The naive count: all events ever recorded that are not before the cutoff. */
  function CountSince(all: seq<real>, cutoff: real): nat {
    if all == [] then 0 else CountSince(all[..|all| - 1], cutoff) + if all[|all| - 1] >= cutoff then 1 else 0
  }

  ghost predicate Ordered(xs: seq<real>, limit: real) {
    && (forall i, j :: 0 <= i < j < |xs| ==> xs[i] <= xs[j])
    && (forall i :: 0 <= i < |xs| ==> xs[i] <= limit)
  }

  /** The kept events are a tail of the history, and what is gone was out of the window already. */
  ghost predicate Sound(w: Window, clock: real) {
    && Ordered(w.all, clock)
    && |w.events| <= |w.all| && w.events == w.all[|w.all| - |w.events|..]
    && forall i :: 0 <= i < |w.all| - |w.events| ==> w.all[i] < clock - w.span
  }

  lemma {:induction false} DroppedIsTail(all: seq<real>, k: nat, cutoff: real)
    requires k <= |all| && forall i :: 0 <= i < k ==> all[i] < cutoff
    ensures var d := Dropped(all[k..], cutoff);
            |d| <= |all| - k && d == all[|all| - |d|..] && (d != [] ==> d[0] >= cutoff)
            && forall i :: 0 <= i < |all| - |d| ==> all[i] < cutoff
    decreases |all| - k
  {
    if k < |all| && all[k] < cutoff {
      assert all[k..][1..] == all[k + 1..];
      DroppedIsTail(all, k + 1, cutoff);
    }
  }

  lemma CleanedIsSound(w: Window, clock: real, now: real)
    requires Sound(w, clock) && clock <= now
    ensures Sound(Cleaned(w, now), now)
    ensures Cleaned(w, now).events != [] ==> Cleaned(w, now).events[0] >= now - w.span
  {
    DroppedIsTail(w.all, |w.all| - |w.events|, now - w.span);
  }

  lemma AddedIsSound(w: Window, clock: real, stamp: real, now: real)
    requires Sound(w, clock) && clock <= stamp <= now
    ensures Sound(Added(w, stamp, now), now)
  {
    var all := w.all + [stamp];
    assert w.events + [stamp] == all[|w.all| - |w.events|..];
    DroppedIsTail(all, |w.all| - |w.events|, now - w.span);
  }

  lemma {:induction false} CountOfTail(all: seq<real>, k: nat, cutoff: real)
    requires k <= |all|
    requires forall i :: 0 <= i < k ==> all[i] < cutoff
    requires forall i :: k <= i < |all| ==> all[i] >= cutoff
    ensures CountSince(all, cutoff) == |all| - k
    decreases |all|
  {
    if all != [] {
      CountOfTail(all[..|all| - 1], if k < |all| then k else k - 1, cutoff);
    }
  }

  ghost predicate CountsExactly(w: Window, now: real) {
    |Cleaned(w, now).events| == CountSince(w.all, now - w.span)
  }

  /** `count` is the naive count over everything ever recorded. */
  lemma CountIsNaive(w: Window, clock: real, now: real)
    requires Sound(w, clock) && clock <= now
    ensures CountsExactly(w, now)
  {
    CleanedIsSound(w, clock, now);
    var d := Cleaned(w, now).events;
    var k := |w.all| - |d|;
    forall i | k <= i < |w.all|
      ensures w.all[i] >= now - w.span
    {
      assert w.all[k] == d[0];
    }
    CountOfTail(w.all, k, now - w.span);
  }

  lemma {:induction false} CountShrinks(all: seq<real>, a: real, b: real)
    requires a <= b
    ensures CountSince(all, b) <= CountSince(all, a)
    decreases |all|
  {
    if all != [] { CountShrinks(all[..|all| - 1], a, b); }
  }

  // ---- the monitor --------------------------------------------------------

  /** The readings of one `record_*` call: the stamp, the cleanup behind it, the four counts and the trigger. */
  datatype Readings = Readings(stamp: real, cleanup: real, c1: real, c2: real, c3: real, c4: real, trigger: real) {
    predicate From(clock: real) {
      clock <= stamp <= cleanup <= c1 <= c2 <= c3 <= c4 <= trigger
    }
  }

  datatype Op = Record(metric: Metric, at: Readings) | Release(now: real)

  function Noted(m: Monitor, metric: Metric, stamp: real, now: real): Monitor {
    match metric
    case Errors => m.(errors := Added(m.errors, stamp, now))
    case ToolCalls => m.(calls := Added(m.calls, stamp, now))
    case Writes => m.(writes := Added(m.writes, stamp, now))
    case ApiCalls => m.(api := Added(m.api, stamp, now))
  }

  /** `_trigger_quarantine`: an existing quarantine is left as it is. */
  function Triggered(m: Monitor, reason: Metric, now: real): Monitor {
    if m.hold.Some? then m else m.(hold := Some(Hold(now, reason)))
  }

  /** `_check_quarantine_triggers` with its early returns; without a section it raises KeyError and changes nothing. */
  function Checked(m: Monitor, at: Readings): Monitor {
    if m.config.None? || !m.config.value.enabled then m
    else
      var c := m.config.value;
      var m1 := m.(errors := Cleaned(m.errors, at.c1));
      if |m1.errors.events| > c.maxErrors then Triggered(m1, Errors, at.trigger)
      else
        var m2 := m1.(calls := Cleaned(m1.calls, at.c2));
        if |m2.calls.events| > c.maxCalls then Triggered(m2, ToolCalls, at.trigger)
        else
          var m3 := m2.(writes := Cleaned(m2.writes, at.c3));
          if |m3.writes.events| > c.maxWrites then Triggered(m3, Writes, at.trigger)
          else
            var m4 := m3.(api := Cleaned(m3.api, at.c4));
            if |m4.api.events| > c.maxApi then Triggered(m4, ApiCalls, at.trigger) else m4
  }

  function Step(m: Monitor, op: Op): Monitor {
    match op
    case Record(metric, at) =>
      if !at.From(m.clock) then m else Checked(Noted(m, metric, at.stamp, at.cleanup), at).(clock := at.trigger)
    case Release(now) =>
      if now < m.clock then m
      else if m.hold.Some? && now - m.hold.value.start >= m.cooldown then m.(hold := None, clock := now)
      else m.(clock := now)
  }

  function RunFrom(m: Monitor, ops: seq<Op>): Monitor {
    if ops == [] then m else Step(RunFrom(m, ops[..|ops| - 1]), ops[|ops| - 1])
  }

  /** A monitor as it is constructed: empty windows, and a quarantine possibly loaded from disk. */
  predicate Initial(m: Monitor) {
    m.errors.all == m.calls.all == m.writes.all == m.api.all == []
      && m.errors.events == m.calls.events == m.writes.events == m.api.events == []
  }

  ghost predicate AllSound(m: Monitor) {
    Sound(m.errors, m.clock) && Sound(m.calls, m.clock) && Sound(m.writes, m.clock) && Sound(m.api, m.clock)
  }

  lemma Later(w: Window, clock: real, now: real)
    requires Sound(w, clock) && clock <= now
    ensures Sound(w, now)
  {
  }

  lemma NotedSound(m: Monitor, metric: Metric, at: Readings)
    requires AllSound(m) && at.From(m.clock)
    ensures AllSound(Noted(m, metric, at.stamp, at.cleanup).(clock := at.cleanup))
  {
    var w :=
      match metric
      case Errors => m.errors
      case ToolCalls => m.calls
      case Writes => m.writes
      case ApiCalls => m.api;
    AddedIsSound(w, m.clock, at.stamp, at.cleanup);
    Later(m.errors, m.clock, at.cleanup); Later(m.calls, m.clock, at.cleanup);
    Later(m.writes, m.clock, at.cleanup); Later(m.api, m.clock, at.cleanup);
  }

  lemma CleanedLater(w: Window, clock: real, now: real, end: real)
    requires Sound(w, clock) && clock <= now <= end
    ensures Sound(w, end) && Sound(Cleaned(w, now), end)
  {
    CleanedIsSound(w, clock, now);
    Later(Cleaned(w, now), now, end);
    Later(w, clock, end);
  }

  /** A check leaves each window as it is or cleans it up. */
  lemma CheckedCleans(m: Monitor, at: Readings)
    ensures var m' := Checked(m, at);
            m'.errors in {m.errors, Cleaned(m.errors, at.c1)} && m'.calls in {m.calls, Cleaned(m.calls, at.c2)}
            && m'.writes in {m.writes, Cleaned(m.writes, at.c3)} && m'.api in {m.api, Cleaned(m.api, at.c4)}
  {
  }

  lemma CheckedSound(m: Monitor, at: Readings)
    requires AllSound(m) && m.clock <= at.c1 <= at.c2 <= at.c3 <= at.c4 <= at.trigger
    ensures AllSound(Checked(m, at).(clock := at.trigger))
  {
    CleanedLater(m.errors, m.clock, at.c1, at.trigger);
    CleanedLater(m.calls, m.clock, at.c2, at.trigger);
    CleanedLater(m.writes, m.clock, at.c3, at.trigger);
    CleanedLater(m.api, m.clock, at.c4, at.trigger);
    CheckedCleans(m, at);
  }

  lemma StepSound(m: Monitor, op: Op)
    requires AllSound(m)
    ensures AllSound(Step(m, op))
  {
    match op
    case Record(metric, at) =>
      if at.From(m.clock) {
        NotedSound(m, metric, at);
        var noted := Noted(m, metric, at.stamp, at.cleanup).(clock := at.cleanup);
        CheckedSound(noted, at);
        assert Checked(Noted(m, metric, at.stamp, at.cleanup), at).(clock := at.trigger) ==
            Checked(noted, at).(clock := at.trigger);
      }
    case Release(now) =>
      if now >= m.clock {
        Later(m.errors, m.clock, now);
        Later(m.calls, m.clock, now);
        Later(m.writes, m.clock, now);
        Later(m.api, m.clock, now);
      }
  }

  /** In every run each window is a tail of its history. */
  lemma {:induction false} Reachable(m: Monitor, ops: seq<Op>)
    requires Initial(m)
    ensures AllSound(RunFrom(m, ops))
    decreases |ops|
  {
    if ops != [] {
      Reachable(m, ops[..|ops| - 1]);
      StepSound(RunFrom(m, ops[..|ops| - 1]), ops[|ops| - 1]);
    }
  }

  /** Under a clock that never goes back, a window counts exactly the events ever recorded inside it. */
  lemma WindowsCountExactly(m: Monitor, ops: seq<Op>, now: real)
    requires Initial(m) && RunFrom(m, ops).clock <= now
    ensures var r := RunFrom(m, ops);
            CountsExactly(r.errors, now) && CountsExactly(r.calls, now) && CountsExactly(r.writes, now)
            && CountsExactly(r.api, now)
  {
    Reachable(m, ops);
    AllCountExactly(RunFrom(m, ops), now);
  }

  lemma AllCountExactly(r: Monitor, now: real)
    requires AllSound(r) && r.clock <= now
    ensures CountsExactly(r.errors, now) && CountsExactly(r.calls, now) && CountsExactly(r.writes, now)
            && CountsExactly(r.api, now)
  {
    CountIsNaive(r.errors, r.clock, now);
    CountIsNaive(r.calls, r.clock, now);
    CountIsNaive(r.writes, r.clock, now);
    CountIsNaive(r.api, r.clock, now);
  }

  /** Some window holds more events, now, than its limit allows. */
  predicate OverLimit(m: Monitor, c: Config) {
    || CountSince(m.errors.all, m.clock - m.errors.span) > c.maxErrors
    || CountSince(m.calls.all, m.clock - m.calls.span) > c.maxCalls
    || CountSince(m.writes.all, m.clock - m.writes.span) > c.maxWrites
    || CountSince(m.api.all, m.clock - m.api.span) > c.maxApi
  }

  lemma CheckedHolds(m: Monitor, at: Readings)
    requires AllSound(m) && m.clock <= at.c1 <= at.c2 <= at.c3 <= at.c4 <= at.trigger
    requires m.config.Some? && m.config.value.enabled && OverLimit(m.(clock := at.trigger), m.config.value)
    ensures Checked(m, at).hold.Some?
  {
    CountIsNaive(m.errors, m.clock, at.c1);
    CountShrinks(m.errors.all, at.c1 - m.errors.span, at.trigger - m.errors.span);
    CountIsNaive(m.calls, m.clock, at.c2); CountShrinks(m.calls.all, at.c2 - m.calls.span, at.trigger - m.calls.span);
    CountIsNaive(m.writes, m.clock, at.c3);
    CountShrinks(m.writes.all, at.c3 - m.writes.span, at.trigger - m.writes.span);
    CountIsNaive(m.api, m.clock, at.c4); CountShrinks(m.api.all, at.c4 - m.api.span, at.trigger - m.api.span);
  }

  lemma CheckedKeepsHistory(m: Monitor, at: Readings)
    ensures var m' := Checked(m, at);
            m'.errors.all == m.errors.all && m'.calls.all == m.calls.all && m'.writes.all == m.writes.all
              && m'.api.all == m.api.all
            && m'.errors.span == m.errors.span && m'.calls.span == m.calls.span && m'.writes.span == m.writes.span
              && m'.api.span == m.api.span
  {
  }

  lemma CheckedHoldsOver(m: Monitor, at: Readings)
    requires AllSound(m) && m.clock <= at.c1 <= at.c2 <= at.c3 <= at.c4 <= at.trigger && m.config.Some?
             && m.config.value.enabled
    ensures OverLimit(Checked(m, at).(clock := at.trigger), m.config.value) ==> Checked(m, at).hold.Some?
  {
    CheckedKeepsHistory(m, at);
    assert OverLimit(Checked(m, at).(clock := at.trigger), m.config.value) ==
        OverLimit(m.(clock := at.trigger), m.config.value);
    if OverLimit(m.(clock := at.trigger), m.config.value) { CheckedHolds(m, at); }
  }

  lemma CheckedIgnoresClock(m: Monitor, at: Readings, now: real)
    ensures Checked(m.(clock := now), at) == Checked(m, at).(clock := now) && Checked(m, at).config == m.config
  {
  }

  lemma RecordHolds(r: Monitor, metric: Metric, at: Readings)
    requires AllSound(r) && at.From(r.clock) && r.config.Some? && r.config.value.enabled
    ensures var r' := Step(r, Record(metric, at));
            r'.config == r.config && (OverLimit(r', r.config.value) ==> r'.hold.Some?)
  {
    NotedSound(r, metric, at);
    var bare := Noted(r, metric, at.stamp, at.cleanup);
    CheckedIgnoresClock(bare, at, at.cleanup);
    CheckedHoldsOver(bare.(clock := at.cleanup), at);
  }

  /** After any `record_*` call with an enabled quarantine section, a window over its limit implies quarantine. */
  lemma OverLimitIsQuarantined(m: Monitor, ops: seq<Op>, metric: Metric, at: Readings)
    requires Initial(m) && at.From(RunFrom(m, ops).clock)
    requires var c := RunFrom(m, ops).config; c.Some? && c.value.enabled
    ensures var r' := Step(RunFrom(m, ops), Record(metric, at));
            r'.config.Some? && (OverLimit(r', r'.config.value) ==> r'.hold.Some?)
  {
    Reachable(m, ops);
    RecordHolds(RunFrom(m, ops), metric, at);
  }

  /** The window, the reading and the limit behind a reason. */
  function Behind(m: Monitor, c: Config, reason: Metric, at: Readings): (Window, real, int) {
    match reason
    case Errors => (m.errors, at.c1, c.maxErrors)
    case ToolCalls => (m.calls, at.c2, c.maxCalls)
    case Writes => (m.writes, at.c3, c.maxWrites)
    case ApiCalls => (m.api, at.c4, c.maxApi)
  }

  /** That window held more events than its limit when it was counted. */
  predicate WasOver(m: Monitor, c: Config, reason: Metric, at: Readings) {
    var (w, now, limit) := Behind(m, c, reason, at);
    CountSince(w.all, now - w.span) > limit
  }

  /** A quarantine that a check brings about is justified by its own reason. */
  ghost predicate Justified(m: Monitor, m': Monitor, at: Readings) {
    m.hold.None? && m'.hold.Some? ==>
      && m'.hold.value.start == at.trigger && m.config.Some? && m.config.value.enabled
      && WasOver(m', m.config.value, m'.hold.value.reason, at)
  }

  /** A check that brings about a quarantine has just counted too many events behind its reason. */
  lemma CheckedReason(m: Monitor, at: Readings)
    requires m.hold.None? && Checked(m, at).hold.Some?
    ensures m.config.Some? && m.config.value.enabled && Checked(m, at).hold.value.start == at.trigger
    ensures var (w, now, limit) := Behind(m, m.config.value, Checked(m, at).hold.value.reason, at);
            |Cleaned(w, now).events| > limit
  {
  }

  lemma CountedOver(m: Monitor, c: Config, reason: Metric, at: Readings)
    requires AllSound(m) && m.clock <= at.c1 <= at.c2 <= at.c3 <= at.c4
    requires var (w, now, limit) := Behind(m, c, reason, at); |Cleaned(w, now).events| > limit
    ensures WasOver(m, c, reason, at)
  {
    var (w, now, limit) := Behind(m, c, reason, at);
    CountIsNaive(w, m.clock, now);
  }

  lemma OverInHistory(a: Monitor, b: Monitor, c: Config, reason: Metric, at: Readings)
    requires a.errors.all == b.errors.all && a.calls.all == b.calls.all && a.writes.all == b.writes.all
             && a.api.all == b.api.all
    requires a.errors.span == b.errors.span && a.calls.span == b.calls.span && a.writes.span == b.writes.span
             && a.api.span == b.api.span
    ensures WasOver(a, c, reason, at) == WasOver(b, c, reason, at)
  {
  }

  lemma CheckedJustified(m: Monitor, at: Readings)
    requires AllSound(m) && m.clock <= at.c1 <= at.c2 <= at.c3 <= at.c4 <= at.trigger
    ensures Justified(m, Checked(m, at), at)
  {
    var m' := Checked(m, at);
    if m.hold.None? && m'.hold.Some? {
      CheckedReason(m, at);
      CheckedKeepsHistory(m, at);
      CountedOver(m, m.config.value, m'.hold.value.reason, at);
      OverInHistory(m, m', m.config.value, m'.hold.value.reason, at);
    }
  }

  lemma NotedKeeps(m: Monitor, metric: Metric, at: Readings)
    ensures var bare := Noted(m, metric, at.stamp, at.cleanup);
            bare.hold == m.hold && bare.config == m.config && bare.clock == m.clock
  {
  }

  lemma RecordJustified(r: Monitor, metric: Metric, at: Readings)
    requires AllSound(r) && at.From(r.clock)
    ensures Justified(r, Step(r, Record(metric, at)), at)
  {
    NotedSound(r, metric, at);
    NotedKeeps(r, metric, at);
    var bare := Noted(r, metric, at.stamp, at.cleanup).(clock := at.cleanup);
    CheckedIgnoresClock(Noted(r, metric, at.stamp, at.cleanup), at, at.cleanup);
    CheckedJustified(bare, at);
    JustifiedAnyway(bare, Checked(bare, at), r, at);
  }

  /** Clocks and the windows before the check do not matter to a justification. */
  lemma JustifiedAnyway(bare: Monitor, checked: Monitor, r: Monitor, at: Readings)
    requires Justified(bare, checked, at) && bare.hold == r.hold && bare.config == r.config
    ensures Justified(r, checked.(clock := at.trigger), at)
  {
    if r.hold.None? && checked.hold.Some? {
      OverInHistory(checked, checked.(clock := at.trigger), r.config.value, checked.hold.value.reason, at);
    }
  }

  /** Nothing but a window over its limit leads into quarantine. */
  lemma {:induction false} QuarantineIsJustified(m: Monitor, ops: seq<Op>, op: Op)
    requires Initial(m)
    ensures var (r, r') := (RunFrom(m, ops), Step(RunFrom(m, ops), op));
            r.hold.None? && r'.hold.Some? ==> op.Record? && Justified(r, r', op.at)
  {
    Reachable(m, ops);
    if op.Record? && op.at.From(RunFrom(m, ops).clock) { RecordJustified(RunFrom(m, ops), op.metric, op.at); }
  }

  /** Without a quarantine section the check raises before it looks: no number of events ever leads to quarantine. */
  lemma {:induction false} NoSectionNoQuarantine(m: Monitor, ops: seq<Op>)
    requires m.config.None? && m.hold.None?
    ensures RunFrom(m, ops).config.None? && RunFrom(m, ops).hold.None?
    decreases |ops|
  {
    if ops != [] { NoSectionNoQuarantine(m, ops[..|ops| - 1]); }
  }

  /** The limits a configuration gives, with the defaults of absent entries. */
  function Limits(m: Monitor): Config {
    if m.config.Some? then m.config.value else DEFAULTS
  }

  const DEFAULTS: Config := Config(true, 10, 50, 30, 100)

  /**
    A window over its limit brings a free monitor into quarantine exactly when the
    configuration has a quarantine section and that section is enabled. An absent
    section, which reads as enabled, makes the check raise instead.
   */
  lemma {:induction false} OverLimitQuarantinesIff(m: Monitor, ops: seq<Op>, metric: Metric, at: Readings)
    requires Initial(m) && at.From(RunFrom(m, ops).clock) && RunFrom(m, ops).hold.None?
    requires OverLimit(Step(RunFrom(m, ops), Record(metric, at)), Limits(RunFrom(m, ops)))
    ensures var r := RunFrom(m, ops);
            Step(r, Record(metric, at)).hold.Some? <==> r.config.Some? && r.config.value.enabled
  {
    var r := RunFrom(m, ops);
    Reachable(m, ops);
    NotedKeeps(r, metric, at);
    if r.config.Some? && r.config.value.enabled {
      RecordHolds(r, metric, at);
    } else {
      assert Step(r, Record(metric, at)).hold == r.hold;
    }
  }

  lemma HoldStep(m: Monitor, op: Op)
    ensures var m' := Step(m, op); m'.cooldown == m.cooldown && m'.clock >= m.clock
    ensures var m' := Step(m, op); m.hold.Some? ==> m'.hold == m.hold || m'.clock >= m.hold.value.start + m.cooldown
  {
  }

  /**
    A release check frees the monitor exactly if it was free or the cooldown
    has passed since the quarantine's start.
   */
  lemma ReleasedIff(m: Monitor, now: real)
    requires m.clock <= now
    ensures Step(m, Release(now)).hold.None? <==> m.hold.None? || now >= m.hold.value.start + m.cooldown
    ensures Step(m, Release(now)).hold.Some? ==> Step(m, Release(now)).hold == m.hold
  {
  }

  /** A quarantine keeps its start and its reason until the cooldown from that start has passed. */
  lemma {:induction false} HeldUntilCooldown(m: Monitor, ops: seq<Op>)
    requires m.hold.Some?
    ensures var r := RunFrom(m, ops);
            r.cooldown == m.cooldown && (r.hold == m.hold || r.clock >= m.hold.value.start + m.cooldown)
    decreases |ops|
  {
    if ops != [] {
      HeldUntilCooldown(m, ops[..|ops| - 1]);
      var r := RunFrom(m, ops[..|ops| - 1]);
      HoldStep(r, ops[|ops| - 1]);
    }
  }

  // ---- the window object --------------------------------------------------

  class MetricWindow {
    const span: real
    var events: seq<real>
    ghost var all: seq<real>

    ghost function View(): Window reads this { Window(span, events, all) }

    constructor (seconds: real)
      ensures View() == Window(seconds, [], [])
    {
      span, events, all := seconds, [], [];
    }

    method Cleanup(now: real)
      modifies this
      ensures View() == Cleaned(old(View()), now)
    {
      var cutoff := now - span;
      while events != [] && events[0] < cutoff
        invariant all == old(all) && Dropped(events, cutoff) == Dropped(old(events), cutoff)
        decreases |events|
      {
        events := events[1..];
      }
    }

    method Add(stamp: real, now: real)
      modifies this
      ensures View() == Added(old(View()), stamp, now)
    {
      events := events + [stamp];
      all := all + [stamp];
      Cleanup(now);
    }

    method Count(now: real) returns (n: nat)
      modifies this
      ensures View() == Cleaned(old(View()), now) && n == |events|
    {
      Cleanup(now);
      n := |events|;
    }
  }

  class BehaviorMonitor {
    const config: Option<Config>
    const cooldown: real
    const errors: MetricWindow
    const calls: MetricWindow
    const writes: MetricWindow
    const api: MetricWindow
    var hold: Option<Hold>

    ghost predicate Valid() {
      errors != calls && errors != writes && errors != api && calls != writes && calls != api && writes != api
    }

    ghost function View(clock: real): Monitor reads this, errors, calls, writes, api {
      Monitor(config, cooldown, errors.View(), calls.View(), writes.View(), api.View(), hold, clock)
    }

    constructor (section: Option<Config>, seconds: real, e: real, t: real, w: real, a: real, saved: Option<Hold>)
      ensures Valid() && Initial(View(0.0)) && hold == saved && config == section && cooldown == seconds
      ensures fresh(errors) && fresh(calls) && fresh(writes) && fresh(api)
    {
      config, cooldown, hold := section, seconds, saved;
      errors := new MetricWindow(e);
      calls := new MetricWindow(t);
      writes := new MetricWindow(w);
      api := new MetricWindow(a);
    }

    method Record(metric: Metric, ghost clock: real, at: Readings)
      requires Valid() && at.From(clock)
      modifies this, errors, calls, writes, api
      ensures View(at.trigger) == Step(old(View(clock)), Op.Record(metric, at))
    {
      match metric {
        case Errors => errors.Add(at.stamp, at.cleanup);
        case ToolCalls => calls.Add(at.stamp, at.cleanup);
        case Writes => writes.Add(at.stamp, at.cleanup);
        case ApiCalls => api.Add(at.stamp, at.cleanup);
      }
      assert View(clock) == Noted(old(View(clock)), metric, at.stamp, at.cleanup);
      CheckTriggers(clock, at);
    }

    method CheckTriggers(ghost clock: real, at: Readings)
      requires Valid()
      modifies this, errors, calls, writes, api
      ensures View(clock) == Checked(old(View(clock)), at)
    {
      if config.None? || !config.value.enabled { return; }
      var n := errors.Count(at.c1);
      if n > config.value.maxErrors {
        Trigger(Errors, at.trigger);
        return;
      }
      n := calls.Count(at.c2);
      if n > config.value.maxCalls {
        Trigger(ToolCalls, at.trigger);
        return;
      }
      n := writes.Count(at.c3);
      if n > config.value.maxWrites {
        Trigger(Writes, at.trigger);
        return;
      }
      n := api.Count(at.c4);
      if n > config.value.maxApi { Trigger(ApiCalls, at.trigger); }
    }

    method Trigger(reason: Metric, now: real)
      modifies this
      ensures hold == if old(hold).Some? then old(hold) else Some(Hold(now, reason))
    {
      if hold.None? { hold := Some(Hold(now, reason)); }
    }

    method CheckRelease(ghost clock: real, now: real) returns (free: bool)
      requires clock <= now
      modifies this
      ensures View(now) == Step(old(View(clock)), Release(now)) && free == hold.None?
    {
      if hold.Some? && now - hold.value.start >= cooldown { hold := None; }
      free := hold.None?;
    }
  }
}
