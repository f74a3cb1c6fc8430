/** The periodic writer as a client of the alarm engine: an alarm whose callback re-arms it one
    period ahead beats without drift, whatever the other alarms do. */
module PeriodicClient {
  import opened AlarmQueue
  import opened AlarmModel
  import opened AlarmInvariant
  import opened AlarmCommands
  import opened AlarmRuns
  import opened AlarmLocality
  import opened AlarmPasses

  const PERIOD: int := 50000      // kWriteDelta: 50 ms, in microseconds
  const GRANULARITY: nat := 1000  // kAlarmGranularity: 1 ms

  /** The channel's callback: whatever its writes set off, then the Update one period ahead. */
  ghost predicate Rearms<A>(cs: seq<Command<A>>, c: A, us: int) {
    cs != [] && Spares(cs[..|cs| - 1], c) && cs[|cs| - 1] == Update(c, us + PERIOD, GRANULARITY)
  }

  /** In a pass at `us` only the channel's own callback touches the channel's alarm. */
  ghost predicate ScriptRespects<A>(script: Script<A>, c: A, us: int) {
    && Rearms(CommandsOf(script, c), c, us)
    && forall a | a in script && a != c :: Spares(script[a], c)
  }

  ghost predicate StepRespects<A>(s: Engine<A>, step: Step<A>, c: A) {
    match step
    case Create(_) => true
    case Do(x) => x.a != c
    case Advance(_) => true
    case Expire(script) => s.timer.Some? ==> ScriptRespects(script, c, Micros(s.timer.value))
    case Stop => false
  }

  ghost predicate RunRespects<A>(s: Engine<A>, steps: seq<Step<A>>, c: A)
    decreases |steps|
  {
    steps == [] ||
    (StepRespects(s, steps[0], c) &&
     (Apply(s, steps[0]).Ok? ==> RunRespects(Apply(s, steps[0]).state, steps[1..], c)))
  }

  /** The due times at which the alarm `c` went off. */
  ghost function FiringTimes<A>(births: seq<Birth<A>>, fired: seq<nat>, c: A): seq<int> {
    if fired == [] then []
    else
      var last := fired[|fired| - 1];
      FiringTimes(births, fired[..|fired| - 1], c) +
      if last < |births| && births[last].cb == c then [Due(births[last])] else []
  }

  /** The n-th multiple of the period after t0. */
  function Tick(t0: int, n: nat): int { t0 + n * PERIOD }

  /** The first n ticks after t0. */
  ghost function Ticks(t0: int, n: nat): seq<int> {
    if n == 0 then [] else Ticks(t0, n - 1) + [Tick(t0, n)]
  }

  /** After n beats: the last registration was made at beat n, for beat n + 1. */
  ghost predicate Beating<A>(s: Engine<A>, c: A, t0: int, n: nat, before: seq<int>) {
    && c in s.alarms && s.alarms[c].registered && s.alarms[c].token < |s.births|
    && s.births[s.alarms[c].token] == Birth(c, Tick(t0, n + 1), Tick(t0, n))
    && FiringTimes(s.births, s.fired, c) == before + Ticks(t0, n)
  }

  // ------------------------------------------------------------ what other commands leave alone

  lemma {:induction false} FiringTimesStable<A>(b: seq<Birth<A>>, b': seq<Birth<A>>, fired: seq<nat>, c: A)
    requires b <= b' && forall t | t in fired :: t < |b|
    ensures FiringTimes(b, fired, c) == FiringTimes(b', fired, c)
  {
    if fired != [] {
      var front := fired[..|fired| - 1];
      forall t | t in front ensures t < |b| {
        assert t in fired;
      }
      FiringTimesStable(b, b', front, c);
      assert fired[|fired| - 1] in fired;
    }
  }

  ghost predicate Same<A>(s: Engine<A>, r: Engine<A>, c: A) {
    Untouched(s, r, c) && FiringTimes(r.births, r.fired, c) == FiringTimes(s.births, s.fired, c)
  }

  lemma ExecSame<A>(s: Engine<A>, batch: seq<Entry<A>>, idle: bool, x: Command<A>, c: A)
    requires Inv(s, batch, idle) && c in s.alarms && x.a != c && Exec(s, x).Ok?
    ensures Same(s, Exec(s, x).state, c)
  {
    hide Inv, Exec;
    ExecUntouched(s, batch, idle, x, c);
    FiredKnown(s, batch, idle);
    FiringTimesStable(s.births, Exec(s, x).state.births, s.fired, c);
  }

  lemma FiredKnown<A>(s: Engine<A>, batch: seq<Entry<A>>, idle: bool)
    requires Inv(s, batch, idle)
    ensures forall t | t in s.fired :: t < |s.births|
  {
  }

  lemma ExecAllSame<A>(s: Engine<A>, batch: seq<Entry<A>>, idle: bool, cs: seq<Command<A>>, c: A)
    requires Inv(s, batch, idle) && c in s.alarms && Spares(cs, c) && ExecAll(s, cs).Ok?
    ensures Same(s, ExecAll(s, cs).state, c)
  {
    hide Inv, ExecAll;
    ExecAllUntouched(s, batch, idle, cs, c);
    FiredKnown(s, batch, idle);
    FiringTimesStable(s.births, ExecAll(s, cs).state.births, s.fired, c);
  }

  lemma {:induction false} ExecAllConcat<A>(s: Engine<A>, cs: seq<Command<A>>)
    requires cs != []
    ensures var m := ExecAll(s, cs[..|cs| - 1]);
            ExecAll(s, cs) == if m.Ok? then Exec(m.state, cs[|cs| - 1]) else m
    decreases |cs|
  {
    var front := cs[..|cs| - 1];
    if |cs| == 1 {
      assert ExecAll(s, cs) == var r := Exec(s, cs[0]); if r.Ok? then ExecAll(r.state, cs[1..]) else r;
    } else {
      var r := Exec(s, cs[0]);
      if r.Ok? {
        assert cs[1..][..|cs| - 2] == front[1..];
        ExecAllConcat(r.state, cs[1..]);
      }
    }
  }

  // ------------------------------------------------------------ one beat

  /** The callback of the channel's alarm at beat n + 1. */
  lemma RearmBeats<A>(s: Engine<A>, batch: seq<Entry<A>>, cs: seq<Command<A>>, c: A, us: nat)
    requires Inv(s, batch, false) && c in s.alarms && us == NowUs(s)
    requires !s.alarms[c].registered && s.alarms[c].deadline == 0
    requires Rearms(cs, c, us) && ExecAll(s, cs).Ok?
    ensures var r := ExecAll(s, cs).state;
            && c in r.alarms && r.alarms[c].registered && r.alarms[c].token < |r.births|
            && r.births[r.alarms[c].token] == Birth(c, us + PERIOD, us)
            && FiringTimes(r.births, r.fired, c) == FiringTimes(s.births, s.fired, c)
  {
    var front := cs[..|cs| - 1];
    ExecAllConcat(s, cs);
    ExecAllKeeps(s, batch, false, front);
    ExecAllSame(s, batch, false, front, c);
    var m := ExecAll(s, front).state;
    SetsAhead(m, batch, c, us);
  }

  lemma SetsAhead<A>(m: Engine<A>, batch: seq<Entry<A>>, c: A, us: nat)
    requires Inv(m, batch, false) && c in m.alarms && us == NowUs(m)
    requires !m.alarms[c].registered && m.alarms[c].deadline == 0
    ensures var x := Exec(m, Update(c, us + PERIOD, GRANULARITY));
            && x.Ok? && var r := x.state;
            && c in r.alarms && r.alarms[c].registered && r.alarms[c].token < |r.births|
            && r.births[r.alarms[c].token] == Birth(c, us + PERIOD, us)
            && FiringTimes(r.births, r.fired, c) == FiringTimes(m.births, m.fired, c)
  {
    var x := Update(c, us + PERIOD, GRANULARITY);
    ExecSafeIff(m, batch, false, x);
    NotInMap(m, batch, c);
    FiredKnown(m, batch, false);
    hide Inv;
    FiringTimesStable(m.births, Exec(m, x).state.births, m.fired, c);
  }

  lemma NotInMap<A>(s: Engine<A>, batch: seq<Entry<A>>, c: A)
    requires Inv(s, batch, false) && c in s.alarms && !s.alarms[c].registered
    ensures c !in s.members
  {
    forall f | f in s.queue ensures f.cb != c {
      assert f in batch + s.queue && Agrees(s, f);
    }
  }

  /** One callback of a pass, the channel's or another's. */
  lemma OnAlarmBeats<A>(s: Engine<A>, batch: seq<Entry<A>>, script: Script<A>, c: A, t0: int, n: nat, before: seq<int>)
    returns (n': nat)
    requires Inv(s, batch, false) && batch != []
    requires Beating(s, c, t0, n, before) && ScriptRespects(script, c, NowUs(s))
    requires OnAlarm(s, batch[0], CommandsOf(script, batch[0].cb)).Ok?
    ensures Beating(OnAlarm(s, batch[0], CommandsOf(script, batch[0].cb)).state, c, t0, n', before)
  {
    var e := batch[0];
    var cs := CommandsOf(script, e.cb);
    RungBeats(s, batch, c, t0, n, before);
    RingInv(s, batch);
    OnAlarmIs(s, e, cs);
    hide Inv, Ring, OnAlarm, Beating, Rearms;
    if e.cb == c {
      n' := n + 1;
      OwnBeats(Ring(s, e), batch[1..], cs, c, t0, n', before);
    } else {
      n' := n;
      SparedByOthers(script, c, e.cb, NowUs(s));
      OtherBeats(Ring(s, e), batch[1..], cs, c, t0, n, before);
    }
  }

  lemma OwnBeats<A>(r: Engine<A>, rest: seq<Entry<A>>, cs: seq<Command<A>>, c: A, t0: int, n: nat, before: seq<int>)
    requires Inv(r, rest, false) && c in r.alarms
    requires !r.alarms[c].registered && r.alarms[c].deadline == 0
    requires NowUs(r) == Tick(t0, n) && FiringTimes(r.births, r.fired, c) == before + Ticks(t0, n)
    requires Rearms(cs, c, NowUs(r)) && ExecAll(r, cs).Ok?
    ensures Beating(ExecAll(r, cs).state, c, t0, n, before)
  {
    hide Inv, FiringTimes, Ticks, Rearms;
    RearmBeats(r, rest, cs, c, NowUs(r));
    NextPeriod(t0, n);
  }

  lemma OtherBeats<A>(r: Engine<A>, rest: seq<Entry<A>>, cs: seq<Command<A>>, c: A, t0: int, n: nat, before: seq<int>)
    requires Inv(r, rest, false) && Beating(r, c, t0, n, before)
    requires Spares(cs, c) && ExecAll(r, cs).Ok?
    ensures Beating(ExecAll(r, cs).state, c, t0, n, before)
  {
    hide Inv, FiringTimes, Ticks;
    ExecAllSame(r, rest, false, cs, c);
  }

  lemma NextPeriod(t0: int, n: nat)
    ensures Tick(t0, n) + PERIOD == Tick(t0, n + 1)
  {
  }

  lemma SparedByOthers<A>(script: Script<A>, c: A, a: A, us: int)
    requires ScriptRespects(script, c, us) && a != c
    ensures Spares(CommandsOf(script, a), c)
  {
  }

  lemma FiringTimesAppend<A>(births: seq<Birth<A>>, fired: seq<nat>, t: nat, c: A)
    requires t < |births|
    ensures FiringTimes(births, fired + [t], c) ==
            FiringTimes(births, fired, c) + if births[t].cb == c then [Due(births[t])] else []
  {
  }

  lemma NextTick(before: seq<int>, t0: int, n: nat)
    ensures before + Ticks(t0, n) + [Tick(t0, n + 1)] == before + Ticks(t0, n + 1)
  {
  }

  /** The alarm at the head of the batch goes off; it is the channel's exactly at its tick. */
  lemma RungBeats<A>(s: Engine<A>, batch: seq<Entry<A>>, c: A, t0: int, n: nat, before: seq<int>)
    requires Inv(s, batch, false) && batch != [] && Beating(s, c, t0, n, before)
    ensures batch[0].cb in s.alarms && s.alarms[batch[0].cb].deadline != 0
    ensures var r := Ring(s, batch[0]);
            && r.now == s.now && c in r.alarms
            && (if batch[0].cb == c then
                  && NowUs(s) == Tick(t0, n + 1)
                  && !r.alarms[c].registered && r.alarms[c].deadline == 0
                  && FiringTimes(r.births, r.fired, c) == before + Ticks(t0, n + 1)
                else Beating(r, c, t0, n, before))
  {
    HeadAgrees(s, batch);
    hide Inv;
    var e := batch[0];
    FiringTimesAppend(s.births, s.fired, e.token, c);
    NextTick(before, t0, n);
    hide FiringTimes, Ticks;
  }

  lemma {:induction false} CallAllBeats<A>(s: Engine<A>, batch: seq<Entry<A>>, script: Script<A>, c: A, t0: int, n: nat,
                                           before: seq<int>)
    returns (n': nat)
    requires Inv(s, batch, false)
    requires Beating(s, c, t0, n, before) && ScriptRespects(script, c, NowUs(s))
    requires CallAll(s, batch, script).Ok?
    ensures Beating(CallAll(s, batch, script).state, c, t0, n', before)
    decreases |batch|
  {
    if batch == [] {
      n' := n;
    } else {
      OnAlarmKeeps(s, batch, CommandsOf(script, batch[0].cb));
      var n1 := OnAlarmBeats(s, batch, script, c, t0, n, before);
      var m := OnAlarm(s, batch[0], CommandsOf(script, batch[0].cb)).state;
      n' := CallAllBeats(m, batch[1..], script, c, t0, n1, before);
    }
  }

  lemma ExpireBeats<A>(s: Engine<A>, script: Script<A>, c: A, t0: int, n: nat, before: seq<int>) returns (n': nat)
    requires Inv(s, [], true) && s.timer.Some? && Beating(s, c, t0, n, before)
    requires StepRespects(s, Expire(script), c) && Apply(s, Expire(script)).Ok?
    ensures Beating(Apply(s, Expire(script)).state, c, t0, n', before)
  {
    hide Inv, Apply, CallAll, Detach, UpdateTimer, Beating, ScriptRespects;
    StartPass(s);
    PassIs(s, script);
    var d := Detach(AtTimer(s));
    BeatingIn(s, d, c, t0, n, before);
    CallAllKeeps(d, DueEntries(s), script);
    var m := CallAll(d, DueEntries(s), script).state;
    FinishPass(m);
    n' := CallAllBeats(d, DueEntries(s), script, c, t0, n, before);
    BeatingIn(m, UpdateTimer(m).state, c, t0, n', before);
  }

  lemma BeatingIn<A>(s: Engine<A>, r: Engine<A>, c: A, t0: int, n: nat, before: seq<int>)
    requires Beating(s, c, t0, n, before)
    requires r.alarms == s.alarms && r.births == s.births && r.fired == s.fired
    ensures Beating(r, c, t0, n, before)
  {
  }

  lemma StepBeats<A>(s: Engine<A>, step: Step<A>, c: A, t0: int, n: nat, before: seq<int>) returns (n': nat)
    requires Inv(s, [], true) && Beating(s, c, t0, n, before)
    requires StepRespects(s, step, c) && Apply(s, step).Ok?
    ensures Beating(Apply(s, step).state, c, t0, n', before)
  {
    n' := n;
    match step
    case Create(_) =>
    case Do(x) => ExecSame(s, [], true, x, c);
    case Advance(_) =>
    case Expire(script) =>
      n' := ExpireBeats(s, script, c, t0, n, before);
  }

  lemma {:induction false} RunBeats<A>(s: Engine<A>, steps: seq<Step<A>>, c: A, t0: int, n: nat, before: seq<int>)
    returns (n': nat)
    requires Inv(s, [], true) && Beating(s, c, t0, n, before)
    requires RunRespects(s, steps, c) && Run(s, steps).Ok?
    ensures Beating(Run(s, steps).state, c, t0, n', before)
    decreases |steps|
  {
    if steps == [] {
      n' := n;
    } else {
      StepKeeps(s, steps[0]);
      var n1 := StepBeats(s, steps[0], c, t0, n, before);
      n' := RunBeats(Apply(s, steps[0]).state, steps[1..], c, t0, n1, before);
    }
  }

  /** A channel started at t0 writes at exactly t0 + 50 ms, t0 + 100 ms, ... and at no other times:
      in every later state its one pending alarm is set for the next multiple, the firings so far
      are all the earlier ones, and their number is what the clock says. */
  lemma WritesAtExactPeriods<A>(s0: Engine<A>, c: A, steps: seq<Step<A>>) returns (n: nat)
    requires Inv(s0, [], true) && c in s0.alarms && s0.alarms[c].deadline == 0
    requires var start := Exec(s0, Set(c, NowUs(s0) + PERIOD));
             start.Ok? && RunRespects(start.state, steps, c) && Run(start.state, steps).Ok?
    ensures var s1 := Exec(s0, Set(c, NowUs(s0) + PERIOD)).state;
            var s, t0 := Run(s1, steps).state, NowUs(s0);
            && Inv(s, [], true)
            && FiringTimes(s.births, s.fired, c) == FiringTimes(s0.births, s0.fired, c) + Ticks(t0, n)
            && c in s.alarms && s.alarms[c].registered && c in s.members
            && Lookup(s.queue, s.alarms[c].token).Some?
            && Lookup(s.queue, s.alarms[c].token).value.key == Tick(t0, n + 1)
            && Tick(t0, n) <= NowUs(s) <= Tick(t0, n + 1)
  {
    var x := Set(c, NowUs(s0) + PERIOD);
    ExecSafeIff(s0, [], true, x);
    var s1 := Exec(s0, x).state;
    var before := FiringTimes(s0.births, s0.fired, c);
    StartBeats(s0, c);
    n := RunBeats(s1, steps, c, NowUs(s0), 0, before);
    RunKeeps(s1, steps);
    var s := Run(s1, steps).state;
    EntryInMap(s, c);
    var e := LookupOf(s, [], c);
    assert e in [] + s.queue && Agrees(s, e);
  }

  lemma RegisteredIsSet<A>(s: Engine<A>, batch: seq<Entry<A>>, a: A)
    requires Inv(s, batch, false) && a in s.alarms
    ensures s.alarms[a].registered ==> s.alarms[a].deadline != 0
  {
  }

  lemma SetLocal<A>(s: Engine<A>, c: A, d: int)
    requires c in s.alarms && !s.alarms[c].registered && c !in s.members && Exec(s, Set(c, d)).Ok?
    ensures var r := Exec(s, Set(c, d)).state;
            && c in r.alarms && r.alarms[c].registered && r.alarms[c].token == |s.births|
            && r.births == s.births + [Birth(c, d, NowUs(s))] && r.fired == s.fired
  {
  }

  lemma StartBeats<A>(s0: Engine<A>, c: A)
    requires Inv(s0, [], true) && c in s0.alarms && s0.alarms[c].deadline == 0
    ensures var r := Exec(s0, Set(c, NowUs(s0) + PERIOD));
            r.Ok? && Beating(r.state, c, NowUs(s0), 0, FiringTimes(s0.births, s0.fired, c))
  {
    var x := Set(c, NowUs(s0) + PERIOD);
    ExecSafeIff(s0, [], true, x);
    RegisteredIsSet(s0, [], c);
    NotInMap(s0, [], c);
    FiredKnown(s0, [], true);
    hide Inv;
    SetLocal(s0, c, NowUs(s0) + PERIOD);
    NextPeriod(NowUs(s0), 0);
    hide Exec;
    var r := Exec(s0, x).state;
    FiringTimesStable(s0.births, r.births, s0.fired, c);
    var b := FiringTimes(s0.births, s0.fired, c);
    assert b + Ticks(NowUs(s0), 0) == b;
  }

  // ------------------------------------------------------------ after OnDestroy

  /** `c` is not registered and has gone off at `times` so far. */
  ghost predicate Retired<A>(s: Engine<A>, c: A, times: seq<int>) {
    c in s.alarms && !s.alarms[c].registered && FiringTimes(s.births, s.fired, c) == times
  }

  ghost predicate ScriptSpares<A>(script: Script<A>, c: A) {
    forall a | a in script :: Spares(script[a], c)
  }

  ghost predicate StepSpares<A>(step: Step<A>, c: A) {
    match step
    case Do(x) => x.a != c
    case Expire(script) => ScriptSpares(script, c)
    case _ => true
  }

  lemma OnAlarmSpares<A>(s: Engine<A>, batch: seq<Entry<A>>, cs: seq<Command<A>>, c: A, times: seq<int>)
    requires Inv(s, batch, false) && batch != [] && Retired(s, c, times) && Spares(cs, c)
    requires OnAlarm(s, batch[0], cs).Ok?
    ensures Retired(OnAlarm(s, batch[0], cs).state, c, times)
  {
    HeadAgrees(s, batch);
    RingInv(s, batch);
    OnAlarmIs(s, batch[0], cs);
    FiringTimesAppend(s.births, s.fired, batch[0].token, c);
    hide Inv, OnAlarm, FiringTimes;
    ExecAllSame(Ring(s, batch[0]), batch[1..], false, cs, c);
  }

  lemma {:induction false} CallAllSpares<A>(s: Engine<A>, batch: seq<Entry<A>>, script: Script<A>, c: A,
                                            times: seq<int>)
    requires Inv(s, batch, false) && Retired(s, c, times) && ScriptSpares(script, c)
    requires CallAll(s, batch, script).Ok?
    ensures Retired(CallAll(s, batch, script).state, c, times)
    decreases |batch|
  {
    hide Inv, Retired, OnAlarm;
    if batch != [] {
      var cs := CommandsOf(script, batch[0].cb);
      OnAlarmKeeps(s, batch, cs);
      OnAlarmSpares(s, batch, cs, c, times);
      CallAllSpares(OnAlarm(s, batch[0], cs).state, batch[1..], script, c, times);
    }
  }

  lemma ExpireStaysSilent<A>(s: Engine<A>, script: Script<A>, c: A, times: seq<int>)
    requires Inv(s, [], true) && s.timer.Some? && Retired(s, c, times)
    requires ScriptSpares(script, c) && Apply(s, Expire(script)).Ok?
    ensures Retired(Apply(s, Expire(script)).state, c, times)
  {
    hide Inv, Apply, CallAll, Detach, UpdateTimer, FiringTimes, ScriptSpares;
    StartPass(s);
    PassIs(s, script);
    var d := Detach(AtTimer(s));
    CallAllKeeps(d, DueEntries(s), script);
    CallAllSpares(d, DueEntries(s), script, c, times);
    FinishPass(CallAll(d, DueEntries(s), script).state);
  }

  lemma StepStaysSilent<A>(s: Engine<A>, step: Step<A>, c: A, times: seq<int>)
    requires Inv(s, [], true) && Retired(s, c, times) && StepSpares(step, c) && Apply(s, step).Ok?
    ensures Retired(Apply(s, step).state, c, times)
  {
    match step
    case Create(_) =>
    case Do(x) => ExecSame(s, [], true, x, c);
    case Advance(_) =>
    case Stop =>
      ShutdownKeeps(s);
      FiredKnown(s, [], true);
      hide Inv;
      FiringTimesStable(s.births, Shutdown(s).state.births, s.fired, c);
    case Expire(script) =>
      ExpireStaysSilent(s, script, c, times);
  }

  lemma {:induction false} RunStaysSilent<A>(s: Engine<A>, steps: seq<Step<A>>, c: A, times: seq<int>)
    requires Inv(s, [], true) && Retired(s, c, times)
    requires (forall step | step in steps :: StepSpares(step, c)) && Run(s, steps).Ok?
    ensures Retired(Run(s, steps).state, c, times)
    decreases |steps|
  {
    if steps != [] {
      assert steps[0] in steps;
      StepKeeps(s, steps[0]);
      StepStaysSilent(s, steps[0], c, times);
      RunStaysSilent(Apply(s, steps[0]).state, steps[1..], c, times);
    }
  }

  /** OnDestroy cancels the alarm between passes; from then on it never goes off again, however the
      other alarms behave. */
  lemma SilentAfterDestroy<A>(s0: Engine<A>, c: A, steps: seq<Step<A>>)
    requires Inv(s0, [], true) && c in s0.alarms
    requires forall step | step in steps :: StepSpares(step, c)
    ensures Exec(s0, Cancel(c)).Ok?
    ensures var s1 := Exec(s0, Cancel(c)).state;
            Run(s1, steps).Ok? ==>
              var s := Run(s1, steps).state;
              c in s.alarms && !s.alarms[c].registered &&
              FiringTimes(s.births, s.fired, c) == FiringTimes(s0.births, s0.fired, c)
  {
    if s0.alarms[c].registered {
      EntryInMap(s0, c);
    }
    CancelKeeps(s0, [], true, c);
    FiredKnown(s0, [], true);
    var s1 := Exec(s0, Cancel(c)).state;
    hide Inv, Exec;
    FiringTimesStable(s0.births, s1.births, s0.fired, c);
    if Run(s1, steps).Ok? {
      RunStaysSilent(s1, steps, c, FiringTimes(s0.births, s0.fired, c));
    }
  }

  /** What is left of a pass from the middle of a callback on. */
  function RestOfPass<A>(s: Engine<A>, cs: seq<Command<A>>, batch: seq<Entry<A>>, script: Script<A>): Outcome<A> {
    var s1 :- ExecAll(s, cs);
    var s2 :- CallAll(s1, batch, script);
    UpdateTimer(s2)
  }

  lemma RestOfPassSpares<A>(s: Engine<A>, cs: seq<Command<A>>, batch: seq<Entry<A>>, script: Script<A>, c: A,
                            times: seq<int>)
    requires Inv(s, batch, false) && Retired(s, c, times) && Spares(cs, c) && ScriptSpares(script, c)
    requires RestOfPass(s, cs, batch, script).Ok?
    ensures Inv(RestOfPass(s, cs, batch, script).state, [], true)
    ensures Retired(RestOfPass(s, cs, batch, script).state, c, times)
  {
    hide Inv, FiringTimes, ExecAll, CallAll, UpdateTimer;
    ExecAllKeeps(s, batch, false, cs);
    ExecAllSame(s, batch, false, cs, c);
    var s1 := ExecAll(s, cs).state;
    CallAllKeeps(s1, batch, script);
    CallAllSpares(s1, batch, script, c, times);
    FinishPass(CallAll(s1, batch, script).state);
  }

  /** OnDestroy from a callback, `batch` being called after it: it fails exactly when the channel's
      own alarm is still to be called in this pass. If it does not, the alarm does not go off in
      what is left of the pass, nor ever again. */
  lemma DestroyedInPass<A>(s: Engine<A>, c: A, cs: seq<Command<A>>, batch: seq<Entry<A>>, script: Script<A>,
                           steps: seq<Step<A>>)
    requires Inv(s, batch, false) && c in s.alarms
    requires Spares(cs, c) && ScriptSpares(script, c) && forall step | step in steps :: StepSpares(step, c)
    ensures var r := Exec(s, Cancel(c));
            && (r.Ok? <==> c !in Callbacks(batch))
            && (r.Crash? ==> r.fault == DeadToken)
            && (r.Ok? && RestOfPass(r.state, cs, batch, script).Ok? ==>
                  var z := Run(RestOfPass(r.state, cs, batch, script).state, steps);
                  z.Ok? ==>
                    && c in z.state.alarms && !z.state.alarms[c].registered
                    && FiringTimes(z.state.births, z.state.fired, c) == FiringTimes(s.births, s.fired, c))
  {
    AwaitingIsBatch(s, batch, c);
    CancelKeeps(s, batch, false, c);
    FiredKnown(s, batch, false);
    var r := Exec(s, Cancel(c));
    if r.Ok? {
      var times := FiringTimes(s.births, s.fired, c);
      hide Inv, Exec, RestOfPass;
      FiringTimesStable(s.births, r.state.births, s.fired, c);
      if RestOfPass(r.state, cs, batch, script).Ok? {
        RestOfPassSpares(r.state, cs, batch, script, c, times);
        var m := RestOfPass(r.state, cs, batch, script).state;
        if Run(m, steps).Ok? {
          RunStaysSilent(m, steps, c, times);
        }
      }
    }
  }
}
