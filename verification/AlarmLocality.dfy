/** What happens to one alarm is up to the commands on it: nothing else touches its registration,
    and, left in place, it goes off at the very microsecond it is due. */
module AlarmLocality {
  import opened AlarmQueue
  import opened Arithmetic
  import opened AlarmModel
  import opened AlarmInvariant
  import opened AlarmCommands
  import opened AlarmRuns

  ghost predicate Spares<A>(cs: seq<Command<A>>, c: A) {
    forall x | x in cs :: x.a != c
  }

  /** Everything about `c` that other alarms' commands leave alone. */
  ghost predicate Untouched<A>(s: Engine<A>, r: Engine<A>, c: A) {
    && c in s.alarms && c in r.alarms && r.alarms[c] == s.alarms[c]
    && s.births <= r.births && r.now == s.now && r.fired == s.fired
  }

  lemma ExecLocal<A>(s: Engine<A>, x: Command<A>, c: A)
    requires c in s.alarms && x.a != c && Exec(s, x).Ok?
    requires x.a in s.alarms && s.alarms[x.a].registered ==>
               var l := Lookup(s.queue, s.alarms[x.a].token);
               l.Some? ==> l.value.cb == x.a
    ensures Untouched(s, Exec(s, x).state, c)
  {
    hide Insert, Erase, Lookup;
  }

  lemma ExecUntouched<A>(s: Engine<A>, batch: seq<Entry<A>>, idle: bool, x: Command<A>, c: A)
    requires Inv(s, batch, idle) && c in s.alarms && x.a != c && Exec(s, x).Ok?
    ensures Untouched(s, Exec(s, x).state, c)
  {
    if s.alarms[x.a].registered {
      var e := LookupOf(s, batch, x.a);
    }
    ExecLocal(s, x, c);
  }

  lemma {:induction false} ExecAllUntouched<A>(s: Engine<A>, batch: seq<Entry<A>>, idle: bool, cs: seq<Command<A>>,
                                               c: A)
    requires Inv(s, batch, idle) && c in s.alarms && Spares(cs, c) && ExecAll(s, cs).Ok?
    ensures Untouched(s, ExecAll(s, cs).state, c)
    decreases |cs|
  {
    hide Inv, Exec;
    if cs != [] {
      assert cs[0] in cs;
      ExecSafeIff(s, batch, idle, cs[0]);
      ExecUntouched(s, batch, idle, cs[0], c);
      ExecAllUntouched(Exec(s, cs[0]).state, batch, idle, cs[1..], c);
    }
  }

  lemma OnAlarmIs<A>(s: Engine<A>, e: Entry<A>, cs: seq<Command<A>>)
    requires e.cb in s.alarms && s.alarms[e.cb].deadline != 0
    ensures OnAlarm(s, e, cs) == ExecAll(Ring(s, e), cs)
  {
  }

  lemma HeadAgrees<A>(s: Engine<A>, batch: seq<Entry<A>>)
    requires Inv(s, batch, false) && batch != []
    ensures Agrees(s, batch[0]) && batch[0].key == NowUs(s)
  {
  }

  // ------------------------------------------------------------ an alarm left in place

  /** Registration t of alarm `a` has gone off, or is still in place. */
  ghost predicate Holding<A>(s: Engine<A>, a: A, t: nat) {
    || (t in s.fates && s.fates[t].Fired?)
    || (a in s.alarms && s.alarms[a].registered && s.alarms[a].token == t)
  }

  /** No step but its own callback commands the alarm, and nothing shuts the engine down. */
  ghost predicate LeavesInPlace<A>(step: Step<A>, a: A) {
    match step
    case Create(_) => true
    case Do(x) => x.a != a
    case Advance(_) => true
    case Expire(script) => OthersSpare(script, a)
    case Stop => false
  }

  ghost predicate OthersSpare<A>(script: Script<A>, a: A) {
    forall b | b in script && b != a :: Spares(script[b], a)
  }

  lemma OnAlarmHolds<A>(s: Engine<A>, batch: seq<Entry<A>>, cs: seq<Command<A>>, a: A, t: nat)
    requires Inv(s, batch, false) && batch != [] && Holding(s, a, t)
    requires batch[0].cb != a ==> Spares(cs, a)
    requires OnAlarm(s, batch[0], cs).Ok?
    ensures Holding(OnAlarm(s, batch[0], cs).state, a, t)
  {
    HeadAgrees(s, batch);
    RingInv(s, batch);
    RingExtends(s, batch) by {
      InvStructure(s, batch);
    }
    OnAlarmIs(s, batch[0], cs);
    hide Inv, OnAlarm, ExecAll;
    var r := Ring(s, batch[0]);
    ExecAllKeeps(r, batch[1..], false, cs);
    if !(t in s.fates && s.fates[t].Fired?) && batch[0].cb != a {
      ExecAllUntouched(r, batch[1..], false, cs, a);
    }
  }

  lemma InvStructure<A>(s: Engine<A>, batch: seq<Entry<A>>)
    requires Inv(s, batch, false)
    ensures Structure(s, batch)
  {
  }

  lemma {:induction false} CallAllHolds<A>(s: Engine<A>, batch: seq<Entry<A>>, script: Script<A>, a: A, t: nat)
    requires Inv(s, batch, false) && Holding(s, a, t) && OthersSpare(script, a)
    requires CallAll(s, batch, script).Ok?
    ensures Holding(CallAll(s, batch, script).state, a, t)
    decreases |batch|
  {
    hide Inv, Holding, OnAlarm;
    if batch != [] {
      var cs := CommandsOf(script, batch[0].cb);
      OnAlarmKeeps(s, batch, cs);
      OnAlarmHolds(s, batch, cs, a, t);
      CallAllHolds(OnAlarm(s, batch[0], cs).state, batch[1..], script, a, t);
    }
  }

  lemma ExpireHolds<A>(s: Engine<A>, script: Script<A>, a: A, t: nat)
    requires Inv(s, [], true) && s.timer.Some? && Holding(s, a, t) && OthersSpare(script, a)
    requires Apply(s, Expire(script)).Ok?
    ensures Holding(Apply(s, Expire(script)).state, a, t)
  {
    hide Inv, Apply, CallAll, Detach, UpdateTimer, OthersSpare;
    StartPass(s);
    PassIs(s, script);
    var d := Detach(AtTimer(s));
    CallAllKeeps(d, DueEntries(s), script);
    CallAllHolds(d, DueEntries(s), script, a, t);
    FinishPass(CallAll(d, DueEntries(s), script).state);
  }

  lemma StepHolds<A>(s: Engine<A>, step: Step<A>, a: A, t: nat)
    requires Inv(s, [], true) && Holding(s, a, t) && LeavesInPlace(step, a) && Apply(s, step).Ok?
    ensures Holding(Apply(s, step).state, a, t)
  {
    match step
    case Create(_) =>
    case Do(x) =>
      ExecSafeIff(s, [], true, x);
      if !(t in s.fates && s.fates[t].Fired?) {
        ExecUntouched(s, [], true, x, a);
      }
    case Advance(_) =>
    case Expire(script) => ExpireHolds(s, script, a, t);
  }

  lemma {:induction false} RunHolds<A>(s: Engine<A>, steps: seq<Step<A>>, a: A, t: nat)
    requires Inv(s, [], true) && Holding(s, a, t)
    requires (forall step | step in steps :: LeavesInPlace(step, a)) && Run(s, steps).Ok?
    ensures Holding(Run(s, steps).state, a, t)
    decreases |steps|
  {
    hide Inv, Holding, LeavesInPlace, Apply;
    if steps != [] {
      assert steps[0] in steps;
      StepKeeps(s, steps[0]);
      StepHolds(s, steps[0], a, t);
      RunHolds(Apply(s, steps[0]).state, steps[1..], a, t);
    }
  }

  /** An alarm left in place goes off at exactly max(deadline, registration time): by the time the
      clock is past that microsecond it has, and until then it is still waiting, however the other
      alarms, and the callbacks of other alarms, behave. */
  lemma LeftInPlaceFiresOnTime<A>(s0: Engine<A>, steps: seq<Step<A>>, a: A)
    requires Inv(s0, [], true) && a in s0.alarms && s0.alarms[a].registered
    requires (forall step | step in steps :: LeavesInPlace(step, a)) && Run(s0, steps).Ok?
    ensures s0.alarms[a].token < |s0.births|
    ensures var t := s0.alarms[a].token;
            var due := Due(s0.births[t]);
            var s := Run(s0, steps).state;
            && due == Max(s0.alarms[a].deadline, s0.births[t].at)
            && (due < NowUs(s) ==> t in s.fates && s.fates[t] == Fired(due))
            && (NowUs(s) < due ==> t !in s.fates && a in s.alarms && a in s.members && s.alarms[a].token == t)
  {
    var t := s0.alarms[a].token;
    var e := LookupOf(s0, [], a);
    assert e in [] + s0.queue && Agrees(s0, e);
    RunHolds(s0, steps, a, t);
    RunKeeps(s0, steps);
    var s := Run(s0, steps).state;
    assert s.births[t] == s0.births[t];
    PunctualToken(s, t);
    if !(t in s.fates && s.fates[t].Fired?) {
      EntryInMap(s, a);
      assert TokenValid(s, a);
    }
  }
}
