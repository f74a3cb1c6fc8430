/** Passes whose callbacks also set and update other alarms: again they complete exactly when none
    touches an alarm that is due in the same pass and has not been called yet, provided that the
    conditions which Set and Update leave to their callers hold otherwise. */
module AlarmBusyPasses {
  import opened AlarmQueue
  import opened AlarmModel
  import opened AlarmInvariant
  import opened AlarmCommands
  import opened AlarmRuns
  import opened AlarmLocality
  import opened AlarmPasses

  /** The alarms that may be set after a command, given those that may be set before it. */
  function SetAfter<A>(mayBeSet: set<A>, c: Command<A>): set<A> {
    match c
    case Set(a, _) => mayBeSet + {a}
    case Cancel(a) => mayBeSet - {a}
    case Update(a, d, _) => if d == 0 then mayBeSet - {a} else mayBeSet + {a}
    case Destroy(_) => mayBeSet
  }

  function SetAfterAll<A>(mayBeSet: set<A>, cs: seq<Command<A>>): set<A>
    decreases |cs|
  {
    if cs == [] then mayBeSet else SetAfterAll(SetAfter(mayBeSet, cs[0]), cs[1..])
  }

  /** A known alarm; Set of an alarm that cannot be set; Update for now or later. */
  predicate Proper<A>(known: set<A>, us: int, mayBeSet: set<A>, c: Command<A>) {
    c.a in known &&
    match c
    case Set(a, d) => d != 0 && a !in mayBeSet
    case Update(_, d, _) => d == 0 || us <= d
    case _ => true
  }

  predicate ProperAll<A>(known: set<A>, us: int, mayBeSet: set<A>, cs: seq<Command<A>>)
    decreases |cs|
  {
    cs == [] ||
    (Proper(known, us, mayBeSet, cs[0]) && ProperAll(known, us, SetAfter(mayBeSet, cs[0]), cs[1..]))
  }

  /** The same for the callbacks of a batch, one after the other; an alarm is unset when called. */
  predicate ProperPass<A>(known: set<A>, us: int, mayBeSet: set<A>, batch: seq<Entry<A>>, script: Script<A>)
    decreases |batch|
  {
    batch == [] ||
    (var start := mayBeSet - {batch[0].cb};
     var cs := CommandsOf(script, batch[0].cb);
     ProperAll(known, us, start, cs) && ProperPass(known, us, SetAfterAll(start, cs), batch[1..], script))
  }

  /** The command takes effect on an alarm set for `deadline`: all do, except an update by less than
      its granularity. */
  predicate Disturbs<A(==)>(c: Command<A>, a: A, deadline: int) {
    c.a == a && (c.Update? && c.deadline != 0 ==> Distance(c.deadline, deadline) >= c.granularity)
  }

  ghost predicate DisturbsNone<A>(s: Engine<A>, cs: seq<Command<A>>, batch: seq<Entry<A>>) {
    forall c, e | c in cs && e in batch :: e.cb in s.alarms && !Disturbs(c, e.cb, s.alarms[e.cb].deadline)
  }

  /** No callback of the batch has a command that takes effect on a later alarm of the batch. */
  ghost predicate DisturbsNoneAhead<A>(s: Engine<A>, batch: seq<Entry<A>>, script: Script<A>)
    decreases |batch|
  {
    batch == [] ||
    (DisturbsNone(s, CommandsOf(script, batch[0].cb), batch[1..]) && DisturbsNoneAhead(s, batch[1..], script))
  }

  /** Every alarm that is set is among those that may be. */
  ghost predicate Tracked<A>(s: Engine<A>, mayBeSet: set<A>) {
    forall a | a in s.alarms && s.alarms[a].deadline != 0 :: a in mayBeSet
  }

  /** An alarm that stays in the map throughout: outside the batch, and named by no command. */
  ghost predicate Bystander<A>(s: Engine<A>, batch: seq<Entry<A>>, o: A) {
    o in s.alarms && s.alarms[o].registered && o in s.members && o !in Callbacks(batch)
  }

  // ------------------------------------------------------------ one command

  lemma InBatchIsSet<A>(s: Engine<A>, batch: seq<Entry<A>>, a: A)
    requires Inv(s, batch, false) && a in Callbacks(batch)
    ensures a in s.alarms && s.alarms[a].deadline != 0 && s.alarms[a].registered && a !in s.members
  {
    var e :| e in batch && e.cb == a;
    assert e in batch + s.queue && Agrees(s, e);
    AwaitingIsBatch(s, batch, a);
  }

  lemma CommandBusy<A>(s: Engine<A>, batch: seq<Entry<A>>, c: Command<A>, o: A, known: set<A>, mayBeSet: set<A>)
    requires Inv(s, batch, false) && Bystander(s, batch, o) && c.a != o && known <= s.alarms.Keys
    requires Tracked(s, mayBeSet) && Proper(known, NowUs(s), mayBeSet, c)
    ensures var r := Exec(s, c);
            && (r.Ok? <==> !(c.a in Callbacks(batch) && Disturbs(c, c.a, s.alarms[c.a].deadline)))
            && (r.Crash? ==> r.fault == DeadToken)
  {
    var a := c.a;
    ExecSafeIff(s, batch, false, c);
    AwaitingIsBatch(s, batch, a);
    CancelKeeps(s, batch, false, a);
    UnregisterKeeps(s, batch, false, a);
    if a in Callbacks(batch) {
      InBatchIsSet(s, batch, a);
    }
    if c.Update? && c.deadline != 0 && s.alarms[a].registered {
      ReregisterKeeps(s, batch, false, a, c.deadline);
      var e := LookupOf(s, batch, a);
    }
    hide Inv, ReregisterAlarm, RegisterAlarm, UnregisterIfRegistered;
  }

  /** What a command does to the deadline of its own alarm. */
  lemma DeadlineAfter<A>(s: Engine<A>, batch: seq<Entry<A>>, c: Command<A>)
    requires Inv(s, batch, false) && Exec(s, c).Ok?
    ensures c.a in s.alarms && c.a in Exec(s, c).state.alarms
    ensures var d := Exec(s, c).state.alarms[c.a].deadline;
            match c
            case Set(_, _) => true
            case Cancel(_) => d == 0
            case Update(_, x, _) => x == 0 ==> d == 0
            case Destroy(_) => d == s.alarms[c.a].deadline
  {
    CancelKeeps(s, batch, false, c.a);
    ExecSafeIff(s, batch, false, c);
    if s.alarms[c.a].registered {
      var e := LookupOf(s, batch, c.a);
    }
    hide Inv, RegisterAlarm, ReregisterAlarm;
  }

  lemma CommandKeepsTrack<A>(s: Engine<A>, batch: seq<Entry<A>>, c: Command<A>, mayBeSet: set<A>)
    requires Inv(s, batch, false) && Exec(s, c).Ok? && Tracked(s, mayBeSet)
    ensures Tracked(Exec(s, c).state, SetAfter(mayBeSet, c))
  {
    DeadlineAfter(s, batch, c);
    var r := Exec(s, c).state;
    hide Inv, Exec;
    forall a | a in r.alarms && r.alarms[a].deadline != 0 ensures a in SetAfter(mayBeSet, c) {
      if a != c.a {
        SameKeys(s, c);
        ExecUntouched(s, batch, false, c, a);
      }
    }
  }

  lemma RegisterSameKeys<A>(s: Engine<A>, d: int, a: A)
    requires a in s.alarms
    ensures var r := RegisterAlarm(s, d, a); r.Ok? ==> r.state.alarms.Keys == s.alarms.Keys
  {
    hide Insert;
  }

  lemma ReregisterSameKeys<A>(s: Engine<A>, token: nat, d: int)
    ensures var r := ReregisterAlarm(s, token, d); r.Ok? ==> r.state.alarms.Keys == s.alarms.Keys
  {
    hide Insert, Erase, Lookup;
  }

  lemma UnregisterSameKeys<A>(s: Engine<A>, a: A)
    requires a in s.alarms
    ensures var r := UnregisterIfRegistered(s, a); r.Ok? ==> r.state.alarms.Keys == s.alarms.Keys
  {
    hide Erase, Lookup;
  }

  /** No command makes or unmakes an alarm. */
  lemma SameKeys<A>(s: Engine<A>, c: Command<A>)
    requires Exec(s, c).Ok?
    ensures Exec(s, c).state.alarms.Keys == s.alarms.Keys
  {
    var a, x := c.a, s.alarms[c.a];
    var unset := WithAlarm(s, a, x.(deadline := 0));
    UnregisterSameKeys(s, a);
    UnregisterSameKeys(unset, a);
    if !c.Cancel? && !c.Destroy? {
      var set_ := WithAlarm(s, a, x.(deadline := c.deadline));
      RegisterSameKeys(set_, c.deadline, a);
      ReregisterSameKeys(set_, x.token, c.deadline);
    }
    hide RegisterAlarm, ReregisterAlarm, UnregisterIfRegistered;
  }

  lemma CommandKeepsBusy<A>(s: Engine<A>, batch: seq<Entry<A>>, c: Command<A>, o: A)
    requires Inv(s, batch, false) && Bystander(s, batch, o) && c.a != o && Exec(s, c).Ok?
    ensures var r := Exec(s, c).state;
            && Inv(r, batch, false) && Bystander(r, batch, o) && NowUs(r) == NowUs(s)
            && r.alarms.Keys == s.alarms.Keys
            && (forall e | e in batch :: e.cb in s.alarms && r.alarms[e.cb] == s.alarms[e.cb])
  {
    ExecSafeIff(s, batch, false, c);
    ExecUntouched(s, batch, false, c, o);
    SameKeys(s, c);
    var r := Exec(s, c).state;
    AwaitingIsBatch(r, batch, o);
    hide Exec;
    forall e | e in batch ensures e.cb in s.alarms && r.alarms[e.cb] == s.alarms[e.cb] {
      assert e in batch + s.queue && Agrees(s, e);
      assert e in batch + r.queue && Agrees(r, e);
      assert r.births[e.token] == s.births[e.token];
    }
  }

  // ------------------------------------------------------------ one callback

  lemma DisturbsSplit<A>(s: Engine<A>, cs: seq<Command<A>>, batch: seq<Entry<A>>)
    requires cs != [] && forall e | e in batch :: e.cb in s.alarms
    ensures DisturbsNone(s, cs, batch) <==>
              && (cs[0].a in Callbacks(batch) ==>
                    cs[0].a in s.alarms && !Disturbs(cs[0], cs[0].a, s.alarms[cs[0].a].deadline))
              && DisturbsNone(s, cs[1..], batch)
  {
    assert cs == [cs[0]] + cs[1..];
    assert cs[0] in cs;
    hide Disturbs;
    if DisturbsNone(s, cs, batch) {
      assert forall c | c in cs[1..] :: c in cs;
    }
    if (cs[0].a in Callbacks(batch) ==>
          cs[0].a in s.alarms && !Disturbs(cs[0], cs[0].a, s.alarms[cs[0].a].deadline))
       && DisturbsNone(s, cs[1..], batch)
    {
      forall c, e | c in cs && e in batch ensures !Disturbs(c, e.cb, s.alarms[e.cb].deadline) {
        if c == cs[0] {
          DisturbsOwn(c, e.cb, s.alarms[e.cb].deadline);
          assert e.cb in Callbacks(batch);
        } else {
          assert c in cs[1..];
        }
      }
    }
  }

  lemma DisturbsOwn<A>(c: Command<A>, a: A, deadline: int)
    ensures Disturbs(c, a, deadline) ==> c.a == a
  {
  }

  lemma SameDeadlines<A>(s: Engine<A>, r: Engine<A>, cs: seq<Command<A>>, batch: seq<Entry<A>>)
    requires forall e | e in batch :: e.cb in s.alarms && e.cb in r.alarms && r.alarms[e.cb] == s.alarms[e.cb]
    ensures DisturbsNone(s, cs, batch) <==> DisturbsNone(r, cs, batch)
  {
  }

  lemma {:induction false} CallbackBusy<A>(s: Engine<A>, batch: seq<Entry<A>>, cs: seq<Command<A>>, o: A, known: set<A>,
                                           mayBeSet: set<A>)
    requires Inv(s, batch, false) && Bystander(s, batch, o) && !Names(cs, o) && known <= s.alarms.Keys
    requires Tracked(s, mayBeSet) && ProperAll(known, NowUs(s), mayBeSet, cs)
    ensures var r := ExecAll(s, cs);
            && (r.Ok? <==> DisturbsNone(s, cs, batch))
            && (r.Crash? ==> r.fault == DeadToken)
            && (r.Ok? ==>
                  && Inv(r.state, batch, false) && Bystander(r.state, batch, o) && NowUs(r.state) == NowUs(s)
                  && r.state.alarms.Keys == s.alarms.Keys && Tracked(r.state, SetAfterAll(mayBeSet, cs))
                  && (forall e | e in batch :: e.cb in s.alarms && r.state.alarms[e.cb] == s.alarms[e.cb]))
    decreases |cs|
  {
    BatchKnown(s, batch);
    hide Inv, Exec, Disturbs, Tracked, Bystander, Proper;
    if cs != [] {
      var c, rest := cs[0], cs[1..];
      assert c in cs;
      CommandBusy(s, batch, c, o, known, mayBeSet);
      DisturbsSplit(s, cs, batch);
      if Exec(s, c).Ok? {
        var m := Exec(s, c).state;
        CommandKeepsBusy(s, batch, c, o);
        CommandKeepsTrack(s, batch, c, mayBeSet);
        assert !Names(rest, o) by {
          assert forall x | x in rest :: x in cs;
        }
        CallbackBusy(m, batch, rest, o, known, SetAfter(mayBeSet, c));
        SameDeadlines(s, m, rest, batch);
      }
    }
  }

  // ------------------------------------------------------------ the pass

  lemma RingBusy<A>(s: Engine<A>, batch: seq<Entry<A>>, o: A, mayBeSet: set<A>)
    requires Inv(s, batch, false) && batch != [] && Bystander(s, batch, o) && Tracked(s, mayBeSet)
    ensures batch[0].cb in s.alarms
    ensures var r := Ring(s, batch[0]);
            && Bystander(r, batch[1..], o) && Tracked(r, mayBeSet - {batch[0].cb})
            && NowUs(r) == NowUs(s)
            && (forall e | e in batch[1..] :: e.cb in s.alarms && e.cb in r.alarms && r.alarms[e.cb] == s.alarms[e.cb])
  {
    HeadIsCalled(s, batch);
    BatchKnown(s, batch);
    assert batch[0] in batch;
    forall e | e in batch[1..] ensures e in batch && e.cb != batch[0].cb {
      assert e.cb in Callbacks(batch[1..]);
    }
  }

  ghost predicate NamedByNone<A>(batch: seq<Entry<A>>, script: Script<A>, o: A) {
    forall e | e in batch :: !Names(CommandsOf(script, e.cb), o)
  }

  lemma SameDeadlinesAhead<A>(s: Engine<A>, r: Engine<A>, batch: seq<Entry<A>>, script: Script<A>)
    requires forall e | e in batch :: e.cb in s.alarms && e.cb in r.alarms && r.alarms[e.cb] == s.alarms[e.cb]
    ensures DisturbsNoneAhead(s, batch, script) <==> DisturbsNoneAhead(r, batch, script)
    decreases |batch|
  {
    if batch != [] {
      assert forall e | e in batch[1..] :: e in batch;
      SameDeadlines(s, r, CommandsOf(script, batch[0].cb), batch[1..]);
      SameDeadlinesAhead(s, r, batch[1..], script);
    }
  }

  lemma {:induction false} CallAllBusy<A>(s: Engine<A>, batch: seq<Entry<A>>, script: Script<A>, o: A, known: set<A>,
                                          mayBeSet: set<A>)
    requires Inv(s, batch, false) && Bystander(s, batch, o) && NamedByNone(batch, script, o)
    requires known <= s.alarms.Keys && Tracked(s, mayBeSet)
    requires ProperPass(known, NowUs(s), mayBeSet, batch, script)
    ensures var r := CallAll(s, batch, script);
            (r.Ok? <==> DisturbsNoneAhead(s, batch, script)) && (r.Crash? ==> r.fault == DeadToken)
    decreases |batch|
  {
    hide Inv, OnAlarm, Ring, ExecAll, Tracked, Bystander, Names, DisturbsNone, CommandsOf, ProperAll;
    if batch != [] {
      var e, rest := batch[0], batch[1..];
      var cs := CommandsOf(script, e.cb);
      HeadIsCalled(s, batch);
      RingBusy(s, batch, o, mayBeSet);
      assert e in batch;
      var m := Ring(s, e);
      CallbackBusy(m, rest, cs, o, known, mayBeSet - {e.cb});
      SameDeadlines(s, m, cs, rest);
      if ExecAll(m, cs).Ok? {
        var r := ExecAll(m, cs).state;
        assert NamedByNone(rest, script, o) by {
          assert forall f | f in rest :: f in batch;
        }
        CallAllBusy(r, rest, script, o, known, SetAfterAll(mayBeSet - {e.cb}, cs));
        SameDeadlinesAhead(s, r, rest, script);
      }
    }
  }

  /** A timer event whose callbacks cancel, destroy, set and update known alarms as they like, as long
      as every Set is of an alarm that cannot be set by then, every Update is for now or later and one
      waiting alarm is named by nobody, completes if and only if no command takes effect on an alarm
      that is due in the same pass and comes later. Otherwise an erased token is used. */
  lemma BusyPassCompletesIff<A>(s: Engine<A>, script: Script<A>, o: A)
    requires Inv(s, [], true) && s.timer.Some?
    requires o in s.members && o !in Callbacks(DueEntries(s)) && NamedByNone(DueEntries(s), script, o)
    requires ProperPass(s.alarms.Keys, Micros(s.timer.value), SetAlarms(s), DueEntries(s), script)
    ensures var r := Apply(s, Expire(script));
            && (r.Ok? <==> DisturbsNoneAhead(s, DueEntries(s), script))
            && (r.Crash? ==> r.fault == DeadToken)
            && (r.Ok? ==> Inv(r.state, [], true) && r.state.fired == s.fired + Tokens(DueEntries(s)))
  {
    ExpireFiresExactlyDue(s, script);
    BystanderStays(s, o);
    hide Inv, Apply, CallAll, Detach, DueEntries, DisturbsNoneAhead, ProperPass, NamedByNone, Extends, UpdateTimer;
    hide Bystander;
    StartPass(s);
    PassIs(s, script);
    var d := Detach(AtTimer(s));
    BatchKnown(d, DueEntries(s));
    CallAllBusy(d, DueEntries(s), script, o, s.alarms.Keys, SetAlarms(s));
    SameDeadlinesAhead(s, d, DueEntries(s), script);
    CallAllKeeps(d, DueEntries(s), script);
    if CallAll(d, DueEntries(s), script).Ok? {
      FinishPass(CallAll(d, DueEntries(s), script).state);
    }
  }

  /** The alarms that are set. */
  ghost function SetAlarms<A>(s: Engine<A>): set<A> {
    set a | a in s.alarms && s.alarms[a].deadline != 0
  }

  lemma BystanderStays<A>(s: Engine<A>, o: A)
    requires Inv(s, [], true) && s.timer.Some? && o in s.members && o !in Callbacks(DueEntries(s))
    ensures Bystander(Detach(AtTimer(s)), DueEntries(s), o)
  {
    var e :| e in s.queue && e.cb == o;
    assert e in [] + s.queue && Agrees(s, e);
  }
}
