/** What callers of the alarm engine must not do, and what they may: commands on an alarm that is
    already in the batch of a pass, and a timer event that outlives a shutdown. */
module AlarmHazards {
  import opened AlarmQueue
  import opened AlarmModel
  import opened AlarmInvariant
  import opened AlarmCommands
  import opened AlarmRuns
  import opened AlarmPasses

  /** The first callback of a pass cancelling the alarm due next uses an erased token, whatever the
      other callbacks would do; AlarmPasses says for all pairs when a pass completes. */
  lemma CancelWithinBatchCrashes<A>(s: Engine<A>, script: Script<A>)
    requires Inv(s, [], true) && s.timer.Some?
    requires |DueEntries(s)| >= 2
    requires var a, b := DueEntries(s)[0].cb, DueEntries(s)[1].cb;
             CommandsOf(script, a) == [Cancel(b)]
    ensures Apply(s, Expire(script)) == Crash(DeadToken)
  {
    StartPass(s);
    CancelNextCrashes(Detach(AtTimer(s)), DueEntries(s));
  }

  /** For instance: two alarms of a new engine set for the same microsecond, the first of which
      cancels the second. */
  lemma TwoAlarmsOneInstant<A>(s0: Engine<A>, a: A, b: A, d: int)
    requires Fresh(s0) && a != b && NowUs(s0) <= d && d != 0
    requires a in s0.alarms && s0.alarms[a].deadline == 0
    requires b in s0.alarms && s0.alarms[b].deadline == 0
    ensures Run(s0, [Do(Set(a, d)), Do(Set(b, d)), Expire(map[a := [Cancel(b)]])]) == Crash(DeadToken)
  {
    hide Inv, Exec, Apply;
    FreshInv(s0);
    SetLater(s0, a, d);
    var s1 := Exec(s0, Set(a, d)).state;
    SetLater(s1, b, d);
    var s2 := Exec(s1, Set(b, d)).state;
    assert s2.queue == [Entry(d, 0, a), Entry(d, 1, b)];
    BothDue(s2, d);
    CancelWithinBatchCrashes(s2, map[a := [Cancel(b)]]);
    RunOfThree(s0, Set(a, d), Set(b, d), Expire(map[a := [Cancel(b)]]));
  }

  lemma BothDue<A>(s: Engine<A>, d: int)
    requires Inv(s, [], true) && s.timer.Some? && Micros(s.timer.value) == d
    requires |s.queue| == 2 && s.queue[0].key == d && s.queue[1].key == d
    ensures DueEntries(s) == s.queue
  {
    hide Inv;
    DueExactly(s);
    assert DueCount(s.queue, d) == 2;
  }

  lemma RunOfThree<A>(s: Engine<A>, x: Command<A>, y: Command<A>, z: Step<A>)
    requires Exec(s, x).Ok? && Exec(Exec(s, x).state, y).Ok?
    requires Apply(Exec(Exec(s, x).state, y).state, z).Crash?
    ensures Run(s, [Do(x), Do(y), z]) == Apply(Exec(Exec(s, x).state, y).state, z)
  {
    hide Exec, OnTimeout;
    var s1 := Exec(s, x).state;
    assert Run(Exec(s1, y).state, [z]) == Apply(Exec(s1, y).state, z);
    assert [Do(y), z][1..] == [z];
    assert Run(s1, [Do(y), z]) == Apply(Exec(s1, y).state, z);
    assert [Do(x), Do(y), z][1..] == [Do(y), z];
  }

  /** Setting an alarm for the latest deadline so far puts it last and keeps the timer. */
  lemma SetLater<A>(s: Engine<A>, a: A, d: int)
    requires Inv(s, [], true) && a in s.alarms && s.alarms[a].deadline == 0
    requires NowUs(s) <= d && d != 0 && |s.queue| <= 1 && (s.queue != [] ==> s.queue[0].key == d)
    requires s.queue != [] ==> s.timer.Some? && Micros(s.timer.value) == d
    ensures var r := Exec(s, Set(a, d));
            && r.Ok? && Inv(r.state, [], true)
            && r.state.queue == s.queue + [Entry(d, |s.births|, a)]
            && |r.state.births| == |s.births| + 1
            && r.state.alarms.Keys == s.alarms.Keys && r.state.members == s.members + {a}
            && r.state.alarms[a] == Alarm(d, true, true, |s.births|)
            && (forall b | b in s.alarms && b != a :: r.state.alarms[b] == s.alarms[b])
            && r.state.timer.Some? && Micros(r.state.timer.value) == d && NowUs(r.state) == NowUs(s)
  {
    hide Inv;
    SetUnregistered(s, a);
    ExecSafeIff(s, [], true, Set(a, d));
    assert Micros(s.now + (d - NowUs(s)) * 1000) == d;
    InsertLast(s.queue, Entry(d, |s.births|, a));
  }

  lemma InsertLast<A>(q: seq<Entry<A>>, e: Entry<A>)
    requires |q| <= 1 && (q != [] ==> q[0].key <= e.key)
    ensures Insert(q, e) == q + [e]
  {
    if q != [] {
      assert Insert(q[1..], e) == [e];
      assert q == [q[0]];
    }
  }

  lemma SetUnregistered<A>(s: Engine<A>, a: A)
    requires Inv(s, [], true) && a in s.alarms && s.alarms[a].deadline == 0
    ensures !s.alarms[a].registered && a !in s.members
  {
    forall f | f in s.queue ensures f.cb != a {
      assert f in [] + s.queue && Agrees(s, f);
    }
    if s.alarms[a].registered {
      EntryInMap(s, a);
    }
  }

  lemma CancelNextCrashes<A>(s: Engine<A>, batch: seq<Entry<A>>)
    requires Inv(s, batch, false) && |batch| >= 2
    ensures OnAlarm(s, batch[0], [Cancel(batch[1].cb)]) == Crash(DeadToken)
  {
    hide Inv, OnAlarm, Ring, ExecAll;
    HeadIsCalled(s, batch);
    var r, c, rest := Ring(s, batch[0]), Cancel(batch[1].cb), batch[1..];
    BatchKnown(r, rest);
    assert rest[0] == batch[1] && rest[0] in rest;
    CallbackIff(r, rest, [c], batch[0].cb);
    assert c in [c] && Names([c], rest[0].cb);
  }

  // ------------------------------------------------------------ the two assertions on Update

  /** What Update meets on a registered alarm between passes. */
  lemma UpdateFaults<A>(s: Engine<A>, a: A, d: int, g: nat)
    requires Inv(s, [], true) && a in s.members && a in s.alarms && s.alarms[a].registered
    requires d != 0 && Distance(d, s.alarms[a].deadline) >= g
    ensures s.members == {a} ==> Exec(s, Update(a, d, g)) == Crash(NoOtherAlarm)
    ensures s.members != {a} && d < NowUs(s) ==> Exec(s, Update(a, d, g)) == Crash(PastDeadline)
  {
    var e := LookupOf(s, [], a);
    assert Agrees(s, e);
    ReregisterKeeps(s, [], true, a, d);
    hide Inv, ReregisterAlarm;
  }

  /** Moving the deadline of a new engine's only alarm trips ReregisterAlarm's first assertion. */
  lemma UpdateOfOnlyAlarm<A>(s0: Engine<A>, a: A, d: int, later: int, g: nat)
    requires Fresh(s0) && NowUs(s0) <= d && d != 0 && later != 0 && Distance(later, d) >= g
    requires a in s0.alarms && s0.alarms[a].deadline == 0
    ensures Run(s0, [Do(Set(a, d)), Do(Update(a, later, g))]) == Crash(NoOtherAlarm)
  {
    FreshInv(s0);
    SetLater(s0, a, d);
    var s1 := Exec(s0, Set(a, d)).state;
    UpdateFaults(s1, a, later, g);
    hide Inv, Exec;
    assert [Do(Set(a, d)), Do(Update(a, later, g))][1..] == [Do(Update(a, later, g))];
    assert Run(s1, [Do(Update(a, later, g))]) == Crash(NoOtherAlarm);
  }

  /** With another alarm present, moving a deadline into the past trips UpdateTimer's assertion,
      where RegisterAlarm would have moved it up to now. */
  lemma UpdateToThePast<A>(s0: Engine<A>, a: A, b: A, d: int, past: int, g: nat)
    requires Fresh(s0) && a != b && NowUs(s0) <= d && d != 0
    requires past != 0 && past < NowUs(s0) && Distance(past, d) >= g
    requires a in s0.alarms && s0.alarms[a].deadline == 0
    requires b in s0.alarms && s0.alarms[b].deadline == 0
    ensures Run(s0, [Do(Set(a, d)), Do(Set(b, d)), Do(Update(a, past, g))]) == Crash(PastDeadline)
  {
    hide Inv, Exec;
    FreshInv(s0);
    SetLater(s0, a, d);
    var s1 := Exec(s0, Set(a, d)).state;
    SetLater(s1, b, d);
    var s2 := Exec(s1, Set(b, d)).state;
    assert b in s2.members;
    UpdateFaults(s2, a, past, g);
    RunOfThree(s0, Set(a, d), Set(b, d), Do(Update(a, past, g)));
  }

  /** The timer event that Shutdown leaves pending does no harm to a live engine. */
  lemma StaleTimerHarmless<A>(s: Engine<A>, script: Script<A>)
    requires Inv(s, [], true) && s.timer.Some?
    ensures Shutdown(s).Ok?
    ensures var d := Shutdown(s).state;
            d.timer.Some? && Apply(d, Expire(script)) == Ok(AtTimer(d))
  {
    ShutdownKeeps(s);
    EmptyExpiry(Shutdown(s).state, script);
  }

  lemma EmptyExpiry<A>(s: Engine<A>, script: Script<A>)
    requires s.queue == [] && s.timer.Some?
    ensures Apply(s, Expire(script)) == Ok(AtTimer(s))
  {
  }
}
