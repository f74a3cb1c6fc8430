/** What each command leaves behind, field by field: the alarm, its entry in the map, the set, the
    history and the timer event. */
module AlarmEffects {
  import opened AlarmQueue
  import opened Wrappers
  import opened AlarmModel
  import opened AlarmInvariant
  import opened AlarmCommands
  import opened AlarmRuns

  /** From `s` to `r` alarm `a` got a new registration for `d`, in place of the one it had, if any. */
  ghost predicate Registers<A>(s: Engine<A>, r: Engine<A>, a: A, d: int)
    requires a in s.alarms
  {
    && r.now == s.now && r.fired == s.fired
    && r.alarms == s.alarms[a := Alarm(d, true, true, |s.births|)]
    && r.births == s.births + [Birth(a, d, s.now / 1000)]
    && r.members == s.members + {a}
    && r.fates == (if s.alarms[a].registered then s.fates[s.alarms[a].token := Replaced] else s.fates)
    && Waits(s, r, a, d) && TimerFollows(s, r)
  }

  /** The map holds the new entry, a past deadline moved up to now, and the others' as before. */
  ghost predicate Waits<A>(s: Engine<A>, r: Engine<A>, a: A, d: int) {
    var e := Entry(if d < s.now / 1000 then s.now / 1000 else d, |s.births|, a);
    && e in r.queue
    && (forall f | f in r.queue && f.cb == a :: f == e)
    && (forall f | f in r.queue && f.cb != a :: f in s.queue)
    && (forall f | f in s.queue && f.cb != a :: f in r.queue)
  }

  /** The timer event is aimed at the head of the map, in nanoseconds, if there was none or the new
      entry has come first; else it stays. */
  ghost predicate TimerFollows<A>(s: Engine<A>, r: Engine<A>) {
    && r.queue != []
    && r.timer == if s.timer.None? || r.queue[0].token == |s.births|
                  then Some(s.now + (r.queue[0].key - s.now / 1000) * 1000) else s.timer
  }

  /** From `s` to `r` alarm `a` lost its registration, if it had one; the timer event stays as it
      was, also when the entry was the first. */
  ghost predicate Removes<A>(s: Engine<A>, r: Engine<A>, a: A, d: int)
    requires a in s.alarms
  {
    && r.now == s.now && r.fired == s.fired && r.births == s.births && r.timer == s.timer
    && r.alarms == s.alarms[a := s.alarms[a].(deadline := d, registered := false)]
    && r.members == s.members - {a}
    && r.fates == (if s.alarms[a].registered then s.fates[s.alarms[a].token := Unregistered] else s.fates)
    && (forall e | e in r.queue :: e in s.queue && e.cb != a)
    && (forall e | e in s.queue && e.cb != a :: e in r.queue)
  }

  /** The other entries of the map are not the alarm's. */
  lemma OwnEntry<A>(s: Engine<A>, batch: seq<Entry<A>>, a: A)
    requires Inv(s, batch, false) && a in s.alarms
    ensures !s.alarms[a].registered ==> a !in s.members && forall e | e in s.queue :: e.cb != a
    ensures s.alarms[a].registered && a in s.members ==>
              var l := Lookup(s.queue, s.alarms[a].token);
              && l.Some? && l.value in s.queue && l.value.cb == a && l.value.token == s.alarms[a].token
              && (forall e | e in s.queue && e.cb == a :: e == l.value)
              && (forall e :: e in Erase(s.queue, s.alarms[a].token) <==> e in s.queue && e.cb != a)
              && s.alarms[a].attached && s.alarms[a].deadline != 0
  {
    Split(batch, s.queue);
    if s.alarms[a].registered {
      var e := LookupOf(s, batch, a);
      assert Agrees(s, e);
      if a in s.members {
        UniqueTokens(s, batch, e);
        ChronologicalSuffix(batch, s.queue);
        EraseMembers(s.queue, e);
      }
    } else {
      forall f | f in s.queue ensures f.cb != a {
        assert f in batch + s.queue && Agrees(s, f);
      }
    }
  }

  lemma CancelTakesEffect<A>(s: Engine<A>, batch: seq<Entry<A>>, idle: bool, a: A)
    requires Inv(s, batch, idle) && a in s.alarms && Exec(s, Cancel(a)).Ok?
    ensures Removes(s, Exec(s, Cancel(a)).state, a, 0)
  {
    hide Inv, Erase, Lookup, Silent;
    InvBusy(s, batch, idle);
    CancelKeeps(s, batch, idle, a);
    OwnEntry(s, batch, a);
  }

  /** Destruction leaves the deadline field alone. */
  lemma DestroyTakesEffect<A>(s: Engine<A>, batch: seq<Entry<A>>, idle: bool, a: A)
    requires Inv(s, batch, idle) && a in s.alarms && Exec(s, Destroy(a)).Ok?
    ensures Removes(s, Exec(s, Destroy(a)).state, a, s.alarms[a].deadline)
  {
    UnregisterKeeps(s, batch, idle, a);
    OwnEntry(s, batch, a);
    hide Inv, Erase, Lookup;
  }

  // ------------------------------------------------------------ registration

  lemma InsertWaits<A>(s: Engine<A>, q: seq<Entry<A>>, a: A, d: int, r: Engine<A>)
    requires forall f | f in q :: f in s.queue && f.cb != a
    requires forall f | f in s.queue && f.cb != a :: f in q
    requires r.queue == Insert(q, Entry(if d < s.now / 1000 then s.now / 1000 else d, |s.births|, a))
    ensures Waits(s, r, a, d)
  {
    InsertMembers(q, Entry(if d < s.now / 1000 then s.now / 1000 else d, |s.births|, a));
    hide Insert;
  }

  /** Which entry comes first decides whether the timer is aimed again. */
  lemma InsertFirst<A>(q: seq<Entry<A>>, e: Entry<A>)
    requires forall f | f in q :: f.token < e.token
    ensures Insert(q, e) != []
    ensures Insert(q, e)[0].token == e.token <==> q == [] || e.key < q[0].key
  {
    InsertHead(q, e);
    if q != [] {
      assert q[0] in q;
    }
  }

  /** RegisterAlarm of an alarm that is not registered and holds its new deadline. */
  lemma RegisterTakesEffect<A>(s: Engine<A>, batch: seq<Entry<A>>, idle: bool, a: A, d: int)
    requires Inv(s, batch, idle) && a in s.alarms && !s.alarms[a].registered && d != 0
    ensures var r := RegisterAlarm(WithAlarm(s, a, s.alarms[a].(deadline := d)), d, a);
            r.Ok? && Registers(s, r.state, a, d)
  {
    hide Inv, Insert, Waits, UpdateTimer, Silent;
    var m := WithAlarm(s, a, s.alarms[a].(deadline := d));
    InvBusy(s, batch, idle);
    InvStore(s, batch, idle, a, m.alarms[a]);
    RegisterKeeps(m, batch, idle, a, d);
    OwnEntry(s, batch, a);
    HeadIsNotNew(s, batch);
    var r := RegisterAlarm(m, d, a).state;
    var e := Entry(if d < s.now / 1000 then s.now / 1000 else d, |s.births|, a);
    InsertFirst(s.queue, e);
    TimerIs(Enqueue(m, a, d, e.key));
    InsertWaits(s, s.queue, a, d, r);
  }

  lemma InvBusy<A>(s: Engine<A>, batch: seq<Entry<A>>, idle: bool)
    requires Inv(s, batch, idle)
    ensures Inv(s, batch, false)
  {
  }

  /** UpdateTimer on a map that is not empty. */
  lemma TimerIs<A>(s: Engine<A>)
    requires s.queue != []
    ensures var r := UpdateTimer(s);
            r.Ok? ==> r.state == s.(timer := Some(s.now + (s.queue[0].key - s.now / 1000) * 1000))
  {
  }

  /** Tokens in the map are older than the next one. */
  lemma HeadIsNotNew<A>(s: Engine<A>, batch: seq<Entry<A>>)
    requires Inv(s, batch, false)
    ensures forall e | e in s.queue :: e.token < |s.births|
  {
    forall e | e in s.queue ensures e.token < |s.births| {
      assert e in batch + s.queue && Agrees(s, e);
    }
  }

  /** ReregisterAlarm of a registered alarm that holds its new deadline. */
  lemma ReregisterTakesEffect<A>(s: Engine<A>, batch: seq<Entry<A>>, idle: bool, a: A, d: int)
    requires Inv(s, batch, idle) && a in s.alarms && s.alarms[a].registered && d != 0
    requires ReregisterAlarm(WithAlarm(s, a, s.alarms[a].(deadline := d)), s.alarms[a].token, d).Ok?
    ensures var m := WithAlarm(s, a, s.alarms[a].(deadline := d));
            Registers(s, ReregisterAlarm(m, s.alarms[a].token, d).state, a, d)
  {
    hide Inv, Insert, Erase, Lookup, Waits, UpdateTimer, Silent;
    var m, token := WithAlarm(s, a, s.alarms[a].(deadline := d)), s.alarms[a].token;
    InvBusy(s, batch, idle);
    ReregisterKeeps(s, batch, idle, a, d);
    OwnEntry(s, batch, a);
    HeadIsNotNew(s, batch);
    var rest, e, r := Erase(s.queue, token), Entry(d, |s.births|, a), ReregisterAlarm(m, token, d).state;
    assert forall f | f in rest :: f in s.queue && f.cb != a && f.token < |s.births|;
    InsertFirst(rest, e);
    var found := Lookup(s.queue, token).value;
    TimerIs(Enqueue(Retire(m, found, Replaced), a, d, d));
    InsertWaits(s, rest, a, d, r);
    assert s.members - {a} + {a} == s.members + {a};
  }

  lemma SetIsUnregistered<A>(s: Engine<A>, batch: seq<Entry<A>>, a: A)
    requires Inv(s, batch, false) && a in s.alarms
    ensures s.alarms[a].registered ==> s.alarms[a].deadline != 0
  {
    if s.alarms[a].registered {
      var e := LookupOf(s, batch, a);
      assert Agrees(s, e);
    }
  }

  lemma SetTakesEffect<A>(s: Engine<A>, batch: seq<Entry<A>>, idle: bool, a: A, d: int)
    requires Inv(s, batch, idle) && a in s.alarms && Exec(s, Set(a, d)).Ok?
    ensures d != 0 && s.alarms[a].deadline == 0 && Registers(s, Exec(s, Set(a, d)).state, a, d)
  {
    ExecSafeIff(s, batch, idle, Set(a, d));
    SetIsUnregistered(s, batch, a);
    RegisterTakesEffect(s, batch, idle, a, d);
    hide Inv, RegisterAlarm, Registers;
  }

  /** Update moves the deadline exactly when it differs by the granularity or more, earlier or later,
      whether the alarm was waiting or not. */
  lemma UpdateTakesEffect<A>(s: Engine<A>, batch: seq<Entry<A>>, idle: bool, a: A, d: int, g: nat)
    requires Inv(s, batch, idle) && a in s.alarms && d != 0 && Exec(s, Update(a, d, g)).Ok?
    ensures var r, moved := Exec(s, Update(a, d, g)).state, d - s.alarms[a].deadline;
            if 0 <= moved < g || 0 < -moved < g then r == s else Registers(s, r, a, d)
  {
    ExecSafeIff(s, batch, idle, Update(a, d, g));
    SetIsUnregistered(s, batch, a);
    if s.alarms[a].registered {
      var e := LookupOf(s, batch, a);
      hide Inv, RegisterAlarm, ReregisterAlarm, Registers;
      if Distance(d, s.alarms[a].deadline) >= g {
        ReregisterTakesEffect(s, batch, idle, a, d);
      }
    } else {
      RegisterTakesEffect(s, batch, idle, a, d);
      hide Inv, RegisterAlarm, ReregisterAlarm, Registers;
    }
    hide Inv, RegisterAlarm, ReregisterAlarm, Registers;
  }

  /** Update with an unset deadline is Cancel. */
  lemma UpdateToUnset<A>(s: Engine<A>, batch: seq<Entry<A>>, idle: bool, a: A, g: nat)
    requires Inv(s, batch, idle) && a in s.alarms && Exec(s, Update(a, 0, g)).Ok?
    ensures Removes(s, Exec(s, Update(a, 0, g)).state, a, 0)
  {
    CancelTakesEffect(s, batch, idle, a);
    hide Removes, Inv, ExecCancel;
  }

  // ------------------------------------------------------------ passes and shutdown

  /** What a callback finds: its own alarm unset and unregistered, the firing on record, and
      everything else as the callback before left it. Its commands are then run in order. */
  lemma CallbackFinds<A>(s: Engine<A>, batch: seq<Entry<A>>, script: Script<A>)
    requires Inv(s, batch, false) && batch != []
    ensures batch[0].cb in s.alarms
    ensures var a, token := batch[0].cb, batch[0].token;
            var m := s.(alarms := s.alarms[a := Alarm(0, false, true, token)],
                        fates := s.fates[token := Fired(s.now / 1000)],
                        fired := s.fired + [token]);
            var r := ExecAll(m, if a in script then script[a] else []);
            CallAll(s, batch, script) == if r.Ok? then CallAll(r.state, batch[1..], script) else r
  {
    HeadOfBatch(s, batch);
    hide Inv, ExecAll;
    var e := batch[0];
    var m := Ring(s, e);
    assert m.alarms[e.cb] == Alarm(0, false, true, e.token);
    assert m.alarms == s.alarms[e.cb := Alarm(0, false, true, e.token)];
  }

  lemma HeadOfBatch<A>(s: Engine<A>, batch: seq<Entry<A>>)
    requires Inv(s, batch, false) && batch != []
    ensures batch[0].cb in s.alarms
    ensures var x := s.alarms[batch[0].cb]; x == Alarm(x.deadline, true, true, batch[0].token) && x.deadline != 0
  {
    assert batch[0] in batch + s.queue && Agrees(s, batch[0]);
  }

  /** Shutdown marks every registered alarm unregistered and without an engine; deadlines, other
      alarms and the record of registrations stay. */
  lemma {:induction false} ShutdownTakesEffect<A>(s: Engine<A>)
    requires Inv(s, [], true)
    ensures Shutdown(s).Ok?
    ensures var r := Shutdown(s).state;
            && r.births == s.births && r.now == s.now && r.timer == s.timer && r.alarms.Keys == s.alarms.Keys
            && (forall a | a in s.alarms ::
                  r.alarms[a] == if s.alarms[a].registered then s.alarms[a].(registered := false, attached := false)
                                 else s.alarms[a])
    decreases |s.queue|
  {
    ShutdownKeeps(s);
    if s.queue == [] {
      NoneRegistered(s);
    } else {
      var e := s.queue[0];
      LeaveKeeps(s);
      HeadRegistered(s);
      hide Inv;
      ShutdownTakesEffect(Leave(s, e));
    }
  }

  lemma NoneRegistered<A>(s: Engine<A>)
    requires Inv(s, [], true) && s.queue == []
    ensures forall a | a in s.alarms :: !s.alarms[a].registered
  {
    forall a | a in s.alarms ensures !s.alarms[a].registered {
      assert TokenValid(s, a);
    }
  }

  lemma HeadRegistered<A>(s: Engine<A>)
    requires Inv(s, [], true) && s.queue != []
    ensures s.queue[0].cb in s.alarms && s.alarms[s.queue[0].cb].registered
  {
    assert s.queue[0] in [] + s.queue && Agrees(s, s.queue[0]);
  }

  /** The steps that are not the engine's: a new alarm is unset and has no engine; the clock moves
      forward, never past a pending event. */
  lemma OutsideSteps<A>(s: Engine<A>, a: A, to: nat)
    ensures Apply(s, Create(a))
         == if a in s.alarms then Crash(Disabled) else Ok(s.(alarms := s.alarms[a := Alarm(0, false, false, 0)]))
    ensures Apply(s, Advance(to))
         == if to < s.now || (s.timer.Some? && s.timer.value < to) then Crash(Disabled) else Ok(s.(now := to))
  {
  }
}
