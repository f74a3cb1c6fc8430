/** Every client command keeps the invariant, in and out of a pass, and fails exactly when one of
    three conditions that the code leaves to its callers is violated. */
module AlarmCommands {
  import opened AlarmQueue
  import opened Arithmetic
  import opened Wrappers
  import opened AlarmModel
  import opened AlarmInvariant

  /** The alarm is in the batch of the current pass and has not been called yet. */
  predicate AwaitsCall<A>(s: Engine<A>, a: A)
    requires a in s.alarms
  {
    s.alarms[a].registered && a !in s.members
  }

  /** What a caller has to check before a command. */
  predicate Safe<A>(s: Engine<A>, c: Command<A>) {
    c.a in s.alarms &&
    match c
    case Set(a, d) => d != 0 && s.alarms[a].deadline == 0
    case Cancel(a) => !AwaitsCall(s, a)
    case Destroy(a) => !AwaitsCall(s, a)
    case Update(a, d, g) =>
      if d == 0 then !AwaitsCall(s, a)
      else
        || Distance(d, s.alarms[a].deadline) < g
        || !s.alarms[a].registered
        || (a in s.members && s.members != {a} && NowUs(s) <= d)
  }

  /** History is only ever added to. */
  ghost predicate Extends<A>(s: Engine<A>, r: Engine<A>) {
    && s.births <= r.births
    && (forall t | t in s.fates :: t in r.fates && r.fates[t] == s.fates[t])
    && s.fired <= r.fired
    && s.now <= r.now
    && s.alarms.Keys <= r.alarms.Keys
  }

  /** A client command lets no alarm go off and does not move the clock. */
  ghost predicate Silent<A>(s: Engine<A>, r: Engine<A>) {
    Extends(s, r) && r.fired == s.fired && r.now == s.now
  }

  lemma ExtendsTransitive<A>(s: Engine<A>, m: Engine<A>, r: Engine<A>)
    ensures Extends(s, s)
    ensures Extends(s, m) && Extends(m, r) ==> Extends(s, r)
  {
  }

  /** A registered alarm's entry, found in the map or in the batch. */
  lemma EntryOf<A>(s: Engine<A>, batch: seq<Entry<A>>, a: A) returns (e: Entry<A>)
    requires Structure(s, batch) && Conserved(s, batch)
    requires a in s.alarms && s.alarms[a].registered
    ensures e in batch + s.queue && e.cb == a && e.token == s.alarms[a].token
    ensures e in s.queue <==> a in s.members
  {
    assert TokenValid(s, a);
    assert HasToken(batch + s.queue, s.alarms[a].token);
    e :| e in batch + s.queue && e.token == s.alarms[a].token;
    assert Agrees(s, e);
    Split(batch, s.queue);
    if a in s.members {
      var f :| f in s.queue && f.cb == a;
      UniqueTokens(s, batch, e);
    }
  }

  /** Looking up the token of a registered alarm succeeds unless the alarm awaits its call. */
  lemma LookupOf<A>(s: Engine<A>, batch: seq<Entry<A>>, a: A) returns (e: Entry<A>)
    requires Structure(s, batch) && Conserved(s, batch)
    requires a in s.alarms && s.alarms[a].registered
    ensures s.alarms[a].attached
    ensures e.cb == a && e in batch + s.queue
    ensures Lookup(s.queue, s.alarms[a].token) == if a in s.members then Some(e) else None
    ensures a in s.members ==> e in s.queue
  {
    e := EntryOf(s, batch, a);
    assert Agrees(s, e);
    UniqueTokens(s, batch, e);
    Split(batch, s.queue);
    var l := Lookup(s.queue, e.token);
    if l.Some? {
      assert l.value in batch + s.queue;
    } else if e in s.queue {
      assert HasToken(s.queue, e.token);
    }
  }

  lemma EnqueueSilent<A>(s: Engine<A>, a: A, requested: int, key: int)
    requires a in s.alarms
    ensures Silent(s, Enqueue(s, a, requested, key))
  {
  }

  lemma RetireSilent<A>(s: Engine<A>, e: Entry<A>, fate: Fate)
    requires e.cb in s.alarms && e.token !in s.fates
    ensures Silent(s, Retire(s, e, fate))
  {
  }

  /** Removing an entry never makes the first deadline earlier. */
  lemma RetireTimer<A>(s: Engine<A>, batch: seq<Entry<A>>, e: Entry<A>, fate: Fate, idle: bool)
    requires Inv(s, batch, idle) && e in s.queue && !fate.Fired?
    ensures e.cb in s.alarms && e.token !in s.fates
    ensures Inv(Retire(s, e, fate), batch, idle) && Silent(s, Retire(s, e, fate))
    ensures |Retire(s, e, fate).queue| == |s.queue| - 1
  {
    RetireKeeps(s, batch, e, fate);
    Split(batch, s.queue);
    assert Agrees(s, e);
    RetireSilent(s, e, fate);
    var r := Retire(s, e, fate);
    if r.queue != [] {
      ChronologicalSuffix(batch, s.queue);
      ChronologicalHead(s.queue);
      assert r.queue[0] in r.queue;
    }
  }

  /** RegisterAlarm of an unregistered alarm cannot fail. */
  lemma RegisterKeeps<A>(s: Engine<A>, batch: seq<Entry<A>>, idle: bool, a: A, requested: int)
    requires Inv(s, batch, idle)
    requires a in s.alarms && !s.alarms[a].registered && s.alarms[a].deadline == requested != 0
    ensures var r := RegisterAlarm(s, requested, a);
            r.Ok? && Inv(r.state, batch, idle) && Silent(s, r.state)
  {
    var key := Max(requested, NowUs(s));
    forall f | f in s.queue ensures f.cb != a {
      assert f in batch + s.queue && Agrees(s, f);
    }
    EnqueueKeeps(s, batch, a, requested, key);
    EnqueueSilent(s, a, requested, key);
    InsertHead(s.queue, Entry(key, |s.births|, a));
    UpdateTimerKeeps(Enqueue(s, a, requested, key), batch);
  }

  /** RegisterAlarm of an alarm that is already in the map drops the new deadline silently: at most
      the timer is set again, for the same first deadline. */
  lemma RegisterAgainIsDropped<A>(s: Engine<A>, batch: seq<Entry<A>>, idle: bool, a: A, requested: int)
    requires Inv(s, batch, idle) && a in s.alarms && a in s.members
    ensures var r := RegisterAlarm(s, requested, a);
            && r.Ok? && Inv(r.state, batch, idle)
            && r.state == s.(timer := r.state.timer)
            && s.queue != [] && r.state.timer.Some?
            && (r.state.timer == s.timer || Micros(r.state.timer.value) == s.queue[0].key)
  {
    UpdateTimerKeeps(s, batch);
  }

  /** Cancel and destruction fail exactly on an alarm that awaits its call. */
  lemma UnregisterKeeps<A>(s: Engine<A>, batch: seq<Entry<A>>, idle: bool, a: A)
    requires Inv(s, batch, idle) && a in s.alarms
    ensures var r := UnregisterIfRegistered(s, a);
            && (r.Ok? <==> !AwaitsCall(s, a))
            && (r.Ok? ==> Inv(r.state, batch, idle) && Silent(s, r.state))
            && (r.Ok? ==> !r.state.alarms[a].registered)
            && (r.Crash? ==> r.fault == DeadToken)
  {
    if s.alarms[a].registered {
      var e := LookupOf(s, batch, a);
      if a in s.members {
        RetireTimer(s, batch, e, Unregistered, idle);
      }
    }
  }

  lemma InvStore<A>(s: Engine<A>, batch: seq<Entry<A>>, idle: bool, a: A, x: Alarm)
    requires Inv(s, batch, idle) && a in s.alarms && !s.alarms[a].registered && !x.registered
    ensures Inv(WithAlarm(s, a, x), batch, idle) && Silent(s, WithAlarm(s, a, x))
  {
    StoreKeeps(s, batch, a, x);
  }

  lemma RetireCommutes<A>(s: Engine<A>, e: Entry<A>, fate: Fate, d: int)
    requires e.cb in s.alarms
    ensures var m := Retire(s, e, fate);
            Retire(WithAlarm(s, e.cb, s.alarms[e.cb].(deadline := d)), e, fate)
              == WithAlarm(m, e.cb, m.alarms[e.cb].(deadline := d))
  {
  }

  lemma UnregisterCommutes<A>(s: Engine<A>, a: A, d: int)
    requires a in s.alarms
    requires var l := Lookup(s.queue, s.alarms[a].token);
             s.alarms[a].registered && l.Some? ==> l.value.cb == a
    ensures var r := UnregisterIfRegistered(s, a);
            UnregisterIfRegistered(WithAlarm(s, a, s.alarms[a].(deadline := d)), a)
              == if r.Ok? then Ok(WithAlarm(r.state, a, r.state.alarms[a].(deadline := d))) else r
  {
  }

  lemma CancelKeeps<A>(s: Engine<A>, batch: seq<Entry<A>>, idle: bool, a: A)
    requires Inv(s, batch, idle) && a in s.alarms
    ensures var r := ExecCancel(s, a);
            && (r.Ok? <==> !AwaitsCall(s, a))
            && (r.Ok? ==> Inv(r.state, batch, idle) && Silent(s, r.state))
            && (r.Ok? ==> !r.state.alarms[a].registered && r.state.alarms[a].deadline == 0)
            && (r.Crash? ==> r.fault == DeadToken)
  {
    UnregisterKeeps(s, batch, idle, a);
    if s.alarms[a].registered {
      var e := LookupOf(s, batch, a);
      assert Agrees(s, e);
    }
    UnregisterCommutes(s, a, 0);
    if !AwaitsCall(s, a) {
      var r := UnregisterIfRegistered(s, a).state;
      InvStore(r, batch, idle, a, r.alarms[a].(deadline := 0));
    }
  }

  /** Replacing a live registration: a new token at the new deadline. */
  lemma ReregisterKeeps<A>(s: Engine<A>, batch: seq<Entry<A>>, idle: bool, a: A, d: int)
    requires Inv(s, batch, idle)
    requires a in s.alarms && s.alarms[a].registered && d != 0
    ensures var r := ReregisterAlarm(WithAlarm(s, a, s.alarms[a].(deadline := d)), s.alarms[a].token, d);
            && (r.Ok? <==> a in s.members && s.members != {a} && NowUs(s) <= d)
            && (r.Ok? ==> Inv(r.state, batch, idle) && Silent(s, r.state))
            && (r.Crash? ==> r.fault == if a !in s.members then DeadToken
                                        else if s.members == {a} then NoOtherAlarm else PastDeadline)
  {
    var e := LookupOf(s, batch, a);
    if a in s.members {
      RetireTimer(s, batch, e, Replaced, idle);
      var m := Retire(s, e, Replaced);
      SoleMember(s, batch, e);
      if m.queue != [] {
        RetireCommutes(s, e, Replaced, d);
        InvStore(m, batch, idle, a, m.alarms[a].(deadline := d));
        ReplantKeeps(WithAlarm(m, a, m.alarms[a].(deadline := d)), batch, idle, a, d);
      }
    }
  }

  /** The second half of ReregisterAlarm: insertion without a clamp, then perhaps UpdateTimer. */
  lemma ReplantKeeps<A>(s: Engine<A>, batch: seq<Entry<A>>, idle: bool, a: A, d: int)
    requires Inv(s, batch, idle) && s.queue != []
    requires a in s.alarms && !s.alarms[a].registered && s.alarms[a].deadline == d != 0
    ensures var m := Enqueue(s, a, d, d);
            var r := if m.timer.None? || d < s.queue[0].key then UpdateTimer(m) else Ok(m);
            && (r.Ok? <==> NowUs(s) <= d)
            && (r.Ok? ==> Inv(r.state, batch, idle) && Silent(s, r.state))
            && (r.Crash? ==> r.fault == PastDeadline)
  {
    InsertHead(s.queue, Entry(d, |s.births|, a));
    assert s.queue[0] in batch + s.queue && Agrees(s, s.queue[0]);
    if NowUs(s) <= d {
      EnqueueKeeps(s, batch, a, d, d);
      EnqueueSilent(s, a, d, d);
      UpdateTimerKeeps(Enqueue(s, a, d, d), batch);
    }
  }

  lemma SoleMember<A>(s: Engine<A>, batch: seq<Entry<A>>, e: Entry<A>)
    requires Inv(s, batch, false) && e in s.queue
    ensures Erase(s.queue, e.token) == [] <==> s.members == {e.cb}
  {
    Split(batch, s.queue);
    UniqueTokens(s, batch, e);
    ChronologicalSuffix(batch, s.queue);
    EraseMembers(s.queue, e);
    var q := Erase(s.queue, e.token);
    assert e.cb in s.members;
    if q != [] {
      assert q[0] in q && q[0] in s.queue && q[0] != e;
      assert q[0].cb in s.members && q[0].cb != e.cb;
    } else {
      forall a | a in s.members ensures a == e.cb {
        var f :| f in s.queue && f.cb == a;
        assert f !in q;
      }
    }
  }

  /** A command goes through if and only if its caller met the three conditions, and then it
      keeps the whole invariant, whether or not a pass is under way. */
  lemma ExecSafeIff<A>(s: Engine<A>, batch: seq<Entry<A>>, idle: bool, c: Command<A>)
    requires Inv(s, batch, idle)
    ensures Exec(s, c).Ok? <==> Safe(s, c)
    ensures Exec(s, c).Ok? ==> Inv(Exec(s, c).state, batch, idle) && Silent(s, Exec(s, c).state)
  {
    if c.a in s.alarms {
      var a := c.a;
      if s.alarms[a].registered {
        var e := LookupOf(s, batch, a);
        assert Agrees(s, e);
      }
      match c
      case Set(_, d) =>
        if d != 0 && s.alarms[a].deadline == 0 {
          InvStore(s, batch, idle, a, s.alarms[a].(deadline := d));
          RegisterKeeps(WithAlarm(s, a, s.alarms[a].(deadline := d)), batch, idle, a, d);
        }
      case Cancel(_) => CancelKeeps(s, batch, idle, a);
      case Destroy(_) => UnregisterKeeps(s, batch, idle, a);
      case Update(_, d, g) =>
        if d == 0 {
          CancelKeeps(s, batch, idle, a);
        } else if Distance(d, s.alarms[a].deadline) >= g {
          if s.alarms[a].registered {
            ReregisterKeeps(s, batch, idle, a, d);
          } else {
            InvStore(s, batch, idle, a, s.alarms[a].(deadline := d));
            RegisterKeeps(WithAlarm(s, a, s.alarms[a].(deadline := d)), batch, idle, a, d);
          }
        }
    }
  }

  /** What Update finds once it has stored the new deadline. */
  lemma UpdateReady<A>(s: Engine<A>, batch: seq<Entry<A>>, idle: bool, a: A, d: int, g: nat)
    requires Inv(s, batch, idle) && Safe(s, Update(a, d, g))
    requires d != 0 && Distance(d, s.alarms[a].deadline) >= g
    ensures var s1 := WithAlarm(s, a, s.alarms[a].(deadline := d));
            if s.alarms[a].registered then
              && s.alarms[a].deadline != 0 && s.alarms[a].attached && a in s.members
              && ReregisterAlarm(s1, s.alarms[a].token, d).Ok?
              && Lookup(s.queue, s.alarms[a].token).Some?
              && Lookup(s.queue, s.alarms[a].token).value.cb == a
            else RegisterAlarm(s1, d, a).Ok?
  {
    ExecSafeIff(s, batch, idle, Update(a, d, g));
    if s.alarms[a].registered {
      var e := LookupOf(s, batch, a);
      assert Agrees(s, e);
    }
  }

  lemma {:induction false} ExecAllKeeps<A>(s: Engine<A>, batch: seq<Entry<A>>, idle: bool, cs: seq<Command<A>>)
    requires Inv(s, batch, idle)
    ensures var r := ExecAll(s, cs);
            r.Ok? ==> Inv(r.state, batch, idle) && Silent(s, r.state)
    decreases |cs|
  {
    if cs != [] {
      ExecSafeIff(s, batch, idle, cs[0]);
      if Exec(s, cs[0]).Ok? {
        ExecAllKeeps(Exec(s, cs[0]).state, batch, idle, cs[1..]);
      }
    }
  }
}
