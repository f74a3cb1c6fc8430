/** Whole runs: no alarm is lost, early, late or fired twice. */
module AlarmRuns {
  import opened AlarmQueue
  import opened Arithmetic
  import opened Wrappers
  import opened AlarmModel
  import opened AlarmInvariant
  import opened AlarmCommands

  /** A new engine: nothing registered, no timer, no history. */
  ghost predicate Fresh<A>(s: Engine<A>) {
    && s.queue == [] && s.members == {} && s.timer == None
    && s.births == [] && s.fates == map[] && s.fired == []
    && (forall a | a in s.alarms :: !s.alarms[a].registered)
  }

  // ------------------------------------------------------------ one pass of OnTimeout

  /** The simulator moves the clock to the timer event and runs it. */
  function AtTimer<A>(s: Engine<A>): Engine<A>
    requires s.timer.Some?
  {
    s.(now := s.timer.value, timer := None)
  }

  /** The entries a timer event finds due. */
  function DueEntries<A>(s: Engine<A>): seq<Entry<A>>
    requires s.timer.Some?
  {
    s.queue[..DueCount(s.queue, Micros(s.timer.value))]
  }

  lemma MicrosMonotone(a: nat, b: nat)
    requires a <= b
    ensures Micros(a) <= Micros(b)
  {
  }

  lemma ClockKeeps<A>(s: Engine<A>, r: Engine<A>)
    requires Inv(s, [], true)
    requires s.now <= r.now && (s.queue != [] ==> Micros(r.now) <= s.queue[0].key)
    requires r == s.(now := r.now, timer := r.timer)
    ensures Structure(r, []) && Conserved(r, []) && Punctual(r, [])
  {
    MicrosMonotone(s.now, r.now);
    assert [] + s.queue == s.queue;
    if s.queue != [] {
      ChronologicalHead(s.queue);
    }
    SameLine(s, r, []);
    SameHistory(s, [], r, []);
  }

  /** The first loop of OnTimeout turns the due entries into the batch. */
  lemma DetachKeeps<A>(s: Engine<A>)
    requires Structure(s, []) && Conserved(s, []) && Punctual(s, []) && s.timer.None?
    ensures Inv(Detach(s), s.queue[..DueCount(s.queue, NowUs(s))], false)
  {
    hide Structure, Conserved, Punctual, Inv;
    var n := DueCount(s.queue, NowUs(s));
    assert s.queue[..n] + s.queue[n..] == s.queue;
    Cut(s, s.queue[..n], s.queue[n..]);
  }

  /** Cutting the map in two changes nothing but where the line is divided. */
  lemma Cut<A>(s: Engine<A>, batch: seq<Entry<A>>, rest: seq<Entry<A>>)
    requires Structure(s, []) && Conserved(s, []) && Punctual(s, []) && s.timer.None?
    requires batch + rest == s.queue
    requires forall e | e in batch :: e.key <= NowUs(s)
    ensures Inv(s.(queue := rest, members := s.members - Callbacks(batch)), batch, false)
  {
    assert [] + s.queue == s.queue;
    var r := s.(queue := rest, members := s.members - Callbacks(batch));
    CallbacksSplit(batch, rest);
    ApartCallbacks(s, batch, rest);
    CutMembers(s, batch, rest);
    SameAgreement(s, r, batch);
    SameHistory(s, [], r, batch);
  }

  lemma CutMembers<A>(s: Engine<A>, batch: seq<Entry<A>>, rest: seq<Entry<A>>)
    requires s.members == Callbacks(batch) + Callbacks(rest) && Callbacks(batch) !! Callbacks(rest)
    ensures s.members - Callbacks(batch) == Callbacks(rest)
  {
  }

  lemma ApartCallbacks<A>(s: Engine<A>, batch: seq<Entry<A>>, rest: seq<Entry<A>>)
    requires Structure(s, []) && batch + rest == [] + s.queue
    ensures Callbacks(batch) !! Callbacks(rest)
  {
    forall e, f | e in batch && f in rest ensures e.cb != f.cb {
      Apart(batch, rest, f);
      assert f in batch + rest && e in batch + rest;
      UniqueTokens(s, [], f);
    }
  }

  lemma CallbacksSplit<A>(b: seq<Entry<A>>, q: seq<Entry<A>>)
    ensures Callbacks(b + q) == Callbacks(b) + Callbacks(q)
  {
  }

  /** Agreement does not depend on where the line is cut. */
  lemma SameAgreement<A>(s: Engine<A>, r: Engine<A>, batch: seq<Entry<A>>)
    requires Structure(s, []) && batch + r.queue == [] + s.queue
    requires r == s.(queue := r.queue, members := Callbacks(r.queue))
    requires forall e | e in batch :: e.key <= NowUs(s)
    ensures Structure(r, batch)
  {
  }

  lemma RingInv<A>(s: Engine<A>, batch: seq<Entry<A>>)
    requires Inv(s, batch, false) && batch != []
    ensures batch[0].cb in s.alarms && Inv(Ring(s, batch[0]), batch[1..], false)
  {
    RingKeeps(s, batch);
  }

  /** One callback, with whatever it does to the engine. */
  lemma OnAlarmKeeps<A>(s: Engine<A>, batch: seq<Entry<A>>, cs: seq<Command<A>>)
    requires Inv(s, batch, false) && batch != []
    ensures batch[0].cb in s.alarms
    ensures var r := OnAlarm(s, batch[0], cs);
            r.Ok? ==>
              && Inv(r.state, batch[1..], false) && Extends(s, r.state) && r.state.now == s.now
              && r.state.fired == s.fired + [batch[0].token]
  {
    RingInv(s, batch);
    RingExtends(s, batch);
    hide Inv;
    ExecAllKeeps(Ring(s, batch[0]), batch[1..], false, cs);
  }

  /** The second loop: whatever the callbacks do, exactly the batch goes off, in its order. */
  lemma {:induction false} CallAllKeeps<A>(s: Engine<A>, batch: seq<Entry<A>>, script: Script<A>)
    requires Inv(s, batch, false)
    ensures var r := CallAll(s, batch, script);
            r.Ok? ==>
              && Inv(r.state, [], false) && Extends(s, r.state) && r.state.now == s.now
              && r.state.fired == s.fired + Tokens(batch)
    decreases |batch|
  {
    hide Inv, Extends, OnAlarm;
    ExtendsTransitive(s, s, s);
    if batch != [] {
      var cs := CommandsOf(script, batch[0].cb);
      OnAlarmKeeps(s, batch, cs);
      var m := OnAlarm(s, batch[0], cs);
      if m.Ok? {
        CallAllKeeps(m.state, batch[1..], script);
        var r := CallAll(m.state, batch[1..], script);
        if r.Ok? {
          ExtendsTransitive(s, m.state, r.state);
          Associative(s.fired, [batch[0].token], Tokens(batch[1..]));
        }
      }
    }
  }

  lemma RingExtends<A>(s: Engine<A>, batch: seq<Entry<A>>)
    requires Structure(s, batch) && batch != []
    ensures batch[0].cb in s.alarms && Extends(s, Ring(s, batch[0]))
  {
    assert batch[0] in batch + s.queue;
    assert Agrees(s, batch[0]);
  }

  /** The timer event is at the head of the map, in nanoseconds; there is none for an empty map. */
  ghost predicate AimedExactly<A>(s: Engine<A>) {
    if s.queue == [] then s.timer.None?
    else s.timer.Some? && s.timer.value == s.now + (s.queue[0].key - s.now / 1000) * 1000
  }

  /** A timer event fires exactly the entries due on entry, once each, in (deadline, insertion)
      order; what the callbacks register waits for a later pass, and the timer is aimed at the first
      of those that wait. */
  lemma ExpireFiresExactlyDue<A>(s: Engine<A>, script: Script<A>)
    requires Inv(s, [], true) && s.timer.Some?
    ensures var r := Apply(s, Expire(script));
            r.Ok? ==>
              && Inv(r.state, [], true) && Extends(s, r.state)
              && r.state.now == s.timer.value
              && r.state.fired == s.fired + Tokens(DueEntries(s))
              && AimedExactly(r.state)
    ensures forall e | e in DueEntries(s) :: e.key == Micros(s.timer.value)
    ensures forall e | e in s.queue && e.key <= Micros(s.timer.value) :: e in DueEntries(s)
  {
    hide Inv, Extends, Apply, CallAll, Detach, DueEntries;
    DueExactly(s);
    var s1 := AtTimer(s);
    StartPass(s);
    PassIs(s, script);
    var c := CallAll(Detach(s1), DueEntries(s), script);
    CallAllKeeps(Detach(s1), DueEntries(s), script);
    if c.Ok? {
      FinishPass(c.state);
      var r := UpdateTimer(c.state);
      ExtendsTransitive(s, Detach(s1), c.state);
      ExtendsTransitive(s, c.state, r.state);
    }
  }

  lemma PassIs<A>(s: Engine<A>, script: Script<A>)
    requires s.timer.Some?
    ensures Apply(s, Expire(script)) ==
            var m := CallAll(Detach(AtTimer(s)), DueEntries(s), script);
            if m.Ok? then UpdateTimer(m.state) else m
  {
  }

  lemma StartPass<A>(s: Engine<A>)
    requires Inv(s, [], true) && s.timer.Some?
    ensures var d := Detach(AtTimer(s));
            && Inv(d, DueEntries(s), false) && Extends(s, d)
            && d.now == s.timer.value && d.fired == s.fired && d.births == s.births && d.alarms == s.alarms
  {
    ClockKeeps(s, AtTimer(s));
    DetachKeeps(AtTimer(s));
  }

  lemma FinishPass<A>(s: Engine<A>)
    requires Inv(s, [], false)
    ensures var r := UpdateTimer(s);
            && r.Ok? && Inv(r.state, [], true) && Silent(s, r.state)
            && r.state == s.(timer := r.state.timer) && AimedExactly(r.state)
            && (s.queue != [] ==> r.state.timer.Some? && Micros(r.state.timer.value) == s.queue[0].key)
  {
    UpdateTimerKeeps(s, []);
  }

  /** The due entries are those whose deadline is the current microsecond, and no others. */
  lemma DueExactly<A>(s: Engine<A>)
    requires Inv(s, [], true) && s.timer.Some?
    ensures forall e | e in DueEntries(s) :: e.key == Micros(s.timer.value)
    ensures forall e | e in s.queue && e.key <= Micros(s.timer.value) :: e in DueEntries(s)
  {
    ChronologicalSuffix([], s.queue);
    DuePrefix(s.queue, Micros(s.timer.value));
  }

  lemma {:induction false} DuePrefix<A>(q: seq<Entry<A>>, us: int)
    requires Chronological(q) && (q != [] ==> us <= q[0].key)
    ensures forall e :: e in q[..DueCount(q, us)] <==> e in q && e.key <= us
    ensures forall e | e in q[..DueCount(q, us)] :: e.key == us
  {
  }

  /** What a timer event may count on when it starts, and leaves when it ends. */
  lemma ExpireReady<A>(s: Engine<A>, script: Script<A>)
    requires Inv(s, [], true) && Apply(s, Expire(script)).Ok?
    ensures s.timer.Some?
    ensures var m := AtTimer(s);
            && Inv(Detach(m), m.queue[..DueCount(m.queue, NowUs(m))], false)
            && OnTimeout(m, script).Ok? && Inv(OnTimeout(m, script).state, [], true)
            && Apply(s, Expire(script)) == OnTimeout(m, script)
  {
    hide Inv, Extends, OnTimeout, Detach, DueCount;
    StartPass(s);
    ExpireFiresExactlyDue(s, script);
  }

  // ------------------------------------------------------------ shutdown

  /** Shutdown always completes, leaves no registration behind and lets none go off. */
  lemma {:induction false} ShutdownKeeps<A>(s: Engine<A>)
    requires Inv(s, [], true)
    ensures var r := Shutdown(s);
            && r.Ok? && Inv(r.state, [], true) && Silent(s, r.state)
            && r.state.queue == [] && r.state.members == {} && r.state.timer == s.timer
            && (forall a | a in r.state.alarms :: !r.state.alarms[a].registered)
            && (forall e | e in s.queue :: e.token in r.state.fates && r.state.fates[e.token] == ShutDown)
    decreases |s.queue|
  {
    assert [] + s.queue == s.queue;
    if s.queue == [] {
      forall a | a in s.alarms ensures !s.alarms[a].registered {
        assert TokenValid(s, a);
      }
    } else {
      var e := s.queue[0];
      LeaveKeeps(s);
      ShutdownKeeps(Leave(s, e));
      forall f | f in s.queue
        ensures f.token in Shutdown(s).state.fates && Shutdown(s).state.fates[f.token] == ShutDown
      {
        if f != e {
          assert f in s.queue[1..];
        }
      }
    }
  }

  lemma LeaveKeeps<A>(s: Engine<A>)
    requires Inv(s, [], true) && s.queue != []
    ensures var e := s.queue[0];
            && e.cb in s.alarms
            && Inv(Leave(s, e), [], true) && Silent(s, Leave(s, e))
            && e.token in Leave(s, e).fates
  {
    var e := s.queue[0];
    RetireTimer(s, [], e, ShutDown, true);
    var m := Retire(s, e, ShutDown);
    hide Inv;
    InvStore(m, [], true, e.cb, m.alarms[e.cb].(attached := false));
    LeaveIsRetire(s);
  }

  lemma LeaveIsRetire<A>(s: Engine<A>)
    requires s.queue != [] && s.queue[0].cb in s.alarms
    ensures var e := s.queue[0];
            var m := Retire(s, e, ShutDown);
            Leave(s, e) == WithAlarm(m, e.cb, m.alarms[e.cb].(attached := false))
  {
  }

  // ------------------------------------------------------------ runs

  lemma FreshInv<A>(s: Engine<A>)
    requires Fresh(s)
    ensures Inv(s, [], true)
  {
  }

  lemma StepKeeps<A>(s: Engine<A>, step: Step<A>)
    requires Inv(s, [], true) && Apply(s, step).Ok?
    ensures Inv(Apply(s, step).state, [], true) && Extends(s, Apply(s, step).state)
  {
    match step
    case Create(a) =>
      var r := Apply(s, step).state;
      forall e | e in [] + s.queue ensures NowUs(r) <= e.key {
        assert Agrees(s, e);
      }
      SameLine(s, r, []);
      SameHistory(s, [], r, []);
    case Do(c) => ExecSafeIff(s, [], true, c);
    case Advance(to) =>
      MicrosMonotone(s.now, to);
      if s.timer.Some? {
        MicrosMonotone(to, s.timer.value);
      }
      ClockKeeps(s, s.(now := to));
    case Expire(script) => ExpireFiresExactlyDue(s, script);
    case Stop => ShutdownKeeps(s);
  }

  lemma {:induction false} RunKeeps<A>(s: Engine<A>, steps: seq<Step<A>>)
    requires Inv(s, [], true) && Run(s, steps).Ok?
    ensures Inv(Run(s, steps).state, [], true) && Extends(s, Run(s, steps).state)
    decreases |steps|
  {
    if steps != [] {
      StepKeeps(s, steps[0]);
      RunKeeps(Apply(s, steps[0]).state, steps[1..]);
    }
  }

  lemma PunctualToken<A>(s: Engine<A>, t: nat)
    requires Inv(s, [], true) && t < |s.births|
    ensures var due := Due(s.births[t]);
            && (t in s.fates && s.fates[t].Fired? ==> s.fates[t].at == due <= NowUs(s))
            && (t !in s.fates ==>
                  && NowUs(s) <= due
                  && s.timer.Some? && s.now <= s.timer.value && Micros(s.timer.value) <= due)
  {
    assert [] + s.queue == s.queue;
    if t !in s.fates {
      assert HasToken([] + s.queue, t);
      var e :| e in s.queue && e.token == t;
      assert Agrees(s, e);
      ChronologicalHead(s.queue);
    } else if s.fates[t].Fired? {
      assert t in s.fired;
      var i :| 0 <= i < |s.fired| && s.fired[i] == t;
    }
  }

  /** Over every run of a new engine: a registration that went off did so at the very microsecond
      it was due; one that is still waiting is not overdue and the timer is set no later than its
      deadline; so a registration overdue by the clock has ended. */
  lemma NeverLostEarlyOrLate<A>(s0: Engine<A>, steps: seq<Step<A>>, t: nat)
    requires Fresh(s0) && Run(s0, steps).Ok?
    requires t < |Run(s0, steps).state.births|
    ensures var s := Run(s0, steps).state;
            var due := Due(s.births[t]);
            && (t in s.fates && s.fates[t].Fired? ==> s.fates[t].at == due <= NowUs(s))
            && (t !in s.fates ==>
                  && NowUs(s) <= due
                  && s.timer.Some? && s.now <= s.timer.value && Micros(s.timer.value) <= due)
            && (due < NowUs(s) ==> t in s.fates)
  {
    FreshInv(s0);
    RunKeeps(s0, steps);
    PunctualToken(Run(s0, steps).state, t);
  }

  /** Over every run alarms go off in order of (due time, registration), so never twice. */
  lemma FiredInOrderOnce<A>(s0: Engine<A>, steps: seq<Step<A>>)
    requires Fresh(s0) && Run(s0, steps).Ok?
    ensures var s := Run(s0, steps).state;
            && (forall i, j | 0 <= i < j < |s.fired| :: Earlier(s, s.fired[i], s.fired[j]) && s.fired[i] != s.fired[j])
            && (forall t | 0 <= t < |s.births| :: t in s.fired <==> t in s.fates && s.fates[t].Fired?)
  {
    FreshInv(s0);
    RunKeeps(s0, steps);
    var s := Run(s0, steps).state;
    forall i, j | 0 <= i < j < |s.fired|
      ensures Earlier(s, s.fired[i], s.fired[j]) && s.fired[i] != s.fired[j]
    {
      assert Earlier(s, s.fired[i], s.fired[j]);
    }
    forall t | t in s.fired ensures t in s.fates && s.fates[t].Fired? {
      var i :| 0 <= i < |s.fired| && s.fired[i] == t;
    }
  }

  /** Conservation over every run: the registrations that have ended and those in the map add up
      to all registrations, and each ends at most once, for a fate is never revised. */
  lemma EveryRegistrationAccounted<A>(s0: Engine<A>, first: seq<Step<A>>, more: seq<Step<A>>)
    requires Fresh(s0) && Run(s0, first).Ok? && Run(Run(s0, first).state, more).Ok?
    ensures var s := Run(s0, first).state;
            var r := Run(s, more).state;
            && |s.births| == |s.fates| + |s.queue|
            && (forall t: nat | t < |s.births| :: t !in s.fates <==> HasToken(s.queue, t))
            && (forall t | t in s.fates :: t in r.fates && r.fates[t] == s.fates[t])
            && s.fired <= r.fired && s.births <= r.births
  {
    FreshInv(s0);
    RunKeeps(s0, first);
    var s := Run(s0, first).state;
    RunKeeps(s, more);
    assert [] + s.queue == s.queue;
    forall t: nat | t < |s.births| ensures t !in s.fates <==> HasToken(s.queue, t) {
      if HasToken(s.queue, t) {
        var e :| e in s.queue && e.token == t;
        assert Agrees(s, e);
      }
    }
  }

  /** Token agreement over every run: the set is the set of callbacks in the map, each callback
      has one entry, and an alarm is registered if and only if its token names its own live entry,
      whose deadline is the alarm's own, moved up to the time of registration if it was past. */
  lemma TokensAgree<A>(s0: Engine<A>, steps: seq<Step<A>>, a: A)
    requires Fresh(s0) && Run(s0, steps).Ok? && a in Run(s0, steps).state.alarms
    ensures var s := Run(s0, steps).state;
            && s.members == Callbacks(s.queue)
            && (forall i, j | 0 <= i < j < |s.queue| :: s.queue[i].cb != s.queue[j].cb)
            && (s.alarms[a].registered <==> a in s.members)
            && (s.alarms[a].registered ==>
                  var l := Lookup(s.queue, s.alarms[a].token);
                  && l.Some? && l.value.cb == a
                  && s.alarms[a].token < |s.births|
                  && s.alarms[a].deadline == s.births[s.alarms[a].token].requested
                  && l.value.key == Max(s.alarms[a].deadline, s.births[s.alarms[a].token].at))
  {
    FreshInv(s0);
    RunKeeps(s0, steps);
    var s := Run(s0, steps).state;
    assert [] + s.queue == s.queue;
    forall i, j | 0 <= i < j < |s.queue| ensures s.queue[i].cb != s.queue[j].cb {
      assert Before(s.queue[i], s.queue[j]);
      assert s.queue[i] in [] + s.queue;
      UniqueTokens(s, [], s.queue[i]);
    }
    if a in s.members {
      var f :| f in s.queue && f.cb == a;
      assert Agrees(s, f);
    }
    if s.alarms[a].registered {
      var e := LookupOf(s, [], a);
      assert Agrees(s, e);
      EntryInMap(s, a);
    }
  }

  lemma EntryInMap<A>(s: Engine<A>, a: A)
    requires Inv(s, [], true) && a in s.alarms && s.alarms[a].registered
    ensures a in s.members
  {
  }

  // ------------------------------------------------------------ progress

  lemma {:induction false} QuietCalls<A>(s: Engine<A>, batch: seq<Entry<A>>)
    requires forall e | e in batch :: e.cb in s.alarms
    ensures var r := CallAll(s, batch, map[]);
            && r.Ok? && r.state.queue == s.queue && r.state.births == s.births
            && r.state.alarms.Keys == s.alarms.Keys
    decreases |batch|
  {
    if batch != [] {
      var e := batch[0];
      assert e in batch;
      var m := Ring(s, e);
      assert OnAlarm(s, e, CommandsOf(map[], e.cb)) == Ok(m);
      QuietCalls(m, batch[1..]);
    }
  }

  ghost predicate Aimed<A>(s: Engine<A>) {
    s.queue != [] && s.timer.Some? && Micros(s.timer.value) == s.queue[0].key
  }

  /** A timer event whose callbacks do nothing either fires the head of the map, or, when the
      timer was left over from an alarm since cancelled, moves it to exactly the head's deadline. */
  lemma QuietExpiry<A>(s: Engine<A>)
    requires Inv(s, [], true) && s.queue != []
    ensures var r := Apply(s, Expire(map[]));
            && r.Ok? && Inv(r.state, [], true)
            && r.state.queue == s.queue[|DueEntries(s)|..]
            && r.state.fired == s.fired + Tokens(DueEntries(s))
            && (if Aimed(s) then DueEntries(s) != [] else DueEntries(s) == [] && Aimed(r.state))
            && r.state.fired + Tokens(r.state.queue) == s.fired + Tokens(s.queue)
  {
    hide Tokens;
    HeadDue(s);
    hide Inv, Extends;
    ExpireFiresExactlyDue(s, map[]);
    QuietPass(s);
    var r := Apply(s, Expire(map[])).state;
    FiredThenWaiting(s.fired, r.fired, s.queue, r.queue, DueCount(s.queue, Micros(s.timer.value)));
  }

  lemma FiredThenWaiting<A>(fired: seq<nat>, fired': seq<nat>, q: seq<Entry<A>>, q': seq<Entry<A>>, n: nat)
    requires n <= |q| && fired' == fired + Tokens(q[..n]) && q' == q[n..]
    ensures fired' + Tokens(q') == fired + Tokens(q)
  {
    hide Tokens;
    TokensSplit(q, n);
    Associative(fired, Tokens(q[..n]), Tokens(q'));
  }

  lemma Associative(a: seq<nat>, b: seq<nat>, c: seq<nat>)
    ensures (a + b) + c == a + (b + c)
  {
  }

  /** The head of the map is due exactly when the timer is aimed at it. */
  lemma HeadDue<A>(s: Engine<A>)
    requires Inv(s, [], true) && s.queue != []
    ensures DueEntries(s) != [] <==> Aimed(s)
  {
  }

  lemma QuietPass<A>(s: Engine<A>)
    requires Inv(s, [], true) && s.timer.Some?
    ensures var r := Apply(s, Expire(map[]));
            && r.Ok? && r.state.queue == s.queue[|DueEntries(s)|..]
            && (r.state.queue != [] ==>
                  r.state.timer.Some? && Micros(r.state.timer.value) == r.state.queue[0].key)
  {
    hide Inv, Extends, Apply, CallAll, Detach, UpdateTimer;
    StartPass(s);
    PassIs(s, map[]);
    var batch := DueEntries(s);
    var d := Detach(AtTimer(s));
    assert d.queue == s.queue[|batch|..] by {
      DetachedQueue(s);
    }
    BatchKnown(d, batch);
    QuietCalls(d, batch);
    CallAllKeeps(d, batch, map[]);
    FinishPass(CallAll(d, batch, map[]).state);
  }

  lemma DetachedQueue<A>(s: Engine<A>)
    requires s.timer.Some?
    ensures Detach(AtTimer(s)).queue == s.queue[|DueEntries(s)|..]
  {
  }

  lemma BatchKnown<A>(s: Engine<A>, batch: seq<Entry<A>>)
    requires Inv(s, batch, false)
    ensures forall e | e in batch :: e.cb in s.alarms
  {
    forall e | e in batch ensures e.cb in s.alarms {
      assert e in batch + s.queue && Agrees(s, e);
    }
  }

  /** Left alone, every alarm goes off: at most two timer events per waiting alarm empty the map,
      and the alarms go off in the order of the map. */
  lemma {:induction false} AllFireEventually<A>(s: Engine<A>) returns (steps: seq<Step<A>>)
    requires Inv(s, [], true)
    ensures if Aimed(s) then |steps| < 2 * |s.queue| else |steps| <= 2 * |s.queue|
    ensures forall step | step in steps :: step == Expire(map[])
    ensures Run(s, steps).Ok?
    ensures Run(s, steps).state.queue == []
    ensures Run(s, steps).state.fired == s.fired + Tokens(s.queue)
    decreases |s.queue|, if Aimed(s) then 0 else 1
  {
    hide Inv, OnTimeout;
    if s.queue == [] {
      steps := [];
    } else {
      QuietExpiry(s);
      var m := Apply(s, Expire(map[])).state;
      var rest := AllFireEventually(m);
      steps := [Expire(map[])] + rest;
      assert steps[1..] == rest;
      assert Run(s, steps) == Run(m, rest);
    }
  }
}
