/** The joint invariant of map, set, tokens, alarms, timer and history, and its preservation by
    every engine operation, also while OnTimeout is working through a detached batch. */
module AlarmInvariant {
  import opened AlarmQueue
  import opened Arithmetic
  import opened AlarmModel

  /** Lexicographic order of (due time, token): the order in which alarms are to go off. */
  ghost predicate Earlier<A>(s: Engine<A>, t: nat, u: nat) {
    && t < |s.births| && u < |s.births|
    && (Due(s.births[t]) < Due(s.births[u]) || (Due(s.births[t]) == Due(s.births[u]) && t < u))
  }

  /** A live registration: its entry, its alarm and its token all agree. */
  ghost predicate Agrees<A>(s: Engine<A>, e: Entry<A>) {
    && e.token < |s.births| && e.token !in s.fates
    && s.births[e.token].cb == e.cb
    && e.key == Due(s.births[e.token])
    && s.births[e.token].requested != 0
    && NowUs(s) <= e.key
    && e.cb in s.alarms
    && s.alarms[e.cb] == Alarm(s.births[e.token].requested, true, true, e.token)
  }

  /** Every registered alarm holds the token of a live registration of its own. */
  ghost predicate TokenValid<A>(s: Engine<A>, a: A)
    requires a in s.alarms
  {
    s.alarms[a].registered ==>
      && s.alarms[a].token < |s.births|
      && s.alarms[a].token !in s.fates
      && s.births[s.alarms[a].token].cb == a
  }

  /** `line` holds all live registrations: a detached batch followed by the map. */
  ghost predicate Structure<A>(s: Engine<A>, batch: seq<Entry<A>>) {
    var line := batch + s.queue;
    && Chronological(line)
    && (forall e | e in line :: Agrees(s, e))
    && s.members == Callbacks(s.queue)
    && (forall a | a in s.alarms :: TokenValid(s, a))
    && (forall e | e in batch :: e.key <= NowUs(s))
  }

  /** Every registration has exactly one fate or is still waiting. */
  ghost predicate Conserved<A>(s: Engine<A>, batch: seq<Entry<A>>) {
    && (forall t: nat | t < |s.births| && t !in s.fates :: HasToken(batch + s.queue, t))
    && (forall t | t in s.fates :: t < |s.births|)
    && (forall t | 0 <= t < |s.births| :: s.births[t].at <= NowUs(s))
    && |s.births| == |s.fates| + |batch| + |s.queue|
  }

  /** Alarms went off exactly when due, once each, in order, and before everything that waits. */
  ghost predicate Punctual<A>(s: Engine<A>, batch: seq<Entry<A>>) {
    && (forall t | t in s.fates && s.fates[t].Fired? ::
          t < |s.births| && s.fates[t].at == Due(s.births[t]) && t in s.fired)
    && (forall i | 0 <= i < |s.fired| ::
          && s.fired[i] < |s.births|
          && s.fired[i] in s.fates && s.fates[s.fired[i]].Fired?
          && Due(s.births[s.fired[i]]) <= NowUs(s))
    && (forall i, j | 0 <= i < j < |s.fired| :: Earlier(s, s.fired[i], s.fired[j]))
    && (forall i, e | 0 <= i < |s.fired| && e in batch + s.queue :: Earlier(s, s.fired[i], e.token))
  }

  /** The timer never lies in the past and never after the first deadline. */
  ghost predicate TimerOk<A>(s: Engine<A>) {
    s.timer.Some? ==>
      && s.now <= s.timer.value
      && (s.queue != [] ==> Micros(s.timer.value) <= s.queue[0].key)
  }

  /** The invariant while `batch` is detached and not yet called; between passes (`idle`) a
      non-empty map also has its timer running. */
  ghost predicate Inv<A>(s: Engine<A>, batch: seq<Entry<A>>, idle: bool) {
    && Structure(s, batch) && Conserved(s, batch) && Punctual(s, batch) && TimerOk(s)
    && (idle && s.queue != [] ==> s.timer.Some?)
  }

  // ------------------------------------------------------------ basic transitions

  lemma UniqueTokens<A>(s: Engine<A>, batch: seq<Entry<A>>, e: Entry<A>)
    requires Structure(s, batch) && e in batch + s.queue
    ensures forall f | f in batch + s.queue && (f.token == e.token || f.cb == e.cb) :: f == e
  {
  }

  lemma Apart<A>(batch: seq<Entry<A>>, q: seq<Entry<A>>, e: Entry<A>)
    requires Chronological(batch + q) && e in q
    ensures e !in batch
  {
    var j :| 0 <= j < |q| && q[j] == e;
    forall i | 0 <= i < |batch| ensures batch[i] != e {
      assert Before((batch + q)[i], (batch + q)[|batch| + j]);
    }
  }

  lemma Split<A>(batch: seq<Entry<A>>, q: seq<Entry<A>>)
    ensures forall e :: e in batch + q <==> e in batch || e in q
  {
  }

  /** A new registration of an unregistered alarm, its deadline already stored. */
  lemma EnqueueKeeps<A>(s: Engine<A>, batch: seq<Entry<A>>, a: A, requested: int, key: int)
    requires Structure(s, batch) && Conserved(s, batch) && Punctual(s, batch)
    requires a in s.alarms && !s.alarms[a].registered
    requires s.alarms[a].deadline == requested != 0
    requires key == Max(requested, NowUs(s))
    ensures var r := Enqueue(s, a, requested, key);
            Structure(r, batch) && Conserved(r, batch) && Punctual(r, batch)
  {
    var r := Enqueue(s, a, requested, key);
    var e := Entry(key, |s.births|, a);
    InsertMembers(s.queue, e);
    Split(batch, s.queue);
    Split(batch, r.queue);
    forall f | f in batch + s.queue ensures f.token < e.token && f.cb != a {
      assert Agrees(s, f);
    }
    InsertChronological(batch, s.queue, e);
    forall f | f in batch + r.queue ensures Agrees(r, f) {
      if f != e {
        assert Agrees(s, f);
      }
    }
    forall x | x in r.alarms ensures TokenValid(r, x) {
      assert TokenValid(s, x);
    }
    assert r.members == Callbacks(r.queue) by {
      assert e in r.queue;
      forall f | f in s.queue ensures f.cb in Callbacks(r.queue) {
        assert f in r.queue;
      }
    }
    EnqueueConserves(s, batch, e, Birth(a, requested, NowUs(s)), r);
    EnqueuePunctual(s, batch, e, r);
  }

  lemma EnqueueConserves<A>(s: Engine<A>, batch: seq<Entry<A>>, e: Entry<A>, b: Birth<A>, r: Engine<A>)
    requires Conserved(s, batch) && e.token == |s.births|
    requires r.births == s.births + [b] && b.at == NowUs(s)
    requires r.queue == Insert(s.queue, e) && r.fates == s.fates && r.now == s.now
    ensures Conserved(r, batch)
  {
    InsertMembers(s.queue, e);
    forall t: nat | t < |r.births| && t !in r.fates ensures HasToken(batch + r.queue, t) {
      if t == |s.births| {
        assert e in batch + r.queue;
      } else {
        assert HasToken(batch + s.queue, t);
        var f :| f in batch + s.queue && f.token == t;
        assert f in batch + r.queue;
      }
    }
  }

  lemma EnqueuePunctual<A>(s: Engine<A>, batch: seq<Entry<A>>, e: Entry<A>, r: Engine<A>)
    requires Punctual(s, batch) && Conserved(s, batch) && e.token == |s.births|
    requires |r.births| == |s.births| + 1 && r.births[..|s.births|] == s.births
    requires Due(r.births[e.token]) == e.key && NowUs(s) <= e.key
    requires r.queue == Insert(s.queue, e)
    requires r.fates == s.fates && r.fired == s.fired && r.now == s.now
    ensures Punctual(r, batch)
  {
    InsertMembers(s.queue, e);
    forall t | 0 <= t < |s.births| ensures r.births[t] == s.births[t] {
      assert r.births[t] == r.births[..|s.births|][t];
    }
    forall i, f | 0 <= i < |r.fired| && f in batch + r.queue
      ensures Earlier(r, r.fired[i], f.token)
    {
      assert s.fired[i] < |s.births| && Due(r.births[s.fired[i]]) <= NowUs(s);
      if f != e {
        assert f in batch + s.queue;
        assert Earlier(s, s.fired[i], f.token);
      }
    }
    forall i, j | 0 <= i < j < |r.fired| ensures Earlier(r, r.fired[i], r.fired[j]) {
      assert Earlier(s, s.fired[i], s.fired[j]);
    }
  }

  /** A live registration leaves the map without going off. */
  lemma RetireKeeps<A>(s: Engine<A>, batch: seq<Entry<A>>, e: Entry<A>, fate: Fate)
    requires Structure(s, batch) && Conserved(s, batch) && Punctual(s, batch)
    requires e in s.queue && !fate.Fired?
    ensures e.cb in s.alarms
    ensures var r := Retire(s, e, fate);
            && Structure(r, batch) && Conserved(r, batch) && Punctual(r, batch)
            && |r.queue| == |s.queue| - 1
  {
    Split(batch, s.queue);
    assert Agrees(s, e);
    var r := Retire(s, e, fate);
    UniqueTokens(s, batch, e);
    ChronologicalSuffix(batch, s.queue);
    EraseMembers(s.queue, e);
    EraseChronological(batch, s.queue, e.token);
    Split(batch, r.queue);
    Apart(batch, s.queue, e);
    forall f | f in batch + r.queue ensures f != e && Agrees(r, f) {
      assert Agrees(s, f);
    }
    forall x | x in r.alarms ensures TokenValid(r, x) {
      assert TokenValid(s, x);
    }
    assert r.members == Callbacks(r.queue);
    forall t: nat | t < |r.births| && t !in r.fates ensures HasToken(batch + r.queue, t) {
      assert HasToken(batch + s.queue, t);
      var f :| f in batch + s.queue && f.token == t;
      assert f in batch + r.queue;
    }
    assert r.fates.Keys == s.fates.Keys + {e.token};
    assert |r.fates| == |s.fates| + 1;
    forall i, f | 0 <= i < |r.fired| && f in batch + r.queue
      ensures Earlier(r, r.fired[i], f.token)
    {
      assert Earlier(s, s.fired[i], f.token);
    }
    forall i, j | 0 <= i < j < |r.fired| ensures Earlier(r, r.fired[i], r.fired[j]) {
      assert Earlier(s, s.fired[i], s.fired[j]);
    }
  }

  lemma Behind<A>(s: Engine<A>, e: Entry<A>, line: seq<Entry<A>>)
    requires Chronological([e] + line)
    requires forall f | f in [e] + line :: Agrees(s, f)
    ensures Chronological(line)
    ensures forall f | f in line :: f != e && f.token != e.token && f.cb != e.cb && Earlier(s, e.token, f.token)
  {
    var all := [e] + line;
    assert all[0] == e && e in all && Agrees(s, e);
    forall i, j | 0 <= i < j < |line| ensures Before(line[i], line[j]) {
      assert line[i] == all[i + 1] && line[j] == all[j + 1];
    }
    forall f | f in line
      ensures f != e && f.token != e.token && f.cb != e.cb && Earlier(s, e.token, f.token)
    {
      var i :| 0 <= i < |line| && line[i] == f;
      assert all[i + 1] == f && Before(all[0], all[i + 1]);
      assert f in all && Agrees(s, f);
    }
  }

  /** The first entry of the batch goes off. */
  lemma RingKeeps<A>(s: Engine<A>, batch: seq<Entry<A>>)
    requires Structure(s, batch) && Conserved(s, batch) && Punctual(s, batch)
    requires batch != []
    ensures batch[0].cb in s.alarms
    ensures var r := Ring(s, batch[0]);
            Structure(r, batch[1..]) && Conserved(r, batch[1..]) && Punctual(r, batch[1..])
  {
    var e, line := batch[0], batch[1..] + s.queue;
    assert batch + s.queue == [e] + line;
    assert e in [e] + line && Agrees(s, e);
    Behind(s, e, line);
    var r := Ring(s, e);
    assert Structure(r, batch[1..]) by {
      forall f | f in line ensures Agrees(r, f) {
        assert Agrees(s, f);
      }
      forall x | x in r.alarms ensures TokenValid(r, x) {
        assert TokenValid(s, x);
      }
    }
    RingConserves(s, e, line, batch);
    RingPunctual(s, e, line, batch);
  }

  lemma RingConserves<A>(s: Engine<A>, e: Entry<A>, line: seq<Entry<A>>, batch: seq<Entry<A>>)
    requires Conserved(s, batch) && batch != [] && e == batch[0] && line == batch[1..] + s.queue
    requires Agrees(s, e)
    ensures Conserved(Ring(s, e), batch[1..])
  {
  }

  lemma RingPunctual<A>(s: Engine<A>, e: Entry<A>, line: seq<Entry<A>>, batch: seq<Entry<A>>)
    requires Punctual(s, batch) && batch != [] && e == batch[0] && line == batch[1..] + s.queue
    requires Agrees(s, e) && e.key <= NowUs(s)
    requires forall f | f in line :: Agrees(s, f) && Earlier(s, e.token, f.token)
    ensures Punctual(Ring(s, e), batch[1..])
  {
    var r := Ring(s, e);
    assert batch + s.queue == [e] + line;
    forall i, f | 0 <= i < |r.fired| && f in line
      ensures Earlier(r, r.fired[i], f.token)
    {
      assert Agrees(s, f);
      if i < |s.fired| {
        assert f in batch + s.queue;
        assert Earlier(s, s.fired[i], f.token);
      } else {
        assert Earlier(s, e.token, f.token);
      }
    }
    forall i, j | 0 <= i < j < |r.fired| ensures Earlier(r, r.fired[i], r.fired[j]) {
      if j < |s.fired| {
        assert Earlier(s, s.fired[i], s.fired[j]);
      } else {
        assert e in batch + s.queue;
        assert Earlier(s, s.fired[i], e.token);
      }
    }
    assert forall i | 0 <= i < |s.fired| :: r.fired[i] == s.fired[i];
    assert r.fired[|s.fired|] == e.token;
    forall t | t in r.fates && r.fates[t].Fired?
      ensures t < |r.births| && r.fates[t].at == Due(r.births[t]) && t in r.fired
    {
      assert t == e.token || t in s.fired;
    }
    forall i | 0 <= i < |r.fired|
      ensures && r.fired[i] < |r.births|
              && r.fired[i] in r.fates && r.fates[r.fired[i]].Fired?
              && Due(r.births[r.fired[i]]) <= NowUs(r)
    {
      if i < |s.fired| {
        assert s.fired[i] in s.fates;
      }
    }
  }

  /** Changing an alarm that is not registered, and stays so, touches nothing else. */
  lemma StoreKeeps<A>(s: Engine<A>, batch: seq<Entry<A>>, a: A, x: Alarm)
    requires Structure(s, batch) && Conserved(s, batch) && Punctual(s, batch)
    requires a in s.alarms && !s.alarms[a].registered && !x.registered
    ensures var r := WithAlarm(s, a, x);
            Structure(r, batch) && Conserved(r, batch) && Punctual(r, batch)
  {
    var r := WithAlarm(s, a, x);
    SameLine(s, r, batch);
    SameHistory(s, batch, r, batch);
  }

  /** Agreement only concerns the alarms of live registrations and the deadlines ahead. */
  lemma SameLine<A>(s: Engine<A>, r: Engine<A>, batch: seq<Entry<A>>)
    requires Structure(s, batch)
    requires r.births == s.births && r.fates == s.fates && r.queue == s.queue && r.members == s.members
    requires forall a | a in s.alarms && s.alarms[a].registered :: a in r.alarms && r.alarms[a] == s.alarms[a]
    requires forall a | a in r.alarms && r.alarms[a].registered :: a in s.alarms && s.alarms[a].registered
    requires forall e | e in batch + r.queue :: NowUs(r) <= e.key
    requires s.now <= r.now
    ensures Structure(r, batch)
  {
  }

  /** The history predicates only look at the waiting line as a whole. */
  lemma SameHistory<A>(s: Engine<A>, batch: seq<Entry<A>>, r: Engine<A>, batch': seq<Entry<A>>)
    requires Conserved(s, batch) && Punctual(s, batch)
    requires r.births == s.births && r.fates == s.fates && r.fired == s.fired
    requires batch' + r.queue == batch + s.queue
    requires s.now <= r.now
    ensures Conserved(r, batch') && Punctual(r, batch')
  {
    assert |batch'| + |r.queue| == |batch' + r.queue| == |batch + s.queue|;
    forall t: nat | t < |r.births| && t !in r.fates ensures HasToken(batch' + r.queue, t) {
      assert HasToken(batch + s.queue, t);
    }
    forall i, f | 0 <= i < |r.fired| && f in batch' + r.queue ensures Earlier(r, r.fired[i], f.token) {
      assert Earlier(s, s.fired[i], f.token);
    }
    forall i, j | 0 <= i < j < |r.fired| ensures Earlier(r, r.fired[i], r.fired[j]) {
      assert Earlier(s, s.fired[i], s.fired[j]);
    }
  }

  /** UpdateTimer's assertion holds under the invariant, and it aims at the first deadline even
      though the simulator clock is finer than the microsecond clock. */
  lemma UpdateTimerKeeps<A>(s: Engine<A>, batch: seq<Entry<A>>)
    requires Structure(s, batch) && Conserved(s, batch) && Punctual(s, batch)
    ensures var r := UpdateTimer(s);
            && r.Ok? && Inv(r.state, batch, true)
            && r.state == s.(timer := r.state.timer)
            && (s.queue == [] <==> r.state.timer.None?)
            && (s.queue != [] ==>
                  && r.state.timer.value == s.now + (s.queue[0].key - s.now / 1000) * 1000
                  && Micros(r.state.timer.value) == s.queue[0].key)
  {
    if s.queue != [] {
      var e := s.queue[0];
      assert e in batch + s.queue;
      assert Agrees(s, e);
      var t := s.now + (e.key - NowUs(s)) * 1000;
      assert t / 1000 == e.key;
    }
    var r := UpdateTimer(s).state;
    forall f | f in batch + r.queue ensures NowUs(r) <= f.key {
      assert Agrees(s, f);
    }
    SameLine(s, r, batch);
    SameHistory(s, batch, r, batch);
  }
}
