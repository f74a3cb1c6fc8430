/** Which passes of OnTimeout complete: exactly those in which no callback touches an alarm that is
    due in the same pass and has not been called yet. */
module AlarmPasses {
  import opened AlarmQueue
  import opened AlarmModel
  import opened AlarmInvariant
  import opened AlarmCommands
  import opened AlarmRuns
  import opened AlarmLocality

  /** Cancel or destruction of a known alarm. */
  predicate Removes<A>(known: set<A>, c: Command<A>) {
    (c.Cancel? || c.Destroy?) && c.a in known
  }

  /** What a callback of alarm `own` may do: remove any known alarms, and last of all set its own
      alarm again, as the delegates of quiche that re-arm themselves do. */
  ghost predicate Modest<A>(known: set<A>, own: A, cs: seq<Command<A>>) {
    forall i | 0 <= i < |cs| ::
      Removes(known, cs[i]) || (i == |cs| - 1 && cs[i].Update? && cs[i].a == own)
  }

  ghost predicate ModestScript<A>(known: set<A>, script: Script<A>) {
    forall a | a in script :: Modest(known, a, script[a])
  }

  ghost predicate Names<A>(cs: seq<Command<A>>, a: A) {
    exists c | c in cs :: c.a == a
  }

  /** No callback of the batch names an alarm that comes later in the batch. */
  ghost predicate NamesNoneAhead<A>(batch: seq<Entry<A>>, script: Script<A>) {
    forall i, j | 0 <= i < j < |batch| :: !Names(CommandsOf(script, batch[i].cb), batch[j].cb)
  }

  // ------------------------------------------------------------ one callback

  /** During a pass the alarms that await their call are those of the rest of the batch. */
  lemma AwaitingIsBatch<A>(s: Engine<A>, batch: seq<Entry<A>>, a: A)
    requires Inv(s, batch, false) && a in s.alarms
    ensures AwaitsCall(s, a) <==> a in Callbacks(batch)
  {
    if AwaitsCall(s, a) {
      var e := EntryOf(s, batch, a);
      Split(batch, s.queue);
    }
    if a in Callbacks(batch) {
      var e :| e in batch && e.cb == a;
      assert e in batch + s.queue && Agrees(s, e);
      forall f | f in s.queue ensures f.cb != a {
        Apart(batch, s.queue, f);
        assert f in batch + s.queue;
        UniqueTokens(s, batch, e);
      }
    }
  }

  lemma RemovalIff<A>(s: Engine<A>, batch: seq<Entry<A>>, c: Command<A>, own: A)
    requires Inv(s, batch, false) && Removes(s.alarms.Keys, c)
    requires own in s.alarms && !s.alarms[own].registered
    ensures var r := Exec(s, c);
            && (r.Ok? <==> c.a !in Callbacks(batch))
            && (r.Crash? ==> r.fault == DeadToken)
            && (r.Ok? ==>
                  && Inv(r.state, batch, false) && Silent(s, r.state)
                  && own in r.state.alarms && !r.state.alarms[own].registered)
  {
    AwaitingIsBatch(s, batch, c.a);
    ExecSafeIff(s, batch, false, c);
    CancelKeeps(s, batch, false, c.a);
    UnregisterKeeps(s, batch, false, c.a);
    if Exec(s, c).Ok? && c.a != own {
      ExecUntouched(s, batch, false, c, own);
    }
  }

  lemma {:induction false} CallbackIff<A>(s: Engine<A>, batch: seq<Entry<A>>, cs: seq<Command<A>>, own: A)
    requires Inv(s, batch, false) && Modest(s.alarms.Keys, own, cs)
    requires own in s.alarms && !s.alarms[own].registered && own !in Callbacks(batch)
    ensures var r := ExecAll(s, cs);
            && (r.Ok? <==> forall e | e in batch :: !Names(cs, e.cb))
            && (r.Crash? ==> r.fault == DeadToken)
    decreases |cs|
  {
    if cs != [] {
      var c, rest := cs[0], cs[1..];
      NamesSplit(cs, batch);
      if Removes(s.alarms.Keys, c) {
        RemovalIff(s, batch, c, own);
        hide Inv, Exec;
        if Exec(s, c).Ok? {
          var m := Exec(s, c).state;
          ModestRest(s.alarms.Keys, m.alarms.Keys, own, cs);
          CallbackIff(m, batch, rest, own);
        }
      } else {
        assert rest == [];
        ExecSafeIff(s, batch, false, c);
      }
    }
  }

  lemma ModestRest<A>(known: set<A>, more: set<A>, own: A, cs: seq<Command<A>>)
    requires Modest(known, own, cs) && cs != [] && known <= more
    ensures Modest(more, own, cs[1..])
  {
    forall i | 0 <= i < |cs[1..]|
      ensures Removes(more, cs[1..][i]) || (i == |cs[1..]| - 1 && cs[1..][i].Update? && cs[1..][i].a == own)
    {
      assert cs[1..][i] == cs[i + 1];
      assert Removes(known, cs[i + 1]) || i + 1 == |cs| - 1;
    }
  }

  lemma NamesSplit<A>(cs: seq<Command<A>>, batch: seq<Entry<A>>)
    requires cs != []
    ensures (forall e | e in batch :: !Names(cs, e.cb)) <==>
              cs[0].a !in Callbacks(batch) && forall e | e in batch :: !Names(cs[1..], e.cb)
  {
    assert cs == [cs[0]] + cs[1..];
    forall a ensures Names(cs, a) <==> cs[0].a == a || Names(cs[1..], a) {
      assert cs[0] in cs;
    }
  }

  // ------------------------------------------------------------ the pass

  lemma HeadIsCalled<A>(s: Engine<A>, batch: seq<Entry<A>>)
    requires Inv(s, batch, false) && batch != []
    ensures batch[0].cb in s.alarms
    ensures var r := Ring(s, batch[0]);
            && Inv(r, batch[1..], false) && r.alarms.Keys == s.alarms.Keys
            && !r.alarms[batch[0].cb].registered && batch[0].cb !in Callbacks(batch[1..])
    ensures forall cs :: OnAlarm(s, batch[0], cs) == ExecAll(Ring(s, batch[0]), cs)
  {
    var e := batch[0];
    HeadAgrees(s, batch);
    RingInv(s, batch);
    forall cs ensures OnAlarm(s, e, cs) == ExecAll(Ring(s, e), cs) {
      OnAlarmIs(s, e, cs);
    }
    forall f | f in batch[1..] ensures f.cb != e.cb {
      var i :| 0 <= i < |batch[1..]| && batch[1..][i] == f;
      assert (batch + s.queue)[0] == e && (batch + s.queue)[i + 1] == f;
      assert Before(e, f) && f in batch + s.queue;
      UniqueTokens(s, batch, e);
    }
  }

  lemma ModestScriptGrows<A>(known: set<A>, more: set<A>, script: Script<A>)
    requires ModestScript(known, script) && known <= more
    ensures ModestScript(more, script)
  {
    forall a | a in script ensures Modest(more, a, script[a]) {
      assert Modest(known, a, script[a]);
      forall i | 0 <= i < |script[a]|
        ensures Removes(more, script[a][i])
             || (i == |script[a]| - 1 && script[a][i].Update? && script[a][i].a == a)
      {
        assert Removes(known, script[a][i]) || i == |script[a]| - 1;
      }
    }
  }

  lemma ModestCommands<A>(known: set<A>, script: Script<A>, a: A)
    requires ModestScript(known, script)
    ensures Modest(known, a, CommandsOf(script, a))
  {
  }

  lemma NamesNoneSplit<A>(batch: seq<Entry<A>>, script: Script<A>)
    requires batch != []
    ensures NamesNoneAhead(batch, script) <==>
              && (forall e | e in batch[1..] :: !Names(CommandsOf(script, batch[0].cb), e.cb))
              && NamesNoneAhead(batch[1..], script)
  {
    hide Names, CommandsOf;
    var rest := batch[1..];
    if NamesNoneAhead(batch, script) {
      forall e | e in rest ensures !Names(CommandsOf(script, batch[0].cb), e.cb) {
        var j :| 0 <= j < |rest| && rest[j] == e;
        assert batch[j + 1] == e;
      }
      forall i, j | 0 <= i < j < |rest| ensures !Names(CommandsOf(script, rest[i].cb), rest[j].cb) {
        assert rest[i] == batch[i + 1] && rest[j] == batch[j + 1];
      }
    }
    if NamesNoneAhead(rest, script)
       && forall e | e in rest :: !Names(CommandsOf(script, batch[0].cb), e.cb)
    {
      forall i, j | 0 <= i < j < |batch| ensures !Names(CommandsOf(script, batch[i].cb), batch[j].cb) {
        assert batch[j] == rest[j - 1] && rest[j - 1] in rest;
        if i > 0 {
          assert batch[i] == rest[i - 1];
        }
      }
    }
  }

  lemma {:induction false} CallAllIff<A>(s: Engine<A>, batch: seq<Entry<A>>, script: Script<A>)
    requires Inv(s, batch, false) && ModestScript(s.alarms.Keys, script)
    ensures var r := CallAll(s, batch, script);
            (r.Ok? <==> NamesNoneAhead(batch, script)) && (r.Crash? ==> r.fault == DeadToken)
    decreases |batch|
  {
    hide Inv, OnAlarm, Ring, ExecAll, ModestScript, Modest, Names, Extends;
    if batch == [] {
      assert NamesNoneAhead(batch, script);
    } else {
      var e := batch[0];
      var cs := CommandsOf(script, e.cb);
      HeadIsCalled(s, batch);
      ModestCommands(s.alarms.Keys, script, e.cb);
      CallbackIff(Ring(s, e), batch[1..], cs, e.cb);
      NamesNoneSplit(batch, script);
      hide NamesNoneAhead, CommandsOf;
      OnAlarmKeeps(s, batch, cs);
      var m := OnAlarm(s, e, cs);
      if m.Ok? {
        KeysExtend(s, m.state);
        ModestScriptGrows(s.alarms.Keys, m.state.alarms.Keys, script);
        CallAllIff(m.state, batch[1..], script);
      }
    }
  }

  lemma KeysExtend<A>(s: Engine<A>, r: Engine<A>)
    requires Extends(s, r)
    ensures s.alarms.Keys <= r.alarms.Keys
  {
  }

  /** A timer event whose callbacks remove known alarms, and may re-arm their own, completes if and
      only if none of them names an alarm that is due in the same pass and comes later; alarms
      already called, and alarms not due, may be removed freely. Otherwise an erased token is used. */
  lemma PassCompletesIff<A>(s: Engine<A>, script: Script<A>)
    requires Inv(s, [], true) && s.timer.Some? && ModestScript(s.alarms.Keys, script)
    ensures var r := Apply(s, Expire(script));
            && (r.Ok? <==> NamesNoneAhead(DueEntries(s), script))
            && (r.Crash? ==> r.fault == DeadToken)
            && (r.Ok? ==> Inv(r.state, [], true) && r.state.fired == s.fired + Tokens(DueEntries(s)))
  {
    ExpireFiresExactlyDue(s, script);
    hide Inv, Apply, CallAll, Detach, DueEntries, NamesNoneAhead, ModestScript, Extends, UpdateTimer;
    StartPass(s);
    PassIs(s, script);
    var d := Detach(AtTimer(s));
    CallAllIff(d, DueEntries(s), script);
    CallAllKeeps(d, DueEntries(s), script);
    if CallAll(d, DueEntries(s), script).Ok? {
      FinishPass(CallAll(d, DueEntries(s), script).state);
    }
  }

  /** In particular one alarm that does no more than re-arm itself never disturbs a pass. */
  lemma RearmingAloneCompletes<A>(s: Engine<A>, c: A, deadline: int, granularity: nat)
    requires Inv(s, [], true) && s.timer.Some?
    ensures Apply(s, Expire(map[c := [Update(c, deadline, granularity)]])).Ok?
  {
    var script := map[c := [Update(c, deadline, granularity)]];
    assert ModestScript(s.alarms.Keys, script);
    PassCompletesIff(s, script);
    DueOnce(s);
    var due := DueEntries(s);
    forall i, j | 0 <= i < j < |due| ensures !Names(CommandsOf(script, due[i].cb), due[j].cb) {
      assert due[i].cb != due[j].cb;
    }
  }

  lemma DueOnce<A>(s: Engine<A>)
    requires Inv(s, [], true) && s.timer.Some?
    ensures forall i, j | 0 <= i < j < |DueEntries(s)| :: DueEntries(s)[i].cb != DueEntries(s)[j].cb
  {
    var due := DueEntries(s);
    assert [] + s.queue == s.queue;
    forall i, j | 0 <= i < j < |due| ensures due[i].cb != due[j].cb {
      assert due[i] == s.queue[i] && due[j] == s.queue[j];
      assert Before(s.queue[i], s.queue[j]) && s.queue[i] in [] + s.queue;
      UniqueTokens(s, [], s.queue[i]);
    }
  }
}
