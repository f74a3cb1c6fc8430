/** The alarm engine and its alarms as objects: each method is proved to take the state to what the
    state machine of AlarmModel says, with the assertions of the code as assertions here. */
module AlarmEngine {
  import opened AlarmQueue
  import opened Wrappers
  import M = AlarmModel
  import opened AlarmInvariant
  import opened AlarmCommands
  import opened AlarmRuns

  /** ns3::Simulator: the clock, in nanoseconds. */
  class Simulator {
    var now: nat

    constructor ()
      ensures now == 0
    {
      now := 0;
    }
  }

  /** Ns3Alarm with the Ns3AlarmImpl (a BaseAlarm) inside it. */
  class Ns3Alarm {
    const home: Ns3QuicAlarmEngine  // Ns3Alarm::engine_
    var deadline: int               // QuicAlarm::deadline_, 0 when not initialised
    var engine: Ns3QuicAlarmEngine? // BaseAlarm::engine_
    var registered: bool
    var token: nat

    ghost function View(): M.Alarm
      reads this
    {
      M.Alarm(deadline, registered, engine != null, token)
    }

    constructor (home: Ns3QuicAlarmEngine)
      requires home.Valid()
      modifies home`views
      ensures home.Valid() && home.views.Keys == old(home.views.Keys) + {this}
      ensures M.Apply(old(home.State()), M.Create(this)) == M.Ok(home.State())
    {
      this.home := home;
      deadline, engine, registered, token := 0, null, false, 0;
      new;
      home.views := home.views[this := View()];
    }

    method OnRegistration(token: nat, engine: Ns3QuicAlarmEngine)
      requires !registered
      modifies this
      ensures View() == old(View()).(registered := true, attached := true, token := token)
      ensures this.engine == engine
    {
      this.token := token;
      this.engine := engine;
      registered := true;
    }

    method OnUnregistration()
      modifies this`registered
      ensures !registered
    {
      registered := false;
    }

    method OnShutdown()
      modifies this`registered, this`engine
      ensures !registered && engine == null
    {
      registered := false;
      engine := null;
    }

    /** Ns3AlarmImpl::OnAlarm; `commands` is what the delegate does to the engine's alarms. */
    method OnAlarm(commands: seq<M.Command<Ns3Alarm>>, ghost batch: seq<Entry<Ns3Alarm>>)
      requires home.Valid() && Inv(home.State(), batch, false)
      requires batch != [] && batch[0].cb == this && this in home.views
      requires M.OnAlarm(home.State(), batch[0], commands).Ok?
      modifies home, home.views.Keys
      ensures home.Valid() && home.views.Keys == old(home.views.Keys)
      ensures M.OnAlarm(old(home.State()), batch[0], commands) == M.Ok(home.State())
    {
      RingInv(home.State(), batch);
      hide Inv, M.ExecAll;
      BaseOnAlarm(batch[0]);
      Fire(commands, batch[1..]);
    }

    method BaseOnAlarm(ghost e: Entry<Ns3Alarm>)
      requires home.Valid() && this in home.views && e.cb == this
      modifies home`views, home`fates, home`fired, this`registered
      ensures home.Valid() && home.views.Keys == old(home.views.Keys)
      ensures home.State() == M.Mark(old(home.State()), e)
    {
      registered := false;
      home.views := home.views[this := View()];
      home.fates := home.fates[e.token := M.Fired(M.Micros(home.sim.now))];
      home.fired := home.fired + [e.token];
    }

    method Fire(commands: seq<M.Command<Ns3Alarm>>, ghost batch: seq<Entry<Ns3Alarm>>)
      requires home.Valid() && this in home.views
      requires Inv(M.WithAlarm(home.State(), this, home.State().alarms[this].(deadline := 0)), batch, false)
      requires M.Fire(home.State(), this, commands).Ok?
      modifies home, home.views.Keys
      ensures home.Valid() && home.views.Keys == old(home.views.Keys)
      ensures M.Fire(old(home.State()), this, commands) == M.Ok(home.State())
    {
      hide Inv, M.ExecAll;
      if deadline == 0 {
        return;
      }
      StoreDeadline(0);
      home.ExecuteAll(commands, batch, false);
    }

    method UnregisterIfRegistered()
      requires home.Valid() && this in home.views
      requires M.UnregisterIfRegistered(home.State(), this).Ok?
      modifies home, home.views.Keys
      ensures home.Valid() && home.views.Keys == old(home.views.Keys)
      ensures M.UnregisterIfRegistered(old(home.State()), this) == M.Ok(home.State())
    {
      if !registered {
        return;
      }
      engine.UnregisterAlarm(token);
    }

    method ReregisterAlarm(timeoutUs: int)
      requires home.Valid() && this in home.views && registered && engine != null && this in home.allAlarms
      requires M.ReregisterAlarm(home.State(), token, timeoutUs).Ok?
      requires Lookup(home.alarmMap, token).value.cb == this
      modifies home, home.views.Keys
      ensures home.Valid() && home.views.Keys == old(home.views.Keys)
      ensures M.ReregisterAlarm(old(home.State()), old(token), timeoutUs) == M.Ok(home.State())
    {
      token := engine.ReregisterAlarm(token, timeoutUs);
      home.views := home.views[this := View()];
    }

    // ---------------------------------------------------- quic::QuicAlarm over the three hooks

    method StoreDeadline(newDeadline: int)
      requires home.Valid() && this in home.views
      modifies this`deadline, home`views
      ensures home.Valid() && home.views.Keys == old(home.views.Keys)
      ensures home.State() == var s := old(home.State()); M.WithAlarm(s, this, s.alarms[this].(deadline := newDeadline))
      ensures deadline == newDeadline
    {
      deadline := newDeadline;
      home.views := home.views[this := View()];
    }

    method SetImpl()
      requires home.Valid() && this in home.views && deadline != 0
      requires M.RegisterAlarm(home.State(), deadline, this).Ok?
      modifies home, this
      ensures home.Valid() && home.views.Keys == old(home.views.Keys)
      ensures M.RegisterAlarm(old(home.State()), old(deadline), this) == M.Ok(home.State())
    {
      home.RegisterAlarm(deadline, this);
    }

    method CancelImpl()
      requires home.Valid() && this in home.views && deadline == 0
      requires M.UnregisterIfRegistered(home.State(), this).Ok?
      modifies home, home.views.Keys
      ensures home.Valid() && home.views.Keys == old(home.views.Keys)
      ensures M.UnregisterIfRegistered(old(home.State()), this) == M.Ok(home.State())
    {
      UnregisterIfRegistered();
    }

    method Set(newDeadline: int, ghost batch: seq<Entry<Ns3Alarm>>, ghost idle: bool)
      requires home.Valid() && this in home.views && Inv(home.State(), batch, idle)
      requires Safe(home.State(), M.Set(this, newDeadline))
      modifies home, this
      ensures home.Valid() && home.views.Keys == old(home.views.Keys)
      ensures M.ExecSet(old(home.State()), this, newDeadline) == M.Ok(home.State())
    {
      ExecSafeIff(home.State(), batch, idle, M.Set(this, newDeadline));
      hide Inv, Safe, M.RegisterAlarm;
      StoreDeadline(newDeadline);
      SetImpl();
    }

    method Cancel(ghost batch: seq<Entry<Ns3Alarm>>, ghost idle: bool)
      requires home.Valid() && this in home.views && Inv(home.State(), batch, idle)
      requires Safe(home.State(), M.Cancel(this))
      modifies home, home.views.Keys
      ensures home.Valid() && home.views.Keys == old(home.views.Keys)
      ensures M.ExecCancel(old(home.State()), this) == M.Ok(home.State())
    {
      ExecSafeIff(home.State(), batch, idle, M.Cancel(this));
      hide Inv, Safe, M.UnregisterIfRegistered;
      if deadline == 0 {
        return;
      }
      StoreDeadline(0);
      CancelImpl();
    }

    method Update(newDeadline: int, granularity: nat, ghost batch: seq<Entry<Ns3Alarm>>, ghost idle: bool)
      requires home.Valid() && this in home.views && Inv(home.State(), batch, idle)
      requires Safe(home.State(), M.Update(this, newDeadline, granularity))
      modifies home, home.views.Keys
      ensures home.Valid() && home.views.Keys == old(home.views.Keys)
      ensures M.ExecUpdate(old(home.State()), this, newDeadline, granularity) == M.Ok(home.State())
    {
      if newDeadline == 0 {
        Cancel(batch, idle);
        return;
      }
      var distance := if newDeadline < deadline then deadline - newDeadline else newDeadline - deadline;
      if distance < granularity {
        return;
      }
      UpdateReady(home.State(), batch, idle, this, newDeadline, granularity);
      hide Inv, Safe, Lookup, M.ReregisterAlarm, M.RegisterAlarm;
      var wasSet := deadline != 0;
      StoreDeadline(newDeadline);
      if wasSet {
        UpdateImpl();
      } else {
        SetImpl();
      }
    }

    method UpdateImpl()
      requires home.Valid() && this in home.views && deadline != 0
      requires registered ==>
                 && engine != null && this in home.allAlarms
                 && M.ReregisterAlarm(home.State(), token, deadline).Ok?
                 && Lookup(home.alarmMap, token).value.cb == this
      requires !registered ==> M.RegisterAlarm(home.State(), deadline, this).Ok?
      modifies home, home.views.Keys
      ensures home.Valid() && home.views.Keys == old(home.views.Keys)
      ensures (if old(registered) then M.ReregisterAlarm(old(home.State()), old(token), old(deadline))
               else M.RegisterAlarm(old(home.State()), old(deadline), this)) == M.Ok(home.State())
    {
      if registered {
        ReregisterAlarm(deadline);
      } else {
        home.RegisterAlarm(deadline, this);
      }
    }
  }

  class Ns3QuicAlarmEngine {
    const sim: Simulator
    var alarmMap: seq<Entry<Ns3Alarm>>
    var allAlarms: set<Ns3Alarm>
    var timer: Option<nat>
    var nextToken: nat
    ghost var views: map<Ns3Alarm, M.Alarm>  // the alarms of this engine and their fields
    ghost var births: seq<M.Birth<Ns3Alarm>>
    ghost var fates: map<nat, M.Fate>
    ghost var fired: seq<nat>

    ghost predicate Valid()
      reads this, views.Keys
    {
      && nextToken == |births|
      && (forall a | a in views ::
            a.home == this && (a.engine == null || a.engine == this) && a.View() == views[a])
    }

    ghost function State(): M.Engine<Ns3Alarm>
      reads this, sim
    {
      M.Engine(sim.now, alarmMap, allAlarms, timer, views, births, fates, fired)
    }

    constructor (sim: Simulator)
      ensures Valid() && this.sim == sim && views == map[]
      ensures State() == M.Engine(sim.now, [], {}, None, map[], [], map[], [])
    {
      this.sim := sim;
      alarmMap, allAlarms, timer, nextToken := [], {}, None, 0;
      views, births, fates, fired := map[], [], map[], [];
    }

    method UpdateTimer()
      requires Valid() && M.UpdateTimer(State()).Ok?
      modifies this`timer
      ensures Valid() && M.UpdateTimer(old(State())) == M.Ok(State())
    {
      if timer.Some? {
        timer := None;
      }
      if alarmMap == [] {
        return;
      }
      var nowUs := M.Micros(sim.now);
      var futureUs := alarmMap[0].key;
      assert futureUs >= nowUs;
      timer := Some(sim.now + (futureUs - nowUs) * 1000);
    }

    method RegisterAlarm(timeoutUs: int, ac: Ns3Alarm)
      requires Valid() && ac in views
      requires M.RegisterAlarm(State(), timeoutUs, ac).Ok?
      modifies this, ac
      ensures Valid() && views.Keys == old(views.Keys)
      ensures M.RegisterAlarm(old(State()), timeoutUs, ac) == M.Ok(State())
    {
      hide M.Enqueue, M.UpdateTimer, M.Micros;
      var update := false;
      var nowUs := M.Micros(sim.now);
      var key := timeoutUs;
      if key < nowUs {
        key := nowUs;
      }
      if alarmMap == [] {
        update := true;
      } else if key < alarmMap[0].key {
        update := true;
      }
      if ac !in allAlarms {
        Admit(key, timeoutUs, ac);
      }
      if timer.None? || update {
        UpdateTimer();
      }
    }

    /** The insertion of RegisterAlarm, with the alarm's OnRegistration. */
    method Admit(key: int, ghost requested: int, ac: Ns3Alarm)
      requires Valid() && ac in views && !ac.registered
      modifies this, ac
      ensures Valid() && views.Keys == old(views.Keys)
      ensures State() == M.Enqueue(old(State()), ac, requested, key)
    {
      hide Insert, M.Micros;
      alarmMap := Insert(alarmMap, Entry(key, nextToken, ac));
      allAlarms := allAlarms + {ac};
      births := births + [M.Birth(ac, requested, M.Micros(sim.now))];
      ac.OnRegistration(nextToken, this);
      views := views[ac := ac.View()];
      nextToken := nextToken + 1;
    }

    method UnregisterAlarm(token: nat)
      requires Valid() && M.UnregisterAlarm(State(), token).Ok?
      modifies this, views.Keys
      ensures Valid() && views.Keys == old(views.Keys)
      ensures M.UnregisterAlarm(old(State()), token) == M.Ok(State())
    {
      ghost var before := State();
      var e := Lookup(alarmMap, token).value;
      alarmMap := Erase(alarmMap, token);
      allAlarms := allAlarms - {e.cb};
      fates := fates[token := M.Unregistered];
      e.cb.OnUnregistration();
      views := views[e.cb := e.cb.View()];
    }

    /** Returns the new token; storing it in the alarm is BaseAlarm's part. */
    method ReregisterAlarm(token: nat, timeoutUs: int) returns (newToken: nat)
      requires Valid() && M.ReregisterAlarm(State(), token, timeoutUs).Ok?
      requires var cb := Lookup(alarmMap, token).value.cb;
               cb in allAlarms && cb.registered && cb.engine != null
      modifies this
      ensures Valid() && views.Keys == old(views.Keys) && newToken == |old(births)|
      ensures var r := M.ReregisterAlarm(old(State()), token, timeoutUs).state;
              State() == r.(alarms := old(State()).alarms) && newToken == |old(births)|
    {
      hide Insert, Erase;
      ghost var before := State();
      var e := Lookup(alarmMap, token).value;
      alarmMap := Erase(alarmMap, token);
      assert alarmMap != [];
      var nextTimeoutUs := alarmMap[0].key;
      newToken := nextToken;
      alarmMap := Insert(alarmMap, Entry(timeoutUs, newToken, e.cb));
      nextToken := nextToken + 1;
      fates := fates[token := M.Replaced];
      births := births + [M.Birth(e.cb, timeoutUs, M.Micros(sim.now))];
      assert allAlarms == allAlarms - {e.cb} + {e.cb};
      ghost var m := M.Enqueue(M.Retire(before, e, M.Replaced), e.cb, timeoutUs, timeoutUs);
      assert State().queue == m.queue && State().births == m.births;
      if timer.None? || timeoutUs < nextTimeoutUs {
        UpdateTimer();
      }
      assert timer.Some?;
    }

    method Shutdown()
      requires Valid() && M.Shutdown(State()).Ok?
      modifies this, views.Keys
      ensures Valid() && views.Keys == old(views.Keys)
      ensures M.Shutdown(old(State())) == M.Ok(State())
    {
      hide M.Shutdown;
      while alarmMap != []
        invariant Valid() && views.Keys == old(views.Keys)
        invariant M.Shutdown(State()) == M.Shutdown(old(State()))
        decreases |alarmMap|
      {
        ghost var before := State();
        M.ShutdownStep(before);
        var e := alarmMap[0];
        alarmMap := alarmMap[1..];
        allAlarms := allAlarms - {e.cb};
        fates := fates[e.token := M.ShutDown];
        e.cb.OnShutdown();
        views := views[e.cb := e.cb.View()];
        assert State() == M.Leave(before, e);
      }
      M.ShutdownStep(State());
    }

    // ---------------------------------------------------- a pass of the timer

    /** What a client, or a callback, does to one alarm. */
    method Execute(c: M.Command<Ns3Alarm>, ghost batch: seq<Entry<Ns3Alarm>>, ghost idle: bool)
      requires Valid() && Inv(State(), batch, idle) && Safe(State(), c)
      modifies this, views.Keys
      ensures Valid() && views.Keys == old(views.Keys)
      ensures M.Exec(old(State()), c) == M.Ok(State())
    {
      ExecSafeIff(State(), batch, idle, c);
      match c
      case Set(a, d) => a.Set(d, batch, idle);
      case Cancel(a) => a.Cancel(batch, idle);
      case Update(a, d, g) => a.Update(d, g, batch, idle);
      case Destroy(a) => a.UnregisterIfRegistered();
    }

    method ExecuteAll(cs: seq<M.Command<Ns3Alarm>>, ghost batch: seq<Entry<Ns3Alarm>>, ghost idle: bool)
      requires Valid() && Inv(State(), batch, idle) && M.ExecAll(State(), cs).Ok?
      modifies this, views.Keys
      ensures Valid() && views.Keys == old(views.Keys)
      ensures M.ExecAll(old(State()), cs) == M.Ok(State())
    {
      var i := 0;
      while i < |cs|
        invariant i <= |cs|
        invariant Valid() && views.Keys == old(views.Keys) && Inv(State(), batch, idle)
        invariant M.ExecAll(State(), cs[i..]) == M.ExecAll(old(State()), cs)
      {
        ghost var before := State();
        ExecSafeIff(before, batch, idle, cs[i]);
        Execute(cs[i], batch, idle);
        assert cs[i..][1..] == cs[i + 1..];
        i := i + 1;
      }
    }

    method OnTimeout(script: M.Script<Ns3Alarm>)
      requires Valid()
      requires Inv(M.Detach(State()), State().queue[..DueCount(State().queue, M.NowUs(State()))], false)
      requires M.OnTimeout(State(), script).Ok?
      modifies this, views.Keys
      ensures Valid() && views.Keys == old(views.Keys)
      ensures M.OnTimeout(old(State()), script) == M.Ok(State())
    {
      ghost var before := State();
      hide Inv, M.CallAll, M.OnAlarm, M.Detach;
      var cbs, batch := DetachDue();
      var i := 0;
      while i < |cbs|
        invariant i <= |cbs| == |batch| && forall k | 0 <= k < |cbs| :: cbs[k] == batch[k].cb
        invariant Valid() && views.Keys == old(views.Keys) && Inv(State(), batch[i..], false)
        invariant M.CallAll(State(), batch[i..], script) == M.CallAll(M.Detach(before), batch, script)
      {
        ghost var rest := batch[i..];
        var commands := M.CommandsOf(script, cbs[i]);
        assert rest[0] == batch[i] && rest[1..] == batch[i + 1..];
        M.CallAllStep(State(), rest, script);
        OnAlarmKeeps(State(), rest, commands);
        cbs[i].OnAlarm(commands, rest);
        i := i + 1;
      }
      assert batch[i..] == [];
      M.CallAllStep(State(), [], script);
      FinishPass(State());
      UpdateTimer();
    }

    /** The first loop of OnTimeout. */
    method DetachDue() returns (cbs: seq<Ns3Alarm>, ghost batch: seq<Entry<Ns3Alarm>>)
      requires Valid()
      modifies this`alarmMap, this`allAlarms
      ensures Valid() && State() == M.Detach(old(State()))
      ensures batch == old(alarmMap)[..DueCount(old(alarmMap), M.NowUs(old(State())))]
      ensures |cbs| == |batch| && forall k | 0 <= k < |cbs| :: cbs[k] == batch[k].cb
    {
      var nowUs := M.Micros(sim.now);
      cbs := [];
      ghost var q, members, k := alarmMap, allAlarms, 0;
      assert Callbacks(q[..0]) == {};
      hide Callbacks, DueCount;
      while alarmMap != [] && alarmMap[0].key <= nowUs
        invariant 0 <= k <= |q| && alarmMap == q[k..]
        invariant forall j | 0 <= j < k :: q[j].key <= nowUs
        invariant allAlarms == members - Callbacks(q[..k])
        invariant |cbs| == k && forall j | 0 <= j < k :: cbs[j] == q[j].cb
        decreases |alarmMap|
      {
        TakeOneMore(q, k);
        var cb := alarmMap[0].cb;
        alarmMap := alarmMap[1..];
        allAlarms := allAlarms - {cb};
        cbs := cbs + [cb];
        k := k + 1;
      }
      assert k < |q| ==> q[k] == alarmMap[0];
      DueIs(q, k, nowUs);
      batch := q[..k];
    }

    /** The simulator reaches the pending event and runs it. */
    method Expire(script: M.Script<Ns3Alarm>)
      requires Valid() && Inv(State(), [], true) && M.Apply(State(), M.Expire(script)).Ok?
      modifies this, sim, views.Keys
      ensures Valid() && views.Keys == old(views.Keys) && Inv(State(), [], true)
      ensures M.Apply(old(State()), M.Expire(script)) == M.Ok(State())
    {
      hide Inv, Extends, M.OnTimeout, M.Detach, DueCount;
      ghost var before := State();
      assert before.timer.Some?;
      ExpireReady(before, script);
      sim.now := timer.value;
      timer := None;
      assert State() == AtTimer(before);
      OnTimeout(script);
    }
  }
}
