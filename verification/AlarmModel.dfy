/** The alarm engine as a state machine: what each engine operation does to the multimap, the
    membership set, the single simulator timer and the alarms, as a total function whose
    `Crash` outcomes are the failed assertions and the dangling iterators of the code. */
module AlarmModel {
  import opened AlarmQueue
  import opened Arithmetic
  import opened Wrappers

  /** One alarm object: the deadline of its quic::QuicAlarm part (0: not set) and the
      registration state of its BaseAlarm part. */
  datatype Alarm = Alarm(deadline: int, registered: bool, attached: bool, token: nat)

  /** History: how a registration began, and how it ended. */
  datatype Birth<A> = Birth(cb: A, requested: int, at: int)
  datatype Fate = Fired(at: int) | Unregistered | Replaced | ShutDown

  /** `now` is the simulator clock in nanoseconds, `timer` the pending simulator event. The last
      three fields are history: token t was handed out for births[t], ended as fates[t], and
      `fired` lists the tokens of the alarms that went off, in that order. */
  datatype Engine<A(==)> = Engine(
    now: nat,
    queue: seq<Entry<A>>,
    members: set<A>,
    timer: Option<nat>,
    alarms: map<A, Alarm>,
    births: seq<Birth<A>>,
    fates: map<nat, Fate>,
    fired: seq<nat>)

  datatype Fault =
    | UnknownAlarm       // the command names no alarm of this engine
    | Disabled           // the step is not one the simulator can take now
    | AlreadySet         // Set on an alarm that is set
    | BadDeadline        // Set with an uninitialised deadline
    | AlreadyRegistered  // OnRegistration of a registered alarm
    | NotAttached        // a registered alarm without an engine
    | DeadToken          // an erased iterator is used
    | NoOtherAlarm       // ReregisterAlarm finds the map empty
    | PastDeadline       // UpdateTimer finds a deadline before now

  datatype Outcome<A> = Ok(state: Engine<A>) | Crash(fault: Fault) {
    predicate IsFailure() { Crash? }
    function PropagateFailure(): Outcome<A> requires Crash? { this }
    function Extract(): Engine<A> requires Ok? { state }
  }

  /** Simulator::Now().GetMicroSeconds(). */
  function Micros(ns: nat): nat { ns / 1000 }

  function NowUs<A>(s: Engine<A>): nat { Micros(s.now) }

  /** The time at which a registration is to go off: its deadline, or at once if that is past. */
  function Due<A>(b: Birth<A>): int { Max(b.requested, b.at) }

  function WithAlarm<A>(s: Engine<A>, a: A, x: Alarm): Engine<A> {
    s.(alarms := s.alarms[a := x])
  }

  function UpdateTimer<A>(s: Engine<A>): Outcome<A> {
    if s.queue == [] then Ok(s.(timer := None))
    else if s.queue[0].key < NowUs(s) then Crash(PastDeadline)
    else Ok(s.(timer := Some(s.now + (s.queue[0].key - NowUs(s)) * 1000)))
  }

  /** Insertion of a new registration, with the alarm's OnRegistration. */
  function Enqueue<A>(s: Engine<A>, a: A, requested: int, key: int): Engine<A>
    requires a in s.alarms
  {
    var token := |s.births|;
    s.(queue := Insert(s.queue, Entry(key, token, a)),
       members := s.members + {a},
       births := s.births + [Birth(a, requested, NowUs(s))],
       alarms := s.alarms[a := s.alarms[a].(registered := true, attached := true, token := token)])
  }

  /** Erasure of a live registration, with the alarm's OnUnregistration. */
  function Retire<A>(s: Engine<A>, e: Entry<A>, fate: Fate): Engine<A>
    requires e.cb in s.alarms
  {
    s.(queue := Erase(s.queue, e.token),
       members := s.members - {e.cb},
       fates := s.fates[e.token := fate],
       alarms := s.alarms[e.cb := s.alarms[e.cb].(registered := false)])
  }

  function RegisterAlarm<A>(s: Engine<A>, requested: int, a: A): Outcome<A>
    requires a in s.alarms
  {
    var key := Max(requested, NowUs(s));
    var update := s.queue == [] || key < s.queue[0].key;
    if a !in s.members && s.alarms[a].registered then Crash(AlreadyRegistered)
    else
      var s1 := if a !in s.members then Enqueue(s, a, requested, key) else s;
      if s1.timer.None? || update then UpdateTimer(s1) else Ok(s1)
  }

  function UnregisterAlarm<A>(s: Engine<A>, token: nat): Outcome<A> {
    match Lookup(s.queue, token)
    case None => Crash(DeadToken)
    case Some(e) => if e.cb in s.alarms then Ok(Retire(s, e, Unregistered)) else Crash(UnknownAlarm)
  }

  /** Unlike RegisterAlarm this neither clamps a past deadline nor tolerates an empty map. */
  function ReregisterAlarm<A>(s: Engine<A>, token: nat, requested: int): Outcome<A> {
    match Lookup(s.queue, token)
    case None => Crash(DeadToken)
    case Some(e) =>
      var rest := Erase(s.queue, token);
      if e.cb !in s.alarms then Crash(UnknownAlarm)
      else if rest == [] then Crash(NoOtherAlarm)
      else
        var s1 := Enqueue(Retire(s, e, Replaced), e.cb, requested, requested);
        if s1.timer.None? || requested < rest[0].key then UpdateTimer(s1) else Ok(s1)
  }

  function UnregisterIfRegistered<A>(s: Engine<A>, a: A): Outcome<A>
    requires a in s.alarms
  {
    if !s.alarms[a].registered then Ok(s)
    else if !s.alarms[a].attached then Crash(NotAttached)
    else UnregisterAlarm(s, s.alarms[a].token)
  }

  /** The operations a client has on an alarm: quic::QuicAlarm's Set, Cancel and Update over
      Ns3Alarm's SetImpl, CancelImpl and UpdateImpl, and the alarm's destruction. */
  datatype Command<A> =
    | Set(a: A, deadline: int)
    | Cancel(a: A)
    | Update(a: A, deadline: int, granularity: nat)
    | Destroy(a: A)

  function ExecSet<A>(s: Engine<A>, a: A, deadline: int): Outcome<A>
    requires a in s.alarms
  {
    if s.alarms[a].deadline != 0 then Crash(AlreadySet)
    else if deadline == 0 then Crash(BadDeadline)
    else RegisterAlarm(WithAlarm(s, a, s.alarms[a].(deadline := deadline)), deadline, a)
  }

  function ExecCancel<A>(s: Engine<A>, a: A): Outcome<A>
    requires a in s.alarms
  {
    if s.alarms[a].deadline == 0 then Ok(s)
    else UnregisterIfRegistered(WithAlarm(s, a, s.alarms[a].(deadline := 0)), a)
  }

  function Distance(x: int, y: int): nat { if x < y then y - x else x - y }

  function ExecUpdate<A>(s: Engine<A>, a: A, deadline: int, granularity: nat): Outcome<A>
    requires a in s.alarms
  {
    if deadline == 0 then ExecCancel(s, a)
    else if Distance(deadline, s.alarms[a].deadline) < granularity then Ok(s)
    else
      var s1 := WithAlarm(s, a, s.alarms[a].(deadline := deadline));
      if s.alarms[a].deadline != 0 && s.alarms[a].registered then
        if !s.alarms[a].attached then Crash(NotAttached)
        else ReregisterAlarm(s1, s.alarms[a].token, deadline)
      else RegisterAlarm(s1, deadline, a)
  }

  function Exec<A>(s: Engine<A>, c: Command<A>): Outcome<A> {
    if c.a !in s.alarms then Crash(UnknownAlarm)
    else match c
      case Set(a, d) => ExecSet(s, a, d)
      case Cancel(a) => ExecCancel(s, a)
      case Update(a, d, g) => ExecUpdate(s, a, d, g)
      case Destroy(a) => UnregisterIfRegistered(s, a)
  }

  function ExecAll<A>(s: Engine<A>, cs: seq<Command<A>>): Outcome<A>
    decreases |cs|
  {
    if cs == [] then Ok(s) else
      var s1 :- Exec(s, cs[0]);
      ExecAll(s1, cs[1..])
  }

  /** What every callback does in one pass of OnTimeout: within a pass an alarm is called at most
      once, so the commands of its callback can be given per alarm. */
  type Script<A> = map<A, seq<Command<A>>>

  function CommandsOf<A>(script: Script<A>, a: A): seq<Command<A>> {
    if a in script then script[a] else []
  }

  /** The first loop of OnTimeout: the due entries leave the map and the set. */
  function Detach<A>(s: Engine<A>): Engine<A> {
    var n := DueCount(s.queue, NowUs(s));
    s.(queue := s.queue[n..], members := s.members - Callbacks(s.queue[..n]))
  }

  /** BaseAlarm::OnAlarm of a detached entry. */
  function Mark<A>(s: Engine<A>, e: Entry<A>): Engine<A>
    requires e.cb in s.alarms
  {
    s.(alarms := s.alarms[e.cb := s.alarms[e.cb].(registered := false)],
       fates := s.fates[e.token := Fired(NowUs(s))],
       fired := s.fired + [e.token])
  }

  /** QuicAlarm::Fire: nothing if the alarm is not set, else unset it and run the delegate. */
  function Fire<A>(s: Engine<A>, a: A, cs: seq<Command<A>>): Outcome<A>
    requires a in s.alarms
  {
    if s.alarms[a].deadline == 0 then Ok(s)
    else ExecAll(WithAlarm(s, a, s.alarms[a].(deadline := 0)), cs)
  }

  /** Ns3AlarmImpl::OnAlarm. */
  function OnAlarm<A>(s: Engine<A>, e: Entry<A>, cs: seq<Command<A>>): Outcome<A> {
    if e.cb !in s.alarms then Crash(UnknownAlarm) else Fire(Mark(s, e), e.cb, cs)
  }

  /** The engine once an alarm has been taken to the point where its delegate runs. */
  function Ring<A>(s: Engine<A>, e: Entry<A>): (r: Engine<A>)
    requires e.cb in s.alarms
  {
    var m := Mark(s, e);
    WithAlarm(m, e.cb, m.alarms[e.cb].(deadline := 0))
  }

  /** The second loop of OnTimeout. */
  function CallAll<A>(s: Engine<A>, batch: seq<Entry<A>>, script: Script<A>): Outcome<A>
    decreases |batch|
  {
    if batch == [] then Ok(s) else
      var s1 :- OnAlarm(s, batch[0], CommandsOf(script, batch[0].cb));
      CallAll(s1, batch[1..], script)
  }

  function OnTimeout<A>(s: Engine<A>, script: Script<A>): Outcome<A> {
    var s1 :- CallAll(Detach(s), s.queue[..DueCount(s.queue, NowUs(s))], script);
    UpdateTimer(s1)
  }

  /** Shutdown empties the map and the set from the front; the timer event stays pending. */
  function Shutdown<A>(s: Engine<A>): Outcome<A>
    decreases |s.queue|
  {
    if s.queue == [] then Ok(s)
    else
      var e := s.queue[0];
      if e.cb !in s.alarms then Crash(UnknownAlarm)
      else Shutdown(Leave(s, e))
  }

  lemma ShutdownStep<A>(s: Engine<A>)
    ensures s.queue == [] ==> Shutdown(s) == Ok(s)
    ensures s.queue != [] ==>
              Shutdown(s) == if s.queue[0].cb in s.alarms then Shutdown(Leave(s, s.queue[0])) else Crash(UnknownAlarm)
  {
  }

  lemma CallAllStep<A>(s: Engine<A>, batch: seq<Entry<A>>, script: Script<A>)
    ensures batch == [] ==> CallAll(s, batch, script) == Ok(s)
    ensures batch != [] ==>
              var r := OnAlarm(s, batch[0], CommandsOf(script, batch[0].cb));
              CallAll(s, batch, script) == if r.Ok? then CallAll(r.state, batch[1..], script) else r
  {
  }

  function Leave<A>(s: Engine<A>, e: Entry<A>): (r: Engine<A>)
    requires e.cb in s.alarms && s.queue != []
    ensures |r.queue| == |s.queue| - 1
  {
    s.(queue := s.queue[1..],
       members := s.members - {e.cb},
       fates := s.fates[e.token := ShutDown],
       alarms := s.alarms[e.cb := s.alarms[e.cb].(registered := false, attached := false)])
  }

  /** A new alarm object, as the alarm factory makes it. */
  const NEW_ALARM := Alarm(0, false, false, 0)

  /** One step of a run: a new alarm, a client command, the clock moving on (never past a pending
      event), the timer event running, or a shutdown. */
  datatype Step<A> =
    | Create(a: A)
    | Do(command: Command<A>)
    | Advance(to: nat)
    | Expire(script: Script<A>)
    | Stop

  function Apply<A>(s: Engine<A>, step: Step<A>): Outcome<A> {
    match step
    case Create(a) => if a in s.alarms then Crash(Disabled) else Ok(WithAlarm(s, a, NEW_ALARM))
    case Do(c) => Exec(s, c)
    case Advance(to) =>
      if s.now <= to && (s.timer.Some? ==> to <= s.timer.value) then Ok(s.(now := to))
      else Crash(Disabled)
    case Expire(script) =>
      if s.timer.None? then Crash(Disabled)
      else OnTimeout(s.(now := s.timer.value, timer := None), script)
    case Stop => Shutdown(s)
  }

  function Run<A>(s: Engine<A>, steps: seq<Step<A>>): Outcome<A>
    decreases |steps|
  {
    if steps == [] then Ok(s) else
      var s1 :- Apply(s, steps[0]);
      Run(s1, steps[1..])
  }
}
