/** The concurrent protocol of the account pool: one supervisor per worker, the
    control calls that reconfigure workers, and the tunnels' death signals.

    A state is what the tasks share plus where every task stands. An event is one
    lock section, one atomic access, or one poll of a future; all nondeterminism
    (which task moves, whether a connect succeeds, when a transport dies) is in the
    event, so a run is simply a sequence of events, in any interleaving. */
module Supervision {
  import opened Options

  /** A registered account; only its identity matters here. */
  type Config = nat

  /** The backoff cap in seconds. */
  const MAX_BACKOFF: nat := 30

  /** A watch channel: current value, version counter, and whether the sender still exists. */
  datatype Watch = Watch(value: bool, version: nat, senderAlive: bool)

  /** A tunnel generation, with the configuration and transport it was built from. */
  datatype Tunnel = Tunnel(config: Config, http2: bool, watch: Watch)

  /** The tunnel-derived fields of a worker; each holds the generation it came from. */
  datatype Slot = Slot(net: Option<nat>, tunnel: Option<nat>, dead: Option<nat>, assignedV4: Option<nat>)

  const EMPTY_SLOT := Slot(None, None, None, None)

  /** The lock section of clear_net: the dead tunnel object is kept. */
  function Cleared(slot: Slot): Slot {
    slot.(net := None, dead := None)
  }

  /** The lock section that ends build_tunnel. */
  function Installed(gen: nat): Slot {
    Slot(Some(gen), Some(gen), Some(gen), Some(gen))
  }

  /** A worker: configuration, slot, and the stored permit of its rebuild Notify. */
  datatype Worker = Worker(config: Config, slot: Slot, permit: bool)

  /** Who runs build_tunnel, which decides what follows a failure. */
  datatype Origin = Account | Startup | Supervisor(backoff: nat, fails: nat)

  datatype BuildPc =
    | ReadConfig
    | ReadTransport(config: Config)
    | Connecting(config: Config, http2: bool)
    | Install(gen: nat)

  /** A Notified future: not polled yet, queued as a waiter, or handed a notification. */
  datatype Registration = Idle | Waiting | Notified

  /** Where wait_true stands: before borrow_and_update, or inside changed(). */
  datatype WatchPc = Borrow | Changed(seen: nat)

  /** `fails` counts the failed connects of the current episode. */
  datatype SupervisorPc =
    | Check
    | Wait(gen: nat, rx: WatchPc, reg: Registration)
    | Woken
    | Retry(backoff: nat, fails: nat)
    | Sleep(backoff: nat, fails: nat, reg: Registration)

  datatype Task =
    | Reserved(id: nat)                                // add_account: id taken, account not registered yet
    | Building(w: nat, origin: Origin, build: BuildPc)
    | Supervising(w: nat, pc: SupervisorPc)
    | Rotated(target: nat)                             // rotate: config written, notify still owed
    | TransportStored                                  // set_http2: flag stored, workers not snapshotted yet
    | Notifying(ws: seq<nat>)                          // reconnect: workers still to be notified

  datatype State = State(
    alive: bool,
    http2: bool,
    listed: seq<nat>,
    nextId: nat,
    workers: map<nat, Worker>,  // every worker ever created, listed or removed
    tunnels: seq<Tunnel>,       // indexed by generation
    tasks: map<nat, Task>
  )

  function Init(http2: bool): State {
    State(true, http2, [], 1, map[], [], map[])
  }

  datatype Event =
    // control calls; t is a task identifier, fresh when the event starts a task
    | ReserveId(t: nat)
    | RegisterFails(t: nat)
    | Push(t: nat, config: Config, origin: Origin)
    | RotateWrite(t: nat, w: nat, config: Config)
    | RotateNotify(t: nat, waiter: Option<nat>)
    | StoreTransport(t: nat, on: bool)
    | SnapshotAll(t: nat)
    | Reconnect(t: nat, id: nat)
    | NotifyNext(t: nat, waiter: Option<nat>)
    | Remove(id: nat)
    | DropPool
    // build_tunnel
    | BuildReadConfig(t: nat)
    | BuildReadTransport(t: nat)
    | BuildConnected(t: nat)
    | BuildFails(t: nat)
    | BuildInstall(t: nat)
    // the supervisor
    | SupCheck(t: nat)
    | SupPollDead(t: nat)
    | SupPollNotified(t: nat)
    | SupSleepDone(t: nat)
    | SupClear(t: nat)
    | SupUpgrade(t: nat)
    // the transport
    | TransportDies(gen: nat)
    | SenderGone(gen: nat)

  // ---- shared pieces of the events ----------------------------------------

  predicate WaitsOn(task: Task, w: nat) {
    task.Supervising? && task.w == w &&
    ((task.pc.Wait? && task.pc.reg == Waiting) || (task.pc.Sleep? && task.pc.reg == Waiting))
  }

  predicate HoldsNotification(task: Task, w: nat) {
    task.Supervising? && task.w == w &&
    ((task.pc.Wait? && task.pc.reg == Notified) || (task.pc.Sleep? && task.pc.reg == Notified))
  }

  /** The task is the one that builds or supervises worker w. */
  predicate Drives(task: Task, w: nat) {
    (task.Building? || task.Supervising?) && task.w == w
  }

  /** Hands a notification to a queued waiter. */
  function Handed(task: Task): Task
    requires task.Supervising? && (task.pc.Wait? || task.pc.Sleep?)
  {
    task.(pc := task.pc.(reg := Notified))
  }

  /** notify_one: a queued waiter is handed the notification, else the permit is stored. */
  function NotifyOne(s: State, w: nat, waiter: Option<nat>): Option<State> {
    if w !in s.workers then None else
    match waiter
    case Some(k) =>
      if k in s.tasks && WaitsOn(s.tasks[k], w)
      then Some(s.(tasks := s.tasks[k := Handed(s.tasks[k])])) else None
    case None =>
      if exists k :: k in s.tasks && WaitsOn(s.tasks[k], w) then None
      else Some(s.(workers := s.workers[w := s.workers[w].(permit := true)]))
  }

  /** Dropping a Notified future that was handed a notification gives the permit back. */
  function DropNotified(worker: Worker, reg: Registration): Worker {
    if reg == Notified then worker.(permit := true) else worker
  }

  function NextBackoff(backoff: nat): nat {
    if backoff * 2 < MAX_BACKOFF then backoff * 2 else MAX_BACKOFF
  }

  function SetTask(s: State, t: nat, task: Task): State {
    s.(tasks := s.tasks[t := task])
  }

  function EndTask(s: State, t: nat): State {
    s.(tasks := s.tasks - {t})
  }

  function SetWorker(s: State, w: nat, worker: Worker): State {
    s.(workers := s.workers[w := worker])
  }

  /** The ids that Vec::retain keeps. */
  function Retain(listed: seq<nat>, id: nat): seq<nat> {
    if listed == [] then []
    else (if listed[0] != id then [listed[0]] else []) + Retain(listed[1..], id)
  }

  /** remove_account's outcome: refused for the last account or an unknown id. */
  function RemoveAccount(listed: seq<nat>, id: nat): Option<seq<nat>> {
    if |listed| <= 1 then None
    else if |Retain(listed, id)| == |listed| then None
    else Some(Retain(listed, id))
  }

  /** The workers a reconnect(id) call notifies; 0 means all. */
  function Addressed(listed: seq<nat>, id: nat): seq<nat> {
    if id == 0 then listed
    else if listed == [] then []
    else (if listed[0] == id then [id] else []) + Addressed(listed[1..], id)
  }

  // ---- one event ----------------------------------------------------------

  /** The state after an event, or None when the event is not enabled. */
  function Apply(s: State, e: Event): Option<State> {
    match e
    case ReserveId(_) => ApplyControl(s, e)
    case RegisterFails(_) => ApplyControl(s, e)
    case Push(_, _, _) => ApplyControl(s, e)
    case RotateWrite(_, _, _) => ApplyControl(s, e)
    case RotateNotify(_, _) => ApplyControl(s, e)
    case StoreTransport(_, _) => ApplyControl(s, e)
    case SnapshotAll(_) => ApplyControl(s, e)
    case Reconnect(_, _) => ApplyControl(s, e)
    case NotifyNext(_, _) => ApplyControl(s, e)
    case Remove(_) => ApplyControl(s, e)
    case DropPool => ApplyControl(s, e)
    case TransportDies(gen) =>
      if gen < |s.tunnels| && s.tunnels[gen].watch.senderAlive then
        var watch := s.tunnels[gen].watch;
        Some(s.(tunnels := s.tunnels[gen := s.tunnels[gen].(watch := Watch(true, watch.version + 1, true))]))
      else None
    case SenderGone(gen) =>
      if gen < |s.tunnels| then
        Some(s.(tunnels := s.tunnels[gen := s.tunnels[gen].(watch := s.tunnels[gen].watch.(senderAlive := false))]))
      else None
    case _ =>
      if e.t !in s.tasks then None else
      match s.tasks[e.t]
      case Building(w, origin, build) => if w in s.workers then ApplyBuild(s, e, w, origin, build) else None
      case Supervising(w, pc) => if w in s.workers then ApplySupervisor(s, e, w, pc) else None
      case _ => None
  }

  /** A task that keeps the pool alive: every task but a supervisor outside build_tunnel. */
  predicate HoldsPool(task: Task) {
    !task.Supervising?
  }

  function ApplyControl(s: State, e: Event): Option<State> {
    match e
    case ReserveId(t) =>
      if s.alive && t !in s.tasks
      then Some(SetTask(s, t, Reserved(s.nextId)).(nextId := s.nextId + 1)) else None
    case RegisterFails(t) =>
      if t in s.tasks && s.tasks[t].Reserved? then Some(EndTask(s, t)) else None
    case Push(t, config, origin) =>
      if t in s.tasks && s.tasks[t].Reserved? && !origin.Supervisor? then
        var id := s.tasks[t].id;
        Some(SetTask(SetWorker(s, id, Worker(config, EMPTY_SLOT, false)), t, Building(id, origin, ReadConfig))
             .(listed := s.listed + [id]))
      else None
    case RotateWrite(t, w, config) =>
      if s.alive && t !in s.tasks && w in s.workers
      then Some(SetTask(SetWorker(s, w, s.workers[w].(config := config)), t, Rotated(w))) else None
    case RotateNotify(t, waiter) =>
      if t in s.tasks && s.tasks[t].Rotated? then NotifyOne(EndTask(s, t), s.tasks[t].target, waiter) else None
    case StoreTransport(t, on) =>
      if s.alive && t !in s.tasks then Some(SetTask(s, t, TransportStored).(http2 := on)) else None
    case SnapshotAll(t) =>
      if t in s.tasks && s.tasks[t].TransportStored?
      then Some(SetTask(s, t, Notifying(Addressed(s.listed, 0)))) else None
    case Reconnect(t, id) =>
      if s.alive && t !in s.tasks then Some(SetTask(s, t, Notifying(Addressed(s.listed, id)))) else None
    case NotifyNext(t, waiter) =>
      if t in s.tasks && s.tasks[t].Notifying? then
        var ws := s.tasks[t].ws;
        if ws == [] then Some(EndTask(s, t))
        else NotifyOne(SetTask(s, t, Notifying(ws[1..])), ws[0], waiter)
      else None
    case Remove(id) =>
      (match RemoveAccount(s.listed, id)
       case Some(kept) => if s.alive then Some(s.(listed := kept)) else None
       case None => None)
    case DropPool =>
      if s.alive && forall t :: t in s.tasks ==> !HoldsPool(s.tasks[t]) then Some(s.(alive := false)) else None
    case _ => None
  }

  function ApplyBuild(s: State, e: Event, w: nat, origin: Origin, build: BuildPc): Option<State>
    requires e.BuildReadConfig? || e.BuildReadTransport? || e.BuildConnected? || e.BuildFails? || e.BuildInstall? ||
             e.SupCheck? || e.SupPollDead? || e.SupPollNotified? || e.SupSleepDone? || e.SupClear? || e.SupUpgrade?
    requires w in s.workers
  {
    var t := e.t;
    match (e, build)
    case (BuildReadConfig(_), ReadConfig) =>
      Some(SetTask(s, t, Building(w, origin, ReadTransport(s.workers[w].config))))
    case (BuildReadTransport(_), ReadTransport(config)) =>
      Some(SetTask(s, t, Building(w, origin, Connecting(config, s.http2))))
    case (BuildConnected(_), Connecting(config, http2)) =>
      Some(SetTask(s, t, Building(w, origin, Install(|s.tunnels|)))
           .(tunnels := s.tunnels + [Tunnel(config, http2, Watch(false, 0, true))]))
    case (BuildFails(_), ReadTransport(_)) => Some(AfterFailure(s, t, w, origin))   // bad key
    case (BuildFails(_), Connecting(_, _)) => Some(AfterFailure(s, t, w, origin))   // connect error
    case (BuildInstall(_), Install(gen)) =>
      Some(SetTask(SetWorker(s, w, s.workers[w].(slot := Installed(gen))), t, Supervising(w, Check)))
    case _ => None
  }

  /** add_account gives up and leaves no supervisor; Pool::new starts one anyway; a supervisor backs off. */
  function AfterFailure(s: State, t: nat, w: nat, origin: Origin): State {
    match origin
    case Account => EndTask(s, t)
    case Startup => SetTask(s, t, Supervising(w, Check))
    case Supervisor(backoff, fails) => SetTask(s, t, Supervising(w, Sleep(backoff, fails, Idle)))
  }

  /** A step of w's supervisor: its new program counter and what it leaves in the worker. */
  function Move(s: State, t: nat, w: nat, worker: Worker, pc: SupervisorPc): State {
    SetTask(SetWorker(s, w, worker), t, Supervising(w, pc))
  }

  /** One poll of wait_true; on completion select! drops the Notified future. */
  function PollDead(s: State, t: nat, w: nat, gen: nat, rx: WatchPc, reg: Registration): Option<State>
    requires w in s.workers
  {
    if gen >= |s.tunnels| then None else
    var watch := s.tunnels[gen].watch;
    var woken := Move(s, t, w, DropNotified(s.workers[w], reg), Woken);
    match rx
    case Borrow =>
      if watch.value then Some(woken)
      else Some(Move(s, t, w, s.workers[w], Wait(gen, Changed(watch.version), reg)))
    case Changed(seen) =>
      if watch.version != seen then Some(Move(s, t, w, s.workers[w], Wait(gen, Borrow, reg)))
      else if !watch.senderAlive then Some(woken)
      else None
  }

  /** One poll of rebuild.notified() from `pc`: take a permit or notification and go on
      to `next`, or queue as a waiter; a queued waiter is not polled before it is notified. */
  function PollNotified(s: State, t: nat, w: nat, pc: SupervisorPc, next: SupervisorPc): Option<State>
    requires w in s.workers && (pc.Wait? || pc.Sleep?)
  {
    match pc.reg
    case Idle =>
      if s.workers[w].permit then Some(Move(s, t, w, s.workers[w].(permit := false), next))
      else Some(Move(s, t, w, s.workers[w], pc.(reg := Waiting)))
    case Waiting => None
    case Notified => Some(Move(s, t, w, s.workers[w], next))
  }

  function ApplySupervisor(s: State, e: Event, w: nat, pc: SupervisorPc): Option<State>
    requires e.BuildReadConfig? || e.BuildReadTransport? || e.BuildConnected? || e.BuildFails? || e.BuildInstall? ||
             e.SupCheck? || e.SupPollDead? || e.SupPollNotified? || e.SupSleepDone? || e.SupClear? || e.SupUpgrade?
    requires w in s.workers
  {
    var t, worker := e.t, s.workers[w];
    match (e, pc)
    case (SupCheck(_), Check) =>
      Some(Move(s, t, w, worker, if worker.slot.dead.Some? then Wait(worker.slot.dead.value, Borrow, Idle) else Retry(1, 0)))
    case (SupPollDead(_), Wait(gen, rx, reg)) => PollDead(s, t, w, gen, rx, reg)
    case (SupPollNotified(_), Wait(_, _, _)) => PollNotified(s, t, w, pc, Woken)
    case (SupPollNotified(_), Sleep(backoff, fails, _)) =>
      PollNotified(s, t, w, pc, Retry(NextBackoff(backoff), fails + 1))
    case (SupSleepDone(_), Sleep(backoff, fails, reg)) =>
      Some(Move(s, t, w, DropNotified(worker, reg), Retry(NextBackoff(backoff), fails + 1)))
    case (SupClear(_), Woken) => Some(Move(s, t, w, worker.(slot := Cleared(worker.slot)), Retry(1, 0)))
    case (SupUpgrade(_), Retry(backoff, fails)) =>
      if s.alive then Some(SetTask(s, t, Building(w, Supervisor(backoff, fails), ReadConfig)))
      else Some(EndTask(s, t))
    case _ => None
  }

  /** The state after a run, or None when some event of it was not enabled. */
  function Run(s: State, es: seq<Event>): Option<State>
    decreases |es|
  {
    if es == [] then Some(s) else
    match Run(s, es[..|es| - 1])
    case None => None
    case Some(mid) => Apply(mid, es[|es| - 1])
  }
}
