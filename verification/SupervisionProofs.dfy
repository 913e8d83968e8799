/** The inductive invariant of the supervision protocol and what it gives over every run. */
module SupervisionProofs {
  import opened Options
  import opened Arithmetic
  import opened Supervision

  // ---- what is still owed to a worker -------------------------------------

  /** A notification for w is stored, as a permit or in the hands of its supervisor's future. */
  ghost predicate Poked(s: State, w: nat) {
    (w in s.workers && s.workers[w].permit) ||
    exists t :: t in s.tasks && HoldsNotification(s.tasks[t], w)
  }

  /** A rotate has written w's configuration and has not notified it yet. */
  ghost predicate RotateOwed(s: State, w: nat) {
    exists t :: t in s.tasks && s.tasks[t] == Rotated(w)
  }

  predicate OwesTransport(task: Task, w: nat) {
    task.TransportStored? || (task.Notifying? && w in task.ws)
  }

  /** A set_http2 (or reconnect) call has still to notify w. */
  ghost predicate TransportOwed(s: State, w: nat) {
    exists t :: t in s.tasks && OwesTransport(s.tasks[t], w)
  }

  ghost predicate ConfigOk(s: State, w: nat, config: Config)
    requires w in s.workers
  {
    config == s.workers[w].config || Poked(s, w) || RotateOwed(s, w)
  }

  /** Only listed workers are told about a transport switch. */
  ghost predicate TransportOk(s: State, w: nat, http2: bool) {
    w !in s.listed || http2 == s.http2 || Poked(s, w) || TransportOwed(s, w)
  }

  ghost predicate TunnelOk(s: State, w: nat, gen: nat)
    requires w in s.workers
  {
    gen < |s.tunnels| && ConfigOk(s, w, s.tunnels[gen].config) && TransportOk(s, w, s.tunnels[gen].http2)
  }

  // ---- the invariant ------------------------------------------------------

  /** The delay after `fails` consecutive failed connects: 2^fails seconds, at most the cap. */
  function Delay(fails: nat): nat {
    if Pow2(fails) < MAX_BACKOFF then Pow2(fails) else MAX_BACKOFF
  }

  ghost predicate BuildOk(s: State, w: nat, build: BuildPc)
    requires w in s.workers
  {
    match build
    case ReadConfig => true
    case ReadTransport(config) => ConfigOk(s, w, config)
    case Connecting(config, http2) => ConfigOk(s, w, config) && TransportOk(s, w, http2)
    case Install(gen) => TunnelOk(s, w, gen)
  }

  ghost predicate OriginOk(origin: Origin) {
    origin.Supervisor? ==> origin.backoff == Delay(origin.fails)
  }

  /** wait_true never has an unseen `true`: what it has seen up to now was false. */
  ghost predicate RxOk(watch: Watch, rx: WatchPc) {
    rx.Changed? ==> rx.seen <= watch.version && (rx.seen == watch.version ==> !watch.value)
  }

  ghost predicate PcOk(s: State, w: nat, pc: SupervisorPc)
    requires w in s.workers
  {
    match pc
    case Check => s.workers[w].slot.net.Some? ==> TunnelOk(s, w, s.workers[w].slot.net.value)
    case Wait(gen, rx, reg) =>
      s.workers[w].slot.net == Some(gen) && TunnelOk(s, w, gen) && RxOk(s.tunnels[gen].watch, rx) &&
      (reg == Waiting ==> !s.workers[w].permit)
    case Woken => true
    case Retry(backoff, fails) => s.workers[w].slot.net.None? && backoff == Delay(fails)
    case Sleep(backoff, fails, reg) =>
      s.workers[w].slot.net.None? && backoff == Delay(fails) && (reg == Waiting ==> !s.workers[w].permit)
  }

  ghost predicate TaskOk(s: State, task: Task) {
    match task
    case Reserved(id) => 1 <= id < s.nextId && id !in s.workers
    case Building(w, origin, build) =>
      w in s.workers && s.workers[w].slot.net.None? && OriginOk(origin) && BuildOk(s, w, build)
    case Supervising(w, pc) => w in s.workers && PcOk(s, w, pc)
    case Rotated(w) => w in s.workers
    case TransportStored => true
    case Notifying(ws) => forall w :: w in ws ==> w in s.workers
  }

  /** net and dead come and go together, and everything present is of one generation. */
  ghost predicate Coherent(slot: Slot) {
    (slot.net.Some? <==> slot.dead.Some?) &&
    (slot.net.Some? ==> slot.net == slot.dead == slot.tunnel == slot.assignedV4)
  }

  ghost predicate Driven(s: State, w: nat) {
    exists t :: t in s.tasks && Drives(s.tasks[t], w)
  }

  ghost predicate WorkerOk(s: State, w: nat)
    requires w in s.workers
  {
    1 <= w < s.nextId && Coherent(s.workers[w].slot) && (s.workers[w].slot.net.Some? ==> s.workers[w].slot.net.value < |s.tunnels| && Driven(s, w))
  }

  /** Two tasks never share a worker to drive, nor a reserved id. */
  predicate Exclusive(a: Task, b: Task) {
    (a.Reserved? && b.Reserved? ==> a.id != b.id) &&
    ((a.Building? || a.Supervising?) && (b.Building? || b.Supervising?) ==> a.w != b.w)
  }

  ghost predicate Distinct(ids: seq<nat>) {
    forall i, j :: 0 <= i < j < |ids| ==> ids[i] != ids[j]
  }

  ghost predicate Listing(s: State) {
    s.nextId >= 1 && Distinct(s.listed) && (forall w :: w in s.listed ==> w in s.workers) &&
    (s.workers != map[] ==> s.listed != [])
  }

  ghost predicate Inv(s: State) {
    && Listing(s)
    && (forall w :: w in s.workers ==> WorkerOk(s, w))
    && (forall t :: t in s.tasks ==> TaskOk(s, s.tasks[t]))
    && (forall t, u :: t in s.tasks && u in s.tasks && t != u ==> Exclusive(s.tasks[t], s.tasks[u]))
  }

  // ---- list lemmas --------------------------------------------------------

  lemma {:induction false} AddressedIn(listed: seq<nat>, id: nat)
    ensures forall w :: w in Addressed(listed, id) <==> w in listed && (id == 0 || w == id)
  {
    if id != 0 && listed != [] {
      AddressedIn(listed[1..], id);
    }
  }

  /** reconnect(id) addresses the one listed worker with that id, everybody for 0. */
  lemma {:induction false} AddressedOne(listed: seq<nat>, id: nat)
    requires Distinct(listed)
    ensures Addressed(listed, id) == if id == 0 then listed else if id in listed then [id] else []
  {
    if id != 0 && listed != [] {
      AddressedOne(listed[1..], id);
      if listed[0] == id {
        assert id !in listed[1..];
      }
    }
  }

  lemma {:induction false} AddressedSnoc(listed: seq<nat>, k: nat, id: nat)
    requires k < |listed|
    ensures Addressed(listed[..k + 1], id)
         == Addressed(listed[..k], id) + if id == 0 || listed[k] == id then [listed[k]] else []
  {
    if id == 0 {
      assert listed[..k + 1] == listed[..k] + [listed[k]];
    } else if k > 0 {
      assert listed[..k + 1][1..] == listed[1..][..k] && listed[..k][1..] == listed[1..][..k - 1];
      AddressedSnoc(listed[1..], k - 1, id);
    }
  }

  lemma {:induction false} RetainIn(listed: seq<nat>, id: nat)
    ensures forall w :: w in Retain(listed, id) <==> w in listed && w != id
    ensures |Retain(listed, id)| <= |listed|
    ensures Distinct(listed) ==> Distinct(Retain(listed, id)) && |Retain(listed, id)| >= |listed| - 1
  {
    if listed != [] {
      RetainIn(listed[1..], id);
      if Distinct(listed) {
        assert listed[0] !in listed[1..];
        if listed[0] == id {
          RetainAll(listed[1..], id);
        }
      }
    }
  }

  lemma {:induction false} RetainAll(listed: seq<nat>, id: nat)
    requires id !in listed
    ensures Retain(listed, id) == listed
  {
    if listed != [] {
      RetainAll(listed[1..], id);
    }
  }

  // ---- preservation -------------------------------------------------------

  /** Everything pending for w stays pending, its slot stands, and a new configuration or transport is owed to it. */
  ghost predicate Kept(s: State, s': State, w: nat) {
    && (w in s.workers ==> w in s'.workers && s'.workers[w].slot == s.workers[w].slot
                           && (s'.workers[w].config == s.workers[w].config || RotateOwed(s', w)))
    && (w in s.workers && w in s'.listed ==> w in s.listed)
    && (Poked(s, w) ==> Poked(s', w))
    && (RotateOwed(s, w) ==> RotateOwed(s', w))
    && (w in s'.listed ==> TransportOwed(s, w) ==> TransportOwed(s', w))
    && (w in s'.listed ==> s.http2 == s'.http2 || TransportOwed(s', w))
  }

  /** No tunnel forgets what it was built from, and a watch only moves by new versions. */
  ghost predicate TunnelsKept(s: State, s': State) {
    |s.tunnels| <= |s'.tunnels| &&
    forall g :: 0 <= g < |s.tunnels| ==>
      s'.tunnels[g].config == s.tunnels[g].config && s'.tunnels[g].http2 == s.tunnels[g].http2 &&
      s.tunnels[g].watch.version <= s'.tunnels[g].watch.version &&
      (s.tunnels[g].watch.version == s'.tunnels[g].watch.version ==>
        s.tunnels[g].watch.value == s'.tunnels[g].watch.value)
  }

  lemma TaskFrame(s: State, s': State, task: Task)
    requires TaskOk(s, task) && TunnelsKept(s, s') && s.nextId <= s'.nextId
    requires forall w :: w in s.workers ==> w in s'.workers
    requires task.Reserved? ==> task.id !in s'.workers
    requires task.Building? || task.Supervising? ==> Kept(s, s', task.w)
    requires task.Building? || task.Supervising? ==>
               s'.workers[task.w].permit ==> s.workers[task.w].permit || !WaitsOn(task, task.w)
    ensures TaskOk(s', task)
  {
    match task
    case Building(w, _, build) =>
      match build {
        case Install(gen) => assert TunnelOk(s', w, gen);
        case _ =>
      }
    case Supervising(w, pc) =>
      match pc {
        case Wait(gen, _, _) => assert TunnelOk(s', w, gen);
        case Check =>
        case _ =>
      }
    case _ =>
  }

  lemma NextDelays()
    ensures forall fails: nat :: NextBackoff(Delay(fails)) == Delay(fails + 1)
  {
  }

  /** Nothing changes but task t and worker w (tunnels may be added, watches may move). */
  ghost predicate Local(s: State, s': State, t: nat, w: nat) {
    && s'.listed == s.listed && s'.nextId == s.nextId && s'.http2 == s.http2
    && TunnelsKept(s, s')
    && (forall u :: u in s.tasks && u != t ==> u in s'.tasks && s'.tasks[u] == s.tasks[u])
    && (forall u :: u in s'.tasks && u != t ==> u in s.tasks)
    && (forall v :: v in s.workers && v != w ==> v in s'.workers && s'.workers[v] == s.workers[v])
    && (forall v :: v in s'.workers ==> v in s.workers)
  }

  lemma OwedAround(s: State, s': State, t: nat, w: nat, v: nat)
    requires t in s.tasks && Drives(s.tasks[t], w) && Local(s, s', t, w)
    ensures RotateOwed(s, v) ==> RotateOwed(s', v)
    ensures TransportOwed(s, v) ==> TransportOwed(s', v)
  {
    if u :| u in s.tasks && s.tasks[u] == Rotated(v) {
      assert u in s'.tasks && s'.tasks[u] == Rotated(v);
    }
    if u :| u in s.tasks && OwesTransport(s.tasks[u], v) {
      assert u in s'.tasks && OwesTransport(s'.tasks[u], v);
    }
  }

  lemma KeptAround(s: State, s': State, t: nat, w: nat, v: nat)
    requires t in s.tasks && Drives(s.tasks[t], w) && Local(s, s', t, w) && v != w
    ensures Kept(s, s', v)
  {
    if u :| u in s.tasks && HoldsNotification(s.tasks[u], v) {
      assert u in s'.tasks && HoldsNotification(s'.tasks[u], v);
    }
    OwedAround(s, s', t, w, v);
  }

  /** A step of the one task that drives w: everybody else's standing is untouched, so
      only the task's own new standing and the worker it drives remain to be shown. */
  lemma DriverMoves(s: State, s': State, t: nat, w: nat)
    requires Inv(s) && t in s.tasks && Drives(s.tasks[t], w) && w in s.workers && w in s'.workers
    requires Local(s, s', t, w)
    requires t in s'.tasks ==> Drives(s'.tasks[t], w) && TaskOk(s', s'.tasks[t])
    requires WorkerOk(s', w)
    ensures Inv(s')
  {
    forall u | u in s'.tasks ensures TaskOk(s', s'.tasks[u]) {
      if u != t {
        assert Exclusive(s.tasks[t], s.tasks[u]);
        if s.tasks[u].Building? || s.tasks[u].Supervising? {
          KeptAround(s, s', t, w, s.tasks[u].w);
        }
        TaskFrame(s, s', s'.tasks[u]);
      }
    }
    forall v | v in s'.workers ensures WorkerOk(s', v) {
      if v != w && s.workers[v].slot.net.Some? {
        var u :| u in s.tasks && Drives(s.tasks[u], v);
        assert u in s'.tasks && Drives(s'.tasks[u], v);
      }
    }
    forall u, x | u in s'.tasks && x in s'.tasks && u != x ensures Exclusive(s'.tasks[u], s'.tasks[x]) {
      assert Exclusive(s.tasks[u], s.tasks[x]);
    }
  }

  /** Only its own supervisor's future can hold w's notification, so w stays poked
      unless that supervisor's step takes the permit or the notification. */
  lemma PokedStays(s: State, s': State, t: nat, w: nat)
    requires Inv(s) && t in s.tasks && Drives(s.tasks[t], w) && Local(s, s', t, w) && w in s.workers && w in s'.workers
    requires s.workers[w].permit ==> s'.workers[w].permit
    requires HoldsNotification(s.tasks[t], w) ==>
               s'.workers[w].permit || (t in s'.tasks && HoldsNotification(s'.tasks[t], w))
    ensures Poked(s, w) ==> Poked(s', w)
  {
    if Poked(s, w) && !s.workers[w].permit {
      var u :| u in s.tasks && HoldsNotification(s.tasks[u], w);
      assert u == t;
    }
  }

  predicate BuildEvent(e: Event) {
    e.BuildReadConfig? || e.BuildReadTransport? || e.BuildConnected? || e.BuildFails? || e.BuildInstall?
  }

  predicate SupervisorEvent(e: Event) {
    e.SupCheck? || e.SupPollDead? || e.SupPollNotified? || e.SupSleepDone? || e.SupClear? || e.SupUpgrade?
  }

  lemma BuildKeeps(s: State, e: Event, w: nat, origin: Origin, build: BuildPc, s': State)
    requires Inv(s) && BuildEvent(e) && e.t in s.tasks && s.tasks[e.t] == Building(w, origin, build) && w in s.workers
    requires ApplyBuild(s, e, w, origin, build) == Some(s')
    ensures Inv(s')
  {
    var t := e.t;
    assert TaskOk(s, s.tasks[t]) && WorkerOk(s, w);
    assert Local(s, s', t, w);
    OwedAround(s, s', t, w, w);
    PokedStays(s, s', t, w);
    BuildStands(s, e, w, origin, build, s');
    DriverMoves(s, s', t, w);
  }

  lemma BuildStands(s: State, e: Event, w: nat, origin: Origin, build: BuildPc, s': State)
    requires Inv(s) && BuildEvent(e) && e.t in s.tasks && s.tasks[e.t] == Building(w, origin, build) && w in s.workers
    requires ApplyBuild(s, e, w, origin, build) == Some(s') && w in s'.workers
    requires Poked(s, w) ==> Poked(s', w)
    requires RotateOwed(s, w) ==> RotateOwed(s', w)
    requires TransportOwed(s, w) ==> TransportOwed(s', w)
    requires TaskOk(s, s.tasks[e.t]) && WorkerOk(s, w)
    ensures e.t in s'.tasks ==> Drives(s'.tasks[e.t], w) && TaskOk(s', s'.tasks[e.t])
    ensures WorkerOk(s', w)
  {
    match build
    case Install(gen) => assert TunnelOk(s', w, gen);
    case _ =>
  }

  /** A supervisor step keeps the invariant if its new standing is right. */
  lemma MoveKeeps(s: State, t: nat, w: nat, worker: Worker, pc: SupervisorPc)
    requires Inv(s) && t in s.tasks && s.tasks[t].Supervising? && s.tasks[t].w == w && w in s.workers
    requires worker.config == s.workers[w].config && Coherent(worker.slot)
    requires worker.slot.net.Some? ==> worker.slot.net == s.workers[w].slot.net
    requires PcOk(Move(s, t, w, worker, pc), w, pc)
    ensures Inv(Move(s, t, w, worker, pc))
  {
    var s' := Move(s, t, w, worker, pc);
    assert Drives(s'.tasks[t], w) && WorkerOk(s, w);
    assert Local(s, s', t, w);
    DriverMoves(s, s', t, w);
  }

  /** A step that keeps the slot and neither takes the permit nor a notification keeps everything pending. */
  lemma MovePends(s: State, t: nat, w: nat, worker: Worker, pc: SupervisorPc)
    requires Inv(s) && t in s.tasks && s.tasks[t].Supervising? && s.tasks[t].w == w && w in s.workers
    requires worker.config == s.workers[w].config && worker.slot == s.workers[w].slot
    requires s.workers[w].permit ==> worker.permit
    requires HoldsNotification(s.tasks[t], w) ==> worker.permit || HoldsNotification(Supervising(w, pc), w)
    ensures Kept(s, Move(s, t, w, worker, pc), w)
  {
    var s' := Move(s, t, w, worker, pc);
    assert Local(s, s', t, w);
    OwedAround(s, s', t, w, w);
    PokedStays(s, s', t, w);
  }

  /** A poll of wait_true keeps the invariant; when it completes, a notification already handed to the
      other branch of the select! is stored again as the permit. */
  lemma PollDeadKeeps(s: State, t: nat, w: nat, gen: nat, rx: WatchPc, reg: Registration)
    requires Inv(s) && t in s.tasks && s.tasks[t] == Supervising(w, Wait(gen, rx, reg)) && w in s.workers
    requires PollDead(s, t, w, gen, rx, reg).Some?
    ensures Inv(PollDead(s, t, w, gen, rx, reg).value)
    ensures var s' := PollDead(s, t, w, gen, rx, reg).value;
            t in s'.tasks && s'.tasks[t].Supervising? && w in s'.workers &&
            (s'.tasks[t].pc.Woken? ==> (s'.workers[w].permit <==> s.workers[w].permit || reg == Notified))
  {
    assert TaskOk(s, s.tasks[t]) && WorkerOk(s, w);
    var s' := PollDead(s, t, w, gen, rx, reg).value;
    var pc := s'.tasks[t].pc;
    if pc.Wait? {
      MovePends(s, t, w, s.workers[w], pc);
      assert TunnelOk(s', w, gen);
    }
    MoveKeeps(s, t, w, s'.workers[w], pc);
  }

  lemma PollNotifiedKeeps(s: State, t: nat, w: nat, pc: SupervisorPc, next: SupervisorPc)
    requires Inv(s) && t in s.tasks && s.tasks[t] == Supervising(w, pc) && w in s.workers && (pc.Wait? || pc.Sleep?)
    requires PollNotified(s, t, w, pc, next).Some?
    requires next == Woken || (next.Retry? && pc.Sleep? && next.backoff == Delay(next.fails))
    ensures Inv(PollNotified(s, t, w, pc, next).value)
  {
    assert TaskOk(s, s.tasks[t]) && WorkerOk(s, w);
    var s' := PollNotified(s, t, w, pc, next).value;
    if s'.tasks[t].pc.Wait? {
      MovePends(s, t, w, s.workers[w], s'.tasks[t].pc);
      assert TunnelOk(s', w, pc.gen);
    }
    MoveKeeps(s, t, w, s'.workers[w], s'.tasks[t].pc);
  }

  lemma CheckKeeps(s: State, t: nat, w: nat, s': State)
    requires Inv(s) && t in s.tasks && s.tasks[t] == Supervising(w, Check) && w in s.workers
    requires Apply(s, SupCheck(t)) == Some(s')
    ensures Inv(s')
  {
    assert TaskOk(s, s.tasks[t]) && WorkerOk(s, w);
    var pc := s'.tasks[t].pc;
    if pc.Wait? {
      MovePends(s, t, w, s.workers[w], pc);
      assert TunnelOk(s', w, pc.gen);
    }
    MoveKeeps(s, t, w, s.workers[w], pc);
  }

  lemma UpgradeKeeps(s: State, t: nat, w: nat, backoff: nat, fails: nat, s': State)
    requires Inv(s) && t in s.tasks && s.tasks[t] == Supervising(w, Retry(backoff, fails)) && w in s.workers
    requires Apply(s, SupUpgrade(t)) == Some(s')
    ensures Inv(s')
  {
    assert TaskOk(s, s.tasks[t]) && WorkerOk(s, w);
    assert Local(s, s', t, w);
    DriverMoves(s, s', t, w);
  }

  lemma SupervisorKeeps(s: State, e: Event, w: nat, pc: SupervisorPc)
    requires Inv(s) && SupervisorEvent(e) && e.t in s.tasks && s.tasks[e.t] == Supervising(w, pc) && w in s.workers
    requires ApplySupervisor(s, e, w, pc).Some?
    ensures Inv(ApplySupervisor(s, e, w, pc).value)
  {
    var s' := ApplySupervisor(s, e, w, pc).value;
    var t := e.t;
    if e.SupCheck? {
      CheckKeeps(s, t, w, s');
    } else if e.SupPollDead? {
      PollDeadKeeps(s, t, w, pc.gen, pc.rx, pc.reg);
    } else if e.SupPollNotified? {
      PollNotifiedKeeps(s, t, w, pc, if pc.Wait? then Woken else Retry(NextBackoff(pc.backoff), pc.fails + 1));
    } else if e.SupUpgrade? {
      UpgradeKeeps(s, t, w, pc.backoff, pc.fails, s');
    } else {
      MovedKeeps(s, e, w, pc);
    }
  }

  lemma MovedKeeps(s: State, e: Event, w: nat, pc: SupervisorPc)
    requires Inv(s) && (e.SupSleepDone? || e.SupClear?)
    requires e.t in s.tasks && s.tasks[e.t] == Supervising(w, pc) && w in s.workers
    requires ApplySupervisor(s, e, w, pc).Some?
    ensures Inv(ApplySupervisor(s, e, w, pc).value)
  {
    var s' := ApplySupervisor(s, e, w, pc).value;
    assert TaskOk(s, s.tasks[e.t]) && WorkerOk(s, w);
    NextDelays();
    MoveKeeps(s, e.t, w, s'.workers[w], s'.tasks[e.t].pc);
  }

  // ---- transports and control calls ---------------------------------------

  /** An event that moves no driver: every driver keeps its standing, so Inv follows from the new tasks and workers. */
  lemma BystandersKeep(s: State, s': State)
    requires Inv(s) && Listing(s') && TunnelsKept(s, s') && s.nextId <= s'.nextId
    requires forall w :: w in s.workers ==> w in s'.workers && Kept(s, s', w)
    requires forall w :: w in s.workers && s'.workers[w].permit && !s.workers[w].permit ==>
                           !exists k :: k in s.tasks && WaitsOn(s.tasks[k], w)
    requires forall u :: u in s.tasks && (s.tasks[u].Building? || s.tasks[u].Supervising?) ==>
                           u in s'.tasks && s'.tasks[u] == s.tasks[u]
    requires forall u :: u in s'.tasks && !(u in s.tasks && s.tasks[u] == s'.tasks[u] && !s.tasks[u].Reserved?) ==>
                           TaskOk(s', s'.tasks[u])
    requires forall u, x :: u in s'.tasks && x in s'.tasks && u != x ==> Exclusive(s'.tasks[u], s'.tasks[x])
    requires forall w :: w in s'.workers && w !in s.workers ==> WorkerOk(s', w)
    ensures Inv(s')
  {
    forall u | u in s'.tasks ensures TaskOk(s', s'.tasks[u]) {
      if u in s.tasks && s.tasks[u] == s'.tasks[u] && !s.tasks[u].Reserved? {
        assert TaskOk(s, s.tasks[u]);
        TaskFrame(s, s', s'.tasks[u]);
      }
    }
    forall v | v in s.workers ensures WorkerOk(s', v) {
      assert WorkerOk(s, v);
      if s.workers[v].slot.net.Some? {
        var u :| u in s.tasks && Drives(s.tasks[u], v);
        assert u in s'.tasks && Drives(s'.tasks[u], v);
      }
    }
  }

  lemma TransportKeeps(s: State, e: Event)
    requires Inv(s) && (e.TransportDies? || e.SenderGone?) && Apply(s, e).Some?
    ensures Inv(Apply(s, e).value)
  {
    var s' := Apply(s, e).value;
    forall w | w in s.workers ensures Kept(s, s', w) {
      SameTasksKeep(s, s', w);
    }
    BystandersKeep(s, s');
  }

  /** What is pending depends on the tasks and the permit only. */
  lemma SameTasksKeep(s: State, s': State, w: nat)
    requires s'.tasks == s.tasks && s'.workers == s.workers
    ensures Poked(s, w) == Poked(s', w)
    ensures RotateOwed(s, w) == RotateOwed(s', w)
    ensures TransportOwed(s, w) == TransportOwed(s', w)
  {
  }

  ghost predicate TaskCarried(s: State, s': State, u: nat, w: nat)
    requires u in s.tasks
  {
    u in s'.tasks &&
    (s'.tasks[u] == s.tasks[u] || (s.tasks[u].TransportStored? && (w in s'.listed ==> OwesTransport(s'.tasks[u], w))))
  }

  /** Tasks are only added or replaced by ones that owe at least as much. */
  lemma GrowingTasksKeep(s: State, s': State, w: nat)
    requires w in s.workers ==> w in s'.workers && (s.workers[w].permit ==> s'.workers[w].permit)
    requires forall u :: u in s.tasks && !s.tasks[u].Reserved? ==> TaskCarried(s, s', u, w)
    ensures Poked(s, w) ==> Poked(s', w)
    ensures RotateOwed(s, w) ==> RotateOwed(s', w)
    ensures w in s'.listed ==> TransportOwed(s, w) ==> TransportOwed(s', w)
  {
    if u :| u in s.tasks && HoldsNotification(s.tasks[u], w) {
      assert u in s'.tasks && HoldsNotification(s'.tasks[u], w);
    }
    if u :| u in s.tasks && s.tasks[u] == Rotated(w) {
      assert u in s'.tasks && s'.tasks[u] == Rotated(w);
    }
    if u :| w in s'.listed && u in s.tasks && OwesTransport(s.tasks[u], w) {
      assert u in s'.tasks && OwesTransport(s'.tasks[u], w);
    }
  }

  lemma ReserveKeeps(s: State, e: Event, s': State)
    requires Inv(s) && e.ReserveId? && ApplyControl(s, e) == Some(s')
    ensures Inv(s')
  {
    forall w | w in s.workers ensures Kept(s, s', w) {
      GrowingTasksKeep(s, s', w);
    }
    forall u | u in s.tasks ensures TaskOk(s, s.tasks[u]) {}
    BystandersKeep(s, s');
  }

  lemma RegisterFailsKeeps(s: State, e: Event, s': State)
    requires Inv(s) && e.RegisterFails? && ApplyControl(s, e) == Some(s')
    ensures Inv(s')
  {
    forall w | w in s.workers ensures Kept(s, s', w) {
      GrowingTasksKeep(s, s', w);
    }
    BystandersKeep(s, s');
  }

  lemma PushKeeps(s: State, e: Event, s': State)
    requires Inv(s) && e.Push? && ApplyControl(s, e) == Some(s')
    ensures Inv(s')
  {
    PushTasks(s, e, s');
    forall w | w in s.workers ensures Kept(s, s', w) {
      GrowingTasksKeep(s, s', w);
    }
    BystandersKeep(s, s');
  }

  lemma PushTasks(s: State, e: Event, s': State)
    requires Inv(s) && e.Push? && ApplyControl(s, e) == Some(s')
    ensures s.tasks[e.t].id !in s.workers && TaskOk(s', s'.tasks[e.t]) && WorkerOk(s', s.tasks[e.t].id)
    ensures forall u, x :: u in s'.tasks && x in s'.tasks && u != x ==> Exclusive(s'.tasks[u], s'.tasks[x])
  {
    assert TaskOk(s, s.tasks[e.t]);
    forall u | u in s.tasks && u != e.t ensures Exclusive(s.tasks[e.t], s.tasks[u]) && TaskOk(s, s.tasks[u]) {}
  }

  lemma ReconfigureKeeps(s: State, e: Event, s': State)
    requires Inv(s) && (e.RotateWrite? || e.StoreTransport?) && ApplyControl(s, e) == Some(s')
    ensures Inv(s')
  {
    forall w | w in s.workers ensures Kept(s, s', w) {
      GrowingTasksKeep(s, s', w);
      if e.RotateWrite? {
        assert e.t in s'.tasks && s'.tasks[e.t] == Rotated(e.w);
      } else {
        assert e.t in s'.tasks && OwesTransport(s'.tasks[e.t], w);
      }
    }
    BystandersKeep(s, s');
  }

  lemma SnapshotKeeps(s: State, e: Event, s': State)
    requires Inv(s) && e.SnapshotAll? && ApplyControl(s, e) == Some(s')
    ensures Inv(s')
  {
    AddressedIn(s.listed, 0);
    forall w | w in s.workers ensures Kept(s, s', w) {
      GrowingTasksKeep(s, s', w);
    }
    BystandersKeep(s, s');
  }

  lemma ReconnectKeeps(s: State, e: Event, s': State)
    requires Inv(s) && e.Reconnect? && ApplyControl(s, e) == Some(s')
    ensures Inv(s')
  {
    AddressedIn(s.listed, e.id);
    forall w | w in s.workers ensures Kept(s, s', w) {
      GrowingTasksKeep(s, s', w);
    }
    BystandersKeep(s, s');
  }

  lemma RemoveKeeps(s: State, e: Event, s': State)
    requires Inv(s) && (e.Remove? || e.DropPool?) && ApplyControl(s, e) == Some(s')
    ensures Inv(s')
  {
    if e.Remove? {
      RetainIn(s.listed, e.id);
    }
    forall w | w in s.workers ensures Kept(s, s', w) {
      GrowingTasksKeep(s, s', w);
    }
    BystandersKeep(s, s');
  }

  /** A notification reaches the stored permit or the supervisor's queued future. */
  lemma NotifyKeeps(s: State, w: nat, waiter: Option<nat>)
    requires Inv(s) && NotifyOne(s, w, waiter).Some?
    ensures Inv(NotifyOne(s, w, waiter).value)
    ensures Poked(NotifyOne(s, w, waiter).value, w)
  {
    var s' := NotifyOne(s, w, waiter).value;
    match waiter
    case None =>
      forall v | v in s.workers ensures Kept(s, s', v) {
        GrowingTasksKeep(s, s', v);
      }
      BystandersKeep(s, s');
    case Some(k) =>
      assert HoldsNotification(s'.tasks[k], w);
      var pc := s'.tasks[k].pc;
      assert TaskOk(s, s.tasks[k]) && WorkerOk(s, w);
      assert s' == Move(s, k, w, s.workers[w], pc);
      MovePends(s, k, w, s.workers[w], pc);
      if pc.Wait? {
        assert TunnelOk(s', w, pc.gen);
      }
      MoveKeeps(s, k, w, s.workers[w], pc);
  }

  /** A control task may stop owing w its notification once w is poked. */
  lemma DischargeKeeps(s: State, s': State, t: nat, w: nat)
    requires Inv(s) && Poked(s, w) && t in s.tasks && (s.tasks[t].Rotated? || s.tasks[t].Notifying?)
    requires s.tasks[t].Rotated? ==> s.tasks[t].target == w && s' == EndTask(s, t)
    requires s.tasks[t].Notifying? ==> s.tasks[t].ws != [] && s.tasks[t].ws[0] == w &&
                                       s' == SetTask(s, t, Notifying(s.tasks[t].ws[1..]))
    ensures Inv(s')
  {
    assert TaskOk(s, s.tasks[t]);
    PokedAround(s, s', t, w);
    forall u | u in s'.tasks ensures TaskOk(s', s'.tasks[u]) {
      if u != t {
        assert TaskOk(s, s.tasks[u]);
        if s.tasks[u].Building? || s.tasks[u].Supervising? {
          DischargedTask(s, s', t, w, s.tasks[u].w);
          if s.tasks[u].w == w {
            PokedTask(s, s', s.tasks[u]);
          } else {
            TaskFrame(s, s', s.tasks[u]);
          }
        }
      }
    }
    forall v | v in s.workers ensures WorkerOk(s', v) {
      assert WorkerOk(s, v);
      if s.workers[v].slot.net.Some? {
        var u :| u in s.tasks && Drives(s.tasks[u], v);
        assert u in s'.tasks && Drives(s'.tasks[u], v);
      }
    }
    forall u, x | u in s'.tasks && x in s'.tasks && u != x ensures Exclusive(s'.tasks[u], s'.tasks[x]) {
      assert Exclusive(s.tasks[u], s.tasks[x]);
    }
  }

  lemma PokedAround(s: State, s': State, t: nat, w: nat)
    requires Poked(s, w) && t in s.tasks && !s.tasks[t].Supervising? && s'.workers == s.workers
    requires forall u :: u in s.tasks && u != t ==> u in s'.tasks && s'.tasks[u] == s.tasks[u]
    ensures Poked(s', w)
  {
    if u :| u in s.tasks && HoldsNotification(s.tasks[u], w) {
      assert u in s'.tasks && HoldsNotification(s'.tasks[u], w);
    }
  }

  /** What the discharging task owed to anyone but w it still owes. */
  lemma DischargedTask(s: State, s': State, t: nat, w: nat, v: nat)
    requires t in s.tasks && (s.tasks[t].Rotated? || s.tasks[t].Notifying?) && v in s.workers
    requires s.tasks[t].Rotated? ==> s.tasks[t].target == w && s' == EndTask(s, t)
    requires s.tasks[t].Notifying? ==> s.tasks[t].ws != [] && s.tasks[t].ws[0] == w &&
                                       s' == SetTask(s, t, Notifying(s.tasks[t].ws[1..]))
    ensures v != w ==> Kept(s, s', v)
  {
    if v != w {
      if Poked(s, v) {
        PokedAround(s, s', t, v);
      }
      if u :| u in s.tasks && s.tasks[u] == Rotated(v) {
        assert u in s'.tasks && s'.tasks[u] == Rotated(v);
      }
      if u :| u in s.tasks && OwesTransport(s.tasks[u], v) {
        assert u in s'.tasks && OwesTransport(s'.tasks[u], v);
      }
    }
  }

  /** With w poked, every standing of w's driver is fine whatever it was built from. */
  lemma PokedTask(s: State, s': State, task: Task)
    requires TaskOk(s, task) && (task.Building? || task.Supervising?) && Poked(s', task.w)
    requires s'.workers == s.workers && s'.tunnels == s.tunnels
    ensures TaskOk(s', task)
  {
    match task
    case Building(w, _, build) => if build.Install? { assert TunnelOk(s', w, build.gen); }
    case Supervising(w, pc) => if pc.Wait? { assert TunnelOk(s', w, pc.gen); }
  }

  lemma EndKeeps(s: State, t: nat)
    requires Inv(s) && t in s.tasks && s.tasks[t] == Notifying([])
    ensures Inv(EndTask(s, t))
  {
    var s' := EndTask(s, t);
    forall w | w in s.workers ensures Kept(s, s', w) {
      if Poked(s, w) {
        PokedAround(s, s', t, w);
      }
      if u :| u in s.tasks && s.tasks[u] == Rotated(w) {
        assert u in s'.tasks && s'.tasks[u] == Rotated(w);
      }
      if u :| u in s.tasks && OwesTransport(s.tasks[u], w) {
        assert u in s'.tasks && OwesTransport(s'.tasks[u], w);
      }
    }
    BystandersKeep(s, s');
  }

  /** Whether the caller's own bookkeeping comes before or after the notification is all the same. */
  lemma NotifyCommutes(s: State, t: nat, rest: Option<Task>, w: nat, waiter: Option<nat>)
    requires t in s.tasks && !s.tasks[t].Supervising? && (rest.Some? ==> !rest.value.Supervising?)
    requires NotifyOne(if rest.Some? then SetTask(s, t, rest.value) else EndTask(s, t), w, waiter).Some?
    ensures NotifyOne(s, w, waiter).Some?
    ensures var after := NotifyOne(s, w, waiter).value;
            t in after.tasks && after.tasks[t] == s.tasks[t] &&
            NotifyOne(if rest.Some? then SetTask(s, t, rest.value) else EndTask(s, t), w, waiter).value
              == if rest.Some? then SetTask(after, t, rest.value) else EndTask(after, t)
  {
    var s1 := if rest.Some? then SetTask(s, t, rest.value) else EndTask(s, t);
    if waiter.None? {
      forall k | k in s.tasks && k != t ensures !WaitsOn(s.tasks[k], w) {
        assert k in s1.tasks && s1.tasks[k] == s.tasks[k];
      }
    }
    var after := NotifyOne(s, w, waiter).value;
    assert NotifyOne(s1, w, waiter).value.tasks
        == (if rest.Some? then SetTask(after, t, rest.value) else EndTask(after, t)).tasks;
  }

  lemma NotifyingKeeps(s: State, e: Event, s': State)
    requires Inv(s) && (e.RotateNotify? || e.NotifyNext?) && ApplyControl(s, e) == Some(s')
    ensures Inv(s')
  {
    var task := s.tasks[e.t];
    if task.Rotated? {
      NotifyCommutes(s, e.t, None, task.target, e.waiter);
      NotifyKeeps(s, task.target, e.waiter);
      DischargeKeeps(NotifyOne(s, task.target, e.waiter).value, s', e.t, task.target);
    } else if task.ws == [] {
      EndKeeps(s, e.t);
    } else {
      NotifyCommutes(s, e.t, Some(Notifying(task.ws[1..])), task.ws[0], e.waiter);
      NotifyKeeps(s, task.ws[0], e.waiter);
      DischargeKeeps(NotifyOne(s, task.ws[0], e.waiter).value, s', e.t, task.ws[0]);
    }
  }

  lemma ControlKeeps(s: State, e: Event, s': State)
    requires Inv(s) && !BuildEvent(e) && !SupervisorEvent(e) && !e.TransportDies? && !e.SenderGone?
    requires ApplyControl(s, e) == Some(s')
    ensures Inv(s')
  {
    if e.RotateNotify? || e.NotifyNext? {
      NotifyingKeeps(s, e, s');
    } else if e.Remove? || e.DropPool? {
      RemoveKeeps(s, e, s');
    } else if e.SnapshotAll? {
      SnapshotKeeps(s, e, s');
    } else if e.Reconnect? {
      ReconnectKeeps(s, e, s');
    } else if e.RotateWrite? || e.StoreTransport? {
      ReconfigureKeeps(s, e, s');
    } else if e.Push? {
      PushKeeps(s, e, s');
    } else if e.RegisterFails? {
      RegisterFailsKeeps(s, e, s');
    } else {
      ReserveKeeps(s, e, s');
    }
  }

  /** Every event keeps the invariant. */
  lemma StepKeeps(s: State, e: Event)
    requires Inv(s) && Apply(s, e).Some?
    ensures Inv(Apply(s, e).value)
  {
    if BuildEvent(e) {
      var task := s.tasks[e.t];
      BuildKeeps(s, e, task.w, task.origin, task.build, Apply(s, e).value);
    } else if SupervisorEvent(e) {
      SupervisorKeeps(s, e, s.tasks[e.t].w, s.tasks[e.t].pc);
    } else if e.TransportDies? || e.SenderGone? {
      TransportKeeps(s, e);
    } else {
      ControlKeeps(s, e, Apply(s, e).value);
    }
  }

  // ---- over every run -----------------------------------------------------

  lemma {:induction false} RunKeeps(s: State, es: seq<Event>)
    requires Inv(s) && Run(s, es).Some?
    ensures Inv(Run(s, es).value)
    decreases |es|
  {
    if es != [] {
      RunKeeps(s, es[..|es| - 1]);
      StepKeeps(Run(s, es[..|es| - 1]).value, es[|es| - 1]);
    }
  }
}
