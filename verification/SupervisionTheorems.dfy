/** What the supervision protocol guarantees in every state that any interleaving can reach. */
module SupervisionTheorems {
  import opened Options
  import opened Arithmetic
  import opened Supervision
  import opened SupervisionProofs

  ghost predicate Reachable(s: State) {
    exists http2, es :: Run(Init(http2), es) == Some(s)
  }

  lemma ReachableInv(s: State)
    requires Reachable(s)
    ensures Inv(s)
  {
    var http2, es :| Run(Init(http2), es) == Some(s);
    RunKeeps(Init(http2), es);
  }

  /** The supervisor of w has left its wait and is about to clear and rebuild. */
  ghost predicate WokenToRebuild(s: State, w: nat) {
    exists t :: t in s.tasks && s.tasks[t] == Supervising(w, Woken)
  }

  // ---- safety -------------------------------------------------------------

  /** No lost reconfiguration: a worker that is up was built from its current configuration
      and, if still pooled, the current transport, unless the change is still on its way. */
  lemma NoLostReconfiguration(s: State, w: nat)
    requires Reachable(s) && w in s.workers && s.workers[w].slot.net.Some?
    ensures s.workers[w].slot.net.value < |s.tunnels|
    ensures var built := s.tunnels[s.workers[w].slot.net.value];
            && (built.config == s.workers[w].config || Poked(s, w) || RotateOwed(s, w) || WokenToRebuild(s, w))
            && (w in s.listed ==>
                  built.http2 == s.http2 || Poked(s, w) || TransportOwed(s, w) || WokenToRebuild(s, w))
  {
    ReachableInv(s);
    UpTunnel(s, w);
  }

  lemma UpTunnel(s: State, w: nat)
    requires Inv(s) && w in s.workers && s.workers[w].slot.net.Some?
    ensures s.workers[w].slot.net.value < |s.tunnels|
    ensures WokenToRebuild(s, w) || TunnelOk(s, w, s.workers[w].slot.net.value)
  {
    assert WorkerOk(s, w);
    var t :| t in s.tasks && Drives(s.tasks[t], w);
    assert TaskOk(s, s.tasks[t]);
  }

  /** Task t supervises w and is asleep in its wait: neither branch of its select! can be polled on. */
  ghost predicate Blocked(s: State, t: nat, w: nat) {
    t in s.tasks && s.tasks[t].Supervising? && s.tasks[t].w == w && s.tasks[t].pc.Wait? &&
    Apply(s, SupPollDead(t)).None? && Apply(s, SupPollNotified(t)).None?
  }

  /** No missed death, no missed notification: a blocked supervisor watches the tunnel its
      worker really uses, that transport is live, nothing is stored for it, and
      whatever it is not up to date with is still owed by a running call. */
  lemma BlockedIsLiveAndCurrent(s: State, t: nat, w: nat)
    requires Reachable(s) && Blocked(s, t, w)
    ensures w in s.workers && s.workers[w].slot.net == Some(s.tasks[t].pc.gen) && s.tasks[t].pc.gen < |s.tunnels|
    ensures var tunnel := s.tunnels[s.tasks[t].pc.gen];
            && !tunnel.watch.value && tunnel.watch.senderAlive
            && !Poked(s, w)
            && (tunnel.config == s.workers[w].config || RotateOwed(s, w))
            && (w in s.listed ==> tunnel.http2 == s.http2 || TransportOwed(s, w))
  {
    ReachableInv(s);
    BlockedFacts(s, t, w);
  }

  lemma BlockedFacts(s: State, t: nat, w: nat)
    requires Inv(s) && Blocked(s, t, w)
    ensures w in s.workers && s.workers[w].slot.net == Some(s.tasks[t].pc.gen) && TunnelOk(s, w, s.tasks[t].pc.gen)
    ensures var watch := s.tunnels[s.tasks[t].pc.gen].watch; !watch.value && watch.senderAlive
    ensures !Poked(s, w)
  {
    assert TaskOk(s, s.tasks[t]);
    forall u | u in s.tasks && u != t ensures !HoldsNotification(s.tasks[u], w) {
      assert Exclusive(s.tasks[t], s.tasks[u]);
    }
  }

  /** Worker slot coherence: the parts that are present are of one generation. */
  lemma SlotCoherence(s: State, w: nat)
    requires Reachable(s) && w in s.workers
    ensures var slot := s.workers[w].slot;
            (slot.net.Some? <==> slot.dead.Some?) &&
            (slot.net.Some? ==> slot.net == slot.dead == slot.tunnel == slot.assignedV4)
  {
    ReachableInv(s);
    assert WorkerOk(s, w);
  }

  /** At most one task builds or supervises a worker at any time, and a builder finds it down. */
  lemma SingleBuilder(s: State, t: nat, u: nat, w: nat)
    requires Reachable(s) && t in s.tasks && u in s.tasks && Drives(s.tasks[t], w) && Drives(s.tasks[u], w)
    ensures t == u
    ensures s.tasks[t].Building? ==> w in s.workers && s.workers[w].slot.net.None?
  {
    ReachableInv(s);
    assert TaskOk(s, s.tasks[t]);
    assert t != u ==> Exclusive(s.tasks[t], s.tasks[u]);
  }

  /** How many connects task t has failed since its supervisor last began to rebuild. */
  function Failures(es: seq<Event>, t: nat): nat {
    if es == [] then 0 else Counted(Failures(es[..|es| - 1], t), es[|es| - 1], t)
  }

  /** An episode begins when the supervisor finds its worker down or clears it. */
  function Counted(failures: nat, e: Event, t: nat): nat {
    if e == SupCheck(t) || e == SupClear(t) then 0 else failures + One(e == BuildFails(t))
  }

  /** The loop's own bookkeeping agrees with the count. */
  ghost predicate Tallied(s: State, t: nat, failures: nat) {
    t in s.tasks ==>
      match s.tasks[t]
      case Building(_, Supervisor(_, fails), _) => fails == failures
      case Supervising(_, Retry(_, fails)) => fails == failures
      case Supervising(_, Sleep(_, fails, _)) => fails + 1 == failures
      case _ => true
  }

  lemma TallyStep(s: State, e: Event, t: nat, failures: nat)
    requires Tallied(s, t, failures) && Apply(s, e).Some?
    ensures Tallied(Apply(s, e).value, t, Counted(failures, e, t))
  {
    if IsControl(e) {
      ControlTally(s, e, t, failures);
    } else if !e.TransportDies? && !e.SenderGone? {
      var task := s.tasks[e.t];
      if task.Building? {
        BuildTally(s, e, task.w, task.origin, task.build, t, failures);
      } else {
        SupervisorTally(s, e, task.w, task.pc, t, failures);
      }
    }
  }

  lemma ControlTally(s: State, e: Event, t: nat, failures: nat)
    requires IsControl(e) && Tallied(s, t, failures) && ApplyControl(s, e).Some?
    ensures Tallied(ApplyControl(s, e).value, t, failures)
  {
  }

  lemma BuildTally(s: State, e: Event, w: nat, origin: Origin, build: BuildPc, t: nat, failures: nat)
    requires !IsControl(e) && !e.TransportDies? && !e.SenderGone? && Tallied(s, t, failures)
    requires e.t in s.tasks && s.tasks[e.t] == Building(w, origin, build) && w in s.workers
    requires ApplyBuild(s, e, w, origin, build).Some?
    ensures Tallied(ApplyBuild(s, e, w, origin, build).value, t, Counted(failures, e, t))
  {
  }

  lemma SupervisorTally(s: State, e: Event, w: nat, pc: SupervisorPc, t: nat, failures: nat)
    requires !IsControl(e) && !e.TransportDies? && !e.SenderGone? && Tallied(s, t, failures)
    requires e.t in s.tasks && s.tasks[e.t] == Supervising(w, pc) && w in s.workers
    requires ApplySupervisor(s, e, w, pc).Some?
    ensures Tallied(ApplySupervisor(s, e, w, pc).value, t, Counted(failures, e, t))
  {
  }

  lemma {:induction false} TallyRun(http2: bool, es: seq<Event>, t: nat)
    requires Run(Init(http2), es).Some?
    ensures Tallied(Run(Init(http2), es).value, t, Failures(es, t))
    decreases |es|
  {
    if es != [] {
      TallyRun(http2, es[..|es| - 1], t);
      TallyStep(Run(Init(http2), es[..|es| - 1]).value, es[|es| - 1], t, Failures(es[..|es| - 1], t));
    }
  }

  /** The sleep after the k-th failing connect of an episode lasts min(2^(k-1), 30) seconds. */
  lemma BackoffSchedule(http2: bool, es: seq<Event>, s: State, t: nat)
    requires Run(Init(http2), es) == Some(s)
    requires t in s.tasks && s.tasks[t].Supervising? && s.tasks[t].pc.Sleep?
    ensures Failures(es, t) >= 1
    ensures var k := Failures(es, t); s.tasks[t].pc.backoff == if Pow2(k - 1) < 30 then Pow2(k - 1) else 30
  {
    TallyRun(http2, es, t);
    RunKeeps(Init(http2), es);
    DelayNow(s, t);
    TallyNow(s, t, Failures(es, t));
  }

  lemma TallyNow(s: State, t: nat, failures: nat)
    requires Tallied(s, t, failures) && t in s.tasks && s.tasks[t].Supervising? && s.tasks[t].pc.Sleep?
    ensures failures == s.tasks[t].pc.fails + 1
  {
  }

  lemma DelayNow(s: State, t: nat)
    requires Inv(s) && t in s.tasks && s.tasks[t].Supervising? && s.tasks[t].pc.Sleep?
    ensures var fails := s.tasks[t].pc.fails; s.tasks[t].pc.backoff == if Pow2(fails) < 30 then Pow2(fails) else 30
  {
    assert TaskOk(s, s.tasks[t]);
  }

  /** Ids of pooled accounts are distinct and never 0, and 0 therefore means "all" or "auto". */
  lemma Membership(s: State)
    requires Reachable(s)
    ensures forall i, j :: 0 <= i < j < |s.listed| ==> s.listed[i] != s.listed[j]
    ensures forall w :: w in s.listed ==> 1 <= w < s.nextId
    ensures s.workers != map[] ==> s.listed != []
  {
    ReachableInv(s);
    forall w | w in s.listed ensures 1 <= w < s.nextId {
      assert WorkerOk(s, w);
    }
  }

  /** A successful removal takes out exactly the named account, keeps the order and leaves at least one. */
  lemma RemovalIsExact(s: State, id: nat)
    requires Reachable(s)
    ensures RemoveAccount(s.listed, id).Some? <==> id in s.listed && |s.listed| >= 2
    ensures RemoveAccount(s.listed, id).Some? ==>
              && (exists i :: 0 <= i < |s.listed| && s.listed[i] == id &&
                              RemoveAccount(s.listed, id).value == s.listed[..i] + s.listed[i + 1..])
              && forall w :: w in RemoveAccount(s.listed, id).value <==> w in s.listed && w != id
  {
    ReachableInv(s);
    RetainIn(s.listed, id);
    if id in s.listed {
      var i :| 0 <= i < |s.listed| && s.listed[i] == id;
      RetainCuts(s.listed, id, i);
    } else {
      RetainAll(s.listed, id);
    }
  }

  lemma {:induction false} RetainCuts(listed: seq<nat>, id: nat, i: nat)
    requires Distinct(listed) && i < |listed| && listed[i] == id
    ensures Retain(listed, id) == listed[..i] + listed[i + 1..]
  {
    if i == 0 {
      assert id !in listed[1..];
      RetainAll(listed[1..], id);
      assert [] + listed[1..] == listed[1..];
    } else {
      RetainCuts(listed[1..], id, i - 1);
      CutLater(listed, i);
    }
  }

  lemma CutLater(listed: seq<nat>, i: nat)
    requires 0 < i < |listed|
    ensures [listed[0]] + (listed[1..][..i - 1] + listed[1..][i..]) == listed[..i] + listed[i + 1..]
  {
    assert listed[1..][i..] == listed[i + 1..];
    assert [listed[0]] + listed[1..][..i - 1] == listed[..i];
  }

  // ---- what a notification does -------------------------------------------

  /** A stored permit or a notification in hand wakes the supervisor from its wait, and cuts its sleep
      between connects short: the next try comes at once, the permit or notification being used up. */
  lemma PokeWakes(s: State, t: nat, w: nat)
    requires Reachable(s) && t in s.tasks && s.tasks[t].Supervising? && s.tasks[t].w == w && Poked(s, w)
    requires s.tasks[t].pc.Wait? || s.tasks[t].pc.Sleep?
    ensures var pc := s.tasks[t].pc;
            var next := Apply(s, SupPollNotified(t));
            && next.Some? && t in next.value.tasks && w in next.value.workers
            && next.value.tasks[t] ==
                 Supervising(w, if pc.Wait? then Woken
                                else Retry(if pc.backoff * 2 < 30 then pc.backoff * 2 else 30, pc.fails + 1))
            && (if pc.reg == Notified then next.value.workers[w].permit == s.workers[w].permit
                else s.workers[w].permit && !next.value.workers[w].permit)
  {
    ReachableInv(s);
    assert TaskOk(s, s.tasks[t]);
    if u :| u in s.tasks && HoldsNotification(s.tasks[u], w) {
      assert u != t ==> Exclusive(s.tasks[u], s.tasks[t]);
    }
  }

  /** Once the pool is gone a supervisor about to reconnect ends instead. */
  lemma SupervisorEndsWithPool(s: State, t: nat, w: nat)
    requires Reachable(s) && !s.alive && t in s.tasks && s.tasks[t].Supervising? && s.tasks[t].w == w && s.tasks[t].pc.Retry?
    ensures Apply(s, SupUpgrade(t)) == Some(s.(tasks := s.tasks - {t}))
  {
    ReachableInv(s);
    assert TaskOk(s, s.tasks[t]);
  }

  /** A control call never gets stuck half-way: whatever it still owes it can deliver. */
  lemma ControlCanMove(s: State, t: nat)
    requires Reachable(s) && t in s.tasks && !s.tasks[t].Building? && !s.tasks[t].Supervising?
    ensures exists e: Event :: IsControl(e) && !e.Remove? && !e.DropPool? && e.t == t && Apply(s, e).Some?
  {
    ReachableInv(s);
    var task := s.tasks[t];
    assert TaskOk(s, task);
    match task
    case Reserved(_) => assert Apply(s, RegisterFails(t)).Some?;
    case TransportStored => assert Apply(s, SnapshotAll(t)).Some?;
    case Rotated(w) =>
      var waiter := Deliverable(EndTask(s, t), w);
      assert Apply(s, RotateNotify(t, waiter)).Some?;
    case Notifying(ws) =>
      if ws == [] {
        assert Apply(s, NotifyNext(t, None)).Some?;
      } else {
        var waiter := Deliverable(SetTask(s, t, Notifying(ws[1..])), ws[0]);
        assert Apply(s, NotifyNext(t, waiter)).Some?;
      }
  }

  lemma Deliverable(s: State, w: nat) returns (waiter: Option<nat>)
    requires w in s.workers
    ensures NotifyOne(s, w, waiter).Some?
  {
    waiter := None;
    if k :| k in s.tasks && WaitsOn(s.tasks[k], w) {
      waiter := Some(k);
    }
  }

  // ---- where a reconfiguration does get lost ------------------------------

  lemma ReachableStep(s: State, e: Event)
    requires Reachable(s) && Apply(s, e).Some?
    ensures Reachable(Apply(s, e).value)
  {
    var http2, es :| Run(Init(http2), es) == Some(s);
    assert (es + [e])[..|es + [e]| - 1] == es;
    assert Run(Init(http2), es + [e]) == Apply(s, e);
  }

  /** A pool whose one account was added while its key or endpoint was bad. */
  function OrphanPool(config: Config): State {
    State(true, false, [1], 2, map[1 := Worker(config, EMPTY_SLOT, false)], [], map[])
  }

  /** add_account's failed connect leaves a pooled worker that nobody supervises. */
  lemma OrphanIsReachable(config: Config)
    ensures Reachable(OrphanPool(config))
    ensures 1 in OrphanPool(config).listed && !Driven(OrphanPool(config), 1)
  {
    var s1 := State(true, false, [], 2, map[], [], map[0 := Reserved(1)]);
    var s := OrphanPool(config);
    var s2 := s.(tasks := map[0 := Building(1, Account, ReadConfig)]);
    var s3 := s.(tasks := map[0 := Building(1, Account, ReadTransport(config))]);
    OrphanBirth(config, s1, s2);
    assert Apply(s2, BuildReadConfig(0)) == Some(s3) by {
      assert s3.tasks == s2.tasks[0 := Building(1, Account, ReadTransport(config))];
    }
    assert Apply(s3, BuildFails(0)) == Some(s) by {
      assert s.tasks == s3.tasks - {0};
    }
    ReachableStep(s2, BuildReadConfig(0));
    ReachableStep(s3, BuildFails(0));
  }

  lemma OrphanBirth(config: Config, s1: State, s2: State)
    requires s1 == State(true, false, [], 2, map[], [], map[0 := Reserved(1)])
    requires s2 == OrphanPool(config).(tasks := map[0 := Building(1, Account, ReadConfig)])
    ensures Reachable(s2)
  {
    assert Run(Init(false), []) == Some(Init(false));
    ReachableStep(Init(false), ReserveId(0));
    assert Apply(Init(false), ReserveId(0)) == Some(s1);
    assert Apply(s1, Push(0, config, Account)) == Some(s2) by {
      assert s2.tasks == s1.tasks[0 := Building(1, Account, ReadConfig)];
      assert s2.workers == s1.workers[1 := Worker(config, EMPTY_SLOT, false)];
      assert s2.listed == s1.listed + [1];
    }
    ReachableStep(s1, Push(0, config, Account));
  }

  /** Such a worker stays down for good, however often it is rotated or reconnected. */
  lemma {:induction false} OrphanStaysDown(s: State, es: seq<Event>, w: nat)
    requires Inv(s) && w in s.workers && !Driven(s, w) && Run(s, es).Some?
    ensures var s' := Run(s, es).value; w in s'.workers && !Driven(s', w) && s'.workers[w].slot.net.None?
    decreases |es|
  {
    if es == [] {
      assert WorkerOk(s, w);
    } else {
      OrphanStaysDown(s, es[..|es| - 1], w);
      RunKeeps(s, es[..|es| - 1]);
      OrphanStep(Run(s, es[..|es| - 1]).value, es[|es| - 1], w);
    }
  }

  lemma OrphanStep(s: State, e: Event, w: nat)
    requires Inv(s) && w in s.workers && !Driven(s, w) && Apply(s, e).Some?
    ensures var s' := Apply(s, e).value; w in s'.workers && !Driven(s', w) && s'.workers[w].slot.net.None?
  {
    var s' := Apply(s, e).value;
    StepKeeps(s, e);
    DriversPersist(s, e, 0, w);
    forall t | t in s'.tasks ensures !Drives(s'.tasks[t], w) {
      DriversPersist(s, e, t, w);
      if t in s.tasks {
        assert TaskOk(s, s.tasks[t]) && !Drives(s.tasks[t], w);
      }
    }
    assert WorkerOk(s', w);
  }

  /** A connect of w's own add_account call fails. */
  predicate FailsOwnConnect(s: State, e: Event, w: nat) {
    e.BuildFails? && e.t in s.tasks && s.tasks[e.t].Building? && s.tasks[e.t].w == w && s.tasks[e.t].origin == Account
  }

  /** While the pool lives, whoever builds or supervises w goes on doing so, unless it is an add_account
      call whose connect fails. */
  lemma DriverLostIff(s: State, e: Event, t: nat, w: nat)
    requires Inv(s) && s.alive && t in s.tasks && Drives(s.tasks[t], w) && Apply(s, e).Some?
    ensures t in Apply(s, e).value.tasks && Drives(Apply(s, e).value.tasks[t], w) <==> !FailsOwnConnect(s, e, w)
  {
    if IsControl(e) {
      ControlDrives(s, e, t, w);
    } else if !e.TransportDies? && !e.SenderGone? {
      var task := s.tasks[e.t];
      assert e.t != t ==> Exclusive(task, s.tasks[t]);
      if task.Building? {
        BuildDrives(s, e, task.w, task.origin, task.build, t, w);
      } else {
        SupervisorDrives(s, e, task.w, task.pc, t, w);
      }
    }
  }

  ghost predicate StillDriving(s: State, t: nat, w: nat) {
    t in s.tasks && Drives(s.tasks[t], w)
  }

  lemma ControlDrives(s: State, e: Event, t: nat, w: nat)
    requires IsControl(e) && StillDriving(s, t, w) && ApplyControl(s, e).Some?
    ensures StillDriving(ApplyControl(s, e).value, t, w)
  {
  }

  lemma BuildDrives(s: State, e: Event, v: nat, origin: Origin, build: BuildPc, t: nat, w: nat)
    requires !IsControl(e) && !e.TransportDies? && !e.SenderGone? && StillDriving(s, t, w)
    requires e.t in s.tasks && s.tasks[e.t] == Building(v, origin, build) && v in s.workers && (e.t != t ==> v != w)
    requires ApplyBuild(s, e, v, origin, build).Some?
    ensures StillDriving(ApplyBuild(s, e, v, origin, build).value, t, w) <==> !FailsOwnConnect(s, e, w)
  {
  }

  lemma SupervisorDrives(s: State, e: Event, v: nat, pc: SupervisorPc, t: nat, w: nat)
    requires !IsControl(e) && !e.TransportDies? && !e.SenderGone? && StillDriving(s, t, w) && s.alive
    requires e.t in s.tasks && s.tasks[e.t] == Supervising(v, pc) && v in s.workers
    requires ApplySupervisor(s, e, v, pc).Some?
    ensures StillDriving(ApplySupervisor(s, e, v, pc).value, t, w)
  {
  }

  /** Some event of the run was a failing connect of w's own add_account call. */
  ghost predicate OwnConnectFailed(http2: bool, es: seq<Event>, w: nat) {
    exists i :: 0 <= i < |es| && FailsAt(Init(http2), es, i, w)
  }

  ghost predicate FailsAt(s: State, es: seq<Event>, i: nat, w: nat)
    requires i < |es|
  {
    Run(s, es[..i]).Some? && FailsOwnConnect(Run(s, es[..i]).value, es[i], w)
  }

  lemma FailsAtPrefix(s: State, es: seq<Event>, i: nat, w: nat)
    requires i < |es| - 1
    ensures FailsAt(s, es[..|es| - 1], i, w) <==> FailsAt(s, es, i, w)
  {
    assert es[..|es| - 1][..i] == es[..i];
  }

  lemma OwnConnectFailedStep(http2: bool, es: seq<Event>, w: nat, mid: State)
    requires es != [] && Run(Init(http2), es[..|es| - 1]) == Some(mid)
    ensures OwnConnectFailed(http2, es, w) <==>
              OwnConnectFailed(http2, es[..|es| - 1], w) || FailsOwnConnect(mid, es[|es| - 1], w)
  {
    var last := |es| - 1;
    assert FailsAt(Init(http2), es, last, w) <==> FailsOwnConnect(mid, es[last], w);
    if OwnConnectFailed(http2, es[..last], w) {
      var i :| 0 <= i < last && FailsAt(Init(http2), es[..last], i, w);
      FailsAtPrefix(Init(http2), es, i, w);
    }
    if OwnConnectFailed(http2, es, w) {
      var i :| 0 <= i < |es| && FailsAt(Init(http2), es, i, w);
      if i < last {
        FailsAtPrefix(Init(http2), es, i, w);
      }
    }
  }

  /** Exactly the workers whose own first connect failed in add_account are without a supervisor (or a
      builder about to become one), as long as the pool lives. */
  lemma {:induction false} DrivenIff(http2: bool, es: seq<Event>, w: nat)
    requires Run(Init(http2), es).Some? && Run(Init(http2), es).value.alive
    ensures w in Run(Init(http2), es).value.workers ==>
              (Driven(Run(Init(http2), es).value, w) <==> !OwnConnectFailed(http2, es, w))
    ensures w !in Run(Init(http2), es).value.workers ==> !OwnConnectFailed(http2, es, w)
    decreases |es|
  {
    if es != [] {
      var before, last := es[..|es| - 1], es[|es| - 1];
      var mid := Run(Init(http2), before).value;
      StaysDead(mid, last);
      DrivenIff(http2, before, w);
      RunKeeps(Init(http2), before);
      OwnConnectFailedStep(http2, es, w, mid);
      DrivenStep(mid, last, w);
    }
  }

  lemma StaysDead(s: State, e: Event)
    requires Apply(s, e).Some? && Apply(s, e).value.alive
    ensures s.alive
  {
  }

  lemma DrivenStep(s: State, e: Event, w: nat)
    requires Inv(s) && s.alive && Apply(s, e).Some?
    ensures var s' := Apply(s, e).value;
            && (w in s.workers ==> w in s'.workers && (Driven(s', w) <==> Driven(s, w) && !FailsOwnConnect(s, e, w)))
            && (w !in s.workers ==> !FailsOwnConnect(s, e, w) && (w in s'.workers ==> Driven(s', w)))
  {
    DriversPersist(s, e, 0, w);
    if w !in s.workers {
      NewIsDriven(s, e, w);
    } else if Driven(s, w) {
      var t :| t in s.tasks && Drives(s.tasks[t], w);
      DriverLostIff(s, e, t, w);
      if Driven(Apply(s, e).value, w) {
        SameDriver(s, e, t, w);
      }
    } else {
      OrphanStep(s, e, w);
    }
  }

  /** Nobody else takes over. */
  lemma SameDriver(s: State, e: Event, t: nat, w: nat)
    requires Inv(s) && StillDriving(s, t, w) && w in s.workers && Apply(s, e).Some? && Driven(Apply(s, e).value, w)
    ensures StillDriving(Apply(s, e).value, t, w)
  {
    var u :| u in Apply(s, e).value.tasks && Drives(Apply(s, e).value.tasks[u], w);
    DriversPersist(s, e, u, w);
    assert TaskOk(s, s.tasks[u]);
    assert u != t ==> Exclusive(s.tasks[u], s.tasks[t]);
  }

  lemma NewIsDriven(s: State, e: Event, w: nat)
    requires Inv(s) && w !in s.workers && Apply(s, e).Some?
    ensures !FailsOwnConnect(s, e, w)
    ensures w in Apply(s, e).value.workers ==> Driven(Apply(s, e).value, w)
  {
    if w in Apply(s, e).value.workers {
      OnlyPushAdds(s, e, w);
      assert Drives(Apply(s, e).value.tasks[e.t], w);
    }
  }

  lemma OnlyPushAdds(s: State, e: Event, w: nat)
    requires w !in s.workers && Apply(s, e).Some? && w in Apply(s, e).value.workers
    ensures e.Push? && e.t in Apply(s, e).value.tasks && Apply(s, e).value.tasks[e.t] == Building(w, e.origin, ReadConfig)
  {
    if IsControl(e) {
      ControlAdds(s, e, w);
    }
  }

  lemma ControlAdds(s: State, e: Event, w: nat)
    requires IsControl(e) && w !in s.workers && ApplyControl(s, e).Some? && w in ApplyControl(s, e).value.workers
    ensures e.Push? && e.t in ApplyControl(s, e).value.tasks
    ensures ApplyControl(s, e).value.tasks[e.t] == Building(w, e.origin, ReadConfig)
  {
  }

  /** No worker is lost, and a task drives the worker it drove before; only a pushed account starts
      to drive its own. */
  ghost predicate Persists(s: State, s': State, t: nat, w: nat) {
    && (w in s.workers ==> w in s'.workers)
    && (t in s'.tasks && Drives(s'.tasks[t], w) ==> t in s.tasks && (Drives(s.tasks[t], w) || s.tasks[t] == Reserved(w)))
  }

  lemma DriversPersist(s: State, e: Event, t: nat, w: nat)
    requires Apply(s, e).Some?
    ensures Persists(s, Apply(s, e).value, t, w)
  {
    if IsControl(e) {
      ControlPersists(s, e, t, w);
    } else if !e.TransportDies? && !e.SenderGone? {
      var task := s.tasks[e.t];
      if task.Building? {
        BuildPersists(s, e, task.w, task.origin, task.build, t, w);
      } else {
        SupervisorPersists(s, e, task.w, task.pc, t, w);
      }
    }
  }

  predicate IsControl(e: Event) {
    e.ReserveId? || e.RegisterFails? || e.Push? || e.RotateWrite? || e.RotateNotify? || e.StoreTransport? ||
    e.SnapshotAll? || e.Reconnect? || e.NotifyNext? || e.Remove? || e.DropPool?
  }

  lemma ControlPersists(s: State, e: Event, t: nat, w: nat)
    requires IsControl(e) && ApplyControl(s, e).Some?
    ensures Persists(s, ApplyControl(s, e).value, t, w)
  {
  }

  lemma BuildPersists(s: State, e: Event, v: nat, origin: Origin, build: BuildPc, t: nat, w: nat)
    requires !IsControl(e) && !e.TransportDies? && !e.SenderGone?
    requires e.t in s.tasks && s.tasks[e.t] == Building(v, origin, build) && v in s.workers
    requires ApplyBuild(s, e, v, origin, build).Some?
    ensures Persists(s, ApplyBuild(s, e, v, origin, build).value, t, w)
  {
  }

  lemma SupervisorPersists(s: State, e: Event, v: nat, pc: SupervisorPc, t: nat, w: nat)
    requires !IsControl(e) && !e.TransportDies? && !e.SenderGone?
    requires e.t in s.tasks && s.tasks[e.t] == Supervising(v, pc) && v in s.workers
    requires ApplySupervisor(s, e, v, pc).Some?
    ensures Persists(s, ApplySupervisor(s, e, v, pc).value, t, w)
  {
  }
}
