/** Convergence: left alone, with connects succeeding, a supervisor makes only so many
    steps, and where it stops it sleeps on a live tunnel built from what is current. */
module SupervisionProgress {
  import opened Options
  import opened Arithmetic
  import opened Supervision
  import opened SupervisionProofs
  import opened SupervisionTheorems

  /** A step of task t's own, in build_tunnel or the supervisor loop, other than a failing connect. */
  predicate OwnStep(e: Event, t: nat) {
    ((BuildEvent(e) && !e.BuildFails?) || SupervisorEvent(e)) && e.t == t
  }

  predicate Quiet(s: State, gen: nat) {
    gen < |s.tunnels| && !s.tunnels[gen].watch.value && s.tunnels[gen].watch.senderAlive
  }

  /** How many more times the task can be sent round to rebuild: a stored permit, a
      notification in hand, a dead transport still to be noticed. */
  function Causes(s: State, task: Task): nat
    requires (task.Building? || task.Supervising?) && task.w in s.workers
  {
    var worker := s.workers[task.w];
    One(worker.permit) + One(HoldsNotification(task, task.w)) +
    match task
    case Building(_, _, build) => One(build.Install? && !Quiet(s, build.gen))
    case Supervising(_, pc) =>
      One((pc.Wait? && !Quiet(s, pc.gen)) || (pc.Check? && worker.slot.dead.Some? && !Quiet(s, worker.slot.dead.value)))
  }

  /** Position within one round, counting down to sleep. */
  function Position(s: State, task: Task): nat
    requires (task.Building? || task.Supervising?) && task.w in s.workers
  {
    match task
    case Building(_, _, ReadConfig) => 12
    case Building(_, _, ReadTransport(_)) => 11
    case Building(_, _, Connecting(_, _)) => 10
    case Building(_, _, Install(_)) => 9
    case Supervising(w, Check) => if s.workers[w].slot.dead.Some? then 8 else 18
    case Supervising(_, Wait(gen, rx, reg)) =>
      (if reg == Idle then 4 else 0) +
      (if rx == Borrow then 1 else if gen < |s.tunnels| && rx.seen == s.tunnels[gen].watch.version then 0 else 2)
    case Supervising(_, Woken) => 17
    case Supervising(_, Retry(_, _)) => 13
    case Supervising(_, Sleep(_, _, reg)) => if reg == Idle then 16 else 14
  }

  const ROUND: nat := 20

  function Effort(s: State, t: nat): nat {
    if t in s.tasks && (s.tasks[t].Building? || s.tasks[t].Supervising?) && s.tasks[t].w in s.workers
    then Causes(s, s.tasks[t]) * ROUND + Position(s, s.tasks[t]) else 0
  }

  lemma BuildCosts(s: State, e: Event, w: nat, origin: Origin, build: BuildPc, s': State)
    requires BuildEvent(e) && !e.BuildFails? && e.t in s.tasks && s.tasks[e.t] == Building(w, origin, build)
    requires w in s.workers && ApplyBuild(s, e, w, origin, build) == Some(s')
    ensures Effort(s', e.t) < Effort(s, e.t)
  {
  }

  lemma PollDeadCosts(s: State, t: nat, w: nat, gen: nat, rx: WatchPc, reg: Registration, s': State)
    requires t in s.tasks && s.tasks[t] == Supervising(w, Wait(gen, rx, reg)) && w in s.workers
    requires PollDead(s, t, w, gen, rx, reg) == Some(s')
    ensures Effort(s', t) < Effort(s, t)
  {
    assert s'.tasks[t].w == w && s'.tasks[t].Supervising? && w in s'.workers;
    assert s'.tasks[t].pc.Woken? ==> !Quiet(s, gen) && Causes(s', s'.tasks[t]) < Causes(s, s.tasks[t]);
    assert s'.tasks[t].pc.Wait? ==> Causes(s', s'.tasks[t]) == Causes(s, s.tasks[t]);
  }

  lemma PollNotifiedCosts(s: State, t: nat, w: nat, pc: SupervisorPc, next: SupervisorPc, s': State)
    requires t in s.tasks && s.tasks[t] == Supervising(w, pc) && w in s.workers && (pc.Wait? || pc.Sleep?)
    requires next.Woken? || next.Retry?
    requires PollNotified(s, t, w, pc, next) == Some(s')
    ensures Effort(s', t) < Effort(s, t)
  {
    assert s'.tasks[t].w == w && s'.tasks[t].Supervising? && w in s'.workers;
    assert s'.tasks[t].pc == next ==> Causes(s', s'.tasks[t]) < Causes(s, s.tasks[t]);
  }

  lemma SupervisorCosts(s: State, e: Event, w: nat, pc: SupervisorPc, s': State)
    requires SupervisorEvent(e) && e.t in s.tasks && s.tasks[e.t] == Supervising(w, pc) && w in s.workers
    requires s.alive && ApplySupervisor(s, e, w, pc) == Some(s')
    ensures Effort(s', e.t) < Effort(s, e.t)
  {
    if e.SupPollDead? {
      PollDeadCosts(s, e.t, w, pc.gen, pc.rx, pc.reg, s');
    } else if e.SupPollNotified? {
      PollNotifiedCosts(s, e.t, w, pc, if pc.Wait? then Woken else Retry(NextBackoff(pc.backoff), pc.fails + 1), s');
    } else {
      assert s'.tasks[e.t].w == w && w in s'.workers;
      assert Causes(s', s'.tasks[e.t]) <= Causes(s, s.tasks[e.t]);
    }
  }

  lemma OwnStepCosts(s: State, e: Event, t: nat)
    requires s.alive && OwnStep(e, t) && Apply(s, e).Some?
    ensures Effort(Apply(s, e).value, t) < Effort(s, t)
    ensures Apply(s, e).value.alive
  {
    if BuildEvent(e) {
      BuildCosts(s, e, s.tasks[t].w, s.tasks[t].origin, s.tasks[t].build, Apply(s, e).value);
    } else {
      SupervisorCosts(s, e, s.tasks[t].w, s.tasks[t].pc, Apply(s, e).value);
    }
  }

  /** However its own steps are scheduled, there are fewer than 80 of them. */
  lemma {:induction false} OwnRunIsShort(s: State, es: seq<Event>, t: nat)
    requires s.alive && Run(s, es).Some? && forall i :: 0 <= i < |es| ==> OwnStep(es[i], t)
    ensures Run(s, es).value.alive
    ensures |es| + Effort(Run(s, es).value, t) <= Effort(s, t) < 80
    decreases |es|
  {
    if es != [] {
      OwnRunIsShort(s, es[..|es| - 1], t);
      OwnStepCosts(Run(s, es[..|es| - 1]).value, es[|es| - 1], t);
    }
  }

  /** The next own step of a driver that is not waiting on its tunnel. */
  function NextStep(task: Task, t: nat): Event
    requires task.Building? || task.Supervising?
  {
    match task
    case Building(_, _, ReadConfig) => BuildReadConfig(t)
    case Building(_, _, ReadTransport(_)) => BuildReadTransport(t)
    case Building(_, _, Connecting(_, _)) => BuildConnected(t)
    case Building(_, _, Install(_)) => BuildInstall(t)
    case Supervising(_, Check) => SupCheck(t)
    case Supervising(_, Wait(_, _, _)) => SupPollDead(t)
    case Supervising(_, Woken) => SupClear(t)
    case Supervising(_, Retry(_, _)) => SupUpgrade(t)
    case Supervising(_, Sleep(_, _, _)) => SupSleepDone(t)
  }

  lemma OnlyWaitingBlocks(s: State, t: nat)
    requires t in s.tasks && (s.tasks[t].Building? || s.tasks[t].Supervising?) && s.tasks[t].w in s.workers
    ensures Apply(s, NextStep(s.tasks[t], t)).Some? || (s.tasks[t].Supervising? && s.tasks[t].pc.Wait?)
  {
  }

  /** A driver whose own steps are all disabled is a supervisor asleep on a live tunnel, up to
      date with every change except those a running call has still to announce. */
  lemma StuckIsSettled(s: State, t: nat, w: nat)
    requires Inv(s) && t in s.tasks && Drives(s.tasks[t], w)
    requires forall e :: OwnStep(e, t) ==> Apply(s, e).None?
    ensures Blocked(s, t, w) && w in s.workers && s.workers[w].slot.net == Some(s.tasks[t].pc.gen)
    ensures Quiet(s, s.tasks[t].pc.gen)
    ensures s.tunnels[s.tasks[t].pc.gen].config == s.workers[w].config || RotateOwed(s, w)
    ensures w in s.listed ==> s.tunnels[s.tasks[t].pc.gen].http2 == s.http2 || TransportOwed(s, w)
  {
    assert TaskOk(s, s.tasks[t]);
    OnlyWaitingBlocks(s, t);
    assert OwnStep(NextStep(s.tasks[t], t), t) && OwnStep(SupPollDead(t), t) && OwnStep(SupPollNotified(t), t);
    BlockedFacts(s, t, w);
  }

  /** Convergence: from any reachable state of a live pool, any sequence of w's driver's own
      steps is shorter than 80, and one that cannot go on has settled. */
  lemma Converges(s: State, es: seq<Event>, t: nat, w: nat)
    requires Reachable(s) && s.alive && t in s.tasks && Drives(s.tasks[t], w)
    requires Run(s, es).Some? && forall i :: 0 <= i < |es| ==> OwnStep(es[i], t)
    ensures |es| < 80
    ensures var s' := Run(s, es).value;
            (forall e :: OwnStep(e, t) ==> Apply(s', e).None?) ==>
              && Blocked(s', t, w) && w in s'.workers && s'.workers[w].slot.net == Some(s'.tasks[t].pc.gen)
              && Quiet(s', s'.tasks[t].pc.gen)
              && (s'.tunnels[s'.tasks[t].pc.gen].config == s'.workers[w].config || RotateOwed(s', w))
              && (w in s'.listed ==> s'.tunnels[s'.tasks[t].pc.gen].http2 == s'.http2 || TransportOwed(s', w))
  {
    ReachableInv(s);
    RunKeeps(s, es);
    OwnRunIsShort(s, es, t);
    StillDrives(s, es, t, w);
    var s' := Run(s, es).value;
    if forall e :: OwnStep(e, t) ==> Apply(s', e).None? {
      StuckIsSettled(s', t, w);
    }
  }

  lemma {:induction false} StillDrives(s: State, es: seq<Event>, t: nat, w: nat)
    requires s.alive && t in s.tasks && Drives(s.tasks[t], w)
    requires Run(s, es).Some? && forall i :: 0 <= i < |es| ==> OwnStep(es[i], t)
    ensures var s' := Run(s, es).value; s'.alive && t in s'.tasks && Drives(s'.tasks[t], w)
    decreases |es|
  {
    if es != [] {
      StillDrives(s, es[..|es| - 1], t, w);
      OwnStepStays(Run(s, es[..|es| - 1]).value, es[|es| - 1], t, w);
    }
  }

  lemma OwnStepStays(s: State, e: Event, t: nat, w: nat)
    requires s.alive && t in s.tasks && Drives(s.tasks[t], w) && OwnStep(e, t) && Apply(s, e).Some?
    ensures var s' := Apply(s, e).value; s'.alive && t in s'.tasks && Drives(s'.tasks[t], w)
  {
  }
}
