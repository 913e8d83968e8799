/** The pool object and its workers: the lock sections that Supervision interleaves, the
    calls that read or change selection state, and the auto-rotator. */
module Pool {
  import opened Options
  import opened Arithmetic
  import opened LoadBalancer
  import Supervision
  import SupervisionProofs

  const MIN_ROTATE_SECS: nat := 60

  /** One pooled account; net, tunnel, dead and assignedV4 hold the generation they came from. */
  class Worker {
    const id: nat
    var config: nat
    var net: Option<nat>
    var tunnel: Option<nat>
    var dead: Option<nat>
    var assignedV4: Option<nat>

    constructor (id: nat, config: nat)
      ensures this.id == id && this.config == config && Slot() == Supervision.EMPTY_SLOT
    {
      this.id := id;
      this.config := config;
      net, tunnel, dead, assignedV4 := None, None, None, None;
    }

    function Slot(): Supervision.Slot
      reads this
    {
      Supervision.Slot(net, tunnel, dead, assignedV4)
    }

    /** The protocol's state s describes this worker. */
    ghost predicate In(s: Supervision.State)
      reads this
    {
      id in s.workers && s.workers[id].config == config && s.workers[id].slot == Slot()
    }

    /** The supervisor's step after it was woken. */
    method ClearNet()
      modifies this
      ensures net == None && dead == None && tunnel == old(tunnel) && assignedV4 == old(assignedV4) && config == old(config)
      ensures forall s: Supervision.State, t: nat :: old(In(s)) && Awaits(s, t, Supervision.Supervising(id, Supervision.Woken)) ==>
                Takes(s, Supervision.SupClear(t)) && In(After(s, Supervision.SupClear(t)))
    {
      net := None;
      dead := None;
    }

    /** The lock section at the end of build_tunnel; `gen` is the tunnel just connected. */
    method Install(gen: nat)
      modifies this
      ensures net == tunnel == dead == assignedV4 == Some(gen) && config == old(config)
      ensures forall s: Supervision.State, t: nat, origin: Supervision.Origin ::
                old(In(s)) && Awaits(s, t, Supervision.Building(id, origin, Supervision.Install(gen))) ==>
                Takes(s, Supervision.BuildInstall(t)) && In(After(s, Supervision.BuildInstall(t)))
    {
      tunnel := Some(gen);
      net := Some(gen);
      assignedV4 := Some(gen);
      dead := Some(gen);
    }

    /** rotate's lock section. */
    method SetConfig(issued: nat)
      modifies this
      ensures config == issued && Slot() == old(Slot())
      ensures forall s: Supervision.State, t: nat :: old(In(s)) && s.alive && t !in s.tasks ==>
                Takes(s, Supervision.RotateWrite(t, id, issued)) && In(After(s, Supervision.RotateWrite(t, id, issued)))
    {
      config := issued;
    }
  }

  // ---- the steps of the protocol ------------------------------------------

  predicate Awaits(s: Supervision.State, t: nat, task: Supervision.Task) {
    t in s.tasks && s.tasks[t] == task && (task.Building? || task.Supervising? ==> task.w in s.workers)
  }

  predicate Takes(s: Supervision.State, e: Supervision.Event) {
    Supervision.Apply(s, e).Some?
  }

  function After(s: Supervision.State, e: Supervision.Event): Supervision.State
    requires Takes(s, e)
  {
    Supervision.Apply(s, e).value
  }

  function Ids(workers: seq<Worker>): (ids: seq<nat>)
    ensures |ids| == |workers| && forall i :: 0 <= i < |workers| ==> ids[i] == workers[i].id
  {
    seq(|workers|, i requires 0 <= i < |workers| => workers[i].id)
  }

  /** What Vec::retain keeps of the workers. */
  function RetainWorkers(workers: seq<Worker>, id: nat): seq<Worker> {
    if workers == [] then []
    else (if workers[0].id != id then [workers[0]] else []) + RetainWorkers(workers[1..], id)
  }

  lemma {:induction false} RetainWorkersIds(workers: seq<Worker>, id: nat)
    ensures Ids(RetainWorkers(workers, id)) == Supervision.Retain(Ids(workers), id)
  {
    if workers != [] {
      RetainWorkersIds(workers[1..], id);
      assert Ids(workers)[1..] == Ids(workers[1..]);
      var head := if workers[0].id != id then [workers[0]] else [];
      assert Ids(head + RetainWorkers(workers[1..], id)) == Ids(head) + Ids(RetainWorkers(workers[1..], id));
    }
  }

  /** The position of the first worker with the given id. */
  function Find(workers: seq<Worker>, id: nat): (found: Option<nat>)
    ensures found.Some? ==> found.value < |workers| && workers[found.value].id == id
    ensures found.Some? ==> forall i :: 0 <= i < found.value ==> workers[i].id != id
    ensures found.None? ==> forall i :: 0 <= i < |workers| ==> workers[i].id != id
  {
    if workers == [] then None
    else if workers[0].id == id then Some(0)
    else
      var rest := Find(workers[1..], id);
      assert rest.None? ==> forall i :: 1 <= i < |workers| ==> workers[i] == workers[1..][i - 1];
      assert rest.Some? ==> forall i :: 1 <= i <= rest.value ==> workers[i] == workers[1..][i - 1];
      if rest.Some? then Some(rest.value + 1) else None
  }

  /** The account pool and its selection state. */
  class Pool {
    var workers: seq<Worker>
    var pinned: nat        // 0 = auto
    var http2: bool
    var rr: nat
    var nextId: nat
    var rotateSecs: nat    // 0 = off

    ghost predicate Valid()
      reads this
    {
      rr < WORD && (rotateSecs == 0 || rotateSecs >= MIN_ROTATE_SECS) && nextId >= 1 &&
      SupervisionProofs.Distinct(Ids(workers)) && forall w :: w in workers ==> 1 <= w.id < nextId
    }

    /** The protocol's state s describes this pool and its workers. */
    ghost predicate In(s: Supervision.State)
      reads this, workers
    {
      s.listed == Ids(workers) && s.nextId == nextId && s.http2 == http2 && forall w :: w in workers ==> w.In(s)
    }

    constructor (http2: bool)
      ensures Valid() && workers == [] && pinned == 0 && rr == 0 && nextId == 1 && rotateSecs == 0 && this.http2 == http2
      ensures In(Supervision.Init(http2))
    {
      workers, pinned, rr, nextId, rotateSecs := [], 0, 0, 1, 0;
      this.http2 := http2;
    }

    /** Other tasks run: the workers' netstacks become `nets`. */
    method OthersRun(nets: seq<Option<nat>>)
      requires Valid() && |nets| == |workers|
      modifies workers
      ensures forall i :: 0 <= i < |workers| ==> workers[i].net == nets[i]
    {
      for k := 0 to |workers|
        invariant forall i :: 0 <= i < k ==> workers[i].net == nets[i]
      {
        DistinctWorkers(workers);
        if nets[k].Some? {
          workers[k].Install(nets[k].value);
        } else {
          workers[k].ClearNet();
        }
      }
    }

    /** Pinned if ready, else round-robin; only the latter moves the rotation. Every access to shared
        state is a step of its own: between the snapshot and the load of the pin a select may land
        (`selected`), before the rotation is moved `others` other picks may move it, and before the k-th
        probe the workers' netstacks become views[k]. */
    method Pick(views: seq<seq<Option<nat>>>, selected: Option<nat>, others: nat) returns (net: Option<nat>)
      requires Valid() && IsViews(views, |workers|)
      modifies this`rr, this`pinned, workers
      ensures Valid() && pinned == if selected.Some? then selected.value else old(pinned)
      ensures forall i :: 0 <= i < |workers| && workers[i].id == pinned != 0 && views[0][i].Some? ==>
                net == views[0][i] && rr == old(rr)
      ensures var start := (old(rr) + others) % WORD;
              workers != [] &&
              (forall i :: 0 <= i < |workers| ==> !(workers[i].id == pinned != 0 && views[0][i].Some?)) ==>
                net == LiveScan(views, |workers|, start, 0) && rr == (start + 1) % WORD &&
                (Steady(views, |workers|) ==> net == SteadyChoice(views[0], start, 0))
      ensures workers == [] ==> net == None && rr == old(rr)
      ensures var start := (old(rr) + others) % WORD;
              net.None? && workers != [] && (start + |workers| <= WORD || WORD % |workers| == 0) ==>
                forall i :: 0 <= i < |workers| ==> SeenDown(views, |workers|, i)
    {
      pinned := if selected.Some? then selected.value else pinned;
      if |workers| == 0 {
        return None;
      }
      DistinctWorkers(workers);
      net := TryPinned(views[0]);
      if net.Some? {
        return;
      }
      rr := (rr + others) % WORD;
      var start := rr;
      rr := (rr + 1) % WORD;
      net := Search(start, views);
      if Steady(views, |workers|) {
        SteadyScan(views, |workers|, start, 0);
      }
      if net.None? && (start + |workers| <= WORD || WORD % |workers| == 0) {
        EmptyMeansSeenDown(views, |workers|, start);
      }
    }

    /** The pinned half of pick. */
    method TryPinned(nets: seq<Option<nat>>) returns (net: Option<nat>)
      requires Valid() && |nets| == |workers|
      modifies workers
      ensures forall i :: 0 <= i < |workers| && workers[i].id == pinned != 0 ==> net == nets[i]
      ensures net.Some? ==> exists i :: 0 <= i < |workers| && workers[i].id == pinned != 0 && net == nets[i]
    {
      net := None;
      DistinctWorkers(workers);
      if pinned != 0 {
        var at := Find(workers, pinned);
        if at.Some? {
          OthersRun(nets);
          net := workers[at.value].net;
        }
      }
    }

    /** The loop of pick. */
    method Search(start: nat, views: seq<seq<Option<nat>>>) returns (net: Option<nat>)
      requires Valid() && IsViews(views, |workers|)
      modifies workers
      ensures net == LiveScan(views, |workers|, start, 0)
    {
      for off := 0 to |workers|
        invariant LiveScan(views, |workers|, start, 0) == LiveScan(views, |workers|, start, off)
      {
        OthersRun(views[off + 1]);
        var probed := workers[Probe(start, off, |workers|)].net;
        if probed.Some? {
          return probed;
        }
      }
      net := None;
    }

    /** The worker rotate(id) re-registers: the named one, or for 0 the pinned one if listed, else the first. */
    method RotateTarget(id: nat) returns (target: Option<Worker>)
      requires Valid()
      ensures target.Some? ==> target.value in workers
      ensures id != 0 ==> (target.Some? <==> id in Ids(workers)) && (target.Some? ==> target.value.id == id)
      ensures id == 0 ==> (target.Some? <==> workers != []) &&
                          (target.Some? ==> if pinned in Ids(workers) then target.value.id == pinned
                                            else target.value == workers[0])
    {
      var at := Find(workers, if id != 0 then id else pinned);
      if at.Some? {
        assert Ids(workers)[at.value] == workers[at.value].id;
        return Some(workers[at.value]);
      }
      if id == 0 && |workers| > 0 {
        return Some(workers[0]);
      }
      target := None;
    }

    /** One call of pick with nothing pinned and nobody going up or down. */
    method PickSteady(nets: seq<Option<nat>>) returns (net: Option<nat>)
      requires Valid() && |nets| == |workers| > 0 && pinned == 0
      modifies this`rr, this`pinned, workers
      ensures Valid() && pinned == 0 && rr == (old(rr) + 1) % WORD && net == SteadyChoice(nets, old(rr), 0)
    {
      ModUnique(rr, 0, WORD, rr);
      net := Pick(seq(|workers| + 1, i => nets), None, 0);
    }

    /** m calls of pick with nothing pinned while the same workers stay up. */
    method PickMany(nets: seq<Option<nat>>, m: nat) returns (picked: seq<Option<nat>>)
      requires Valid() && |nets| == |workers| > 0 && pinned == 0 && Apart(nets)
      modifies this`rr, this`pinned, workers
      ensures |picked| == m
      ensures forall j :: 0 <= j < |nets| && nets[j].Some? ==> Times(picked, nets[j]) == Share(UpIn(nets), old(rr), m, j)
      ensures m == |workers| && (old(rr) + 2 * m <= WORD + 1 || WORD % m == 0) ==>
                forall j :: 0 <= j < |nets| && nets[j].Some? ==> Times(picked, nets[j]) == 1 + DownRun(UpIn(nets), j, 0)
    {
      picked := [];
      for k := 0 to m
        invariant Valid() && pinned == 0 && |picked| == k && rr == (old(rr) + k) % WORD
        invariant forall i :: 0 <= i < k ==> picked[i] == SteadyChoice(nets, (old(rr) + i) % WORD, 0)
      {
        NextStart(old(rr) + k);
        var net := PickSteady(nets);
        picked := picked + [net];
      }
      FairTimes(nets, picked, old(rr));
    }

    /** Accounts come and go while a call awaits the network or another task runs. */
    method Meanwhile(removals: seq<nat>, joining: seq<nat>)
      requires Valid()
      modifies this`workers, this`pinned, this`nextId
      ensures Valid() && forall w :: w in workers ==> w in old(workers) || fresh(w)
    {
      for k := 0 to |removals|
        invariant Valid() && forall w :: w in workers ==> w in old(workers) || fresh(w)
      {
        var ok := RemoveAccount(removals[k], None);
      }
      for k := 0 to |joining|
        invariant Valid() && forall w :: w in workers ==> w in old(workers) || fresh(w)
      {
        var id := ReserveId();
        var w := PushAccount(id, joining[k]);
      }
    }

    /** rotate up to its notify_one; `issued` is the account registered anew, if that succeeds, and
        during the registration other accounts, even the target, may be removed and new ones join. */
    method Rotate(id: nat, issued: Option<nat>, removals: seq<nat>, joining: seq<nat>) returns (rotated: Option<Worker>)
      requires Valid()
      modifies this`workers, this`pinned, this`nextId, workers
      ensures Valid()
      ensures rotated.Some? <==> issued.Some? && if id != 0 then id in Ids(old(workers)) else old(workers) != []
      ensures rotated.Some? ==> rotated.value in old(workers) && (id != 0 ==> rotated.value.id == id)
      ensures rotated.Some? && id == 0 ==> if old(pinned) in Ids(old(workers)) then rotated.value.id == old(pinned)
                                           else rotated.value == old(workers)[0]
      ensures forall w :: w in old(workers) ==>
                w.Slot() == old(w.Slot()) && w.config == if rotated == Some(w) then issued.value else old(w.config)
      ensures rotated.Some? ==> forall s: Supervision.State, t: nat ::
                old(rotated.value.In(s)) && s.alive && t !in s.tasks ==>
                var e := Supervision.RotateWrite(t, rotated.value.id, issued.value);
                Takes(s, e) && rotated.value.In(After(s, e))
    {
      rotated := RotateTarget(id);
      if rotated.None? {
        return;
      }
      Meanwhile(removals, joining);
      if issued.None? {
        return None;
      }
      rotated.value.SetConfig(issued.value);
    }

    /** The workers reconnect(id) notifies, one after the other. */
    method Reconnect(id: nat) returns (notified: seq<nat>)
      requires Valid()
      ensures notified == if id == 0 then Ids(workers) else if id in Ids(workers) then [id] else []
      ensures forall s: Supervision.State, t: nat :: In(s) && s.alive && t !in s.tasks ==>
                var e := Supervision.Reconnect(t, id);
                Takes(s, e) && In(After(s, e)) && Awaits(After(s, e), t, Supervision.Notifying(notified))
    {
      notified := [];
      assert Ids(workers)[..0] == [];
      for k := 0 to |workers|
        invariant notified == Supervision.Addressed(Ids(workers)[..k], id)
      {
        SupervisionProofs.AddressedSnoc(Ids(workers), k, id);
        if id == 0 || workers[k].id == id {
          notified := notified + [workers[k].id];
        }
      }
      assert Ids(workers)[..|workers|] == Ids(workers);
      SupervisionProofs.AddressedOne(Ids(workers), id);
    }

    /** The store of set_http2. */
    method StoreHttp2(on: bool)
      requires Valid()
      modifies this`http2
      ensures Valid() && http2 == on
      ensures forall s: Supervision.State, t: nat :: old(In(s)) && s.alive && t !in s.tasks ==>
                var e := Supervision.StoreTransport(t, on);
                Takes(s, e) && In(After(s, e)) && Awaits(After(s, e), t, Supervision.TransportStored)
    {
      http2 := on;
    }

    /** set_http2: store the flag, then notify everybody listed; accounts may come and go in between. */
    method SetHttp2(on: bool, removals: seq<nat>, joining: seq<nat>) returns (notified: seq<nat>)
      requires Valid()
      modifies this`http2, this`workers, this`pinned, this`nextId
      ensures Valid() && http2 == on && notified == Ids(workers)
      ensures forall s: Supervision.State, t: nat :: In(s) && Awaits(s, t, Supervision.TransportStored) ==>
                var e := Supervision.SnapshotAll(t);
                Takes(s, e) && In(After(s, e)) && Awaits(After(s, e), t, Supervision.Notifying(notified))
    {
      StoreHttp2(on);
      Meanwhile(removals, joining);
      notified := Reconnect(0);
    }

    method Select(id: nat)
      requires Valid()
      modifies this`pinned
      ensures Valid() && pinned == id
    {
      pinned := id;
    }

    method SetRotateInterval(secs: nat)
      requires Valid()
      modifies this`rotateSecs
      ensures Valid()
      ensures rotateSecs == 0 <==> secs == 0
      ensures secs >= 60 ==> rotateSecs == secs
      ensures 0 < secs < 60 ==> rotateSecs == 60
    {
      rotateSecs := if secs == 0 then 0 else if secs < MIN_ROTATE_SECS then MIN_ROTATE_SECS else secs;
    }

    /** The first step of add_account. */
    method ReserveId() returns (id: nat)
      requires Valid()
      modifies this`nextId
      ensures Valid() && id == old(nextId) && nextId == id + 1 && id !in Ids(workers)
      ensures forall s: Supervision.State, t: nat :: old(In(s)) && s.alive && t !in s.tasks ==>
                var e := Supervision.ReserveId(t);
                Takes(s, e) && In(After(s, e)) && Awaits(After(s, e), t, Supervision.Reserved(id))
    {
      id := nextId;
      nextId := nextId + 1;
    }

    /** add_account once the account is registered: a new, not yet connected worker under the reserved id. */
    method PushAccount(id: nat, config: nat) returns (w: Worker)
      requires Valid() && 1 <= id < nextId && id !in Ids(workers)
      modifies this`workers
      ensures Valid() && fresh(w) && workers == old(workers) + [w]
      ensures w.id == id && w.config == config && w.Slot() == Supervision.EMPTY_SLOT
      ensures forall s: Supervision.State, t: nat, origin: Supervision.Origin ::
                old(In(s)) && Awaits(s, t, Supervision.Reserved(id)) && !origin.Supervisor? ==>
                var e := Supervision.Push(t, config, origin);
                Takes(s, e) && In(After(s, e)) && Awaits(After(s, e), t, Supervision.Building(id, origin, Supervision.ReadConfig))
    {
      w := new Worker(id, config);
      workers := workers + [w];
      assert Ids(workers) == Ids(old(workers)) + [id];
      forall v | v in old(workers) ensures v.id != id {
        var i :| 0 <= i < |old(workers)| && old(workers)[i] == v;
        assert Ids(old(workers))[i] == v.id;
      }
    }

    /** Vec::retain and its checks: refused for the last account or an unknown id. */
    method Retain(id: nat) returns (ok: bool)
      requires Valid()
      modifies this`workers
      ensures Valid()
      ensures ok <==> |old(workers)| >= 2 && Find(old(workers), id).Some?
      ensures !ok ==> workers == old(workers)
      ensures ok ==> |workers| == |old(workers)| - 1 && workers != [] && Find(workers, id).None?
      ensures ok ==> forall w :: w in workers <==> w in old(workers) && w.id != id
      ensures Supervision.RemoveAccount(Ids(old(workers)), id) == if ok then Some(Ids(workers)) else None
    {
      RetainWorkersIds(workers, id);
      RetainWorkersKeep(workers, id);
      SupervisionProofs.RetainIn(Ids(workers), id);
      if Find(workers, id).None? {
        SupervisionProofs.RetainAll(Ids(workers), id);
      }
      if |workers| <= 1 {
        return false;
      }
      var before := workers;
      workers := RetainWorkers(workers, id);
      if |workers| == |before| {
        RetainedAll(before, id);
        return false;
      }
      ok := true;
    }

    /** The list half of remove_account as a step of the protocol. */
    method RemoveListed(id: nat) returns (ok: bool)
      requires Valid()
      modifies this`workers
      ensures Valid()
      ensures ok <==> |old(workers)| >= 2 && Find(old(workers), id).Some?
      ensures !ok ==> workers == old(workers)
      ensures ok ==> |workers| == |old(workers)| - 1 && workers != [] && Find(workers, id).None?
      ensures ok ==> forall w :: w in workers <==> w in old(workers) && w.id != id
      ensures forall s: Supervision.State :: old(In(s)) && s.alive ==>
                (ok <==> Takes(s, Supervision.Remove(id))) && (ok ==> In(After(s, Supervision.Remove(id))))
    {
      ok := Retain(id);
      RemoveSteps(id);
    }

    /** Removes exactly one account, never the last one; removing the pinned account unpins it. The pin is
        read and reset in two atomic accesses: `between` is a select that lands between them, if any. */
    method RemoveAccount(id: nat, between: Option<nat>) returns (ok: bool)
      requires Valid()
      modifies this`workers, this`pinned
      ensures Valid()
      ensures ok <==> |old(workers)| >= 2 && Find(old(workers), id).Some?
      ensures !ok ==> workers == old(workers) && pinned == old(pinned)
      ensures ok ==> |workers| == |old(workers)| - 1 && workers != [] && Find(workers, id).None?
      ensures ok ==> forall w :: w in workers <==> w in old(workers) && w.id != id
      ensures ok ==> pinned == if old(pinned) == id then 0 else if between.Some? then between.value else old(pinned)
      ensures forall s: Supervision.State :: old(In(s)) && s.alive ==>
                (ok <==> Takes(s, Supervision.Remove(id))) && (ok ==> In(After(s, Supervision.Remove(id))))
    {
      ok := RemoveListed(id);
      if ok {
        Unpin(id, between);
      }
    }

    /** The pin half of remove_account. */
    method Unpin(id: nat, between: Option<nat>)
      modifies this`pinned
      ensures pinned == if old(pinned) == id then 0 else if between.Some? then between.value else old(pinned)
    {
      var wasPinned := pinned == id;
      pinned := if between.Some? then between.value else pinned;
      if wasPinned {
        pinned := 0;
      }
    }
  }

  lemma RemoveSteps(id: nat)
    ensures forall s: Supervision.State :: s.alive ==>
              Supervision.Apply(s, Supervision.Remove(id)) ==
              match Supervision.RemoveAccount(s.listed, id)
              case Some(kept) => Some(s.(listed := kept))
              case None => None
  {
  }

  lemma DistinctWorkers(workers: seq<Worker>)
    requires SupervisionProofs.Distinct(Ids(workers))
    ensures forall i, j :: 0 <= i < j < |workers| ==> workers[i] != workers[j] && workers[i].id != workers[j].id
  {
    forall i, j | 0 <= i < j < |workers| ensures workers[i] != workers[j] && workers[i].id != workers[j].id {
      assert Ids(workers)[i] != Ids(workers)[j];
    }
  }

  lemma {:induction false} RetainWorkersKeep(workers: seq<Worker>, id: nat)
    ensures forall w :: w in RetainWorkers(workers, id) <==> w in workers && w.id != id
  {
    if workers != [] {
      RetainWorkersKeep(workers[1..], id);
    }
  }

  lemma {:induction false} RetainedAll(workers: seq<Worker>, id: nat)
    requires |RetainWorkers(workers, id)| >= |workers|
    ensures RetainWorkers(workers, id) == workers && Find(workers, id).None?
  {
    if workers != [] {
      RetainWorkersShort(workers[1..], id);
      RetainedAll(workers[1..], id);
    }
  }

  lemma {:induction false} RetainWorkersShort(workers: seq<Worker>, id: nat)
    ensures |RetainWorkers(workers, id)| <= |workers|
  {
    if workers != [] {
      RetainWorkersShort(workers[1..], id);
    }
  }

  // ---- the auto-rotator ---------------------------------------------------

  /** One turn of the rotator loop: the interval as read before and after the sleep. */
  datatype Tick = Tick(before: nat, after: nat)

  /** The turns among the first k that find rotation on before and after their sleep. */
  function AttemptTurns(ticks: seq<Tick>, k: nat): set<nat>
    requires k <= |ticks|
  {
    set i | 0 <= i < k && ticks[i].before != 0 && ticks[i].after != 0
  }

  /** The rotator's loop over a fixed membership; returns the ids it tried to rotate, in order. */
  method RunRotator(ids: seq<nat>, ticks: seq<Tick>, idx0: nat) returns (attempted: seq<nat>, idx: nat)
    ensures |attempted| == if ids == [] then 0
                           else |set i: nat | i < |ticks| && ticks[i].before != 0 && ticks[i].after != 0|
    ensures idx == idx0 + |attempted|
    ensures forall k :: 0 <= k < |attempted| ==> attempted[k] == ids[(idx0 + k) % |ids|]
  {
    attempted, idx := [], idx0;
    for turn := 0 to |ticks|
      invariant |attempted| == if ids == [] then 0 else |AttemptTurns(ticks, turn)|
      invariant idx == idx0 + |attempted|
      invariant forall k :: 0 <= k < |attempted| ==> attempted[k] == ids[(idx0 + k) % |ids|]
    {
      NextTurn(ticks, turn);
      if ticks[turn].before == 0 {
        continue;
      }
      if ticks[turn].after == 0 {
        continue;
      }
      if |ids| == 0 {
        continue;
      }
      attempted := attempted + [ids[idx % |ids|]];
      idx := idx + 1;
    }
    assert AttemptTurns(ticks, |ticks|) == set i: nat | i < |ticks| && ticks[i].before != 0 && ticks[i].after != 0;
  }

  lemma NextTurn(ticks: seq<Tick>, k: nat)
    requires k < |ticks|
    ensures |AttemptTurns(ticks, k + 1)| == |AttemptTurns(ticks, k)| + One(ticks[k].before != 0 && ticks[k].after != 0)
  {
    if ticks[k].before != 0 && ticks[k].after != 0 {
      assert AttemptTurns(ticks, k + 1) == AttemptTurns(ticks, k) + {k};
    } else {
      assert AttemptTurns(ticks, k + 1) == AttemptTurns(ticks, k);
    }
  }

  /** n consecutive attempts over n accounts rotate each of them exactly once. */
  lemma RotatesEachOnce(ids: seq<nat>, idx0: nat, attempted: seq<nat>)
    requires ids != [] && |attempted| == |ids|
    requires forall k :: 0 <= k < |attempted| ==> attempted[k] == ids[(idx0 + k) % |ids|]
    ensures multiset(attempted) == multiset(ids)
  {
    var n, r, q := |ids|, idx0 % |ids|, idx0 / |ids|;
    assert idx0 == q * n + r;
    forall k | 0 <= k < n ensures attempted[k] == (ids[r..] + ids[..r])[k] {
      if k < n - r {
        ModUnique(idx0 + k, q, n, r + k);
      } else {
        assert idx0 + k == (q + 1) * n + (r + k - n);
        ModUnique(idx0 + k, q + 1, n, r + k - n);
      }
    }
    assert attempted == ids[r..] + ids[..r];
    assert ids == ids[..r] + ids[r..];
  }
}
