/** The round-robin choice of pick and how it shares connections out. */
module LoadBalancer {
  import opened Options
  import opened Arithmetic

  /** rr and the index sums are machine words that wrap. */
  const WORD: nat := 0x1_0000_0000_0000_0000

  /** Whether the worker at cyclic position k is ready. */
  predicate Up(ready: seq<bool>, k: nat)
    requires 0 < |ready|
  {
    ready[k % |ready|]
  }

  /** The first ready worker among the `left` cyclic positions from k on. */
  function Scan(ready: seq<bool>, k: nat, left: nat): Option<nat>
    requires 0 < |ready|
    decreases left
  {
    if left == 0 then None
    else if Up(ready, k) then Some(k % |ready|)
    else Scan(ready, k + 1, left - 1)
  }

  /** The vector index of pick's probe at offset `off`, on words that wrap. */
  function Probe(start: nat, off: nat, n: nat): (i: nat)
    requires n > 0
    ensures i < n
  {
    (start + off) % WORD % n
  }

  /** pick's search from offset `off` on. */
  function WordScan(ready: seq<bool>, start: nat, off: nat): (i: Option<nat>)
    requires off <= |ready|
    ensures i.Some? ==> i.value < |ready| && ready[i.value]
    decreases |ready| - off
  {
    if off == |ready| then None
    else if ready[Probe(start, off, |ready|)] then Some(Probe(start, off, |ready|))
    else WordScan(ready, start, off + 1)
  }

  /** The choice of the k-th pick ever, rr having wrapped as often as it had to. */
  function Picked(ready: seq<bool>, k: nat): Option<nat> {
    WordScan(ready, k % WORD, 0)
  }

  /** How many of the m picks from the r-th on choose worker j. */
  function Share(ready: seq<bool>, r: nat, m: nat, j: nat): nat {
    if m == 0 then 0
    else Share(ready, r, m - 1, j) + if Picked(ready, r + m - 1) == Some(j) then 1 else 0
  }

  /** The length of the cyclic run of down workers just before j, once d of them are known. */
  function DownRun(ready: seq<bool>, j: nat, d: nat): nat
    requires j < |ready| && d < |ready|
    decreases |ready| - d
  {
    if d + 1 == |ready| || Up(ready, j + |ready| - 1 - d) then d else DownRun(ready, j, d + 1)
  }

  // ---- modular arithmetic -------------------------------------------------

  lemma ModMod(a: nat, n: nat, w: nat)
    requires n > 0 && w > 0 && w % n == 0
    ensures a % w % n == a % n
  {
    var q, p := a / w, w / n;
    assert a == a % w + q * w && w == p * n;
    assert q * w == (q * p) * n;
    ModAdd(a % w, n, q * p);
  }

  lemma ModPlus(a: nat, b: nat, n: nat)
    requires n > 0
    ensures (a % n + b) % n == (a + b) % n
  {
    ModAdd(a % n + b, n, a / n);
    assert a + b == (a % n + b) + (a / n) * n;
  }

  // ---- one choice ---------------------------------------------------------

  /** Everything before position m is down and m is up: the search stops exactly at m. */
  lemma {:induction false} ScanFinds(ready: seq<bool>, k: nat, left: nat, m: nat)
    requires 0 < |ready| && k <= m < k + left && Up(ready, m)
    requires forall p :: k <= p < m ==> !Up(ready, p)
    ensures Scan(ready, k, left) == Some(m % |ready|)
    decreases m - k
  {
    if k < m {
      ScanFinds(ready, k + 1, left - 1, m);
    }
  }

  /** An up position m makes the search stop at m or earlier. */
  lemma {:induction false} ScanStops(ready: seq<bool>, k: nat, left: nat, m: nat) returns (p: nat)
    requires 0 < |ready| && k <= m < k + left && Up(ready, m)
    ensures k <= p <= m && Scan(ready, k, left) == Some(p % |ready|)
    decreases m - k
  {
    if Up(ready, k) {
      p := k;
    } else {
      p := ScanStops(ready, k + 1, left - 1, m);
    }
  }

  lemma {:induction false} ScanPeriodic(ready: seq<bool>, k: nat, k': nat, left: nat)
    requires 0 < |ready| && k % |ready| == k' % |ready|
    ensures Scan(ready, k, left) == Scan(ready, k', left)
    decreases left
  {
    if left > 0 {
      ModPlus(k, 1, |ready|);
      ModPlus(k', 1, |ready|);
      ScanPeriodic(ready, k + 1, k' + 1, left - 1);
    }
  }

  lemma ProbeIs(start: nat, off: nat, n: nat)
    requires n > 0 && (start + off < WORD || WORD % n == 0)
    ensures Probe(start, off, n) == (start + off) % n
  {
    if start + off < WORD {
      ModUnique(start + off, 0, WORD, start + off);
    } else {
      ModMod(start + off, n, WORD);
    }
  }

  lemma {:induction false} WordScanIs(ready: seq<bool>, start: nat, off: nat)
    requires off <= |ready| && 0 < |ready|
    requires start + |ready| <= WORD || WORD % |ready| == 0
    ensures WordScan(ready, start, off) == Scan(ready, start + off, |ready| - off)
    decreases |ready| - off
  {
    if off < |ready| {
      ProbeIs(start, off, |ready|);
      WordScanIs(ready, start, off + 1);
    }
  }

  /** Without wrap-around, or with a worker count dividing the word size, words do not matter. */
  lemma PickedIs(ready: seq<bool>, k: nat)
    requires 0 < |ready| && (k + |ready| <= WORD || WORD % |ready| == 0)
    ensures Picked(ready, k) == Scan(ready, k, |ready|)
  {
    WordScanIs(ready, k % WORD, 0);
    if WORD % |ready| == 0 {
      ModMod(k, |ready|, WORD);
      ScanPeriodic(ready, k % WORD, k, |ready|);
    }
  }

  lemma {:induction false} DownRunSpec(ready: seq<bool>, j: nat, d: nat)
    requires j < |ready| && d < |ready|
    requires forall p :: j + |ready| - d <= p < j + |ready| ==> !Up(ready, p)
    ensures d <= DownRun(ready, j, d) < |ready|
    ensures forall p :: j + |ready| - DownRun(ready, j, d) <= p < j + |ready| ==> !Up(ready, p)
    ensures DownRun(ready, j, d) + 1 == |ready| || Up(ready, j + |ready| - 1 - DownRun(ready, j, d))
    decreases |ready| - d
  {
    if d + 1 < |ready| && !Up(ready, j + |ready| - 1 - d) {
      DownRunSpec(ready, j, d + 1);
    }
  }

  /** Positions j+1 .. j+n-1 are not j's. */
  lemma NotBack(n: nat, j: nat, p: nat)
    requires j < n && j < p < j + n
    ensures p % n != j
  {
    if p < n {
      ModUnique(p, 0, n, p);
    } else {
      ModUnique(p, 1, n, p - n);
    }
  }

  /** A search that starts d places before ready worker j ends at j iff those d places are all down. */
  lemma ChosenIff(ready: seq<bool>, j: nat, d: nat)
    requires j < |ready| && d < |ready| && ready[j]
    ensures Scan(ready, j + |ready| - d, |ready|) == Some(j) <==> d <= DownRun(ready, j, 0)
  {
    var n, run := |ready|, DownRun(ready, j, 0);
    DownRunSpec(ready, j, 0);
    ModUnique(j + n, 1, n, j);
    if d <= run {
      ScanFinds(ready, j + n - d, n, j + n);
    } else {
      var p := ScanStops(ready, j + n - d, n, j + n - 1 - run);
      NotBack(n, j, p);
    }
  }

  // ---- shares of a window -------------------------------------------------

  /** Share without the word arithmetic. */
  function NatShare(ready: seq<bool>, r: nat, m: nat, j: nat): nat
    requires 0 < |ready|
  {
    if m == 0 then 0
    else NatShare(ready, r, m - 1, j) + if Scan(ready, r + m - 1, |ready|) == Some(j) then 1 else 0
  }

  lemma {:induction false} ShareIs(ready: seq<bool>, r: nat, m: nat, j: nat)
    requires 0 < |ready| && (r + m + |ready| <= WORD + 1 || WORD % |ready| == 0)
    ensures Share(ready, r, m, j) == NatShare(ready, r, m, j)
  {
    if m > 0 {
      ShareIs(ready, r, m - 1, j);
      PickedIs(ready, r + m - 1);
    }
  }

  lemma {:induction false} ShareHead(ready: seq<bool>, r: nat, m: nat, j: nat)
    requires 0 < |ready|
    ensures NatShare(ready, r, m + 1, j)
         == (if Scan(ready, r, |ready|) == Some(j) then 1 else 0) + NatShare(ready, r + 1, m, j)
  {
    if m > 0 {
      ShareHead(ready, r, m - 1, j);
    }
  }

  /** A window of n picks can be moved anywhere: what leaves at one end comes back at the other. */
  lemma {:induction false} ShareAnywhere(ready: seq<bool>, r: nat, j: nat)
    requires 0 < |ready|
    ensures NatShare(ready, r, |ready|, j) == NatShare(ready, 0, |ready|, j)
  {
    if r > 0 {
      ShareAnywhere(ready, r - 1, j);
      ShareHead(ready, r - 1, |ready|, j);
      ModAdd(r - 1, |ready|, 1);
      ScanPeriodic(ready, r - 1 + |ready|, r - 1, |ready|);
    }
  }

  /** In the window that starts just after j, exactly the last run + 1 picks choose j. */
  lemma {:induction false} ShareAfter(ready: seq<bool>, j: nat, m: nat)
    requires j < |ready| && ready[j] && m <= |ready|
    ensures var quiet := |ready| - 1 - DownRun(ready, j, 0);
            NatShare(ready, j + 1, m, j) == if m <= quiet then 0 else m - quiet
  {
    DownRunSpec(ready, j, 0);
    if m > 0 {
      ShareAfter(ready, j, m - 1);
      ChosenIff(ready, j, |ready| - m);
    }
  }

  /** A window without a wrap inside counts alike in every lap of rr. */
  lemma {:induction false} ShareLap(ready: seq<bool>, r: nat, lap: nat, m: nat, j: nat)
    requires lap == r % WORD && lap + m <= WORD
    ensures Share(ready, r, m, j) == Share(ready, lap, m, j)
  {
    if m > 0 {
      ShareLap(ready, r, lap, m - 1, j);
      SameLap(ready, r, lap, m - 1);
    }
  }

  lemma SameLap(ready: seq<bool>, r: nat, lap: nat, d: nat)
    requires lap == r % WORD && lap + d < WORD
    ensures Picked(ready, r + d) == Picked(ready, lap + d)
  {
    ModPlus(r, d, WORD);
  }

  /** Exact load-balancing counts: n consecutive picks over n workers choose ready worker j
      exactly once for itself and once for every down worker in the run just before it. */
  lemma FairShare(ready: seq<bool>, r: nat, j: nat)
    requires j < |ready| && ready[j]
    requires r % WORD + 2 * |ready| <= WORD + 1 || WORD % |ready| == 0
    ensures Share(ready, r, |ready|, j) == 1 + DownRun(ready, j, 0)
  {
    var from := r;
    if r % WORD + 2 * |ready| <= WORD + 1 {
      from := r % WORD;
      ShareLap(ready, r, from, |ready|, j);
    }
    DownRunSpec(ready, j, 0);
    ShareIs(ready, from, |ready|, j);
    ShareAnywhere(ready, from, j);
    ShareAnywhere(ready, j + 1, j);
    ShareAfter(ready, j, |ready|);
  }

  // ---- probes while workers go up and down --------------------------------

  /** What the workers' locks show at successive moments: views[k][i] is worker i's netstack, if up. */
  ghost predicate IsViews(views: seq<seq<Option<nat>>>, n: nat) {
    |views| == n + 1 && forall k :: 0 <= k <= n ==> |views[k]| == n
  }

  /** pick's search from offset `off` on, its probe at offset off looking at moment off + 1. */
  ghost function LiveScan(views: seq<seq<Option<nat>>>, n: nat, start: nat, off: nat): Option<nat>
    requires IsViews(views, n) && off <= n
    decreases n - off
  {
    if off == n then None
    else if views[off + 1][Probe(start, off, n)].Some? then views[off + 1][Probe(start, off, n)]
    else LiveScan(views, n, start, off + 1)
  }

  function UpIn(nets: seq<Option<nat>>): (ready: seq<bool>)
    ensures |ready| == |nets| && forall i :: 0 <= i < |nets| ==> ready[i] == nets[i].Some?
  {
    seq(|nets|, i requires 0 <= i < |nets| => nets[i].Some?)
  }

  /** What probe o sees: the worker at index (start + o) mod 2^64 mod n, at its moment. */
  ghost function Sees(views: seq<seq<Option<nat>>>, n: nat, start: nat, o: nat): Option<nat>
    requires IsViews(views, n) && o < n
  {
    views[o + 1][(start + o) % 0x1_0000_0000_0000_0000 % n]
  }

  /** The search probe by probe: it returns what the first probe that found somebody up saw, and nothing
      if none did. */
  lemma {:induction false} LiveScanIs(views: seq<seq<Option<nat>>>, n: nat, start: nat, off: nat)
    requires IsViews(views, n) && off <= n
    ensures match LiveScan(views, n, start, off)
            case Some(net) => exists o :: off <= o < n && Sees(views, n, start, o) == Some(net) &&
                                          forall p :: off <= p < o ==> Sees(views, n, start, p).None?
            case None => forall p :: off <= p < n ==> Sees(views, n, start, p).None?
    decreases n - off
  {
    if off < n {
      LiveScanIs(views, n, start, off + 1);
      if Sees(views, n, start, off).Some? {
        assert LiveScan(views, n, start, off) == Sees(views, n, start, off);
      }
    }
  }

  /** Nobody goes up or down during the call. */
  ghost predicate Steady(views: seq<seq<Option<nat>>>, n: nat)
    requires IsViews(views, n)
  {
    forall k :: 0 <= k <= n ==> views[k] == views[0]
  }

  /** Worker i is down at some moment of the call. */
  ghost predicate SeenDown(views: seq<seq<Option<nat>>>, n: nat, i: nat)
    requires IsViews(views, n) && i < n
  {
    exists k :: 0 <= k <= n && views[k][i].None?
  }

  /** The choice on a fixed ready set. */
  function SteadyChoice(nets: seq<Option<nat>>, start: nat, off: nat): Option<nat>
    requires off <= |nets|
  {
    match WordScan(UpIn(nets), start, off)
    case Some(i) => nets[i]
    case None => None
  }

  /** No two workers that are up share a netstack. */
  ghost predicate Apart(nets: seq<Option<nat>>) {
    forall i, j :: 0 <= i < j < |nets| && nets[i].Some? ==> nets[i] != nets[j]
  }

  /** How often a netstack was picked. */
  function Times(picked: seq<Option<nat>>, net: Option<nat>): nat {
    if picked == [] then 0 else Times(picked[..|picked| - 1], net) + One(picked[|picked| - 1] == net)
  }

  lemma ChoiceIs(nets: seq<Option<nat>>, k: nat, j: nat)
    requires Apart(nets) && j < |nets| && nets[j].Some?
    ensures SteadyChoice(nets, k % WORD, 0) == nets[j] <==> Picked(UpIn(nets), k) == Some(j)
  {
    var choice := WordScan(UpIn(nets), k % WORD, 0);
    if choice.Some? && choice.value != j {
      assert nets[choice.value].Some? && nets[choice.value] != nets[j];
    }
  }

  /** What successive calls return is what Share counts. */
  lemma {:induction false} TimesIsShare(nets: seq<Option<nat>>, picked: seq<Option<nat>>, r: nat, j: nat)
    requires Apart(nets) && j < |nets| && nets[j].Some?
    requires forall k :: 0 <= k < |picked| ==> picked[k] == SteadyChoice(nets, (r + k) % WORD, 0)
    ensures Times(picked, nets[j]) == Share(UpIn(nets), r, |picked|, j)
    decreases |picked|
  {
    if picked != [] {
      var last := |picked| - 1;
      TimesIsShare(nets, picked[..last], r, j);
      ChoiceIs(nets, r + last, j);
    }
  }

  lemma {:induction false} SteadyScan(views: seq<seq<Option<nat>>>, n: nat, start: nat, off: nat)
    requires IsViews(views, n) && off <= n && Steady(views, n)
    ensures LiveScan(views, n, start, off) == SteadyChoice(views[0], start, off)
    decreases n - off
  {
    if off < n {
      SteadyScan(views, n, start, off + 1);
    }
  }

  lemma {:induction false} MissedAll(views: seq<seq<Option<nat>>>, n: nat, start: nat, off: nat, o: nat)
    requires IsViews(views, n) && off <= o < n && LiveScan(views, n, start, off).None?
    ensures views[o + 1][Probe(start, o, n)].None?
    decreases n - off
  {
    if off < o {
      MissedAll(views, n, start, off + 1, o);
    }
  }

  /** An empty search has found every single worker down at some moment of the call, unless it wraps. */
  lemma EmptyMeansSeenDown(views: seq<seq<Option<nat>>>, n: nat, start: nat)
    requires IsViews(views, n) && n > 0 && (start + n <= WORD || WORD % n == 0)
    requires LiveScan(views, n, start, 0).None?
    ensures forall i :: 0 <= i < n ==> SeenDown(views, n, i)
  {
    forall i | 0 <= i < n ensures SeenDown(views, n, i) {
      var p := Occurrence(start, n, i);
      ProbeIs(start, p - start, n);
      MissedAll(views, n, start, 0, p - start);
      assert views[p - start + 1][i].None?;
    }
  }

  lemma NextStart(k: nat)
    ensures (k % WORD + 0) % WORD == k % WORD && (k % WORD + 1) % WORD == (k + 1) % WORD
  {
    ModPlus(k, 0, WORD);
    ModPlus(k, 1, WORD);
  }

  /** Fairness of the calls themselves: over n workers n calls return each ready one's netstack exactly
      once for itself and once for every down worker in the run just before it. */
  lemma FairTimes(nets: seq<Option<nat>>, picked: seq<Option<nat>>, r: nat)
    requires Apart(nets) && r < WORD && nets != []
    requires forall k :: 0 <= k < |picked| ==> picked[k] == SteadyChoice(nets, (r + k) % WORD, 0)
    ensures forall j :: 0 <= j < |nets| && nets[j].Some? ==> Times(picked, nets[j]) == Share(UpIn(nets), r, |picked|, j)
    ensures |picked| == |nets| && (r + 2 * |nets| <= WORD + 1 || WORD % |nets| == 0) ==>
              forall j :: 0 <= j < |nets| && nets[j].Some? ==> Times(picked, nets[j]) == 1 + DownRun(UpIn(nets), j, 0)
  {
    forall j | 0 <= j < |nets| && nets[j].Some? ensures Times(picked, nets[j]) == Share(UpIn(nets), r, |picked|, j) {
      TimesIsShare(nets, picked, r, j);
    }
    if |picked| == |nets| && (r + 2 * |nets| <= WORD + 1 || WORD % |nets| == 0) {
      forall j | 0 <= j < |nets| && nets[j].Some? ensures Times(picked, nets[j]) == 1 + DownRun(UpIn(nets), j, 0) {
        ModUnique(r, 0, WORD, r);
        FairShare(UpIn(nets), r, j);
      }
    }
  }

  // ---- exactly when wrap-around is harmless -------------------------------

  lemma {:induction false} TwoPicks(ready: seq<bool>, r: nat, m: nat, j: nat, k: nat, l: nat)
    requires r <= k <= l < r + m && Picked(ready, k) == Some(j) && Picked(ready, l) == Some(j)
    ensures Share(ready, r, m, j) >= if k < l then 2 else 1
  {
    if l == r + m - 1 {
      if k < l {
        TwoPicks(ready, r, m - 1, j, k, k);
      }
    } else {
      TwoPicks(ready, r, m - 1, j, k, l);
    }
  }

  ghost predicate AlwaysFair(n: nat) {
    forall ready: seq<bool>, r: nat, j: nat ::
      |ready| == n && j < n && ready[j] ==> Share(ready, r, n, j) == 1 + DownRun(ready, j, 0)
  }

  /** Across the wrap of rr the counts stay exact iff the number of workers divides 2^64. */
  lemma FairAcrossWrap(n: nat)
    requires 0 < n <= WORD
    ensures AlwaysFair(n) <==> WORD % n == 0
  {
    if WORD % n == 0 {
      forall ready: seq<bool>, r: nat, j: nat | |ready| == n && j < n && ready[j]
        ensures Share(ready, r, n, j) == 1 + DownRun(ready, j, 0)
      {
        FairShare(ready, r, j);
      }
    } else {
      UnfairAcrossWrap(n);
    }
  }

  /** All workers up: the picks just before and after the wrap choose one worker twice. */
  lemma UnfairAcrossWrap(n: nat)
    requires 0 < n <= WORD && WORD % n != 0
    ensures !AlwaysFair(n)
  {
    var ready := seq(n, i => true);
    var j := (WORD - 1) % n;
    LastBeforeWrap(n, j);
    ModUnique(WORD + j, 1, WORD, j);
    ModUnique(j, 0, n, j);
    assert Picked(ready, WORD - 1) == Some(j);
    assert Picked(ready, WORD + j) == Some(j);
    TwoPicks(ready, WORD - 1, n, j, WORD - 1, WORD + j);
    assert |ready| == n && ready[j] && DownRun(ready, j, 0) == 0;
  }

  lemma LastBeforeWrap(n: nat, j: nat)
    requires 0 < n <= WORD && j == (WORD - 1) % n && WORD % n != 0
    ensures j + 1 < n
  {
    if j + 1 == n {
      ModUnique(WORD, (WORD - 1) / n + 1, n, 0);
    }
  }

  // ---- exactly when a search reaches every worker -------------------------

  /** A search from `start` can only come back empty when every worker is down. */
  ghost predicate ReachesAll(n: nat, start: nat) {
    forall ready: seq<bool> :: |ready| == n && WordScan(ready, start, 0).None? ==> forall i :: 0 <= i < n ==> !ready[i]
  }

  /** In machine words the search skips somebody iff it wraps and n does not divide 2^64. */
  lemma SearchReachesAll(n: nat, start: nat)
    requires 0 < n <= WORD && start < WORD
    ensures ReachesAll(n, start) <==> start + n <= WORD || WORD % n == 0
  {
    if start + n <= WORD || WORD % n == 0 {
      forall ready: seq<bool>, i: nat | |ready| == n && WordScan(ready, start, 0).None? && i < n ensures !ready[i] {
        WordScanIs(ready, start, 0);
        var p := Occurrence(start, n, i);
        if ready[i] {
          var q := ScanStops(ready, start, n, p);
        }
      }
    } else {
      var u := Skipped(n, start);
      var ready := seq(n, i => i == u);
      forall off | 0 <= off < n ensures !ready[Probe(start, off, n)] {
        SkippedIsSkipped(n, start, off);
      }
      WordScanMisses(ready, start, 0);
      assert |ready| == n && ready[u];
    }
  }

  /** Every index occurs among n consecutive positions. */
  lemma Occurrence(start: nat, n: nat, i: nat) returns (p: nat)
    requires i < n
    ensures start <= p < start + n && p % n == i
  {
    var c, q := start % n, start / n;
    assert start == q * n + c;
    if c <= i {
      p := start + (i - c);
      ModUnique(p, q, n, i);
    } else {
      p := start + (i + n - c);
      assert p == (q + 1) * n + i;
      ModUnique(p, q + 1, n, i);
    }
  }

  lemma {:induction false} WordScanMisses(ready: seq<bool>, start: nat, off: nat)
    requires off <= |ready| && forall o :: off <= o < |ready| ==> !ready[Probe(start, o, |ready|)]
    ensures WordScan(ready, start, off).None?
    decreases |ready| - off
  {
    if off < |ready| {
      WordScanMisses(ready, start, off + 1);
    }
  }

  /** The worker a wrapping search overlooks. */
  function Skipped(n: nat, start: nat): (u: nat)
    requires 0 < n <= WORD && start < WORD < start + n
    ensures u < n
  {
    var c, left := WORD % n, n - (WORD - start);
    if c > left then c else left
  }

  lemma SkippedIsSkipped(n: nat, start: nat, off: nat)
    requires 0 < n <= WORD && start < WORD < start + n && WORD % n != 0 && off < n
    ensures Probe(start, off, n) != Skipped(n, start)
  {
    var c, q := WORD % n, WORD / n;
    assert WORD == q * n + c;
    if start + off < WORD {
      ProbeIs(start, off, n);
      var i := WORD - (start + off);
      if i <= c {
        ModUnique(start + off, q, n, c - i);
      } else {
        assert start + off == (q - 1) * n + (c + n - i);
        ModUnique(start + off, q - 1, n, c + n - i);
      }
    } else {
      ModUnique(start + off, 1, WORD, start + off - WORD);
      ModUnique(start + off - WORD, 0, n, start + off - WORD);
    }
  }
}
