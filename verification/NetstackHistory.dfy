/** Statements about a whole run of the actor: what holds at every event, what happens at some event. */
module NetstackHistory {
  import opened Options
  import opened Netstack

  /** A property of an event and the state it finds. */
  type Happening = (Net, Event) -> bool

  /** Every event of a run satisfies p in the state it finds. */
  ghost predicate Always(n: Net, es: seq<Event>, p: Happening) {
    forall i :: 0 <= i < |es| && Run(n, es[..i]).Some? ==> p(Run(n, es[..i]).value, es[i])
  }

  lemma AlwaysPrefix(n: Net, es: seq<Event>, p: Happening, i: nat)
    requires i <= |es| && Always(n, es, p)
    ensures Always(n, es[..i], p)
    ensures i < |es| && Run(n, es[..i]).Some? ==> p(Run(n, es[..i]).value, es[i])
  {
    forall j | 0 <= j < i && Run(n, es[..i][..j]).Some? ensures p(Run(n, es[..i][..j]).value, es[..i][j]) {
      assert es[..i][..j] == es[..j];
    }
  }

  ghost predicate HappensAt(n: Net, es: seq<Event>, i: nat, p: Happening)
    requires i < |es|
  {
    Run(n, es[..i]).Some? && p(Run(n, es[..i]).value, es[i])
  }

  /** Some event of a run satisfies p in the state it finds. */
  ghost predicate Ever(n: Net, es: seq<Event>, p: Happening) {
    exists i :: 0 <= i < |es| && HappensAt(n, es, i, p)
  }

  lemma HappensAtPrefix(n: Net, es: seq<Event>, i: nat, p: Happening)
    requires i < |es| - 1
    ensures HappensAt(n, es[..|es| - 1], i, p) <==> HappensAt(n, es, i, p)
  {
    assert es[..|es| - 1][..i] == es[..i];
  }

  lemma EverStep(n: Net, es: seq<Event>, p: Happening, mid: Net)
    requires es != [] && Run(n, es[..|es| - 1]) == Some(mid)
    ensures Ever(n, es, p) <==> Ever(n, es[..|es| - 1], p) || p(mid, es[|es| - 1])
  {
    var last := |es| - 1;
    assert HappensAt(n, es, last, p) <==> p(mid, es[last]);
    if Ever(n, es[..last], p) {
      var i :| 0 <= i < last && HappensAt(n, es[..last], i, p);
      HappensAtPrefix(n, es, i, p);
    }
    if Ever(n, es, p) {
      var i :| 0 <= i < |es| && HappensAt(n, es, i, p);
      if i < last {
        HappensAtPrefix(n, es, i, p);
      }
    }
  }

  lemma LastSplit(es: seq<Event>)
    requires es != []
    ensures es[..|es| - 1] + [es[|es| - 1]] == es
  {
  }

  lemma {:induction false} RunPrefix(n: Net, es: seq<Event>, i: nat)
    requires i <= |es| && Run(n, es).Some?
    ensures Run(n, es[..i]).Some?
    ensures i < |es| ==> Apply(Run(n, es[..i]).value, es[i]) == Run(n, es[..i + 1])
    decreases |es|
  {
    var last := |es| - 1;
    if i == |es| {
      assert es[..i] == es;
    } else if i == last {
      assert es[..i + 1] == es;
    } else {
      RunPrefix(n, es[..last], i);
      assert es[..last][..i] == es[..i] && es[..last][..i + 1] == es[..i + 1];
    }
  }
}
