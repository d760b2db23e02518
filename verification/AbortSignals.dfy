/** Abort signals, and controllers linked to them (packages/dubbo/src/protocol/signals.ts). The signal
    objects live in one heap, addressed by number; dispatch follows the DOM standard's "fire an event":
    the listeners are those present when the event fires, skipping any removed meanwhile. */
module AbortSignals {
  import opened Common
  import opened Errors

  type Id = nat

  /** A signal: why it was aborted, the linked controllers listening on it (by their own signal), and for a
      linked controller's signal the signals it was created from. */
  datatype Signal = Signal(reason: Option<Reason>, listeners: seq<Id>, sources: Option<seq<Id>>)

  /** The list without one element. */
  function Without(l: seq<Id>, y: Id): (r: seq<Id>)
    ensures forall z :: z in r <==> z in l && z != y
    ensures y !in l ==> r == l
  {
    if l == [] then []
    else
      var rest := Without(l[1..], y);
      assert l == [l[0]] + l[1..];
      if l[0] == y then rest else [l[0]] + rest
  }

  /** `y` is linked to `x`. */
  predicate Linked(s: map<Id, Signal>, x: Id, y: Id) {
    y in s && s[y].sources.Some? && x in s[y].sources.value
  }

  predicate Aborted(s: map<Id, Signal>, x: Id) {
    x in s && s[x].reason.Some?
  }

  /** `p` follows links from its first element to its last. */
  ghost predicate IsPath(s: map<Id, Signal>, p: seq<Id>) {
    p != [] && forall i | 0 <= i < |p| - 1 :: Linked(s, p[i], p[i + 1])
  }

  /** `z` can be reached from `x` over links. */
  ghost predicate Reaches(s: map<Id, Signal>, x: Id, z: Id) {
    exists p :: IsPath(s, p) && p[0] == x && p[|p| - 1] == z
  }

  /** Only reasons and listeners differ. */
  ghost predicate SameLinks(s: map<Id, Signal>, t: map<Id, Signal>) {
    s.Keys == t.Keys && forall x | x in s :: s[x].sources == t[x].sources
  }

  lemma ReachesSelf(s: map<Id, Signal>, x: Id)
    ensures Reaches(s, x, x)
  {
    var p := [x];
    assert IsPath(s, p) && p[0] == x && p[|p| - 1] == x;
  }

  lemma ReachesThrough(s: map<Id, Signal>, x: Id, y: Id, z: Id)
    requires Linked(s, x, y) && Reaches(s, y, z)
    ensures Reaches(s, x, z)
  {
    var p :| IsPath(s, p) && p[0] == y && p[|p| - 1] == z;
    var q := [x] + p;
    forall i | 0 <= i < |q| - 1 ensures Linked(s, q[i], q[i + 1]) {
      if i > 0 {
        assert q[i] == p[i - 1] && q[i + 1] == p[i];
      }
    }
    assert IsPath(s, q) && q[0] == x && q[|q| - 1] == z;
  }

  lemma ReachesSame(s: map<Id, Signal>, t: map<Id, Signal>, x: Id, z: Id)
    requires SameLinks(s, t) && Reaches(s, x, z)
    ensures Reaches(t, x, z)
  {
    var p :| IsPath(s, p) && p[0] == x && p[|p| - 1] == z;
    forall i | 0 <= i < |p| - 1 ensures Linked(t, p[i], p[i + 1]) {
      assert Linked(s, p[i], p[i + 1]);
    }
    assert IsPath(t, p);
  }

  /** A set that contains `x` and follows its links contains everything reachable. */
  lemma {:induction false} ClosedUnderReach(s: map<Id, Signal>, a: set<Id>, p: seq<Id>)
    requires IsPath(s, p) && p[0] in a
    requires forall u, v | u in a && Linked(s, u, v) :: v in a
    ensures p[|p| - 1] in a
    decreases |p|
  {
    if |p| > 1 {
      assert Linked(s, p[0], p[1]);
      var q := p[1..];
      forall i | 0 <= i < |q| - 1 ensures Linked(s, q[i], q[i + 1]) {
        assert Linked(s, p[i + 1], p[i + 1 + 1]);
      }
      ClosedUnderReach(s, a, q);
    }
  }

  /** A link from `x` to `y`: while `y` is live it listens on `x`, and `x` is live or busy. */
  ghost predicate LinkHolds(s: map<Id, Signal>, busy: set<Id>, x: Id, y: Id) {
    && x in s
    && (!Aborted(s, y) ==> y in s[x].listeners && (Aborted(s, x) ==> x in busy))
  }

  /** A listener of `y` on `x`: `y` is a linked controller, live or busy, that also listens on itself. */
  ghost predicate ListenerHolds(s: map<Id, Signal>, busy: set<Id>, x: Id, y: Id) {
    && y in s && s[y].sources.Some?
    && (Linked(s, x, y) || x == y)
    && (Aborted(s, y) ==> y in busy)
    && y in s[y].listeners
  }

  /** Well-formedness while the dispatch of the signals in `busy` is under way. */
  ghost predicate Consistent(s: map<Id, Signal>, busy: set<Id>) {
    && (forall x, y | Linked(s, x, y) :: LinkHolds(s, busy, x, y))
    && (forall y | y in s && s[y].sources.Some? && !Aborted(s, y) :: y in s[y].listeners)
    && (forall x, y | x in s && y in s[x].listeners :: ListenerHolds(s, busy, x, y))
  }

  /** What aborting has done so far, from `s` to `t`: only reasons added, all equal to `r`, only to
      signals reachable from `x`; and only listeners removed. */
  ghost predicate Progress(s: map<Id, Signal>, t: map<Id, Signal>, x: Id, r: Reason) {
    && SameLinks(s, t)
    && (forall z | Aborted(s, z) :: t[z].reason == s[z].reason)
    && (forall z | Aborted(t, z) && !Aborted(s, z) :: t[z].reason == Some(r) && Reaches(s, x, z))
    && (forall u, z | u in s && z in t[u].listeners :: z in s[u].listeners)
  }

  /** Every signal aborted between `s` and `t`, other than `x`, has all its linked controllers aborted. */
  ghost predicate Propagated(s: map<Id, Signal>, t: map<Id, Signal>, except_: set<Id>) {
    forall u, v | Aborted(t, u) && !Aborted(s, u) && u !in except_ && Linked(t, u, v) :: Aborted(t, v)
  }

  function Live(s: map<Id, Signal>): set<Id> {
    set x | x in s && s[x].reason.None?
  }

  lemma ProgressTransitive(s: map<Id, Signal>, t: map<Id, Signal>, u: map<Id, Signal>, x: Id, y: Id, r: Reason)
    requires Progress(s, t, x, r) && Progress(t, u, y, r) && Reaches(s, x, y)
    requires x == y || Linked(s, x, y)
    ensures Progress(s, u, x, r)
  {
    forall z | Aborted(u, z) && !Aborted(s, z) ensures u[z].reason == Some(r) && Reaches(s, x, z) {
      if !Aborted(t, z) {
        ReachesSame(t, s, y, z);
        if x != y {
          ReachesThrough(s, x, y, z);
        }
      }
    }
  }

  lemma ReachesListener(s: map<Id, Signal>, t: map<Id, Signal>, x: Id, y: Id)
    requires SameLinks(s, t) && (Linked(t, x, y) || x == y)
    ensures Reaches(s, x, y) && (x == y || Linked(s, x, y))
  {
    ReachesSelf(s, y);
    if x != y {
      ReachesThrough(s, x, y, y);
    }
  }

  /** Adding an unlinked controller. */
  lemma PlainAdded(s: map<Id, Signal>, c: Id)
    requires Consistent(s, {}) && c !in s
    ensures Consistent(s[c := Signal(None, [], None)], {})
  {
    var t := s[c := Signal(None, [], None)];
    forall x, y | Linked(t, x, y) ensures LinkHolds(t, {}, x, y) {
      assert Linked(s, x, y) && LinkHolds(s, {}, x, y);
    }
    forall x, y | x in t && y in t[x].listeners ensures ListenerHolds(t, {}, x, y) {
      assert ListenerHolds(s, {}, x, y);
      assert Linked(s, x, y) ==> Linked(t, x, y);
    }
  }

  /** The signal `x` aborted, before its listeners run. */
  function Marked(s: map<Id, Signal>, x: Id, r: Reason): map<Id, Signal>
    requires x in s
  {
    s[x := s[x].(reason := Some(r))]
  }

  lemma MarkedIsConsistent(s: map<Id, Signal>, x: Id, r: Reason, busy: set<Id>)
    requires Consistent(s, busy) && x in s && !Aborted(s, x)
    ensures var t := Marked(s, x, r);
      Consistent(t, busy + {x}) && Progress(s, t, x, r) && Propagated(s, t, {x}) && Live(t) < Live(s)
  {
    var t := Marked(s, x, r);
    forall u, v | Linked(t, u, v) ensures LinkHolds(t, busy + {x}, u, v) {
      assert Linked(s, u, v) && LinkHolds(s, busy, u, v);
    }
    forall u, v | u in t && v in t[u].listeners ensures ListenerHolds(t, busy + {x}, u, v) {
      assert ListenerHolds(s, busy, u, v);
      assert Linked(s, u, v) ==> Linked(t, u, v);
    }
    ReachesSelf(s, x);
    assert x in Live(s) && x !in Live(t);
  }

  lemma PropagatedTransitive(s: map<Id, Signal>, t: map<Id, Signal>, u: map<Id, Signal>, x: Id, y: Id, r: Reason)
    requires Progress(s, t, x, r) && Progress(t, u, y, r)
    requires Propagated(s, t, {x}) && Propagated(t, u, {})
    ensures Propagated(s, u, {x})
  {
    forall a, b | Aborted(u, a) && !Aborted(s, a) && a != x && Linked(u, a, b) ensures Aborted(u, b) {
      if Aborted(t, a) {
        assert Linked(t, a, b);
        assert Aborted(t, b);
      }
    }
  }

  /** When the dispatch has left no listener on `x`, `x` is no longer busy: everything linked to it is
      aborted and nothing of its own controller is registered anywhere. */
  lemma DispatchDone(s: map<Id, Signal>, t: map<Id, Signal>, x: Id, busy: set<Id>)
    requires Consistent(t, busy + {x}) && x in t && Aborted(t, x) && x !in busy
    requires forall y :: y !in t[x].listeners
    requires Propagated(s, t, {x})
    ensures Consistent(t, busy) && Propagated(s, t, {})
    ensures forall z | z in t :: x !in t[z].listeners
  {
    forall z | z in t ensures x !in t[z].listeners {
      assert x in t[z].listeners ==> ListenerHolds(t, busy + {x}, z, x);
    }
    forall v | Linked(t, x, v) ensures Aborted(t, v) {
      assert LinkHolds(t, busy + {x}, x, v);
    }
    forall u, v | Linked(t, u, v) ensures LinkHolds(t, busy, u, v) {
      assert LinkHolds(t, busy + {x}, u, v);
    }
    forall u, v | u in t && v in t[u].listeners ensures ListenerHolds(t, busy, u, v) {
      assert ListenerHolds(t, busy + {x}, u, v);
    }
  }

  /** The controller of an aborted signal takes its listeners off every source. */
  lemma ListenersRemoved(s: map<Id, Signal>, t: map<Id, Signal>, y: Id, busy: set<Id>)
    requires Consistent(s, busy) && Aborted(s, y) && t.Keys == s.Keys
    requires forall x | x in s :: t[x] == s[x].(listeners := Without(s[x].listeners, y))
    ensures Consistent(t, busy) && SameLinks(s, t)
    ensures forall z | z in t :: y !in t[z].listeners
    ensures forall z :: Aborted(t, z) <==> Aborted(s, z)
  {
    forall u, v | Linked(t, u, v) ensures LinkHolds(t, busy, u, v) {
      assert Linked(s, u, v) && LinkHolds(s, busy, u, v);
    }
    forall u, v | u in t && v in t[u].listeners ensures ListenerHolds(t, busy, u, v) {
      assert ListenerHolds(s, busy, u, v);
      assert Linked(s, u, v) ==> Linked(t, u, v);
    }
  }

  /** The state of affairs while the listeners of `x` are run. */
  ghost predicate Dispatching(before: map<Id, Signal>, now: map<Id, Signal>, x: Id, r: Reason, busy: set<Id>) {
    && x in now && now[x].reason == Some(r)
    && Consistent(now, busy + {x})
    && (forall b | b in busy + {x} :: Aborted(now, b))
    && Progress(before, now, x, r) && Propagated(before, now, {x})
    && Live(now) < Live(before)
  }

  lemma DispatchStarted(s: map<Id, Signal>, x: Id, r: Reason, busy: set<Id>)
    requires Consistent(s, busy) && x in s && !Aborted(s, x) && forall b | b in busy :: Aborted(s, b)
    ensures Dispatching(s, Marked(s, x, r), x, r, busy)
  {
    hide Consistent, Progress, Propagated, Live;
    MarkedIsConsistent(s, x, r, busy);
  }

  /** Running one listener continues the dispatch. */
  lemma DispatchStep(before: map<Id, Signal>, here: map<Id, Signal>, now: map<Id, Signal>, x: Id, y: Id, r: Reason,
          busy: set<Id>)
    requires Dispatching(before, here, x, r, busy) && y in here[x].listeners
    requires Consistent(now, busy + {x}) && Progress(here, now, y, r) && Propagated(here, now, {})
    ensures Dispatching(before, now, x, r, busy)
  {
    hide Reaches, Propagated;
    assert ListenerHolds(here, busy + {x}, x, y);
    ReachesListener(before, here, x, y);
    ProgressTransitive(before, here, now, x, y, r);
    PropagatedTransitive(before, here, now, x, y, r);
    assert Aborted(here, x);
    forall b | b in busy + {x} ensures Aborted(now, b) {
      assert Aborted(here, b);
    }
    forall z | z in Live(now) ensures z in Live(here) {
      assert !Aborted(here, z);
    }
  }

  lemma DispatchingFacts(before: map<Id, Signal>, now: map<Id, Signal>, x: Id, r: Reason, busy: set<Id>)
    requires Dispatching(before, now, x, r, busy)
    ensures x in now && now[x].reason == Some(r) && Consistent(now, busy + {x})
      && (forall b | b in busy + {x} :: Aborted(now, b))
    ensures Progress(before, now, x, r) && Propagated(before, now, {x}) && Live(now) < Live(before)
  {
  }

  /** Every element of `a` is one of `b`. */
  ghost predicate SomeOf(a: seq<Id>, b: seq<Id>) {
    forall y | y in a :: y in b
  }

  lemma AllOfItself(a: seq<Id>)
    ensures SomeOf(a, a) && SomeOf(a, a[0..])
  {
    assert a[0..] == a;
  }

  lemma NothingLeft(a: seq<Id>, all: seq<Id>)
    requires SomeOf(a, all[|all|..])
    ensures forall y :: y !in a
  {
  }

  lemma OneLess(all: seq<Id>, i: nat, before: seq<Id>, now: seq<Id>)
    requires i < |all| && all[i] !in now
    requires SomeOf(before, all[i..]) && SomeOf(now, before)
    ensures SomeOf(now, all[i + 1..])
  {
    assert all[i..] == [all[i]] + all[i + 1..];
  }

  lemma OnlyListenersLeft(s: map<Id, Signal>, t: map<Id, Signal>, x: Id, y: Id, r: Reason)
    requires Progress(s, t, y, r) && x in s
    ensures x in t && SomeOf(t[x].listeners, s[x].listeners)
  {
  }

  /** Abort reaches exactly what links reach. */
  lemma AbortSpreads(s: map<Id, Signal>, t: map<Id, Signal>, x: Id, r: Reason)
    requires Consistent(s, {}) && Progress(s, t, x, r) && Propagated(s, t, {}) && Aborted(t, x)
    ensures forall z :: Aborted(t, z) <==> Aborted(s, z) || Reaches(s, x, z)
  {
    var a := set z | z in t && Aborted(t, z);
    forall u, v | u in a && Linked(t, u, v) ensures v in a {
      assert Linked(s, u, v) && LinkHolds(s, {}, u, v);
      assert Aborted(t, v);
    }
    forall z ensures Aborted(t, z) <==> Aborted(s, z) || Reaches(s, x, z) {
      if Reaches(s, x, z) {
        ReachesSame(s, t, x, z);
        var p :| IsPath(t, p) && p[0] == x && p[|p| - 1] == z;
        ClosedUnderReach(t, a, p);
      }
    }
  }

  /** The signals given, without the undefined ones. */
  function Present(given: seq<Option<Id>>): (r: seq<Id>)
    ensures forall x :: x in r <==> Some(x) in given
  {
    if given == [] then []
    else
      assert given == [given[0]] + given[1..];
      if given[0].Some? then [given[0].value] + Present(given[1..]) else Present(given[1..])
  }

  function Listening(s: map<Id, Signal>, on: seq<Id>, c: Id): map<Id, Signal> {
    map x | x in s :: if x in on then s[x].(listeners := s[x].listeners + [c]) else s[x]
  }

  /** A new controller linked to live signals. */
  lemma LinkedAdded(s: map<Id, Signal>, c: Id, src: seq<Id>)
    requires Consistent(s, {}) && c !in s && forall x | x in src :: x in s && !Aborted(s, x)
    ensures Consistent(Listening(s, src, c)[c := Signal(None, [c], Some(src))], {})
  {
    var t := Listening(s, src, c)[c := Signal(None, [c], Some(src))];
    forall x, y | Linked(t, x, y) ensures LinkHolds(t, {}, x, y) {
      if y != c {
        assert Linked(s, x, y) && LinkHolds(s, {}, x, y);
      }
    }
    forall x, y | x in t && y in t[x].listeners ensures ListenerHolds(t, {}, x, y) {
      if y != c {
        assert ListenerHolds(s, {}, x, y);
        assert Linked(s, x, y) ==> Linked(t, x, y);
        assert y in s[y].listeners;
      }
    }
  }

  /** A new controller that is aborted already, with no listener left. */
  lemma AbortedAdded(s: map<Id, Signal>, c: Id, r: Reason, src: seq<Id>)
    requires Consistent(s, {}) && c !in s && forall x | x in src :: x in s
    ensures Consistent(s[c := Signal(Some(r), [], Some(src))], {})
  {
    var t := s[c := Signal(Some(r), [], Some(src))];
    forall x, y | Linked(t, x, y) ensures LinkHolds(t, {}, x, y) {
      if y != c {
        assert Linked(s, x, y) && LinkHolds(s, {}, x, y);
      }
    }
    forall x, y | x in t && y in t[x].listeners ensures ListenerHolds(t, {}, x, y) {
      assert ListenerHolds(s, {}, x, y);
      assert Linked(s, x, y) ==> Linked(t, x, y);
    }
  }

  lemma FreshNotListening(s: map<Id, Signal>, c: Id)
    requires Consistent(s, {}) && c !in s
    ensures forall x | x in s :: c !in s[x].listeners && !Linked(s, c, x)
  {
    forall x | x in s ensures c !in s[x].listeners && !Linked(s, c, x) {
      assert c in s[x].listeners ==> ListenerHolds(s, {}, x, c);
      assert Linked(s, c, x) ==> LinkHolds(s, {}, c, x);
    }
  }

  lemma {:induction false} WithoutLast(l: seq<Id>, c: Id)
    requires c !in l
    ensures Without(l + [c], c) == l
  {
    if l == [] {
      assert Without([c][1..], c) == [];
    } else {
      assert (l + [c])[1..] == l[1..] + [c];
      WithoutLast(l[1..], c);
    }
  }

  /** Adding a listener to one more signal; the same listener is not added twice. */
  lemma ListeningStep(s: map<Id, Signal>, src: seq<Id>, i: nat, c: Id)
    requires i < |src| && src[i] in s && c !in s && forall x | x in s :: c !in s[x].listeners
    ensures var l := Listening(s, src[..i], c);
      c in l[src[i]].listeners <==> src[i] in src[..i]
    ensures var l := Listening(s, src[..i], c);
      Listening(s, src[..i + 1], c) ==
        if src[i] in src[..i] then l else l[src[i] := l[src[i]].(listeners := l[src[i]].listeners + [c])]
  {
    assert src[..i + 1] == src[..i] + [src[i]];
    assert forall x :: x in src[..i + 1] <==> x in src[..i] || x == src[i];
  }

  lemma ListeningKeys(s: map<Id, Signal>, on: seq<Id>, c: Id)
    ensures Listening(s, on, c).Keys == s.Keys
  {
  }

  lemma SourcesStay(s: map<Id, Signal>, on: seq<Id>, c: Id, x: Id)
    requires x in s
    ensures x in Listening(s, on, c) && Listening(s, on, c)[x].reason == s[x].reason
  {
  }

  /** The only listeners of the new controller are on the signals it has visited. */
  lemma NewLinks(s: map<Id, Signal>, on: seq<Id>, c: Id, own: Signal)
    requires Consistent(s, {}) && c !in s && own.sources.Some? && own.listeners == []
    requires forall x | x in on :: x in own.sources.value
    requires forall x | x in own.sources.value :: x in s
    ensures var t := Listening(s, on, c)[c := own];
      && (forall x | Linked(t, x, c) :: x in t)
      && (forall x | x in t && c in t[x].listeners :: Linked(t, x, c) || x == c)
  {
    FreshNotListening(s, c);
  }

  lemma UndoListening(s: map<Id, Signal>, partly: map<Id, Signal>, t: map<Id, Signal>, on: seq<Id>, c: Id)
    requires c !in s && c in partly && partly[c].listeners == []
    requires forall x | x in s :: c !in s[x].listeners
    requires partly == Listening(s, on, c)[c := partly[c]]
    requires t.Keys == partly.Keys
    requires forall x | x in t :: t[x] == partly[x].(listeners := Without(partly[x].listeners, c))
    ensures t == s[c := partly[c]]
  {
    var u := s[c := partly[c]];
    assert t.Keys == u.Keys;
    forall x | x in t.Keys ensures t[x] == u[x] {
      if x != c {
        WithoutLast(s[x].listeners, c);
        assert Without(s[x].listeners, c) == s[x].listeners;
      }
    }
  }

  /** The first of the signals that is aborted. */
  predicate FirstAborted(s: map<Id, Signal>, src: seq<Id>, k: nat) {
    k < |src| && Aborted(s, src[k]) && forall i | 0 <= i < k :: !Aborted(s, src[i])
  }

  class AbortHeap {
    var signals: map<Id, Signal>
    var next: nat

    ghost predicate Valid()
      reads this
    {
      Consistent(signals, {}) && forall x | x in signals :: x < next
    }

    constructor ()
      ensures Valid() && signals == map[]
    {
      signals, next := map[], 0;
    }

    /** `new AbortController()`. */
    method NewController() returns (c: Id)
      requires Valid()
      modifies this
      ensures Valid() && c !in old(signals) && signals == old(signals)[c := Signal(None, [], None)]
    {
      c := next;
      PlainAdded(signals, c);
      signals := signals[c := Signal(None, [], None)];
      next := next + 1;
    }

    /** The loop of `onAbort` that removes the controller's listener everywhere. */
    method RemoveListeners(y: Id)
      requires y in signals && signals[y].sources.Some?
      requires forall x | Linked(signals, x, y) :: x in signals
      requires forall x | x in signals && y in signals[x].listeners :: Linked(signals, x, y) || x == y
      modifies this`signals
      ensures signals.Keys == old(signals).Keys
      ensures forall x | x in signals ::
        signals[x] == old(signals)[x].(listeners := Without(old(signals)[x].listeners, y))
    {
      var sa := signals[y].sources.value + [y];
      for i := 0 to |sa|
        invariant signals.Keys == old(signals).Keys
        invariant forall x | x in signals ::
          signals[x] ==
            if x in sa[..i] then old(signals)[x].(listeners := Without(old(signals)[x].listeners, y))
            else old(signals)[x]
      {
        assert sa[i] == y || Linked(old(signals), sa[i], y);
        signals := signals[sa[i] := signals[sa[i]].(listeners := Without(signals[sa[i]].listeners, y))];
      }
      forall x | x in signals && x !in sa ensures y !in old(signals)[x].listeners {
        assert y in sa && (Linked(old(signals), x, y) ==> x in sa) by {
          assert sa[|sa| - 1] == y;
        }
      }
    }

    /** `controller.abort(reason)`: nothing if aborted already; otherwise the reason is set and the
        listeners present now are run in order, unless removed meanwhile. */
    method Dispatch(x: Id, r: Reason, ghost busy: set<Id>)
      requires x in signals && x !in busy
      requires Consistent(signals, busy) && forall b | b in busy :: Aborted(signals, b)
      modifies this`signals
      ensures Consistent(signals, busy) && Aborted(signals, x)
      ensures Progress(old(signals), signals, x, r) && Propagated(old(signals), signals, {})
      ensures !Aborted(old(signals), x) ==> forall z | z in signals :: x !in signals[z].listeners
      decreases Live(signals), 0
    {
      if signals[x].reason.Some? {
        return;
      }
      hide Consistent, Progress, Propagated, Live, Dispatching, SomeOf;
      ghost var before := signals;
      DispatchStarted(before, x, r, busy);
      signals := Marked(signals, x, r);
      var listeners := signals[x].listeners;
      AllOfItself(listeners);
      for i := 0 to |listeners|
        invariant x in signals && Dispatching(before, signals, x, r, busy)
        invariant SomeOf(signals[x].listeners, listeners[i..])
      {
        ghost var here := signals;
        if listeners[i] in signals[x].listeners {
          DispatchingFacts(before, here, x, r, busy);
          OnAbort(listeners[i], x, busy + {x});
          DispatchStep(before, here, signals, x, listeners[i], r, busy);
          OnlyListenersLeft(here, signals, x, listeners[i], r);
        }
        OneLess(listeners, i, here[x].listeners, signals[x].listeners);
      }
      DispatchingFacts(before, signals, x, r, busy);
      NothingLeft(signals[x].listeners, listeners);
      DispatchDone(before, signals, x, busy);
    }

    /** The listener of the controller `y`, run for the signal `x`. */
    method OnAbort(y: Id, x: Id, ghost busy: set<Id>)
      requires x in busy && Aborted(signals, x) && y in signals[x].listeners
      requires Consistent(signals, busy) && forall b | b in busy :: Aborted(signals, b)
      modifies this`signals
      ensures Consistent(signals, busy) && Aborted(signals, y)
      ensures Progress(old(signals), signals, y, old(signals)[x].reason.value) && Propagated(old(signals), signals, {})
      ensures forall z | z in signals :: y !in signals[z].listeners
      decreases Live(signals), 1
    {
      ghost var before, r := signals, signals[x].reason.value;
      if signals[y].reason.None? {
        Dispatch(y, signals[x].reason.value, busy);
      }
      ghost var aborted := signals;
      RemoveListeners(y);
      ListenersRemoved(aborted, signals, y, busy);
    }

    /** Aborting a signal aborts exactly what is reachable from it over links, with the same reason; an
        earlier abort wins; and no controller aborted by it keeps a listener anywhere. */
    method Abort(x: Id, r: Reason)
      requires Valid() && x in signals
      modifies this`signals
      ensures Valid() && SameLinks(old(signals), signals)
      ensures forall z :: Aborted(signals, z) <==> Aborted(old(signals), z) || Reaches(old(signals), x, z)
      ensures forall z | Aborted(signals, z) ::
        signals[z].reason == if Aborted(old(signals), z) then old(signals)[z].reason else Some(r)
      ensures forall z, u | Aborted(signals, z) && u in signals :: z !in signals[u].listeners
    {
      ghost var before := signals;
      Dispatch(x, r, {});
      AbortSpreads(before, signals, x, r);
      forall z, u | Aborted(signals, z) && u in signals ensures z !in signals[u].listeners {
        assert z in signals[u].listeners ==> ListenerHolds(signals, {}, u, z);
      }
    }

    /** `createLinkedAbortController(...given)`. If a signal given is aborted already, the first such in
        argument order decides: the controller takes its reason and listens nowhere. Otherwise it
        listens on all of them and on itself. */
    method CreateLinked(given: seq<Option<Id>>) returns (c: Id)
      requires Valid() && forall x | x in Present(given) :: x in signals
      modifies this
      ensures Valid() && c !in old(signals)
      ensures forall k: nat | FirstAborted(old(signals), Present(given), k) ::
        signals == old(signals)[c := Signal(old(signals)[Present(given)[k]].reason, [], Some(Present(given)))]
      ensures (forall x | x in Present(given) :: !Aborted(old(signals), x)) ==>
        signals == Listening(old(signals), Present(given), c)[c := Signal(None, [c], Some(Present(given)))]
    {
      hide Consistent, Listening;
      var src := Present(given);
      ghost var before := signals;
      c := next;
      next := next + 1;
      FreshNotListening(before, c);
      signals := signals[c := Signal(None, [], Some(src))];
      var k := ListenUntilAborted(before, c, src);
      if k < |src| {
        // controller.abort() finds no listener on the new signal yet
        SourcesStay(before, src[..k], c, src[k]);
        signals := signals[c := signals[c].(reason := signals[src[k]].reason)];
        ghost var partly := signals;
        ListeningKeys(before, src[..k], c);
        assert partly == Listening(before, src[..k], c)[c := partly[c]];
        NewLinks(before, src[..k], c, partly[c]);
        RemoveListeners(c);
        UndoListening(before, partly, signals, src[..k], c);
        AbortedAdded(before, c, before[src[k]].reason.value, src);
        assert FirstAborted(before, src, k);
        assert signals.Keys == before.Keys + {c};
      } else {
        assert src[..k] == src;
        signals := signals[c := signals[c].(listeners := [c])];
        LinkedAdded(before, c, src);
        ListeningKeys(before, src, c);
        assert signals == Listening(before, src, c)[c := Signal(None, [c], Some(src))];
        assert signals.Keys == before.Keys + {c};
      }
    }

    /** The loop of `createLinkedAbortController`: listen on the signals up to the first aborted one. */
    method ListenUntilAborted(ghost before: map<Id, Signal>, c: Id, src: seq<Id>) returns (k: nat)
      requires c !in before && signals == before[c := Signal(None, [], Some(src))]
      requires forall x | x in before :: c !in before[x].listeners
      requires forall x | x in src :: x in before
      modifies this`signals
      ensures k <= |src| && signals == Listening(before, src[..k], c)[c := Signal(None, [], Some(src))]
      ensures forall j | 0 <= j < k :: !Aborted(before, src[j])
      ensures k < |src| ==> Aborted(before, src[k])
    {
      k := 0;
      assert Listening(before, src[..0], c) == before;
      while k < |src|
        invariant k <= |src| && signals == Listening(before, src[..k], c)[c := Signal(None, [], Some(src))]
        invariant forall j | 0 <= j < k :: !Aborted(before, src[j])
      {
        var signal := src[k];
        assert signal in before;
        if signals[signal].reason.Some? {
          return;
        }
        ListeningStep(before, src, k, c);
        if c !in signals[signal].listeners {
          signals := signals[signal := signals[signal].(listeners := signals[signal].listeners + [c])];
        }
        k := k + 1;
      }
    }
  }
}
