/** The requests-per-second counter (packages/dubbo-observable/src/qps-counter.ts). Times are in
    milliseconds, as read from the clock at each call. */
module QpsCounters {
  import opened Common

  function Second(ms: int): (second: int)
    ensures 1000 * second <= ms < 1000 * second + 1000
  {
    ms / 1000
  }

  datatype Event = Increment(ms: int) | Cleanup(ms: int)

  function Bumped(counter: map<int, nat>, second: int): map<int, nat> {
    counter[second := if second !in counter || counter[second] == 0 then 1 else counter[second] + 1]
  }

  function Pruned(counter: map<int, nat>, second: int): map<int, nat> {
    map k | k in counter && k >= second - 5 :: counter[k]
  }

  /** A cleanup at `ms` keeps a bucket, as it is, iff `ms` is less than six seconds past the start of its second. */
  lemma KeptIffRecent(counter: map<int, nat>, ms: int, second: int)
    ensures second in Pruned(counter, Second(ms)) <==> second in counter && ms < 1000 * (second + 6)
    ensures second in Pruned(counter, Second(ms)) ==> Pruned(counter, Second(ms))[second] == counter[second]
  {
  }

  /** The buckets after a history of events. */
  function Buckets(h: seq<Event>): map<int, nat> {
    if h == [] then map[]
    else
      var before := Buckets(h[..|h| - 1]);
      match h[|h| - 1]
      case Increment(t) => Bumped(before, Second(t))
      case Cleanup(t) => Pruned(before, Second(t))
  }

  function Lookup(counter: map<int, nat>, second: int): nat {
    if second in counter then counter[second] else 0
  }

  /** How many increments were ever made in one second: the full history. */
  function Count(h: seq<Event>, second: int): nat {
    if h == [] then 0
    else Count(h[..|h| - 1], second) + if h[|h| - 1].Increment? && Second(h[|h| - 1].ms) == second then 1 else 0
  }

  /** `getQps` at a time, on the buckets of a history. */
  function Qps(h: seq<Event>, now: int): nat {
    Lookup(Buckets(h), Second(now) - 1)
  }

  predicate Increments(e: Event, second: int) {
    e.Increment? && Second(e.ms) == second
  }

  /** A cleanup deletes the bucket of a second. */
  predicate Prunes(e: Event, second: int) {
    e.Cleanup? && second < Second(e.ms) - 5
  }

  /** No cleanup has deleted the bucket after an increment. */
  predicate NothingLost(h: seq<Event>, second: int) {
    forall i, j | 0 <= i < j < |h| && Increments(h[i], second) :: !Prunes(h[j], second)
  }

  lemma {:induction false} CountedIffMade(h: seq<Event>, second: int)
    ensures Count(h, second) > 0 <==> exists i | 0 <= i < |h| :: Increments(h[i], second)
  {
    if h != [] {
      var init := h[..|h| - 1];
      CountedIffMade(init, second);
      if i :| 0 <= i < |init| && Increments(init[i], second) {
        assert Increments(h[i], second);
      } else {
        assert forall i | 0 <= i < |init| :: h[i] == init[i];
      }
    }
  }

  /** Events whose last one does not delete the bucket lose what the ones before it lose. */
  lemma LostEarlier(h: seq<Event>, second: int)
    requires h != [] && !Prunes(h[|h| - 1], second)
    ensures NothingLost(h, second) <==> NothingLost(h[..|h| - 1], second)
  {
    var init := h[..|h| - 1];
    assert forall i | 0 <= i < |init| :: h[i] == init[i];
    forall i, j | 0 <= i < j < |h| && Increments(h[i], second) && NothingLost(init, second)
      ensures !Prunes(h[j], second)
    {
      assert Increments(init[i], second);
      assert j < |init| ==> !Prunes(init[j], second);
    }
    forall i, j | 0 <= i < j < |init| && Increments(init[i], second) && NothingLost(h, second)
      ensures !Prunes(init[j], second)
    {
      assert Increments(h[i], second) && !Prunes(h[j], second);
    }
  }

  /** A bucket is exact iff no cleanup has deleted it after an increment, whatever the clock did. */
  lemma {:induction false} BucketIsExact(h: seq<Event>, second: int)
    ensures Lookup(Buckets(h), second) == Count(h, second) <==> NothingLost(h, second)
  {
    if h != [] {
      var init, last := h[..|h| - 1], h[|h| - 1];
      if Prunes(last, second) {
        CountedIffMade(init, second);
        if i :| 0 <= i < |init| && Increments(init[i], second) {
          assert Increments(h[i], second) && Prunes(h[|h| - 1], second);
        } else {
          assert forall i | 0 <= i < |h| :: Increments(h[i], second) ==> i < |init| && Increments(init[i], second);
        }
      } else {
        hide NothingLost;
        LostEarlier(h, second);
        BucketIsExact(init, second);
      }
    }
  }

  predicate NonDecreasing(h: seq<Event>) {
    forall i, j | 0 <= i < j < |h| :: h[i].ms <= h[j].ms
  }

  /** The window refines the full history: under a non-decreasing clock `getQps` is the number of
      increments ever made in the previous second. */
  lemma QpsRefinesHistory(h: seq<Event>, now: int)
    requires NonDecreasing(h) && (h != [] ==> h[|h| - 1].ms <= now)
    ensures Qps(h, now) == Count(h, Second(now) - 1)
  {
    forall i | 0 <= i < |h| ensures h[i].ms <= now {
      assert i < |h| - 1 ==> h[i].ms <= h[|h| - 1].ms;
    }
    BucketIsExact(h, Second(now) - 1);
  }

  /** Whatever the clock did, `getQps` is right iff the second it asks for has not been deleted. */
  lemma QpsIsExact(h: seq<Event>, now: int)
    ensures Qps(h, now) == Count(h, Second(now) - 1) <==> NothingLost(h, Second(now) - 1)
  {
    BucketIsExact(h, Second(now) - 1);
  }

  lemma {:induction false} BucketsAreRecorded(h: seq<Event>, k: int)
    requires k in Buckets(h)
    ensures exists i | 0 <= i < |h| :: h[i].Increment? && Second(h[i].ms) == k
  {
    var init := h[..|h| - 1];
    if k in Buckets(init) {
      BucketsAreRecorded(init, k);
      var i :| 0 <= i < |init| && init[i].Increment? && Second(init[i].ms) == k;
      assert h[i] == init[i];
    }
  }

  /** Right after a cleanup at most six buckets remain: the current second and the five before it. */
  lemma AtMostSixBuckets(h: seq<Event>)
    requires NonDecreasing(h) && h != [] && h[|h| - 1].Cleanup?
    ensures |Buckets(h)| <= 6
  {
    var s := Second(h[|h| - 1].ms);
    forall k | k in Buckets(h) ensures k in {s - 5, s - 4, s - 3, s - 2, s - 1, s} {
      BucketsAreRecorded(h, k);
      var i :| 0 <= i < |h| && h[i].Increment? && Second(h[i].ms) == k;
      assert h[i].ms <= h[|h| - 1].ms;
    }
    SubsetCardinality(Buckets(h).Keys, {s - 5, s - 4, s - 3, s - 2, s - 1, s});
  }

  lemma {:induction false} SubsetCardinality<T>(a: set<T>, b: set<T>)
    requires a <= b
    ensures |a| <= |b|
  {
    if a != {} {
      var x :| x in a;
      SubsetCardinality(a - {x}, b - {x});
    }
  }

  /** A clock that steps back breaks it: an increment whose bucket a later-dated cleanup has pruned is
      not counted. */
  lemma SteppingBackLosesCounts()
    ensures var h := [Increment(0), Cleanup(6000)];
      Qps(h, 1000) == 0 && Count(h, Second(1000) - 1) == 1
  {
    var h := [Increment(0), Cleanup(6000)];
    assert h[..1] == [Increment(0)] && [Increment(0)][..0] == [];
    assert Buckets([Increment(0)]) == map[0 := 1];
    assert Count([Increment(0)], 0) == 1;
  }

  class QpsCounter {
    var counter: map<int, nat>
    ghost var history: seq<Event>

    ghost predicate Valid()
      reads this
    {
      counter == Buckets(history)
    }

    constructor ()
      ensures Valid() && history == []
    {
      counter, history := map[], [];
    }

    method Increment(now: int)
      requires Valid()
      modifies this
      ensures Valid() && history == old(history) + [Event.Increment(now)]
    {
      var cs := Second(now);
      if cs !in counter || counter[cs] == 0 {
        counter := counter[cs := 1];
      } else {
        counter := counter[cs := counter[cs] + 1];
      }
      history := history + [Event.Increment(now)];
      assert history[..|history| - 1] == old(history);
    }

    /** The interval callback: delete every bucket older than five seconds. */
    method CleanupTick(now: int)
      requires Valid()
      modifies this
      ensures Valid() && history == old(history) + [Cleanup(now)]
    {
      var cs := Second(now);
      var keys := counter.Keys;
      while keys != {}
        invariant keys <= old(counter).Keys && history == old(history)
        invariant counter == map k | k in old(counter) && (k in keys || k >= cs - 5) :: old(counter)[k]
        decreases |keys|
      {
        var key :| key in keys;
        if key < cs - 5 {
          counter := counter - {key};
        }
        keys := keys - {key};
      }
      history := history + [Cleanup(now)];
      assert history[..|history| - 1] == old(history);
      assert counter == Pruned(old(counter), cs);
    }

    /** The increments of the previous second iff none was deleted: always so with a non-decreasing clock. */
    method GetQps(now: int) returns (qps: nat)
      requires Valid()
      ensures qps == Qps(history, now)
      ensures qps == Count(history, Second(now) - 1) <==> NothingLost(history, Second(now) - 1)
      ensures NonDecreasing(history) && (history != [] ==> history[|history| - 1].ms <= now) ==>
        qps == Count(history, Second(now) - 1)
    {
      var cs := Second(now) - 1;
      qps := if cs in counter && counter[cs] != 0 then counter[cs] else 0;
      QpsIsExact(history, now);
      if NonDecreasing(history) && (history != [] ==> history[|history| - 1].ms <= now) {
        QpsRefinesHistory(history, now);
      }
    }
  }
}
