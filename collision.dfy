/** The "first bullet wins" collision pass that Tempest, Centipede, Space Invaders, Galaga,
    Defender and Paperboy each write out by hand: a copy of the projectile list is made, and
    for each target in order the first remaining projectile that is near it is found,
    spliced out of the copy, and the target is removed, marked or updated.

    Projectiles are tracked by their index in the original list, so that "consumed at most
    once" can be stated even when two projectiles are equal values. `live` is the list of
    indices still in the copy, in order. */
module Collision {
  import opened Common

  predicate IndicesBelow(live: seq<nat>, n: nat)
  {
    forall k :: 0 <= k < |live| ==> live[k] < n
  }

  predicate Distinct(live: seq<nat>)
  {
    forall i, j :: 0 <= i < j < |live| ==> live[i] != live[j]
  }

  function AllIndices(n: nat): (r: seq<nat>)
    ensures |r| == n && IndicesBelow(r, n) && Distinct(r)
    ensures forall k :: 0 <= k < n ==> r[k] == k
  {
    seq(n, k => k)
  }

  /** The projectiles whose indices are in `live`, in that order. */
  function Remaining<B>(bs: seq<B>, live: seq<nat>): (r: seq<B>)
    requires IndicesBelow(live, |bs|)
    ensures |r| == |live| && forall k :: 0 <= k < |live| ==> r[k] == bs[live[k]]
  {
    seq(|live|, k requires 0 <= k < |live| => bs[live[k]])
  }

  /** Projectile index `b` is in range and near target `t`. An index out of range is never
      near anything, so the pass needs no precondition on `live`. */
  predicate Strikes<B, T>(bs: seq<B>, b: nat, t: T, near: (B, T) -> bool)
  {
    b < |bs| && near(bs[b], t)
  }

  /** `remainingBullets.find(b => near(b, t))`, as a position in `live`. */
  function FirstNear<B, T>(bs: seq<B>, live: seq<nat>, t: T, near: (B, T) -> bool): (r: Option<nat>)
    ensures r.Some? ==> r.value < |live| && Strikes(bs, live[r.value], t, near)
    ensures r.Some? ==> forall k :: 0 <= k < r.value ==> !Strikes(bs, live[k], t, near)
    ensures r.None? <==> forall k :: 0 <= k < |live| ==> !Strikes(bs, live[k], t, near)
    decreases |live|
  {
    if |live| == 0 then None
    else if Strikes(bs, live[0], t, near) then Some(0)
    else
      match FirstNear(bs, live[1..], t, near)
      case None => None
      case Some(k) => Some(k + 1)
  }

  /** What the pass decides for each target (the original index of the projectile that
      struck it, if any) and which projectiles are left. */
  datatype Outcome = Outcome(hitBy: seq<Option<nat>>, live: seq<nat>)

  /** Number of targets that were struck. */
  function Hits(hs: seq<Option<nat>>): (n: nat)
    ensures n <= |hs|
  {
    if |hs| == 0 then 0 else (if hs[0].Some? then 1 else 0) + Hits(hs[1..])
  }

  /** Where, in `live`, the projectile that strikes target `t` stands, if any. */
  function StrikePos<B, T>(bs: seq<B>, t: T, near: (B, T) -> bool, eligible: T -> bool, live: seq<nat>): (r: Option<nat>)
    ensures r.Some? ==> r.value < |live|
  {
    if eligible(t) then FirstNear(bs, live, t, near) else None
  }

  /** The decision for a single target `t` against the projectiles `live`. */
  function Step<B, T>(bs: seq<B>, t: T, near: (B, T) -> bool, eligible: T -> bool, live: seq<nat>): (r: Outcome)
    ensures |r.hitBy| == 1
  {
    var h := StrikePos(bs, t, near, eligible, live);
    if h.Some? then Outcome([Some(live[h.value])], live[..h.value] + live[h.value + 1..])
    else Outcome([None], live)
  }

  /** The whole pass: every target in order, each against what earlier targets left. */
  function Pass<B, T>(bs: seq<B>, ts: seq<T>, near: (B, T) -> bool, eligible: T -> bool, live: seq<nat>): (r: Outcome)
    ensures |r.hitBy| == |ts|
    decreases |ts|
  {
    if |ts| == 0 then Outcome([], live)
    else
      var s := Step(bs, ts[0], near, eligible, live);
      var rest := Pass(bs, ts[1..], near, eligible, s.live);
      Outcome(s.hitBy + rest.hitBy, rest.live)
  }

  /** The pass over the whole projectile list, as the games call it. */
  function Resolve<B, T>(bs: seq<B>, ts: seq<T>, near: (B, T) -> bool, eligible: T -> bool): (o: Outcome)
    ensures |o.hitBy| == |ts|
    ensures |bs| == |o.live| + Hits(o.hitBy)
  {
    PassCount(bs, ts, near, eligible, AllIndices(|bs|));
    Pass(bs, ts, near, eligible, AllIndices(|bs|))
  }

  /** The projectiles that stay in the copy before target `i` is looked at. */
  function LiveBefore<B, T>(bs: seq<B>, ts: seq<T>, near: (B, T) -> bool, eligible: T -> bool, i: nat): seq<nat>
    requires i <= |ts|
  {
    Pass(bs, ts[..i], near, eligible, AllIndices(|bs|)).live
  }

  lemma HitsAppend(a: seq<Option<nat>>, b: seq<Option<nat>>)
    ensures Hits(a + b) == Hits(a) + Hits(b)
  {
    if |a| > 0 {
      assert (a + b)[1..] == a[1..] + b;
      HitsAppend(a[1..], b);
    } else {
      assert a + b == b;
    }
  }

  /** Running the pass over ts1 and then over ts2 is the pass over ts1 + ts2. */
  lemma {:induction false} PassSplit<B, T>(bs: seq<B>, ts1: seq<T>, ts2: seq<T>, near: (B, T) -> bool, eligible: T -> bool, live: seq<nat>)
    ensures var r1 := Pass(bs, ts1, near, eligible, live);
            var r2 := Pass(bs, ts2, near, eligible, r1.live);
            Pass(bs, ts1 + ts2, near, eligible, live) == Outcome(r1.hitBy + r2.hitBy, r2.live)
    decreases |ts1|
  {
    if |ts1| == 0 {
      assert ts1 + ts2 == ts2;
    } else {
      var s := Step(bs, ts1[0], near, eligible, live);
      var a := Pass(bs, ts1[1..], near, eligible, s.live);
      var b := Pass(bs, ts2, near, eligible, a.live);
      var c := Pass(bs, ts1[1..] + ts2, near, eligible, s.live);
      assert Pass(bs, ts1 + ts2, near, eligible, live) == Outcome(s.hitBy + c.hitBy, c.live) by {
        assert (ts1 + ts2)[0] == ts1[0];
        assert (ts1 + ts2)[1..] == ts1[1..] + ts2;
      }
      PassSplit(bs, ts1[1..], ts2, near, eligible, s.live);
      assert c == Outcome(a.hitBy + b.hitBy, b.live);
      assert Pass(bs, ts1, near, eligible, live) == Outcome(s.hitBy + a.hitBy, a.live);
      assert s.hitBy + (a.hitBy + b.hitBy) == (s.hitBy + a.hitBy) + b.hitBy;
    }
  }

  /** The number of projectiles taken out of the copy equals the number of targets struck. */
  lemma {:induction false} PassCount<B, T>(bs: seq<B>, ts: seq<T>, near: (B, T) -> bool, eligible: T -> bool, live: seq<nat>)
    ensures var r := Pass(bs, ts, near, eligible, live);
            |live| == |r.live| + Hits(r.hitBy)
    decreases |ts|
  {
    if |ts| > 0 {
      var s := Step(bs, ts[0], near, eligible, live);
      var rest := Pass(bs, ts[1..], near, eligible, s.live);
      PassCount(bs, ts[1..], near, eligible, s.live);
      HitsAppend(s.hitBy, rest.hitBy);
      assert |live| == |s.live| + Hits(s.hitBy);
    }
  }

  /** First bullet wins: target i is struck exactly by the first projectile left at that
      point that is near it, provided it is eligible; otherwise it is not struck. */
  lemma PassAt<B, T>(bs: seq<B>, ts: seq<T>, near: (B, T) -> bool, eligible: T -> bool, i: nat)
    requires i < |ts|
    ensures var L := LiveBefore(bs, ts, near, eligible, i);
            var h := Resolve(bs, ts, near, eligible).hitBy[i];
            IndicesBelow(L, |bs|) &&
            (h.Some? <==> eligible(ts[i]) && exists k :: 0 <= k < |L| && near(bs[L[k]], ts[i])) &&
            (h.Some? ==> exists k :: 0 <= k < |L| && L[k] == h.value && near(bs[L[k]], ts[i]) &&
                                     forall k' :: 0 <= k' < k ==> !near(bs[L[k']], ts[i]))
  {
    var all := AllIndices(|bs|);
    var L := LiveBefore(bs, ts, near, eligible, i);
    assert ts == ts[..i] + ts[i..];
    PassSplit(bs, ts[..i], ts[i..], near, eligible, all);
    var r1 := Pass(bs, ts[..i], near, eligible, all);
    assert |r1.hitBy| == i;
    var tail := Pass(bs, ts[i..], near, eligible, L);
    assert Resolve(bs, ts, near, eligible).hitBy[i] == tail.hitBy[0];
    assert ts[i..][0] == ts[i];
    PassLive(bs, ts[..i], near, eligible, all);
    assert IndicesBelow(L, |bs|) by {
      forall k | 0 <= k < |L|
        ensures L[k] < |bs|
      {
        assert L[k] in L;
      }
    }
  }

  /** What the pass leaves of the whole list are indices into it. */
  lemma ResolveBelow<B, T>(bs: seq<B>, ts: seq<T>, near: (B, T) -> bool, eligible: T -> bool)
    ensures IndicesBelow(Resolve(bs, ts, near, eligible).live, |bs|)
  {
    var L := Resolve(bs, ts, near, eligible).live;
    PassLive(bs, ts, near, eligible, AllIndices(|bs|));
    forall k | 0 <= k < |L|
      ensures L[k] < |bs|
    {
      assert L[k] in L;
    }
  }

  /** One target off the front: the body of `Pass`, as a lemma to call. */
  lemma PassCons<B, T>(bs: seq<B>, ts: seq<T>, near: (B, T) -> bool, eligible: T -> bool, live: seq<nat>)
    requires |ts| > 0
    ensures var s := Step(bs, ts[0], near, eligible, live);
            var rest := Pass(bs, ts[1..], near, eligible, s.live);
            Pass(bs, ts, near, eligible, live) == Outcome(s.hitBy + rest.hitBy, rest.live)
  {
  }

  /** A step takes out at most the one projectile it reports, and keeps the list free of
      repeats. */
  lemma StepLive<B, T>(bs: seq<B>, t: T, near: (B, T) -> bool, eligible: T -> bool, live: seq<nat>)
    requires Distinct(live)
    ensures var s := Step(bs, t, near, eligible, live);
            Distinct(s.live) && (forall b :: b in s.live ==> b in live) &&
            (s.hitBy[0].Some? ==> s.hitBy[0].value in live && s.hitBy[0].value !in s.live) &&
            (forall b :: b in live ==> b in s.live || s.hitBy[0] == Some(b))
  {
    var h := StrikePos(bs, t, near, eligible, live);
    if h.Some? {
      RemoveDistinct(live, h.value);
    }
  }

  /** What the pass leaves is a repeat-free part of what it was given. */
  lemma {:induction false} PassLive<B, T>(bs: seq<B>, ts: seq<T>, near: (B, T) -> bool, eligible: T -> bool, live: seq<nat>)
    requires Distinct(live)
    ensures var r := Pass(bs, ts, near, eligible, live);
            Distinct(r.live) && forall b :: b in r.live ==> b in live
    decreases |ts|
  {
    if |ts| > 0 {
      var s := Step(bs, ts[0], near, eligible, live);
      StepLive(bs, ts[0], near, eligible, live);
      PassLive(bs, ts[1..], near, eligible, s.live);
      PassCons(bs, ts, near, eligible, live);
    }
  }

  /** Every projectile reported as striking a target was in play and is gone afterwards. */
  lemma {:induction false} PassUsed<B, T>(bs: seq<B>, ts: seq<T>, near: (B, T) -> bool, eligible: T -> bool, live: seq<nat>)
    requires Distinct(live)
    ensures var r := Pass(bs, ts, near, eligible, live);
            forall i :: 0 <= i < |r.hitBy| && r.hitBy[i].Some? ==> r.hitBy[i].value in live && r.hitBy[i].value !in r.live
    decreases |ts|
  {
    if |ts| > 0 {
      var s := Step(bs, ts[0], near, eligible, live);
      var rest := Pass(bs, ts[1..], near, eligible, s.live);
      var r := Pass(bs, ts, near, eligible, live);
      StepLive(bs, ts[0], near, eligible, live);
      PassLive(bs, ts[1..], near, eligible, s.live);
      PassUsed(bs, ts[1..], near, eligible, s.live);
      PassCons(bs, ts, near, eligible, live);
      forall i | 0 <= i < |r.hitBy| && r.hitBy[i].Some?
        ensures r.hitBy[i].value in live && r.hitBy[i].value !in r.live
      {
        if i > 0 {
          assert r.hitBy[i] == rest.hitBy[i - 1];
        }
      }
    }
  }

  /** No projectile strikes two targets. */
  lemma {:induction false} PassUsedOnce<B, T>(bs: seq<B>, ts: seq<T>, near: (B, T) -> bool, eligible: T -> bool, live: seq<nat>)
    requires Distinct(live)
    ensures var r := Pass(bs, ts, near, eligible, live);
            forall i, j :: 0 <= i < j < |r.hitBy| && r.hitBy[i].Some? && r.hitBy[j].Some? ==> r.hitBy[i].value != r.hitBy[j].value
    decreases |ts|
  {
    if |ts| > 0 {
      var s := Step(bs, ts[0], near, eligible, live);
      var rest := Pass(bs, ts[1..], near, eligible, s.live);
      var r := Pass(bs, ts, near, eligible, live);
      StepLive(bs, ts[0], near, eligible, live);
      PassUsed(bs, ts[1..], near, eligible, s.live);
      PassUsedOnce(bs, ts[1..], near, eligible, s.live);
      PassCons(bs, ts, near, eligible, live);
      forall i, j | 0 <= i < j < |r.hitBy| && r.hitBy[i].Some? && r.hitBy[j].Some?
        ensures r.hitBy[i].value != r.hitBy[j].value
      {
        assert r.hitBy[j] == rest.hitBy[j - 1];
        if i > 0 {
          assert r.hitBy[i] == rest.hitBy[i - 1];
        }
      }
    }
  }

  /** A projectile disappears only by striking a target. */
  lemma {:induction false} PassKeepsOthers<B, T>(bs: seq<B>, ts: seq<T>, near: (B, T) -> bool, eligible: T -> bool, live: seq<nat>)
    requires Distinct(live)
    ensures var r := Pass(bs, ts, near, eligible, live);
            forall b :: b in live ==> b in r.live || exists i :: 0 <= i < |r.hitBy| && r.hitBy[i] == Some(b)
    decreases |ts|
  {
    if |ts| > 0 {
      var s := Step(bs, ts[0], near, eligible, live);
      var rest := Pass(bs, ts[1..], near, eligible, s.live);
      var r := Pass(bs, ts, near, eligible, live);
      StepLive(bs, ts[0], near, eligible, live);
      PassKeepsOthers(bs, ts[1..], near, eligible, s.live);
      PassCons(bs, ts, near, eligible, live);
      forall b | b in live
        ensures b in r.live || exists i :: 0 <= i < |r.hitBy| && r.hitBy[i] == Some(b)
      {
        if b in s.live {
          if b !in r.live {
            var i :| 0 <= i < |rest.hitBy| && rest.hitBy[i] == Some(b);
            assert r.hitBy[i + 1] == Some(b);
          }
        } else {
          assert r.hitBy[0] == Some(b);
        }
      }
    }
  }

  /** Each projectile is consumed at most once, every consumed projectile was in play and
      is gone afterwards, and nothing else disappears. */
  lemma PassConsumesOnce<B, T>(bs: seq<B>, ts: seq<T>, near: (B, T) -> bool, eligible: T -> bool, live: seq<nat>)
    requires Distinct(live)
    ensures var r := Pass(bs, ts, near, eligible, live);
            Distinct(r.live) &&
            (forall b :: b in r.live ==> b in live) &&
            (forall i :: 0 <= i < |r.hitBy| && r.hitBy[i].Some? ==> r.hitBy[i].value in live && r.hitBy[i].value !in r.live) &&
            (forall i, j :: 0 <= i < j < |r.hitBy| && r.hitBy[i].Some? && r.hitBy[j].Some? ==> r.hitBy[i].value != r.hitBy[j].value) &&
            (forall b :: b in live ==> b in r.live || exists i :: 0 <= i < |r.hitBy| && r.hitBy[i] == Some(b))
  {
    PassLive(bs, ts, near, eligible, live);
    PassUsed(bs, ts, near, eligible, live);
    PassUsedOnce(bs, ts, near, eligible, live);
    PassKeepsOthers(bs, ts, near, eligible, live);
  }

  /** Removing one entry from a list without repeats leaves the others, without repeats,
      and not the removed one. */
  lemma RemoveDistinct(live: seq<nat>, k: nat)
    requires Distinct(live) && k < |live|
    ensures var rest := live[..k] + live[k + 1..];
            Distinct(rest) && live[k] !in rest &&
            (forall b :: b in rest ==> b in live) &&
            (forall b :: b in live && b != live[k] ==> b in rest)
  {
    var rest := live[..k] + live[k + 1..];
    forall i | 0 <= i < |rest|
      ensures rest[i] == live[if i < k then i else i + 1]
    {
    }
    forall b | b in live && b != live[k]
      ensures b in rest
    {
      var i :| 0 <= i < |live| && live[i] == b;
      assert rest[if i < k then i else i - 1] == b;
    }
  }

  /** Adding one target at the end of the list adds its `Step` against what was left. */
  lemma PassSnoc<B, T>(bs: seq<B>, ts: seq<T>, t: T, near: (B, T) -> bool, eligible: T -> bool, live: seq<nat>)
    ensures var r := Pass(bs, ts, near, eligible, live);
            var s := Step(bs, t, near, eligible, r.live);
            Pass(bs, ts + [t], near, eligible, live) == Outcome(r.hitBy + s.hitBy, s.live)
  {
    PassSplit(bs, ts, [t], near, eligible, live);
    var r := Pass(bs, ts, near, eligible, live);
    var s := Step(bs, t, near, eligible, r.live);
    assert Pass(bs, [t], near, eligible, r.live) == Outcome(s.hitBy + [], s.live);
    assert s.hitBy + [] == s.hitBy;
  }

  /** `remainingBullets.find(b => near(b, t))` for one eligible target, as a position. */
  method FindStrike<B, T>(bullets: seq<B>, remaining: seq<B>, t: T, near: (B, T) -> bool, eligible: T -> bool, live: seq<nat>)
    returns (found: Option<nat>)
    requires IndicesBelow(live, |bullets|) && remaining == Remaining(bullets, live)
    ensures found == StrikePos(bullets, t, near, eligible, live)
  {
    found := None;
    if eligible(t) {
      var j := 0;
      while j < |remaining| && !near(remaining[j], t)
        invariant 0 <= j <= |remaining|
        invariant forall k :: 0 <= k < j ==> !Strikes(bullets, live[k], t, near)
      {
        j := j + 1;
      }
      if j < |remaining| {
        found := Some(j);
      }
    }
  }

  /** Splicing position j out of the index list splices the same projectile out of the
      copy. */
  lemma RemainingSplice<B>(bs: seq<B>, live: seq<nat>, j: nat)
    requires IndicesBelow(live, |bs|) && j < |live|
    ensures IndicesBelow(live[..j] + live[j + 1..], |bs|)
    ensures Remaining(bs, live[..j] + live[j + 1..]) == Remaining(bs, live)[..j] + Remaining(bs, live)[j + 1..]
  {
    var rest := live[..j] + live[j + 1..];
    forall k | 0 <= k < |rest|
      ensures rest[k] == live[if k < j then k else k + 1]
    {
    }
  }

  /** `remainingBullets.find` followed by `splice`, for every target in order. */
  method FirstHitPass<B, T>(bullets: seq<B>, targets: seq<T>, near: (B, T) -> bool, eligible: T -> bool)
    returns (remaining: seq<B>, hitBy: seq<Option<nat>>)
    ensures IndicesBelow(Resolve(bullets, targets, near, eligible).live, |bullets|)
    ensures var r := Resolve(bullets, targets, near, eligible);
            hitBy == r.hitBy && remaining == Remaining(bullets, r.live)
  {
    var all := AllIndices(|bullets|);
    var live := all;
    remaining := bullets;
    hitBy := [];
    var i := 0;
    while i < |targets|
      invariant 0 <= i <= |targets|
      invariant IndicesBelow(live, |bullets|)
      invariant Pass(bullets, targets[..i], near, eligible, all) == Outcome(hitBy, live)
      invariant remaining == Remaining(bullets, live)
    {
      var t := targets[i];
      var found := FindStrike(bullets, remaining, t, near, eligible, live);
      PassSnoc(bullets, targets[..i], t, near, eligible, all);
      assert targets[..i + 1] == targets[..i] + [t];
      if found.Some? {
        var j := found.value;
        RemainingSplice(bullets, live, j);
        hitBy := hitBy + [Some(live[j])];
        remaining := remaining[..j] + remaining[j + 1..];
        live := live[..j] + live[j + 1..];
      } else {
        hitBy := hitBy + [None];
      }
      i := i + 1;
    }
    assert targets[..|targets|] == targets;
  }

  /** The targets nobody struck, in order (`filter` returning false on a hit). */
  function Unhit<T>(ts: seq<T>, hs: seq<Option<nat>>): (r: seq<T>)
    requires |ts| == |hs|
    ensures |r| == |ts| - Hits(hs)
    ensures forall x :: x in r ==> x in ts
    ensures Hits(hs) == 0 ==> r == ts
  {
    if |ts| == 0 then []
    else (if hs[0].Some? then [] else [ts[0]]) + Unhit(ts[1..], hs[1..])
  }

  /** With no two targets equal, a target stays exactly when nothing struck it. */
  lemma {:induction false} UnhitExactly<T>(ts: seq<T>, hs: seq<Option<nat>>, k: nat)
    requires |ts| == |hs| && k < |ts|
    requires forall i, j :: 0 <= i < j < |ts| ==> ts[i] != ts[j]
    ensures ts[k] in Unhit(ts, hs) <==> hs[k].None?
    decreases |ts|
  {
    var rest := Unhit(ts[1..], hs[1..]);
    if k == 0 {
      assert ts[0] !in ts[1..] by {
        forall i | 0 <= i < |ts[1..]|
          ensures ts[1..][i] != ts[0]
        {
          assert ts[1..][i] == ts[i + 1];
        }
      }
    } else {
      UnhitExactly(ts[1..], hs[1..], k - 1);
      assert ts[k] != ts[0];
    }
  }

  /** The index of the last target struck: with a score computed from one snapshot, the
      last `setScore` of the pass is the one that sticks. */
  function LastHit(hs: seq<Option<nat>>): (r: Option<nat>)
    ensures r.Some? <==> Hits(hs) > 0
    ensures r.Some? ==> r.value < |hs| && hs[r.value].Some? && forall j :: r.value < j < |hs| ==> hs[j].None?
    decreases |hs|
  {
    if |hs| == 0 then None
    else
      HitsAppend(hs[..|hs| - 1], [hs[|hs| - 1]]);
      assert hs[..|hs| - 1] + [hs[|hs| - 1]] == hs;
      assert Hits([hs[|hs| - 1]]) == if hs[|hs| - 1].Some? then 1 else 0;
      if hs[|hs| - 1].Some? then Some(|hs| - 1)
      else LastHit(hs[..|hs| - 1])
  }
}
