/**
 * The glowing trail behind the mouse cursor: a short buffer of recent
 * cursor positions. Each move appends a point and keeps the newest eight; a
 * periodic cleanup drops the points older than half a second. The clock is a
 * parameter: `now` is the value `Date.now()` returned.
 */
module Trail {
  /** The buffer keeps at most this many points. */
  const MAX_TRAILS: nat := 8

  /** A point lives this many milliseconds. */
  const LIFETIME: int := 500

  datatype TrailPoint = TrailPoint(id: nat, x: int, y: int, timestamp: int)

  /** `[...prev, newTrail]`, cut down to its last eight points with `slice(-8)` when longer. */
  function AddPoint(prev: seq<TrailPoint>, p: TrailPoint): seq<TrailPoint> {
    var updated := prev + [p];
    if |updated| > MAX_TRAILS then updated[|updated| - MAX_TRAILS..] else updated
  }

  /** After a move the buffer holds at most eight points, a suffix of the old ones followed by the new one. */
  lemma AddPointShape(prev: seq<TrailPoint>, p: TrailPoint)
    ensures var r := AddPoint(prev, p);
      && 0 < |r| <= MAX_TRAILS
      && r[|r| - 1] == p
      && |r| == (if |prev| < MAX_TRAILS then |prev| + 1 else MAX_TRAILS)
      && r[..|r| - 1] == prev[|prev| - (|r| - 1)..]
  {
    var r := AddPoint(prev, p);
    var updated := prev + [p];
    assert r == updated[|updated| - |r|..];
  }

  /** Below capacity a move is a plain append; at capacity the oldest point is dropped. */
  lemma AddPointCapacity(prev: seq<TrailPoint>, p: TrailPoint)
    ensures |prev| < MAX_TRAILS ==> AddPoint(prev, p) == prev + [p]
    ensures |prev| == MAX_TRAILS ==> AddPoint(prev, p) == prev[1..] + [p]
  {
  }

  /** A point is still shown when it is younger than its lifetime. */
  predicate Live(p: TrailPoint, now: int) {
    now - p.timestamp < LIFETIME
  }

  /** `prev.filter(trail => now - trail.timestamp < 500)`. */
  function Prune(prev: seq<TrailPoint>, now: int): (r: seq<TrailPoint>)
    ensures |r| <= |prev|
    ensures forall i :: 0 <= i < |r| ==> Live(r[i], now)
  {
    if |prev| == 0 then []
    else if Live(prev[0], now) then [prev[0]] + Prune(prev[1..], now)
    else Prune(prev[1..], now)
  }

  /** `sub` is `s` with some points left out and the rest in their order. */
  predicate Subsequence(sub: seq<TrailPoint>, s: seq<TrailPoint>)
    decreases |s|
  {
    if |sub| == 0 then true
    else if |s| == 0 then false
    else if sub[0] == s[0] then Subsequence(sub[1..], s[1..])
    else Subsequence(sub, s[1..])
  }

  /** The cleanup keeps exactly the live points, each as often as it occurs, in their order. */
  lemma {:induction false} PruneKeepsLive(prev: seq<TrailPoint>, now: int)
    ensures Subsequence(Prune(prev, now), prev)
    ensures forall p :: p in Prune(prev, now) <==> p in prev && Live(p, now)
    ensures forall p :: multiset(Prune(prev, now))[p] == if Live(p, now) then multiset(prev)[p] else 0
    decreases |prev|
  {
    if |prev| > 0 {
      PruneKeepsLive(prev[1..], now);
      assert prev == [prev[0]] + prev[1..];
      var rest := Prune(prev[1..], now);
      if Live(prev[0], now) {
        assert ([prev[0]] + rest)[1..] == rest;
      }
    }
  }

  /** The ids strictly increase along the buffer. */
  predicate Increasing(s: seq<TrailPoint>) {
    forall i, j :: 0 <= i < j < |s| ==> s[i].id < s[j].id
  }

  /** The ids of a buffer all come before the counter's next value. */
  predicate Below(s: seq<TrailPoint>, next: nat) {
    forall i :: 0 <= i < |s| ==> s[i].id < next
  }

  /** A subsequence of a buffer with increasing ids, below the counter, is again such a buffer. */
  lemma {:induction false} SubsequenceKeepsOrder(sub: seq<TrailPoint>, s: seq<TrailPoint>, next: nat)
    requires Subsequence(sub, s) && Increasing(s) && Below(s, next)
    ensures Increasing(sub) && Below(sub, next)
    decreases |s|
  {
    if |sub| > 0 {
      if sub[0] == s[0] {
        SubsequenceKeepsOrder(sub[1..], s[1..], next);
        SubsequenceMembers(sub[1..], s[1..]);
        forall j | 0 < j < |sub| ensures sub[0].id < sub[j].id {
          assert sub[j] == sub[1..][j - 1];
          var k :| 0 <= k < |s[1..]| && s[1..][k] == sub[j];
          assert s[k + 1] == sub[j];
        }
      } else {
        SubsequenceKeepsOrder(sub, s[1..], next);
      }
    }
  }

  /** Every point of a subsequence is a point of the buffer it was taken from. */
  lemma {:induction false} SubsequenceMembers(sub: seq<TrailPoint>, s: seq<TrailPoint>)
    requires Subsequence(sub, s)
    ensures forall j :: 0 <= j < |sub| ==> exists k :: 0 <= k < |s| && s[k] == sub[j]
    decreases |s|
  {
    if |sub| > 0 {
      if sub[0] == s[0] {
        SubsequenceMembers(sub[1..], s[1..]);
        forall j | 0 <= j < |sub| ensures exists k :: 0 <= k < |s| && s[k] == sub[j] {
          if j == 0 {
            assert s[0] == sub[0];
          } else {
            assert sub[j] == sub[1..][j - 1];
            var k :| 0 <= k < |s[1..]| && s[1..][k] == sub[j];
            assert s[k + 1] == sub[j];
          }
        }
      } else {
        SubsequenceMembers(sub, s[1..]);
        forall j | 0 <= j < |sub| ensures exists k :: 0 <= k < |s| && s[k] == sub[j] {
          var k :| 0 <= k < |s[1..]| && s[1..][k] == sub[j];
          assert s[k + 1] == sub[j];
        }
      }
    }
  }

  /**
   * The trail of one registration of the mouse listener: the buffer, the
   * point the cursor glow follows, and the `trailId` counter the listener
   * closes over.
   */
  class MouseTrail {
    var trails: seq<TrailPoint>
    var mouseX: int
    var mouseY: int
    var trailId: nat

    /** Ids increase along the buffer and all were handed out by the counter. */
    predicate Valid()
      reads this
    {
      |trails| <= MAX_TRAILS && Increasing(trails) && Below(trails, trailId)
    }

    constructor ()
      ensures Valid() && trails == [] && trailId == 0 && mouseX == 0 && mouseY == 0
    {
      trails, mouseX, mouseY, trailId := [], 0, 0, 0;
    }

    /** `handleMouseMove`: a new point with the next id, and the glow moved to it. */
    method HandleMouseMove(x: int, y: int, now: int)
      requires Valid()
      modifies this
      ensures Valid()
      ensures trailId == old(trailId) + 1
      ensures trails == AddPoint(old(trails), TrailPoint(old(trailId), x, y, now))
      ensures mouseX == x && mouseY == y
    {
      var newTrail := TrailPoint(trailId, x, y, now);
      AddPointShape(trails, newTrail);
      ghost var prev := trails;
      var updated := trails + [newTrail];
      if |updated| > MAX_TRAILS {
        updated := updated[|updated| - MAX_TRAILS..];
      }
      assert forall i :: 0 <= i < |updated| - 1 ==> updated[i] == prev[|prev| - (|updated| - 1) + i];
      trails, mouseX, mouseY, trailId := updated, x, y, trailId + 1;
    }

    /** The cleanup interval firing at time `now`. */
    method CleanupTick(now: int)
      requires Valid()
      modifies this
      ensures Valid()
      ensures trails == Prune(old(trails), now)
      ensures trailId == old(trailId) && mouseX == old(mouseX) && mouseY == old(mouseY)
    {
      PruneKeepsLive(trails, now);
      SubsequenceKeepsOrder(Prune(trails, now), trails, trailId);
      trails := Prune(trails, now);
    }
  }
}
