/** The trail: the chronologically ordered positions the particle has visited, kept
    as a first-in first-out buffer that never grows beyond the configured trail length. */
module Trail {

  datatype Point = Point(x: real, y: real)

  /** `t` is what remains of `h` once some of its oldest entries are dropped. */
  predicate IsSuffix(t: seq<Point>, h: seq<Point>) {
    |t| <= |h| && t == h[|h| - |t|..]
  }

  /** The number of entries the trail keeps for a parsed trail length. A negative
      length keeps no entries (see NegativeTrailLengthNeverStops for the loop as
      written, which never finishes in that case). */
  function TrailBound(maxTrail: int): (bound: nat)
    ensures maxTrail >= 0 ==> bound == maxTrail
    ensures maxTrail < 0 ==> bound == 0
  {
    if maxTrail < 0 then 0 else maxTrail
  }

  /** `h` with its oldest entries dropped until at most `bound` remain. */
  function Trimmed(h: seq<Point>, bound: nat): (t: seq<Point>)
    ensures |t| == if |h| <= bound then |h| else bound
    ensures IsSuffix(t, h)
  {
    if |h| <= bound then h else h[|h| - bound..]
  }

  /** Appending a position and trimming: the result keeps the chronological order, drops
      only the oldest entries and only as many as needed (it holds exactly
      min(|h| + 1, bound) entries), and ends with the new position whenever the trail
      keeps at least one entry. */
  function Pushed(h: seq<Point>, p: Point, maxTrail: int): (t: seq<Point>)
    ensures |t| == if |h| + 1 <= TrailBound(maxTrail) then |h| + 1 else TrailBound(maxTrail)
    ensures IsSuffix(t, h + [p])
    ensures |h| < maxTrail ==> t == h + [p]
    ensures maxTrail >= 1 ==> |t| >= 1 && t[|t| - 1] == p
  {
    Trimmed(h + [p], TrailBound(maxTrail))
  }

  /** Trimming before a push loses nothing that trimming after it would keep: pushing
      onto a trimmed trail and trimming again gives the same trail as pushing onto the
      untrimmed one. */
  lemma TrimBeforePush(h: seq<Point>, p: Point, bound: nat)
    ensures Trimmed(Trimmed(h, bound) + [p], bound) == Trimmed(h + [p], bound)
  {
    if bound < |h| {
      var k := |h| - bound;
      assert Trimmed(h, bound) + [p] == (h + [p])[k..];
      assert (h + [p])[k..][1..] == (h + [p])[k + 1..];
    }
  }

  // The trimming loop exactly as written.

  /** What the loop `while (history.length > maxTrail) history.shift()` produces when
      it is allowed at most `fuel` passes: Stopped with the trimmed history, or
      StillRunning when it has not stopped by then. `shift()` on an empty array leaves
      it empty. */
  datatype LoopOutcome = Stopped(history: seq<Point>) | StillRunning

  function TrimLoop(h: seq<Point>, maxTrail: int, fuel: nat): (r: LoopOutcome)
    ensures r.Stopped? ==> |r.history| <= maxTrail && IsSuffix(r.history, h)
    decreases fuel
  {
    if !(|h| > maxTrail) then Stopped(h)
    else if fuel == 0 then StillRunning
    else if h == [] then TrimLoop([], maxTrail, fuel - 1)
    else
      var r := TrimLoop(h[1..], maxTrail, fuel - 1);
      assert r.Stopped? ==> r.history == h[1..][|h| - 1 - |r.history|..] == h[|h| - |r.history|..];
      r
  }

  /** With a negative trail length the loop never stops, however many passes it is
      given: once the history is empty its length 0 still exceeds the limit. */
  lemma {:induction false} NegativeTrailLengthNeverStops(h: seq<Point>, maxTrail: int, fuel: nat)
    requires maxTrail < 0
    ensures TrimLoop(h, maxTrail, fuel) == StillRunning
    decreases fuel
  {
    if fuel > 0 {
      NegativeTrailLengthNeverStops(if h == [] then [] else h[1..], maxTrail, fuel - 1);
    }
  }

  /** With a trail length of zero or more the loop stops within |h| passes and leaves
      exactly Trimmed(h, TrailBound(maxTrail)). */
  lemma {:induction false} TrimLoopStops(h: seq<Point>, maxTrail: int, fuel: nat)
    requires maxTrail >= 0 && fuel >= |h|
    ensures TrimLoop(h, maxTrail, fuel) == Stopped(Trimmed(h, TrailBound(maxTrail)))
    decreases fuel
  {
    if |h| > maxTrail {
      var rest := h[1..];
      assert TrimLoop(h, maxTrail, fuel) == TrimLoop(rest, maxTrail, fuel - 1);
      TrimLoopStops(rest, maxTrail, fuel - 1);
      assert Trimmed(rest, TrailBound(maxTrail)) == rest[|rest| - maxTrail..] == h[|h| - maxTrail..];
    }
  }
}
