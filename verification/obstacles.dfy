/** The obstacle stream: the queue of pipe pairs on screen, oldest at the
    head. New pairs join at the tail, off-screen pairs leave from the head,
    every pair scrolls in step, and pairs the bird has passed are scored. */
module Obstacles {
  import opened Pipes

  /** Removes pairs from the head for as long as the head is not visible.
      What remains is a suffix of the queue, in the same order; everything
      removed was invisible; and the remaining head, if any, is visible. */
  function Evict(ps: seq<PipePair>): (r: seq<PipePair>)
    ensures |r| <= |ps| && r == ps[|ps| - |r|..]
    ensures forall i :: 0 <= i < |ps| - |r| ==> !Visible(ps[i])
    ensures r == [] || Visible(r[0])
  {
    if ps != [] && !Visible(ps[0]) then
      var rest := Evict(ps[1..]);
      assert ps[1..][|ps| - 1 - |rest|..] == ps[|ps| - |rest|..];
      assert forall i :: 1 <= i < |ps| - |rest| ==> ps[i] == ps[1..][i - 1];
      rest
    else
      ps
  }

  /** Scrolls every pair one frame to the left: each pair, in place, is
      3 px further left and otherwise unchanged. */
  function MoveAll(ps: seq<PipePair>): (r: seq<PipePair>)
    ensures |r| == |ps|
    ensures forall i :: 0 <= i < |ps| ==> r[i] == ps[i].(x := ps[i].x - 3.0)
  {
    seq(|ps|, i requires 0 <= i < |ps| => Move(ps[i], 1.0))
  }

  /** Indices of the pairs that earn a point against a bird at `birdX`. */
  function ScoringIndices(ps: seq<PipePair>, birdX: real): set<int>
  {
    set i | 0 <= i < |ps| && Scores(ps[i], birdX)
  }

  /** The score check over the whole queue: every pair is credited, and the
      points gained are the number of pairs that were passed but not yet
      scored. Returns the credited queue and the points gained. */
  function ScorePipes(ps: seq<PipePair>, birdX: real): (r: (seq<PipePair>, nat))
    ensures |r.0| == |ps|
    ensures forall i :: 0 <= i < |ps| ==> r.0[i] == Credit(ps[i], birdX)
    ensures r.1 == |ScoringIndices(ps, birdX)|
    decreases |ps|
  {
    if ps == [] then ([], 0)
    else
      var front := ps[..|ps| - 1];
      var last := ps[|ps| - 1];
      var (credited, gained) := ScorePipes(front, birdX);
      assert ScoringIndices(ps, birdX) ==
             ScoringIndices(front, birdX) + (if Scores(last, birdX) then {|ps| - 1} else {});
      (credited + [Credit(last, birdX)], gained + if Scores(last, birdX) then 1 else 0)
  }

  /** The score check is idempotent: a credited queue earns nothing more
      and stays as it is. */
  lemma ScoreOnce(ps: seq<PipePair>, birdX: real)
    ensures ScorePipes(ScorePipes(ps, birdX).0, birdX).0 == ScorePipes(ps, birdX).0
    ensures ScorePipes(ScorePipes(ps, birdX).0, birdX).1 == 0
  {
    var credited := ScorePipes(ps, birdX).0;
    assert ScoringIndices(credited, birdX) == {};
  }

  /** Queue order is screen order: positions never decrease from head to
      tail. */
  predicate Ordered(ps: seq<PipePair>)
  {
    forall i, j :: 0 <= i < j < |ps| ==> ps[i].x <= ps[j].x
  }

  /** In an ordered queue whose pairs are all left of the right edge,
      eviction leaves only visible pairs behind. */
  lemma EvictLeavesVisible(ps: seq<PipePair>)
    requires Ordered(ps)
    requires forall i :: 0 <= i < |ps| ==> ps[i].x <= SPAWN_X
    ensures forall i :: 0 <= i < |Evict(ps)| ==> Visible(Evict(ps)[i])
  {
    var r := Evict(ps);
    var k := |ps| - |r|;
    forall i | 0 <= i < |r|
      ensures Visible(r[i])
    {
      assert r[0] == ps[k] && r[i] == ps[k + i];
    }
  }

  /** Ordering survives eviction: what is left is a suffix. */
  lemma EvictKeepsOrder(ps: seq<PipePair>)
    requires Ordered(ps)
    ensures Ordered(Evict(ps))
  {
    var k := |ps| - |Evict(ps)|;
    SuffixKeepsOrder(ps, k);
  }

  lemma SuffixKeepsOrder(ps: seq<PipePair>, k: nat)
    requires Ordered(ps)
    requires k <= |ps|
    ensures Ordered(ps[k..])
  {
    var r := ps[k..];
    forall i, j | 0 <= i < j < |r|
      ensures r[i].x <= r[j].x
    {
      assert r[i] == ps[k + i];
      assert r[j] == ps[k + j];
    }
  }

  /** Ordering survives scrolling: every pair moves by the same amount. */
  lemma MoveAllKeepsOrder(ps: seq<PipePair>)
    requires Ordered(ps)
    ensures Ordered(MoveAll(ps))
  {
  }

  /** Ordering survives the score check, which moves nothing. */
  lemma ScoreKeepsOrder(ps: seq<PipePair>, birdX: real)
    requires Ordered(ps)
    ensures Ordered(ScorePipes(ps, birdX).0)
  {
  }

  /** Appending a pair no further left than any queued pair keeps order. */
  lemma AppendKeepsOrder(ps: seq<PipePair>, p: PipePair)
    requires Ordered(ps)
    requires forall i :: 0 <= i < |ps| ==> ps[i].x <= p.x
    ensures Ordered(ps + [p])
  {
  }
}
