/** The step function `next`, the virus timers as explicit operations, and runs of events. */
module Engine {
  import opened Wrappers
  import opened Geometry
  import opened SnakeState

  datatype EndReason = Wall | Body

  /** What `next` hands back: the `end` snapshot with its reason, or the updated record. */
  datatype Outcome = Over(final: Snake, reason: EndReason) | Moved(state: Snake)

  /**
   * What `next` needs of the record: a head to read, a heading (before the first
   * turn the source would compute `NaN` coordinates), and non-zero dimensions
   * whenever coordinates are wrapped.
   */
  predicate Steppable(s: Snake) {
    |s.dots| > 0 && s.direction.Some? && (s.canCross ==> s.rows != 0 && s.cols != 0)
  }

  /**
   * `getNextHead`: one cell along the heading; with `canCross` each axis is
   * wrapped by `getModHead`, so the result is on the grid.
   */
  function NextHead(s: Snake, p: Pos): (h: Pos)
    requires s.direction.Some? && (s.canCross ==> s.rows != 0 && s.cols != 0)
    ensures !s.canCross ==> h == Pos(p.x + Delta(s.direction.value).x, p.y + Delta(s.direction.value).y)
    ensures s.canCross && s.rows > 0 && s.cols > 0 ==>
              && OnGrid(s, h)
              && h.x == (p.x + Delta(s.direction.value).x) % s.cols
              && h.y == (p.y + Delta(s.direction.value).y) % s.rows
  {
    var d := Delta(s.direction.value);
    Pos(if s.canCross then ModHead(s.cols, p.x + d.x) else p.x + d.x,
        if s.canCross then ModHead(s.rows, p.y + d.y) else p.y + d.y)
  }

  /** The cell the head moves to on the next step. */
  function Head(s: Snake): Pos
    requires Steppable(s)
  {
    NextHead(s, s.dots[0])
  }

  /** The record after the new head is prepended and recorded as the step's head delta. */
  function Grow(s: Snake): Snake
    requires Steppable(s)
  {
    s.(dots := [Head(s)] + s.dots, updates := s.updates.(head := Some(Head(s))))
  }

  /** The step will reach the apple, so `next` will ask for a new one. */
  predicate AppleAhead(s: Snake)
    requires Steppable(s)
  {
    && !HitWall(s.rows, s.cols, Head(s))
    && !HitBody(s.dots, Head(s))
    && HasSameCoords(Some(Head(s)), s.edibles.apple)
  }

  /** The tail is dropped and recorded as the step's tail delta. */
  function DropTail(g: Snake, tail: Pos): Snake
    requires |g.dots| > 0
  {
    g.(updates := g.updates.(tail := Some(tail)), dots := g.dots[..|g.dots| - 1])
  }

  /**
   * `next`. `pick` is the cell the edible placer resolves to when the apple is
   * eaten (it sees the grown body and the old apple still stored).
   */
  function Next(s: Snake, pick: Pos): (r: Outcome)
    requires Steppable(s)
    requires AppleAhead(s) ==> Placeable(Grow(s), pick)
    ensures r.Over? <==> !OnGrid(s, Head(s)) || Head(s) in s.dots
    ensures r.Over? ==> r.final == End(s) && (r.reason == Wall <==> !OnGrid(s, Head(s)))
    ensures r.Moved? ==>
              |r.state.dots| == |s.dots| + (if s.edibles.apple == Some(Head(s)) then 1 else 0)
    ensures r.Moved? ==>
              && r.state.dots[0] == Head(s)
              && r.state.updates.head == Some(Head(s))
              && !r.state.processing
              && r.state.(dots := s.dots, updates := s.updates, edibles := s.edibles, canCross := s.canCross,
                          processing := s.processing, score := s.score, apples := s.apples, level := s.level) == s
  {
    var head := Head(s);
    var tail := s.dots[|s.dots| - 1];
    HitWallIffOutside(s.rows, s.cols, head);
    if HitWall(s.rows, s.cols, head) then
      Over(End(s), Wall)
    else if HitBody(s.dots, head) then
      Over(End(s), Body)
    else
      var g := Grow(s);
      var t :=
        if HasSameCoords(Some(head), s.edibles.apple) then
          Score(g.(edibles := g.edibles.(apple := Some(pick))))
        else if HasSameCoords(Some(head), s.edibles.virus) then
          DropTail(g.(edibles := g.edibles.(virus := None), canCross := true), tail)
        else
          DropTail(g, tail);
      Moved(t.(processing := false))
  }

  /** Pass-through is active, so the step never ends against a wall. */
  lemma CrossNeverHitsWall(s: Snake, pick: Pos)
    requires Steppable(s) && s.canCross && s.rows > 0 && s.cols > 0
    requires AppleAhead(s) ==> Placeable(Grow(s), pick)
    ensures !(Next(s, pick).Over? && Next(s, pick).reason == Wall)
  {
  }

  /** The body check runs against the whole pre-move body, the tail cell included. */
  lemma StepIntoTailEnds(s: Snake, pick: Pos)
    requires Steppable(s) && OnGrid(s, Head(s)) && Head(s) == s.dots[|s.dots| - 1]
    requires AppleAhead(s) ==> Placeable(Grow(s), pick)
    ensures Next(s, pick) == Over(End(s), Body)
  {
  }

  /** Eating the apple: the tail stays, a new apple is stored, and the counters move. */
  lemma AppleStep(s: Snake, pick: Pos)
    requires Steppable(s) && AppleAhead(s) && Placeable(Grow(s), pick)
    ensures Next(s, pick).Moved?
    ensures var t := Next(s, pick).state;
            && t.dots == [Head(s)] + s.dots
            && t.edibles == s.edibles.(apple := Some(pick))
            && t.updates.tail == s.updates.tail
            && t.apples == s.apples + 1
            && t.score == s.score + |t.dots| / 2
            && (t.level == s.level + 1 <==> |t.dots| % 10 == 0 && s.level < MaxLevel)
            && (t.level != s.level + 1 ==> t.level == s.level)
            && t.canCross == s.canCross
  {
  }

  /** Eating the virus: the body moves without growing, the virus slot empties and wrapping starts. */
  lemma VirusStep(s: Snake, pick: Pos)
    requires Steppable(s) && OnGrid(s, Head(s)) && Head(s) !in s.dots
    requires s.edibles.virus == Some(Head(s)) && s.edibles.apple != Some(Head(s))
    ensures Next(s, pick).Moved?
    ensures var t := Next(s, pick).state;
            && t.dots == [Head(s)] + s.dots[..|s.dots| - 1]
            && t.updates.tail == Some(s.dots[|s.dots| - 1])
            && t.edibles == s.edibles.(virus := None)
            && t.canCross
            && t.score == s.score && t.apples == s.apples && t.level == s.level
  {
  }

  /** A plain move: the head is prepended, the old tail is dropped and reported. */
  lemma PlainStep(s: Snake, pick: Pos)
    requires Steppable(s) && OnGrid(s, Head(s)) && Head(s) !in s.dots
    requires s.edibles.virus != Some(Head(s)) && s.edibles.apple != Some(Head(s))
    ensures Next(s, pick).Moved?
    ensures var t := Next(s, pick).state;
            && t.dots == [Head(s)] + s.dots[..|s.dots| - 1]
            && t.updates.tail == Some(s.dots[|s.dots| - 1])
            && t.edibles == s.edibles
            && t.canCross == s.canCross
            && t.score == s.score && t.apples == s.apples && t.level == s.level
  {
  }

  lemma DistinctCons(h: Pos, dots: seq<Pos>)
    requires Distinct(dots) && h !in dots
    ensures Distinct([h] + dots)
  {
  }

  /** A successful step keeps the invariant and never lowers the counters. */
  lemma NextPreservesInv(s: Snake, pick: Pos)
    requires Inv(s) && Steppable(s)
    requires AppleAhead(s) ==> Placeable(Grow(s), pick)
    ensures Next(s, pick).Moved? ==>
              && Inv(Next(s, pick).state)
              && s.level <= Next(s, pick).state.level
              && s.apples <= Next(s, pick).state.apples
              && s.score <= Next(s, pick).state.score
  {
    var r := Next(s, pick);
    if r.Moved? {
      var h := Head(s);
      var t := r.state;
      var c := [h] + s.dots;
      DistinctCons(h, s.dots);
      assert forall i :: 0 <= i < |c| ==> OnGrid(s, c[i]) by {
        forall i | 0 <= i < |c|
          ensures OnGrid(s, c[i])
        {
          if i > 0 {
            assert c[i] == s.dots[i - 1];
          }
        }
      }
      if s.edibles.apple == Some(h) {
        assert t.dots == c;
      } else {
        assert t.dots == c[..|c| - 1];
        assert forall i :: 0 <= i < |t.dots| ==> t.dots[i] == c[i];
      }
    }
  }

  // ---------------------------------------------------------------- virus timers

  /** The first deferred callback after a virus is eaten: a new virus is placed. */
  function RespawnVirus(s: Snake, pick: Pos): (r: Snake)
    requires Placeable(s, pick)
    ensures r.edibles.virus == Some(pick) && r.edibles.apple == s.edibles.apple
    ensures pick !in r.dots && r.edibles.apple != Some(pick)
    ensures r.(edibles := s.edibles) == s
  {
    s.(edibles := s.edibles.(virus := Some(pick)))
  }

  /** The second deferred callback: wrapping is switched off again. */
  function ClearCross(s: Snake): (r: Snake)
    ensures !r.canCross && r.(canCross := s.canCross) == s
  {
    s.(canCross := false)
  }

  // ---------------------------------------------------------------- runs

  /** One thing that can happen to a game between resets. */
  datatype Event =
    | Turn(move: Dir)      // a direction key: `queue(move)`
    | Begin                // the first key of a game: `start()`
    | Tick(pick: Pos)      // the scheduler calls `next`; `pick` is the placer's answer
    | Respawn(cell: Pos)   // the delayed virus respawn, with the placer's answer
    | CrossOff             // the delayed end of pass-through

  /** The event can happen in `s`: a step needs a heading, and placements need a free cell. */
  predicate Enabled(s: Snake, e: Event)
    requires Inv(s)
  {
    match e
    case Tick(p) =>
      assert OnGrid(s, s.dots[0]);
      s.direction.Some? && (AppleAhead(s) ==> Placeable(Grow(s), p))
    case Respawn(p) => Placeable(s, p)
    case _ => true
  }

  /** The effect of one event. */
  function Apply(s: Snake, e: Event): (r: Outcome)
    requires Inv(s) && Enabled(s, e)
    ensures r.Moved? ==>
              && Inv(r.state)
              && s.level <= r.state.level
              && s.apples <= r.state.apples
              && s.score <= r.state.score
              && |s.dots| <= |r.state.dots|
              && r.state.rows == s.rows && r.state.cols == s.cols
    ensures r.Over? ==> e.Tick? && r.final == End(s)
    ensures r.Moved? && s.processing && !r.state.processing ==> e.Tick?
  {
    assert OnGrid(s, s.dots[0]);
    match e
    case Turn(m) => Moved(Queue(s, m))
    case Begin => Moved(Start(s))
    case Tick(p) => NextPreservesInv(s, p); Next(s, p)
    case Respawn(p) => Moved(RespawnVirus(s, p))
    case CrossOff => Moved(ClearCross(s))
  }

  /** Every event of the run is enabled in the state it meets, up to the end of the game. */
  predicate RunEnabled(s: Snake, es: seq<Event>)
    requires Inv(s)
    decreases |es|
  {
    |es| == 0
    || (&& Enabled(s, es[0])
        && (Apply(s, es[0]).Moved? ==> RunEnabled(Apply(s, es[0]).state, es[1..])))
  }

  /** Play the events in order; the first fatal step ends the game and the rest is ignored. */
  function Run(s: Snake, es: seq<Event>): (r: Outcome)
    requires Inv(s) && RunEnabled(s, es)
    decreases |es|
    ensures r.Moved? ==>
              && Inv(r.state)
              && s.level <= r.state.level <= MaxLevel
              && s.apples <= r.state.apples
              && s.score <= r.state.score
              && |s.dots| <= |r.state.dots|
    ensures r.Over? ==>
              && Inv(r.final)
              && !r.final.running
              && s.level <= r.final.level <= MaxLevel
              && s.apples <= r.final.apples
              && s.score <= r.final.score
              && |s.dots| <= |r.final.dots|
  {
    if |es| == 0 then Moved(s)
    else
      match Apply(s, es[0])
      case Over(f, why) => Over(f, why)
      case Moved(t) => Run(t, es[1..])
  }
}
