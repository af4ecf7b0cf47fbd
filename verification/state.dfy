/** The `Snake` snapshot, its invariant, edible placement, the input gate, scoring and reset. */
module SnakeState {
  import opened Wrappers
  import opened Geometry

  /** `MAX_LEVEL`: the level counter never passes this value. */
  const MaxLevel := 10

  /** The two item slots; `None` is the `false` stored while the virus is being respawned. */
  datatype Edibles = Edibles(apple: Option<Pos>, virus: Option<Pos>)

  /** The per-step delta read by the renderer: the cell painted and the cell erased. */
  datatype Updates = Updates(head: Option<Pos>, tail: Option<Pos>)

  /** The `data` record of the engine. `direction` is `None` before the first turn. */
  datatype Snake = Snake(
    rows: int,
    cols: int,
    score: int,
    apples: int,
    level: int,
    running: bool,
    dots: seq<Pos>,
    direction: Option<Dir>,
    processing: bool,
    updates: Updates,
    edibles: Edibles,
    canCross: bool)

  predicate OnGrid(s: Snake, p: Pos) {
    InBounds(s.rows, s.cols, p)
  }

  /** A stored edible, when present, is on the grid and off the body. */
  predicate EdibleOk(s: Snake, e: Option<Pos>) {
    e.Some? ==> OnGrid(s, e.value) && e.value !in s.dots
  }

  /**
   * What every game state reachable from a reset keeps: a non-empty body on the
   * grid without repeated cells, an apple always present, the edibles off the body
   * and apart from each other, and the counters in range.
   */
  predicate Inv(s: Snake) {
    && |s.dots| > 0
    && Distinct(s.dots)
    && (forall i :: 0 <= i < |s.dots| ==> OnGrid(s, s.dots[i]))
    && s.edibles.apple.Some?
    && EdibleOk(s, s.edibles.apple)
    && EdibleOk(s, s.edibles.virus)
    && !HasSameCoords(s.edibles.apple, s.edibles.virus)
    && 0 <= s.level <= MaxLevel
    && 0 <= s.apples
    && 0 <= s.score
  }

  // ---------------------------------------------------------------- placement

  /** `randish(min, max)` fed with one `Math.random()` draw `u` in [0, 1). */
  function Randish(min: int, max: int, u: real): (r: int)
    requires min <= max && 0.0 <= u < 1.0
    ensures min <= r <= max
  {
    var span := (max - min + 1) as real;
    assert u * span < span by {
      assert span - u * span == (1.0 - u) * span;
    }
    (u * span + min as real).Floor
  }

  /** A pair of `Math.random()` draws, one per axis. */
  predicate UnitDraw(d: (real, real)) {
    0.0 <= d.0 < 1.0 && 0.0 <= d.1 < 1.0
  }

  /** The candidate cell `__getNewEdible` builds from one pair of draws. */
  function Candidate(s: Snake, d: (real, real)): (p: Pos)
    requires s.rows >= 1 && s.cols >= 1 && UnitDraw(d)
    ensures OnGrid(s, p)
  {
    Pos(Randish(0, s.cols - 1, d.0), Randish(0, s.rows - 1, d.1))
  }

  /** The rejection test of `__getNewEdible`: the candidate lies on the body or on a stored edible. */
  predicate Rejected(s: Snake, p: Pos) {
    CountSame(s.dots, p) != 0
    || HasSameCoords(s.edibles.apple, Some(p))
    || HasSameCoords(s.edibles.virus, Some(p))
  }

  /** A cell `__getNewEdible` can resolve to in state `s`. */
  predicate Placeable(s: Snake, p: Pos) {
    OnGrid(s, p) && !Rejected(s, p)
  }

  /**
   * `__getNewEdible` with its random source made explicit: it redraws until a
   * candidate passes the rejection test. `k` is the index of the accepted draw;
   * `None` means the supplied draws ran out before one was accepted.
   */
  method NewEdible(s: Snake, draws: seq<(real, real)>) returns (r: Option<Pos>, k: nat)
    requires s.rows >= 1 && s.cols >= 1
    requires forall i :: 0 <= i < |draws| ==> UnitDraw(draws[i])
    ensures k <= |draws|
    ensures forall j :: 0 <= j < k ==> Rejected(s, Candidate(s, draws[j]))
    ensures k < |draws| ==> r == Some(Candidate(s, draws[k]))
    ensures k == |draws| ==> r == None
    ensures r.Some? ==> Placeable(s, r.value)
  {
    k := 0;
    while k < |draws|
      invariant k <= |draws|
      invariant forall j :: 0 <= j < k ==> Rejected(s, Candidate(s, draws[j]))
    {
      var p := Candidate(s, draws[k]);
      if !Rejected(s, p) {
        return Some(p), k;
      }
      k := k + 1;
    }
    r := None;
  }

  // ---------------------------------------------------------------- input gate

  function DirVec(d: Option<Dir>): Option<Pos> {
    if d.Some? then Some(Delta(d.value)) else None
  }

  /**
   * `hasDiffDirection`: the move does not cancel the current heading. Before the
   * first turn the heading is `false` and the sums are `NaN`, so every move passes.
   */
  predicate HasDiffDirection(cur: Option<Dir>, m: Dir) {
    cur.None?
    || Delta(cur.value).x + Delta(m).x != 0
    || Delta(cur.value).y + Delta(m).y != 0
  }

  /** The three conditions of `queue`, evaluated as the source does. */
  predicate Accepts(s: Snake, m: Dir) {
    !HasSameCoords(Some(Delta(m)), DirVec(s.direction)) && HasDiffDirection(s.direction, m) && !s.processing
  }

  /** `queue(move)`: take the turn and close the gate, or leave the state alone. */
  function Queue(s: Snake, m: Dir): (r: Snake)
    ensures r == s || r == s.(direction := Some(m), processing := true)
    ensures r != s ==> !s.processing && r.processing
  {
    if Accepts(s, m) then s.(direction := Some(m), processing := true) else s
  }

  /** A turn is taken exactly when it is new, not a reversal, and the gate is open. */
  lemma QueueChangesIff(s: Snake, m: Dir)
    ensures Queue(s, m) != s
        <==> (&& s.direction != Some(m)
              && (s.direction.Some? ==> m != Reverse(s.direction.value))
              && !s.processing)
    ensures Queue(s, m) != s ==> Queue(s, m).direction == Some(m)
  {
  }

  /** Once a turn is taken, any further turn before the next step is ignored. */
  lemma SecondTurnIgnored(s: Snake, m1: Dir, m2: Dir)
    requires Queue(s, m1) != s
    ensures Queue(Queue(s, m1), m2) == Queue(s, m1)
  {
  }

  /** `start()`. */
  function Start(s: Snake): (r: Snake)
    ensures r.running && r.(running := s.running) == s
  {
    s.(running := true)
  }

  /** `end(reason)`: the snapshot handed back, with the run flag down; the engine's own record is not touched. */
  function End(s: Snake): (r: Snake)
    ensures !r.running && r.(running := s.running) == s
  {
    s.(running := false)
  }

  // ---------------------------------------------------------------- scoring

  /**
   * `score()`, applied after the new head has been prepended, so `|s.dots|` is the
   * grown length.
   */
  function Score(s: Snake): (r: Snake)
    ensures r.(score := s.score, apples := s.apples, level := s.level) == s
    ensures r.apples == s.apples + 1
    ensures r.score == s.score + |s.dots| / 2
    ensures r.level != s.level <==> |s.dots| % 10 == 0 && s.level < MaxLevel
    ensures s.level <= r.level <= s.level + 1
    ensures s.level <= MaxLevel ==> r.level <= MaxLevel
  {
    s.(apples := s.apples + 1,
       score := s.score + |s.dots| / 2,
       level := s.level + if |s.dots| % 10 == 0 && s.level < MaxLevel then 1 else 0)
  }

  // ---------------------------------------------------------------- reset

  /** The record `reset` builds before any edible is drawn: one dot near the centre, counters zeroed. */
  function Fresh(rows: int, cols: int): (r: Snake)
    ensures |r.dots| == 1
    ensures (r.dots[0].x + 1) * 2 <= cols < (r.dots[0].x + 2) * 2
    ensures (r.dots[0].y + 1) * 2 <= rows < (r.dots[0].y + 2) * 2
  {
    Snake(rows, cols, 0, 0, 0, false, [Pos(cols / 2 - 1, rows / 2 - 1)], None, false,
          Updates(None, None), Edibles(None, None), false)
  }

  /**
   * `__setup` as written: both edible draws are awaited before `edibles` is
   * assigned, so the virus draw sees the empty slots and may land on the apple.
   */
  function SetupAsWritten(rows: int, cols: int, apple: Pos, virus: Pos): (r: Snake)
    requires Placeable(Fresh(rows, cols), apple)
    requires Placeable(Fresh(rows, cols), virus)
    ensures r.rows == rows && r.cols == cols
    ensures r.dots == Fresh(rows, cols).dots
    ensures r.score == 0 && r.apples == 0 && r.level == 0
    ensures !r.running && !r.processing && !r.canCross && r.direction.None?
    ensures r.updates == Updates(None, None)
    ensures r.edibles == Edibles(Some(apple), Some(virus))
    ensures apple != virus ==> r == Reset(rows, cols, apple, virus)
  {
    Fresh(rows, cols).(edibles := Edibles(Some(apple), Some(virus)))
  }

  /** A run of the as-written setup that leaves both edibles on one cell. */
  lemma SetupAsWrittenMayStack()
    ensures var s := SetupAsWritten(4, 4, Pos(0, 0), Pos(0, 0));
            HasSameCoords(s.edibles.apple, s.edibles.virus) && !Inv(s)
  {
  }

  /**
   * `reset`/`__setup` with the virus drawn after the apple is stored, so that the
   * virus avoids it. On any grid of at least two by two cells it establishes `Inv`.
   */
  function Reset(rows: int, cols: int, apple: Pos, virus: Pos): (r: Snake)
    requires Placeable(Fresh(rows, cols), apple)
    requires Placeable(Fresh(rows, cols).(edibles := Edibles(Some(apple), None)), virus)
    ensures r.rows == rows && r.cols == cols
    ensures r.dots == Fresh(rows, cols).dots
    ensures r.score == 0 && r.apples == 0 && r.level == 0
    ensures !r.running && !r.processing && !r.canCross && r.direction.None?
    ensures r.updates == Updates(None, None)
    ensures r.edibles == Edibles(Some(apple), Some(virus))
    ensures rows >= 2 && cols >= 2 ==> Inv(r)
  {
    Fresh(rows, cols).(edibles := Edibles(Some(apple), Some(virus)))
  }
}
