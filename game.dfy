/**
  Value model of the Flappy Bird simulation: the playfield constants, the
  rectangles, one game state, and the two things that change it — a timer
  tick (`Tick`) and a press of the space bar (`Space`).  The class in
  simulation.dfy updates its objects in place and is proved to agree with
  these functions; the properties of the game are proved here, once.
*/
module Game {

  // Window and physics constants
  const Width := 800
  const Height := 600
  const Gravity := 1
  const JumpStrength := -12

  // Bird geometry: its left edge and size never change
  const BirdX := 100
  const BirdSize := 30

  // Pipe geometry
  const PipeWidth := 60
  const PipeGap := 150
  const GroundBand := 100

  // Speed scaling
  const BasePipeSpeed := 5
  const SpeedIncreaseInterval := 5
  const MaxPipeSpeed := 20

  /** The bird is on the ground once its top edge is strictly below this line. */
  const GroundLine := Height - 120

  /** An axis-aligned rectangle, as java.awt.Rectangle holds it. */
  datatype Rect = Rect(x: int, y: int, width: int, height: int)

  /**
    java.awt.Rectangle.intersects: an empty rectangle meets nothing, and
    otherwise the two half-open boxes must overlap on both axes.
  */
  predicate Intersects(a: Rect, b: Rect)
  {
    && a.width > 0 && a.height > 0 && b.width > 0 && b.height > 0
    && a.x < b.x + b.width && b.x < a.x + a.width
    && a.y < b.y + b.height && b.y < a.y + a.height
  }

  /** The integer point (px, py) lies in the half-open box of `r`. */
  predicate Covers(r: Rect, px: int, py: int)
  {
    r.x <= px < r.x + r.width && r.y <= py < r.y + r.height
  }

  /** Two rectangles intersect exactly when some integer point lies in both. */
  lemma IntersectsIffSharedPoint(a: Rect, b: Rect)
    ensures Intersects(a, b) <==> exists px, py :: Covers(a, px, py) && Covers(b, px, py)
  {
    if Intersects(a, b) {
      var px := if a.x < b.x then b.x else a.x;
      var py := if a.y < b.y then b.y else a.y;
      assert Covers(a, px, py) && Covers(b, px, py);
    }
  }

  /** A gap height that `(int) (Math.random() * 300) + 50` can produce. */
  predicate ValidGap(g: int)
  {
    50 <= g < 350
  }

  /** Everything `update()` and `keyPressed` read or write. */
  datatype State = State(
    bird: Rect,
    yVelocity: int,
    pipe1Top: Rect,
    pipe1Bottom: Rect,
    pipe2Top: Rect,
    pipe2Bottom: Rect,
    score: nat,
    highScore: nat,
    gameOver: bool)

  /** A top pipe of height `g` at column `x`. */
  function TopPipe(x: int, g: int): Rect
  {
    Rect(x, 0, PipeWidth, g)
  }

  /** The bottom pipe that leaves a gap of `PipeGap` below a top pipe of height `g`. */
  function BottomPipe(x: int, g: int): Rect
  {
    Rect(x, g + PipeGap, PipeWidth, Height - (g + PipeGap) - GroundBand)
  }

  /**
    The state the constructor builds: running, nothing scored, the bird at
    rest in the middle of the window, and the second pair half a window
    behind the first.
  */
  function Initial(): (s: State)
    ensures Inv(s) && !s.gameOver
    ensures s.score == 0 && s.highScore == 0
    ensures s.bird.y == Height / 2 && s.yVelocity == 0
    ensures s.pipe1Top.x == Width
    ensures s.pipe2Top.x == s.pipe1Top.x + Width / 2
  {
    State(
      Rect(BirdX, Height / 2, BirdSize, BirdSize), 0,
      TopPipe(Width, 200), BottomPipe(Width, 200),
      TopPipe(Width + Width / 2, 300), BottomPipe(Width + Width / 2, 300),
      0, 0, false)
  }

  /** `Math.min(MAX_PIPE_SPEED, BASE_PIPE_SPEED + score / SPEED_INCREASE_INTERVAL)`. */
  function PipeSpeed(score: nat): (speed: int)
    ensures BasePipeSpeed <= speed <= MaxPipeSpeed
    ensures speed < MaxPipeSpeed ==> speed == BasePipeSpeed + score / SpeedIncreaseInterval
    ensures score >= 75 <==> speed == MaxPipeSpeed
  {
    var s := BasePipeSpeed + score / SpeedIncreaseInterval;
    if MaxPipeSpeed < s then MaxPipeSpeed else s
  }

  // ---------------------------------------------------------------------------
  // One tick, split into the steps `update()` takes in order

  /** Gravity, then the ground check, then the ceiling clamp. */
  function Fall(s: State): (r: State)
    ensures var v := s.yVelocity + Gravity; var y := s.bird.y + v;
      && (y >= 0 ==> r.yVelocity == v && r.bird.y == y)
      && (y < 0 ==> r.yVelocity == 0 && r.bird.y == 0)
    ensures r.bird.y >= 0
    ensures r.gameOver <==> s.gameOver || s.bird.y + s.yVelocity + Gravity > GroundLine
    ensures r.bird.x == s.bird.x && r.bird.width == s.bird.width && r.bird.height == s.bird.height
    ensures r.(bird := s.bird, yVelocity := s.yVelocity, gameOver := s.gameOver) == s
  {
    var v := s.yVelocity + Gravity;
    var y := s.bird.y + v;
    var over := s.gameOver || y > GroundLine;
    if y < 0 then s.(bird := s.bird.(y := 0), yVelocity := 0, gameOver := over)
    else s.(bird := s.bird.(y := y), yVelocity := v, gameOver := over)
  }

  /** All four pipe rectangles move left by the same amount. */
  function MovePipes(s: State, speed: int): (r: State)
    ensures r.pipe1Top.x == s.pipe1Top.x - speed
    ensures r.pipe1Top.x - r.pipe1Bottom.x == s.pipe1Top.x - s.pipe1Bottom.x
    ensures r.pipe2Top.x - r.pipe2Bottom.x == s.pipe2Top.x - s.pipe2Bottom.x
    ensures r.pipe2Top.x - r.pipe1Top.x == s.pipe2Top.x - s.pipe1Top.x
    ensures r.pipe1Top.(x := 0) == s.pipe1Top.(x := 0) && r.pipe1Bottom.(x := 0) == s.pipe1Bottom.(x := 0)
    ensures r.pipe2Top.(x := 0) == s.pipe2Top.(x := 0) && r.pipe2Bottom.(x := 0) == s.pipe2Bottom.(x := 0)
    ensures r.bird == s.bird && r.yVelocity == s.yVelocity && r.score == s.score && r.gameOver == s.gameOver
    ensures r.highScore == s.highScore
  {
    s.(pipe1Top := s.pipe1Top.(x := s.pipe1Top.x - speed),
       pipe1Bottom := s.pipe1Bottom.(x := s.pipe1Bottom.x - speed),
       pipe2Top := s.pipe2Top.(x := s.pipe2Top.x - speed),
       pipe2Bottom := s.pipe2Bottom.(x := s.pipe2Bottom.x - speed))
  }

  /** A pair is recycled once its top pipe is wholly left of the window. */
  predicate OffScreen(top: Rect)
  {
    top.x + PipeWidth < 0
  }

  /**
    Recycling pair 1 scores one point and puts it at the right edge with a
    gap of `PipeGap` below height `g` that ends at the ground band; nothing
    else changes, and a pair still on screen is left alone.
  */
  function RecyclePair1(s: State, g: int): (r: State)
    ensures r.score == s.score + (if OffScreen(s.pipe1Top) then 1 else 0)
    ensures OffScreen(s.pipe1Top) ==>
      && r.pipe1Top.x == Width && r.pipe1Bottom.x == Width && r.pipe1Top.height == g
      && r.pipe1Bottom.y == r.pipe1Top.height + PipeGap
      && r.pipe1Bottom.y + r.pipe1Bottom.height == Height - GroundBand
      && r.pipe1Top.(x := 0, height := 0) == s.pipe1Top.(x := 0, height := 0)
      && r.pipe1Bottom.width == s.pipe1Bottom.width
    ensures r.(pipe1Top := s.pipe1Top, pipe1Bottom := s.pipe1Bottom, score := s.score) == s
    ensures !OffScreen(s.pipe1Top) ==> r == s
  {
    if OffScreen(s.pipe1Top) then
      s.(pipe1Top := s.pipe1Top.(x := Width, height := g),
         pipe1Bottom := s.pipe1Bottom.(x := Width, y := g + PipeGap,
                                       height := Height - (g + PipeGap) - GroundBand),
         score := s.score + 1)
    else s
  }

  /** Recycling pair 2, in the same way as `RecyclePair1`. */
  function RecyclePair2(s: State, g: int): (r: State)
    ensures r.score == s.score + (if OffScreen(s.pipe2Top) then 1 else 0)
    ensures OffScreen(s.pipe2Top) ==>
      && r.pipe2Top.x == Width && r.pipe2Bottom.x == Width && r.pipe2Top.height == g
      && r.pipe2Bottom.y == r.pipe2Top.height + PipeGap
      && r.pipe2Bottom.y + r.pipe2Bottom.height == Height - GroundBand
      && r.pipe2Top.(x := 0, height := 0) == s.pipe2Top.(x := 0, height := 0)
      && r.pipe2Bottom.width == s.pipe2Bottom.width
    ensures r.(pipe2Top := s.pipe2Top, pipe2Bottom := s.pipe2Bottom, score := s.score) == s
    ensures !OffScreen(s.pipe2Top) ==> r == s
  {
    if OffScreen(s.pipe2Top) then
      s.(pipe2Top := s.pipe2Top.(x := Width, height := g),
         pipe2Bottom := s.pipe2Bottom.(x := Width, y := g + PipeGap,
                                       height := Height - (g + PipeGap) - GroundBand),
         score := s.score + 1)
    else s
  }

  /** The bird touches one of the four pipe rectangles. */
  predicate HitsPipe(s: State)
  {
    || Intersects(s.bird, s.pipe1Top) || Intersects(s.bird, s.pipe1Bottom)
    || Intersects(s.bird, s.pipe2Top) || Intersects(s.bird, s.pipe2Bottom)
  }

  function CheckCollisions(s: State): (r: State)
    ensures r.gameOver <==> s.gameOver || HitsPipe(s)
    ensures r.(gameOver := s.gameOver) == s
  {
    if HitsPipe(s) then s.(gameOver := true) else s
  }

  /**
    `update()`: one timer tick.  `g1` and `g2` are the heights drawn if pair 1
    or pair 2 is recycled.  The pipe speed comes from the score before either
    pair is recycled, and a ground hit does not end the tick early.
  */
  function Tick(s: State, g1: int, g2: int): (r: State)
    requires ValidGap(g1) && ValidGap(g2)
    ensures s.gameOver ==> r == s
    ensures r.highScore == s.highScore
    ensures s.score <= r.score <= s.score + 2
  {
    if s.gameOver then s
    else
      var fallen := Fall(s);
      var moved := MovePipes(fallen, PipeSpeed(s.score));
      CheckCollisions(RecyclePair2(RecyclePair1(moved, g1), g2))
  }

  /**
    The space bar: a jump while running; while the game is over, a restart
    that keeps the better score, puts the bird back in the middle, moves
    pair 1 back to the right edge (keeping its heights) and pair 2 further
    right with the fresh height `g`.
  */
  function Space(s: State, g: int): (r: State)
    requires ValidGap(g)
    ensures !r.gameOver
    ensures r.highScore >= s.highScore
    ensures r.score == if s.gameOver then 0 else s.score
  {
    if s.gameOver then
      s.(highScore := if s.score > s.highScore then s.score else s.highScore,
         bird := s.bird.(y := Height / 2),
         yVelocity := 0,
         pipe1Top := s.pipe1Top.(x := Width),
         pipe1Bottom := s.pipe1Bottom.(x := Width),
         pipe2Top := s.pipe2Top.(x := Width + Width / 2, height := g),
         pipe2Bottom := s.pipe2Bottom.(x := Width + Width / 2, y := g + PipeGap,
                                       height := Height - (g + PipeGap) - GroundBand),
         score := 0,
         gameOver := false)
    else
      s.(yVelocity := JumpStrength)
  }

  /** Pairs of gap heights, one pair per tick. */
  predicate ValidGaps(gaps: seq<(int, int)>)
  {
    forall i :: 0 <= i < |gaps| ==> ValidGap(gaps[i].0) && ValidGap(gaps[i].1)
  }

  /** The timer firing once per element of `gaps`, with no key pressed. */
  function Run(s: State, gaps: seq<(int, int)>): State
    requires ValidGaps(gaps)
    decreases |gaps|
  {
    if gaps == [] then s
    else Run(Tick(s, gaps[0].0, gaps[0].1), gaps[1..])
  }

  // ---------------------------------------------------------------------------
  // The invariant every reachable state keeps

  /** A top/bottom pair at one column with a gap of `PipeGap` ending at the ground band. */
  predicate PairOk(top: Rect, bottom: Rect)
  {
    && top.y == 0 && top.width == PipeWidth && bottom.width == PipeWidth
    && top.x == bottom.x
    && ValidGap(top.height)
    && bottom.y == top.height + PipeGap
    && bottom.y + bottom.height == Height - GroundBand
    && -PipeWidth <= top.x <= Width + Width / 2
  }

  /**
    The invariant of a reachable state.  Besides the geometry it bounds the
    bird, so every quantity stays far inside Java's 32-bit `int`.
  */
  predicate Inv(s: State)
  {
    && s.bird.x == BirdX && s.bird.width == BirdSize && s.bird.height == BirdSize
    && PairOk(s.pipe1Top, s.pipe1Bottom)
    && PairOk(s.pipe2Top, s.pipe2Bottom)
    && 0 <= s.bird.y <= 2 * GroundLine + 1
    && JumpStrength <= s.yVelocity <= GroundLine + 1
    && (!s.gameOver ==> s.bird.y <= GroundLine && s.yVelocity <= GroundLine)
  }

  lemma TickPreservesInv(s: State, g1: int, g2: int)
    requires ValidGap(g1) && ValidGap(g2)
    requires Inv(s)
    ensures Inv(Tick(s, g1, g2))
  {
  }

  lemma SpacePreservesInv(s: State, g: int)
    requires ValidGap(g)
    requires Inv(s)
    ensures Inv(Space(s, g))
  {
  }

  // ---------------------------------------------------------------------------
  // Properties of one tick

  /** Explicit Euler: the velocity grows by one, then the bird moves by the new velocity, clamped at the ceiling. */
  lemma TickGravity(s: State, g1: int, g2: int)
    requires ValidGap(g1) && ValidGap(g2)
    requires !s.gameOver
    ensures var r := Tick(s, g1, g2);
      var y := s.bird.y + s.yVelocity + Gravity;
      && (y >= 0 ==> r.yVelocity == s.yVelocity + Gravity && r.bird.y == y)
      && (y < 0 ==> r.yVelocity == 0 && r.bird.y == 0)
      && r.bird.y >= 0
      && r.bird.x == s.bird.x && r.bird.width == s.bird.width && r.bird.height == s.bird.height
  {
  }

  /**
    A running tick ends the game exactly when the bird has sunk strictly
    below the ground line or, after the pipes have moved and been recycled,
    overlaps one of them.  Ending on the ground line itself is not a loss.
  */
  lemma TickGameOver(s: State, g1: int, g2: int)
    requires ValidGap(g1) && ValidGap(g2)
    requires !s.gameOver
    ensures var r := Tick(s, g1, g2);
      r.gameOver <==> s.bird.y + s.yVelocity + Gravity > GroundLine || HitsPipe(r)
  {
  }

  /** What a tick does to one pipe pair, given the speed it moves at. */
  predicate PairStep(top: Rect, bottom: Rect, top': Rect, bottom': Rect, speed: int, g: int)
  {
    if top.x - speed + PipeWidth < 0 then
      top' == TopPipe(Width, g) && bottom' == BottomPipe(Width, g)
    else
      top' == top.(x := top.x - speed) && bottom' == bottom.(x := bottom.x - speed)
  }

  /** The number of pairs (0, 1 or 2) a tick recycles at a given speed. */
  function Recycled(s: State, speed: int): nat
  {
    (if s.pipe1Top.x - speed + PipeWidth < 0 then 1 else 0) +
    (if s.pipe2Top.x - speed + PipeWidth < 0 then 1 else 0)
  }

  /**
    Both pairs move by the speed of the score before the tick; each pair is
    recycled on its own when wholly off-screen, to the right edge with its
    own fresh gap, scoring exactly one point; a pair that is not recycled
    keeps its heights.
  */
  lemma TickPipes(s: State, g1: int, g2: int)
    requires ValidGap(g1) && ValidGap(g2)
    requires Inv(s) && !s.gameOver
    ensures var r := Tick(s, g1, g2);
      var speed := PipeSpeed(s.score);
      && PairStep(s.pipe1Top, s.pipe1Bottom, r.pipe1Top, r.pipe1Bottom, speed, g1)
      && PairStep(s.pipe2Top, s.pipe2Bottom, r.pipe2Top, r.pipe2Bottom, speed, g2)
      && r.score == s.score + Recycled(s, speed)
      && r.score - s.score <= 2
  {
  }

  /**
    Under the invariant, the bird hits a pipe pair exactly when it is in the
    pair's column and not wholly inside the gap, above the ground band.
  */
  lemma HitsPairIff(s: State, top: Rect, bottom: Rect)
    requires Inv(s) && PairOk(top, bottom)
    ensures Intersects(s.bird, top) || Intersects(s.bird, bottom) <==>
      && top.x < BirdX + BirdSize && BirdX < top.x + PipeWidth
      && (s.bird.y < top.height ||
          (top.height + PipeGap < s.bird.y + BirdSize && s.bird.y < Height - GroundBand))
  {
  }

  // ---------------------------------------------------------------------------
  // Properties of the space bar

  /** A jump sets the velocity outright and changes nothing else. */
  lemma SpaceJump(s: State, g: int)
    requires ValidGap(g)
    requires !s.gameOver
    ensures Space(s, g) == s.(yVelocity := JumpStrength)
  {
  }

  /** The restart, field by field. */
  lemma SpaceRestart(s: State, g: int)
    requires ValidGap(g)
    requires s.gameOver
    ensures var r := Space(s, g);
      && r.highScore >= s.highScore && r.highScore >= s.score
      && (r.highScore == s.highScore || r.highScore == s.score)
      && r.score == 0 && !r.gameOver
      && r.bird == s.bird.(y := Height / 2) && r.yVelocity == 0
      && r.pipe1Top == s.pipe1Top.(x := Width) && r.pipe1Bottom == s.pipe1Bottom.(x := Width)
      && r.pipe2Top == s.pipe2Top.(x := Width + Width / 2, height := g)
      && r.pipe2Bottom == s.pipe2Bottom.(x := Width + Width / 2, y := g + PipeGap,
                                         height := Height - GroundBand - (g + PipeGap))
      && r.pipe2Bottom.y + r.pipe2Bottom.height == Height - GroundBand
  {
  }

  // ---------------------------------------------------------------------------
  // Properties of the speed

  lemma SpeedMonotone(a: nat, b: nat)
    requires a <= b
    ensures PipeSpeed(a) <= PipeSpeed(b)
  {
  }

  // ---------------------------------------------------------------------------
  // Many ticks

  lemma {:induction false} RunAppend(s: State, a: seq<(int, int)>, b: seq<(int, int)>)
    requires ValidGaps(a) && ValidGaps(b)
    ensures ValidGaps(a + b) && Run(s, a + b) == Run(Run(s, a), b)
    decreases |a|
  {
    if a != [] {
      assert (a + b)[0] == a[0] && (a + b)[1..] == a[1..] + b;
      RunAppend(Tick(s, a[0].0, a[0].1), a[1..], b);
    } else {
      assert a + b == b;
    }
  }

  /** Once the game is over, no number of ticks changes anything. */
  lemma {:induction false} RunFrozen(s: State, gaps: seq<(int, int)>)
    requires ValidGaps(gaps)
    requires s.gameOver
    ensures Run(s, gaps) == s
    decreases |gaps|
  {
    if gaps != [] {
      RunFrozen(Tick(s, gaps[0].0, gaps[0].1), gaps[1..]);
    }
  }

  /** The drop after `n` ticks of free fall from rest. */
  function Drop(n: nat): (d: nat)
  {
    if n == 0 then 0 else Drop(n - 1) + n
  }

  lemma {:induction false} DropClosedForm(n: nat)
    ensures 2 * Drop(n) == n * (n + 1)
  {
    if n > 0 {
      DropClosedForm(n - 1);
    }
  }

  /** The state after `n` ticks of free fall from the initial state. */
  function Falling(n: nat): State
  {
    var s := Initial();
    s.(bird := s.bird.(y := s.bird.y + Drop(n)),
       yVelocity := n,
       pipe1Top := s.pipe1Top.(x := s.pipe1Top.x - BasePipeSpeed * n),
       pipe1Bottom := s.pipe1Bottom.(x := s.pipe1Bottom.x - BasePipeSpeed * n),
       pipe2Top := s.pipe2Top.(x := s.pipe2Top.x - BasePipeSpeed * n),
       pipe2Bottom := s.pipe2Bottom.(x := s.pipe2Bottom.x - BasePipeSpeed * n))
  }

  /** One tick of free fall, while the bird is still above the ground line. */
  lemma FallingStep(n: nat, g1: int, g2: int)
    requires ValidGap(g1) && ValidGap(g2)
    requires n < 18
    ensures Tick(Falling(n), g1, g2) == Falling(n + 1)
  {
    DropClosedForm(n + 1);
    assert Drop(n + 1) <= 171;
  }

  /** For the first 18 ticks without a jump the bird only falls and the pipes only move. */
  lemma {:induction false} FreeFall(gaps: seq<(int, int)>)
    requires ValidGaps(gaps) && |gaps| <= 18
    ensures Run(Initial(), gaps) == Falling(|gaps|)
    decreases |gaps|
  {
    var n := |gaps|;
    if n > 0 {
      var front := gaps[..n - 1];
      assert gaps == front + [gaps[n - 1]];
      FreeFall(front);
      RunAppend(Initial(), front, [gaps[n - 1]]);
      FallingStep(n - 1, gaps[n - 1].0, gaps[n - 1].1);
    }
  }

  /**
    Without a jump, a new game is lost on the ground at tick 19 (the bird's
    top edge reaches 300 + 190 = 490 > 480), not earlier, and the remaining
    ticks of a run of 1000 change nothing.
  */
  lemma NoJumpHitsGroundAtTick19(gaps: seq<(int, int)>)
    requires ValidGaps(gaps) && |gaps| == 1000
    ensures !Run(Initial(), gaps[..18]).gameOver
    ensures var s := Run(Initial(), gaps[..19]);
      s.gameOver && s.bird.y == 490 && s.score == 0
    ensures Run(Initial(), gaps) == Run(Initial(), gaps[..19])
  {
    var first := gaps[..18];
    FreeFall(first);
    DropClosedForm(18);
    assert gaps[..19] == first + [gaps[18]];
    RunAppend(Initial(), first, [gaps[18]]);
    var s := Run(Initial(), gaps[..19]);
    assert gaps == gaps[..19] + gaps[19..];
    RunAppend(Initial(), gaps[..19], gaps[19..]);
    RunFrozen(s, gaps[19..]);
  }
}
