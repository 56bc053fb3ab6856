/**
  The game panel as the program holds it: five mutable rectangles (the bird
  and four pipes) and a handful of integer fields, changed in place by
  `Update` (the timer tick) and `PressSpace` (the space bar).  Each method is
  proved to take the abstract state to exactly the state that Game.Tick or
  Game.Space gives, so every property proved in module Game holds of it.
*/
module Simulation {
  import opened Game

  /** A mutable rectangle, as java.awt.Rectangle is. */
  class Rectangle {
    var x: int
    var y: int
    var width: int
    var height: int

    constructor (x0: int, y0: int, w: int, h: int)
      ensures Value() == Rect(x0, y0, w, h)
    {
      x, y, width, height := x0, y0, w, h;
    }

    /** The rectangle's current geometry as a value. */
    function Value(): Rect
      reads this
    {
      Rect(x, y, width, height)
    }
  }

  class FlappyBird {
    var bird: Rectangle
    var yVelocity: int
    var pipe1Top: Rectangle
    var pipe1Bottom: Rectangle
    var pipe2Top: Rectangle
    var pipe2Bottom: Rectangle
    var score: nat
    var highScore: nat
    var gameOver: bool

    /** The five rectangles are distinct objects and the state is a reachable one. */
    ghost predicate Valid()
      reads this, bird, pipe1Top, pipe1Bottom, pipe2Top, pipe2Bottom
    {
      && Distinct()
      && Inv(Snapshot())
    }

    predicate Distinct()
      reads this
    {
      && bird != pipe1Top && bird != pipe1Bottom && bird != pipe2Top && bird != pipe2Bottom
      && pipe1Top != pipe1Bottom && pipe1Top != pipe2Top && pipe1Top != pipe2Bottom
      && pipe1Bottom != pipe2Top && pipe1Bottom != pipe2Bottom
      && pipe2Top != pipe2Bottom
    }

    /** The abstract state these fields and rectangles hold. */
    function Snapshot(): State
      reads this, bird, pipe1Top, pipe1Bottom, pipe2Top, pipe2Bottom
    {
      State(bird.Value(), yVelocity,
            pipe1Top.Value(), pipe1Bottom.Value(), pipe2Top.Value(), pipe2Bottom.Value(),
            score, highScore, gameOver)
    }

    /** The bird in the middle of the window, pair 1 at the right edge, pair 2 half a window further. */
    constructor ()
      ensures Valid() && Snapshot() == Initial()
      ensures fresh(bird) && fresh(pipe1Top) && fresh(pipe1Bottom) && fresh(pipe2Top) && fresh(pipe2Bottom)
    {
      bird := new Rectangle(BirdX, Height / 2, BirdSize, BirdSize);
      var h1 := 200;
      pipe1Top := new Rectangle(Width, 0, PipeWidth, h1);
      pipe1Bottom := new Rectangle(Width, h1 + PipeGap, PipeWidth, Height - (h1 + PipeGap) - GroundBand);
      var h2 := 300;
      pipe2Top := new Rectangle(Width + Width / 2, 0, PipeWidth, h2);
      pipe2Bottom := new Rectangle(Width + Width / 2, h2 + PipeGap, PipeWidth, Height - (h2 + PipeGap) - GroundBand);
      yVelocity, score, highScore, gameOver := 0, 0, 0, false;
    }

    /** One timer tick; `g1` and `g2` are the heights drawn if pair 1 or pair 2 is recycled. */
    method Update(g1: int, g2: int)
      requires Valid()
      requires ValidGap(g1) && ValidGap(g2)
      modifies this, bird, pipe1Top, pipe1Bottom, pipe2Top, pipe2Bottom
      ensures bird == old(bird) && pipe1Top == old(pipe1Top) && pipe1Bottom == old(pipe1Bottom)
      ensures pipe2Top == old(pipe2Top) && pipe2Bottom == old(pipe2Bottom)
      ensures Valid() && Snapshot() == Tick(old(Snapshot()), g1, g2)
    {
      TickPreservesInv(Snapshot(), g1, g2);
      if !gameOver {
        ApplyGravity();
        var currentPipeSpeed := PipeSpeed(score);
        MovePipesLeft(currentPipeSpeed);
        RecycleFirstPair(g1);
        RecycleSecondPair(g2);
        CheckCollisions();
      }
    }

    /** Gravity, the ground check and the ceiling clamp (the first steps of `Update`). */
    method ApplyGravity()
      requires Distinct()
      modifies this`yVelocity, this`gameOver, bird`y
      ensures Snapshot() == Fall(old(Snapshot()))
    {
      yVelocity := yVelocity + Gravity;
      bird.y := bird.y + yVelocity;
      if bird.y > GroundLine {
        gameOver := true;
      }
      if bird.y < 0 {
        bird.y := 0;
        yVelocity := 0;
      }
    }

    method MovePipesLeft(currentPipeSpeed: int)
      requires Distinct()
      modifies pipe1Top`x, pipe1Bottom`x, pipe2Top`x, pipe2Bottom`x
      ensures Snapshot() == MovePipes(old(Snapshot()), currentPipeSpeed)
    {
      pipe1Top.x := pipe1Top.x - currentPipeSpeed;
      pipe1Bottom.x := pipe1Bottom.x - currentPipeSpeed;
      pipe2Top.x := pipe2Top.x - currentPipeSpeed;
      pipe2Bottom.x := pipe2Bottom.x - currentPipeSpeed;
    }

    method RecycleFirstPair(g: int)
      requires Distinct()
      modifies this`score, pipe1Top, pipe1Bottom
      ensures Snapshot() == RecyclePair1(old(Snapshot()), g)
    {
      if pipe1Top.x + PipeWidth < 0 {
        pipe1Top.x := Width;
        pipe1Bottom.x := Width;
        score := score + 1;
        var newHeight := g;
        pipe1Top.height := newHeight;
        pipe1Bottom.y := newHeight + PipeGap;
        pipe1Bottom.height := Height - (newHeight + PipeGap) - GroundBand;
      }
    }

    method RecycleSecondPair(g: int)
      requires Distinct()
      modifies this`score, pipe2Top, pipe2Bottom
      ensures Snapshot() == RecyclePair2(old(Snapshot()), g)
    {
      if pipe2Top.x + PipeWidth < 0 {
        pipe2Top.x := Width;
        pipe2Bottom.x := Width;
        score := score + 1;
        var newHeight := g;
        pipe2Top.height := newHeight;
        pipe2Bottom.y := newHeight + PipeGap;
        pipe2Bottom.height := Height - (newHeight + PipeGap) - GroundBand;
      }
    }

    method CheckCollisions()
      modifies this`gameOver
      ensures Snapshot() == Game.CheckCollisions(old(Snapshot()))
    {
      if || Intersects(bird.Value(), pipe1Top.Value()) || Intersects(bird.Value(), pipe1Bottom.Value())
         || Intersects(bird.Value(), pipe2Top.Value()) || Intersects(bird.Value(), pipe2Bottom.Value())
      {
        gameOver := true;
      }
    }

    /** The space bar: jump while running, restart with pair 2's fresh height `g` once the game is over. */
    method PressSpace(g: int)
      requires Valid()
      requires ValidGap(g)
      modifies this, bird, pipe1Top, pipe1Bottom, pipe2Top, pipe2Bottom
      ensures bird == old(bird) && pipe1Top == old(pipe1Top) && pipe1Bottom == old(pipe1Bottom)
      ensures pipe2Top == old(pipe2Top) && pipe2Bottom == old(pipe2Bottom)
      ensures Valid() && Snapshot() == Space(old(Snapshot()), g)
    {
      SpacePreservesInv(Snapshot(), g);
      if gameOver {
        if score > highScore {
          highScore := score;
        }

        bird.y := Height / 2;
        yVelocity := 0;

        pipe1Top.x := Width;
        pipe1Bottom.x := Width;
        var h2 := g;
        pipe2Top.x := Width + Width / 2;
        pipe2Bottom.x := Width + Width / 2;
        pipe2Top.height := h2;
        pipe2Bottom.y := h2 + PipeGap;
        pipe2Bottom.height := Height - (h2 + PipeGap) - GroundBand;

        score := 0;
        gameOver := false;
      } else {
        yVelocity := JumpStrength;
      }
    }
  }
}
