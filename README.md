# Flappy Bird simulation in Dafny

This project models the game logic of a small Swing Flappy Bird game
(`FlappyBird.java`). A bird falls under gravity and is pushed up by the
space bar. Two pairs of pipes scroll left at a speed that grows with the
score. A pair that leaves the window on the left comes back at the right
edge with a new random gap and scores one point. Touching a pipe, or
sinking below the ground line, ends the game. Pressing space on a lost
game restarts it and keeps the high score.

Two modules:

- `Game` (game.dfy) is the value model. A `State` holds the bird's
  rectangle and velocity, the four pipe rectangles, the score, the high
  score and the game-over flag. `Tick` is one call of `update()`, built
  from the steps it takes in order: `Fall`, `MovePipes`, `RecyclePair1`,
  `RecyclePair2` and `CheckCollisions`. `Space` is the space-bar branch of
  `keyPressed`. `Run` applies many ticks. `Inv` is the invariant every
  reachable state keeps. All the game's properties are lemmas in this
  module.
- `Simulation` (simulation.dfy) is the program's own shape. The class
  `FlappyBird` holds five mutable `Rectangle` objects (java.awt.Rectangle
  is mutable and shared) plus the integer and boolean fields. Its
  `Update` and `PressSpace` change them in place. Each is proved to
  leave the object in exactly the state that `Game.Tick` or `Game.Space`
  computes from the old state, so every lemma of `Game` applies to the
  class.

`Math.random()` becomes an integer argument `g` with `50 <= g < 350`.
That is the range of `(int) (Math.random() * 300) + 50`. `Update` takes
one height per pair and uses it only if that pair is recycled.

Two details of the code that the model keeps:

- The pipe speed of a tick comes from the score before that tick's
  recycling (FlappyBird.java:84 runs before the increments at :96 and
  :109).
- A restart re-randomises only pair 2's gap. Pair 1 gets its x reset and
  keeps its heights (FlappyBird.java:195-203).

## Model

| member | source | states |
|---|---|---|
| Game.PipeSpeed | FlappyBird.java:84 | the speed is `min(20, 5 + score/5)`: always between 5 and 20, uncapped below score 75, and exactly 20 from score 75 on |
| Game.SpeedMonotone | FlappyBird.java:84 | a higher score never gives a lower pipe speed |
| Game.Initial | FlappyBird.java:41-51 | the constructor's state keeps the invariant (both pairs aligned with a 150 gap ending at 500), is running with score and high score 0, has the bird at rest at y 300, starts pair 1 just off-screen right at x 800, and puts pair 2 half a window (400) behind it |
| Game.Intersects | FlappyBird.java:118-119 | java.awt's `intersects` (strict overlap on both axes, false whenever either rectangle is empty); its meaning is stated by the lemma IntersectsIffSharedPoint |
| Game.IntersectsIffSharedPoint | FlappyBird.java:118-119 | two rectangles intersect exactly when some integer point lies in both |
| Game.Fall | FlappyBird.java:68-80 | gravity step: the velocity grows by 1 and the bird moves by the new velocity, or both become 0 if that would put it above the window; the bird ends at y >= 0 with x and size unchanged, the game is over exactly when it already was or the moved y is greater than 480 (below the ground line), and no pipe, score or high score changes |
| Game.MovePipes | FlappyBird.java:86-90 | the four pipes move left together by `speed`: pair 1's top moves by exactly `speed`, each pair keeps its top and bottom at the same offset, the two pairs keep their distance, only x changes, and bird, score, high score and flag are untouched |
| Game.RecyclePair1 | FlappyBird.java:92-103 | pair 1 off-screen: score + 1, both pipes at x 800, top height g, bottom starting 150 below it and ending at 500, y and widths kept; pair 1 on screen: nothing changes; pair 2, bird and flag never change |
| Game.RecyclePair2 | FlappyBird.java:105-115 | the same for pair 2, leaving pair 1 untouched |
| Game.CheckCollisions | FlappyBird.java:117-121 | the game is over afterwards exactly when it was before or the bird meets one of the four pipes; nothing else changes |
| Game.Tick | FlappyBird.java:66-123 | a tick on a lost game changes nothing; a tick never clears game over, never changes the high score, and adds 0, 1 or 2 to the score (the lemmas TickGravity, TickGameOver and TickPipes state the rest) |
| Game.Space | FlappyBird.java:182-212 | after the space bar the game is always running, the high score has not dropped, and the score is 0 after a restart and unchanged after a jump (SpaceJump and SpaceRestart state the rest) |
| Game.TickPreservesInv | FlappyBird.java:66-123 | a tick keeps each pair aligned (top and bottom at the same x), the gap 150 high and ending at the ground band, the gap height in [50, 350), pipe x in [-60, 1200], and the bird at x 100 with y >= 0 |
| Game.SpacePreservesInv | FlappyBird.java:182-212 | a jump or a restart keeps the same invariant |
| Game.TickGravity | FlappyBird.java:67-80 | a running tick adds 1 to the velocity and then moves the bird by the new velocity; if that puts it above the window, y and velocity both become 0, so y >= 0 afterwards |
| Game.TickGameOver | FlappyBird.java:72-121 | a running tick ends the game exactly when the moved bird's y is greater than 480, i.e. below the ground line (480 itself is safe), or the bird overlaps a pipe after the pipes moved and were recycled |
| Game.TickPipes | FlappyBird.java:84-115 | both pairs move left by the speed of the pre-tick score; a pair whose top ends wholly left of x 0 goes to x 800 with the fresh gap (top height g, bottom y g+150, bottom ending at 500), otherwise it keeps its heights; the score grows by exactly the number of recycled pairs, at most 2 |
| Game.HitsPairIff | FlappyBird.java:118-119 | under the invariant, the bird overlaps a pipe pair exactly when it is in the pair's column and not wholly inside the gap |
| Game.SpaceJump | FlappyBird.java:207-210 | space while running sets the velocity to -12 whatever it was, and changes nothing else |
| Game.SpaceRestart | FlappyBird.java:184-206 | space on a lost game: high score becomes the larger of high score and score, score 0, running, bird at y 300 with velocity 0, pair 1 at x 800 with its heights kept, pair 2 at x 1200 with the fresh gap and its y and widths kept |
| Game.RunFrozen | FlappyBird.java:67 | any number of ticks on a lost game changes nothing |
| Game.FreeFall | FlappyBird.java:41-123 | during the first 18 ticks of a new game without a jump, the bird falls by 1+2+...+n and the pipes move left by 5 per tick |
| Game.NoJumpHitsGroundAtTick19 | FlappyBird.java:66-123 | a new game without a jump is still running after 18 ticks, is lost on the ground at tick 19 with y 490 and score 0, and ticks 20 to 1000 change nothing |
| Simulation.FlappyBird.constructor | FlappyBird.java:41-51 | the new object holds the initial state, with five distinct fresh rectangles |
| Simulation.FlappyBird.Update | FlappyBird.java:66-123 | updating the rectangles and fields in place leaves exactly the state `Game.Tick` gives, and keeps the invariant |
| Simulation.FlappyBird.PressSpace | FlappyBird.java:182-212 | the space-bar branch in place leaves exactly the state `Game.Space` gives, and keeps the invariant |
| Simulation.FlappyBird.ApplyGravity | FlappyBird.java:68-80 | gravity, the ground check and the ceiling clamp in place equal `Game.Fall` |
| Simulation.FlappyBird.MovePipesLeft | FlappyBird.java:86-90 | the four pipe rectangles each move left by the same speed in place |
| Simulation.FlappyBird.RecycleFirstPair | FlappyBird.java:92-103 | pair 1 recycled in place, as `Game.RecyclePair1` |
| Simulation.FlappyBird.RecycleSecondPair | FlappyBird.java:105-115 | pair 2 recycled in place, as `Game.RecyclePair2` |
| Simulation.FlappyBird.CheckCollisions | FlappyBird.java:117-121 | sets game over when the bird rectangle meets any of the four pipe rectangles, as `Game.CheckCollisions` |

## Left out

- Rendering (`paintComponent`), with its colours, fonts and text layout. It only reads the state.
- The Swing shell: the `Timer` that calls `update()` every 20 ms, `actionPerformed`, the `JFrame` setup in `main`, the panel settings, and the empty `keyTyped`/`keyReleased`. `Run` stands for the timer firing repeatedly.
- Key codes: `PressSpace` is the `VK_SPACE` branch of `keyPressed`; any other key does nothing, so it has no member.
- `Math.random()`: its floating-point arithmetic is replaced by the integer height it produces, passed in as an argument.
- `java.awt.Rectangle` is modelled only by its four fields and by `intersects`, which includes its empty-rectangle guard. Under the invariant every rectangle has a positive size, so the guard never decides anything.
- Java's 32-bit `int` wrap-around is not modelled. The invariant bounds every coordinate and the velocity to a few thousand, so this only matters for the score, which would overflow after about two billion recycled pipes.
