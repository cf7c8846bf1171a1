/**
 * The single-player console prototype: a player on a 20 x 10 board
 * walks with the WASD keys, picks up a coin worth 10 points, and the
 * coin reappears at a random cell.  Here `x` is the column (bounded by
 * WIDTH) and `y` the row (bounded by HEIGHT).
 *
 * The four globals of the prototype become the fields of `Console`;
 * each of its methods is proved against a pure function on the `World`
 * snapshot, and the promises of the prototype are lemmas about those
 * functions.  A key press is `Some(c)` and "no key waiting" is `None`;
 * rand() is a caller-supplied `Roll`.
 */
module CoinCollect {
  import opened Options

  const WIDTH := 20
  const HEIGHT := 10
  const COIN_REWARD := 10

  datatype Point = Point(x: int, y: int)

  /** Two raw rand() results; rand() never returns a negative number. */
  datatype Roll = Roll(first: nat, second: nat)

  datatype World = World(gameOver: bool, player: Point, coin: Point, score: int)

  predicate OnBoard(p: Point) {
    0 <= p.x < WIDTH && 0 <= p.y < HEIGHT
  }

  /** What holds between two frames: both entities on the board, a score made of whole rewards. */
  predicate Valid(w: World) {
    OnBoard(w.player) && OnBoard(w.coin) && w.score >= 0 && w.score % COIN_REWARD == 0
  }

  /** A coin placed from a roll of rand(): column first, then row. */
  function Spawn(r: Roll): (p: Point)
    ensures OnBoard(p)
  {
    Point(r.first % WIDTH, r.second % HEIGHT)
  }

  /** The world `Setup` leaves behind. */
  function SetUp(r: Roll): World {
    World(false, Point(WIDTH / 2, HEIGHT / 2), Spawn(r), 0)
  }

  /** The effect of `Input`: one key, or none, read without waiting. */
  function Pressed(w: World, key: Option<char>): World {
    match key
    case None => w
    case Some(c) =>
      if c == 'a' then w.(player := w.player.(x := w.player.x - 1))
      else if c == 'd' then w.(player := w.player.(x := w.player.x + 1))
      else if c == 'w' then w.(player := w.player.(y := w.player.y - 1))
      else if c == 's' then w.(player := w.player.(y := w.player.y + 1))
      else if c == 'x' then w.(gameOver := true)
      else w
  }

  /** One coordinate pushed back against the walls, upper wall first. */
  function Clamp(v: int, bound: int): int
    requires bound > 0
  {
    var v' := if v >= bound then bound - 1 else v;
    if v' < 0 then 0 else v'
  }

  function ClampPoint(p: Point): Point {
    Point(Clamp(p.x, WIDTH), Clamp(p.y, HEIGHT))
  }

  /** The effect of `Logic`: collect the coin (the roll is used only then), then clamp. */
  function Collected(w: World, r: Roll): World {
    var w' := if w.player == w.coin then w.(score := w.score + COIN_REWARD, coin := Spawn(r)) else w;
    w'.(player := ClampPoint(w'.player))
  }

  /** One frame of the main loop: `Input` then `Logic`. */
  function Frame(w: World, key: Option<char>, r: Roll): World {
    Collected(Pressed(w, key), r)
  }

  /** Whether the frame on `key` picks up the coin, and so consumes a roll. */
  predicate Collects(w: World, key: Option<char>) {
    var u := Pressed(w, key);
    u.player == u.coin
  }

  /**
   * The main loop over a finite script of keys: it stops once the game is
   * over or the script ends, and takes a roll from `rolls` only on a frame
   * that collects the coin.
   */
  function Played(w: World, keys: seq<Option<char>>, rolls: seq<Roll>): World
    requires |rolls| >= |keys|
    decreases |keys|
  {
    if w.gameOver || keys == [] then w
    else if Collects(w, keys[0]) then Played(Frame(w, keys[0], rolls[0]), keys[1..], rolls[1..])
    else Played(Frame(w, keys[0], rolls[0]), keys[1..], rolls)
  }

  lemma SetUpIsValid(r: Roll)
    ensures var w := SetUp(r);
      Valid(w) && !w.gameOver && w.score == 0 && w.player == Point(WIDTH / 2, HEIGHT / 2)
  { }

  /**
   * A key moves the player by at most one cell, and moves it exactly when it
   * is one of the four WASD keys: 'a' left and 'd' right along x, 'w' up and
   * 's' down along y. Only 'x' ends the game; the coin and the score never
   * change.
   */
  lemma PressedMovesOneStep(w: World, key: Option<char>)
    ensures var u := Pressed(w, key);
      && (key == Some('a') ==> u.player == Point(w.player.x - 1, w.player.y))
      && (key == Some('d') ==> u.player == Point(w.player.x + 1, w.player.y))
      && (key == Some('w') ==> u.player == Point(w.player.x, w.player.y - 1))
      && (key == Some('s') ==> u.player == Point(w.player.x, w.player.y + 1))
      && u.coin == w.coin && u.score == w.score
      && (u.gameOver <==> w.gameOver || key == Some('x'))
      && (u.player != w.player <==> key.Some? && key.value in "wasd")
      && Abs(u.player.x - w.player.x) + Abs(u.player.y - w.player.y) <= 1
  { }

  function Abs(v: int): nat {
    if v < 0 then -v else v
  }

  /** Clamping lands on the board, and leaves a coordinate already on it alone. */
  lemma ClampInRange(v: int, bound: int)
    requires bound > 0
    ensures 0 <= Clamp(v, bound) < bound
    ensures 0 <= v < bound <==> Clamp(v, bound) == v
  { }

  /** After `Logic` the player is on the board, whatever its position before. */
  lemma CollectedOnBoard(w: World, r: Roll)
    ensures OnBoard(Collected(w, r).player)
    ensures OnBoard(w.player) ==> Collected(w, r).player == w.player
  {
    ClampInRange(w.player.x, WIDTH);
    ClampInRange(w.player.y, HEIGHT);
  }

  /**
   * `Logic` raises the score by exactly the reward when the player stands on
   * the coin, and then respawns the coin on the board; otherwise the score
   * and the coin stay as they were.
   */
  lemma CollectedScores(w: World, r: Roll)
    ensures var u := Collected(w, r);
      && (u.score == w.score + COIN_REWARD <==> w.player == w.coin)
      && (w.player != w.coin ==> u.score == w.score && u.coin == w.coin)
      && (w.player == w.coin ==> OnBoard(u.coin))
      && u.gameOver == w.gameOver
  { }

  /** The coin can only be collected on the board: a step off the edge never scores. */
  lemma OffBoardNeverCollects(w: World, key: Option<char>)
    requires Valid(w)
    requires !OnBoard(Pressed(w, key).player)
    ensures !Collects(w, key)
  { }

  /** A frame keeps the invariant: the clamp brings the player back, the reward keeps the score a multiple of 10. */
  lemma FrameKeepsValid(w: World, key: Option<char>, r: Roll)
    requires Valid(w)
    ensures Valid(Frame(w, key, r))
    ensures Frame(w, key, r).score == w.score + (if Collects(w, key) then COIN_REWARD else 0)
  {
    var u := Pressed(w, key);
    PressedMovesOneStep(w, key);
    CollectedOnBoard(u, r);
    CollectedScores(u, r);
  }

  /**
   * Over a whole script the invariant holds, the score never falls, and it
   * grows by at most one reward per key.
   */
  lemma {:induction false} PlayedKeepsValid(w: World, keys: seq<Option<char>>, rolls: seq<Roll>)
    requires Valid(w)
    requires |rolls| >= |keys|
    ensures var u := Played(w, keys, rolls);
      Valid(u) && w.score <= u.score <= w.score + COIN_REWARD * |keys|
    decreases |keys|
  {
    if w.gameOver || keys == [] {
    } else {
      FrameKeepsValid(w, keys[0], rolls[0]);
      var rest := if Collects(w, keys[0]) then rolls[1..] else rolls;
      PlayedKeepsValid(Frame(w, keys[0], rolls[0]), keys[1..], rest);
    }
  }

  /** The loop ends the game exactly when it was over already or an 'x' is in the script. */
  lemma {:induction false} PlayedEndsOnQuit(w: World, keys: seq<Option<char>>, rolls: seq<Roll>)
    requires |rolls| >= |keys|
    ensures Played(w, keys, rolls).gameOver <==> w.gameOver || Some('x') in keys
    decreases |keys|
  {
    if w.gameOver || keys == [] {
    } else {
      var u := Frame(w, keys[0], rolls[0]);
      PressedMovesOneStep(w, keys[0]);
      CollectedScores(Pressed(w, keys[0]), rolls[0]);
      var rest := if Collects(w, keys[0]) then rolls[1..] else rolls;
      PlayedEndsOnQuit(u, keys[1..], rest);
      assert keys == [keys[0]] + keys[1..];
    }
  }

  /** The four globals of the prototype. */
  class Console {
    var gameOver: bool
    var player: Point
    var coin: Point
    var score: int

    function Snapshot(): World
      reads this
    {
      World(gameOver, player, coin, score)
    }

    constructor(r: Roll)
      ensures Snapshot() == SetUp(r)
    {
      gameOver := false;
      score := 0;
      player := Point(WIDTH / 2, HEIGHT / 2);
      coin := Spawn(r);
    }

    /** `Setup`: a fresh game with the coin placed from `r`. */
    method Setup(r: Roll)
      modifies this
      ensures Snapshot() == SetUp(r)
    {
      gameOver := false;
      score := 0;
      player := Point(WIDTH / 2, HEIGHT / 2);
      coin := Spawn(r);
    }

    /** `Input`: apply the pending key, if any. */
    method Input(key: Option<char>)
      modifies this
      ensures Snapshot() == Pressed(old(Snapshot()), key)
    {
      if key.Some? {
        match key.value
        case 'a' => player := player.(x := player.x - 1);
        case 'd' => player := player.(x := player.x + 1);
        case 'w' => player := player.(y := player.y - 1);
        case 's' => player := player.(y := player.y + 1);
        case 'x' => gameOver := true;
        case _ =>
      }
    }

    /** `Logic`: collect the coin (drawing the new cell from `r`), then clamp the player. */
    method Logic(r: Roll)
      modifies this
      ensures Snapshot() == Collected(old(Snapshot()), r)
    {
      if player.x == coin.x && player.y == coin.y {
        score := score + COIN_REWARD;
        coin := Spawn(r);
      }
      if player.x >= WIDTH { player := player.(x := WIDTH - 1); }
      if player.x < 0 { player := player.(x := 0); }
      if player.y >= HEIGHT { player := player.(y := HEIGHT - 1); }
      if player.y < 0 { player := player.(y := 0); }
    }

    /**
     * The body of `main` after `Setup`: frames run while the game is not
     * over, over a finite script of keys; `rolls` feeds rand() on each
     * collection.
     */
    method Play(keys: seq<Option<char>>, rolls: seq<Roll>)
      requires |rolls| >= |keys|
      modifies this
      ensures Snapshot() == Played(old(Snapshot()), keys, rolls)
    {
      var i, j := 0, 0;
      while i < |keys| && !gameOver
        invariant 0 <= i <= |keys| && 0 <= j <= |rolls|
        invariant |rolls| - j >= |keys| - i
        invariant Played(Snapshot(), keys[i..], rolls[j..]) == Played(old(Snapshot()), keys, rolls)
        decreases |keys| - i
      {
        var collects := Collects(Snapshot(), keys[i]);
        assert keys[i..][0] == keys[i] && keys[i..][1..] == keys[i + 1..];
        assert rolls[j..][0] == rolls[j] && rolls[j..][1..] == rolls[j + 1..];
        Input(keys[i]);
        Logic(rolls[j]);
        i := i + 1;
        if collects {
          j := j + 1;
        }
      }
    }
  }
}
