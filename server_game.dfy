/**
 * The server's authoritative game state: two players and one coin on a fixed
 * 10 x 20 grid. `Position.x` is the row (bounded by HEIGHT) and `Position.y`
 * the column (bounded by WIDTH).
 *
 * `Game` is the value of the state and the functions over it are its
 * specification; `GameState` is the object the server mutates in place, and
 * each of its methods is proved against those functions.
 */
module ServerGame {

  import opened Options
  import opened Wire

  const WIDTH := 20
  const HEIGHT := 10
  /** Points a player gains for collecting the coin. */
  const COIN_REWARD := 10

  datatype Position = Position(x: int, y: int)
  datatype Player = Player(pos: Position, score: int)
  datatype Direction = Left | Right | Up | Down
  /** Which of the two players of the state a connection controls. */
  datatype Slot = P1 | P2
  /** The two results of `rand()` that one coin placement draws. */
  datatype Draw = Draw(first: nat, second: nat)
  datatype Game = Game(p1: Player, p2: Player, coin: Position)

  predicate InGrid(p: Position)
  {
    0 <= p.x < HEIGHT && 0 <= p.y < WIDTH
  }

  /** The cell one step from `p` in direction `dir`. */
  function Displace(p: Position, dir: Direction): (q: Position)
    ensures (q.x == p.x && (q.y == p.y - 1 || q.y == p.y + 1))
         || (q.y == p.y && (q.x == p.x - 1 || q.x == p.x + 1))
    ensures (q.x < p.x <==> dir == Up) && (q.x > p.x <==> dir == Down)
    ensures (q.y < p.y <==> dir == Left) && (q.y > p.y <==> dir == Right)
  {
    match dir
    case Up => Position(p.x - 1, p.y)
    case Down => Position(p.x + 1, p.y)
    case Left => Position(p.x, p.y - 1)
    case Right => Position(p.x, p.y + 1)
  }

  /** The cell a draw names: `rand() % HEIGHT` for the row, `rand() % WIDTH` for the column. */
  function Cell(d: Draw): (p: Position)
    ensures InGrid(p)
  {
    Position(d.first % HEIGHT, d.second % WIDTH)
  }

  predicate Free(p: Position, a: Position, b: Position)
  {
    p != a && p != b
  }

  /** Some draw names a cell that is neither `a` nor `b`. */
  ghost predicate SomeFree(draws: seq<Draw>, a: Position, b: Position)
  {
    exists k :: 0 <= k < |draws| && Free(Cell(draws[k]), a, b)
  }

  /**
   * The draws name three pairwise different cells. This is what the model asks
   * of `rand()`: with it, every rejection loop ends, whoever stands where.
   */
  ghost predicate ThreeDistinctCells(draws: seq<Draw>)
  {
    exists i, j, k :: 0 <= i < |draws| && 0 <= j < |draws| && 0 <= k < |draws|
      && Cell(draws[i]) != Cell(draws[j]) && Cell(draws[j]) != Cell(draws[k])
      && Cell(draws[i]) != Cell(draws[k])
  }

  /** Two players cannot stand on all of three different cells. */
  lemma ThreeCellsHaveFree(draws: seq<Draw>, a: Position, b: Position)
    requires ThreeDistinctCells(draws)
    ensures SomeFree(draws, a, b)
  {
    var i, j, k :| 0 <= i < |draws| && 0 <= j < |draws| && 0 <= k < |draws|
      && Cell(draws[i]) != Cell(draws[j]) && Cell(draws[j]) != Cell(draws[k])
      && Cell(draws[i]) != Cell(draws[k]);
    if Free(Cell(draws[i]), a, b) {
    } else if Free(Cell(draws[j]), a, b) {
    } else {
      assert Free(Cell(draws[k]), a, b);
    }
  }

  lemma SomeFreeTail(draws: seq<Draw>, a: Position, b: Position)
    requires SomeFree(draws, a, b)
    ensures |draws| > 0
    ensures Free(Cell(draws[0]), a, b) || SomeFree(draws[1..], a, b)
  {
    var k :| 0 <= k < |draws| && Free(Cell(draws[k]), a, b);
    if k > 0 {
      assert draws[1..][k - 1] == draws[k];
    }
  }

  /**
   * Where the rejection loop of `spawnCoin` leaves the coin: where it is if
   * that cell is free, otherwise on the first drawn cell that is free.
   */
  function Respawn(coin: Position, draws: seq<Draw>, a: Position, b: Position): (r: Position)
    requires Free(coin, a, b) || SomeFree(draws, a, b)
    ensures Free(r, a, b)
    ensures Free(coin, a, b) ==> r == coin
    ensures !Free(coin, a, b) ==> InGrid(r)
    decreases |draws|
  {
    if Free(coin, a, b) then coin
    else
      SomeFreeTail(draws, a, b);
      Respawn(Cell(draws[0]), draws[1..], a, b)
  }

  /** A coin that has to move lands on the first drawn cell that is free, and on no earlier one. */
  lemma {:induction false} RespawnFirstFree(coin: Position, draws: seq<Draw>, a: Position, b: Position)
    requires SomeFree(draws, a, b)
    requires !Free(coin, a, b)
    ensures exists k ::
      && 0 <= k < |draws|
      && Respawn(coin, draws, a, b) == Cell(draws[k])
      && (forall j :: 0 <= j < k ==> !Free(Cell(draws[j]), a, b))
    decreases |draws|
  {
    SomeFreeTail(draws, a, b);
    var c := Cell(draws[0]);
    if Free(c, a, b) {
      assert Respawn(coin, draws, a, b) == c;
    } else {
      RespawnFirstFree(c, draws[1..], a, b);
      var k :|
        && 0 <= k < |draws[1..]|
        && Respawn(c, draws[1..], a, b) == Cell(draws[1..][k])
        && (forall j :: 0 <= j < k ==> !Free(Cell(draws[1..][j]), a, b));
      assert draws[1..][k] == draws[k + 1];
      assert forall j :: 1 <= j < k + 1 ==> draws[1..][j - 1] == draws[j];
    }
  }

  function PlayerIn(g: Game, slot: Slot): Player
  {
    if slot == P1 then g.p1 else g.p2
  }

  function Other(slot: Slot): Slot
  {
    if slot == P1 then P2 else P1
  }

  function WithPlayer(g: Game, slot: Slot, p: Player): Game
  {
    if slot == P1 then g.(p1 := p) else g.(p2 := p)
  }

  predicate Occupied(g: Game, p: Position)
  {
    p == g.p1.pos || p == g.p2.pos
  }

  /**
   * What holds of the state between moves: both players and the coin are on
   * the grid, on three different cells, and both scores are non-negative
   * multiples of the reward.
   */
  predicate Inv(g: Game)
  {
    && InGrid(g.p1.pos) && InGrid(g.p2.pos) && InGrid(g.coin)
    && g.p1.pos != g.p2.pos
    && Free(g.coin, g.p1.pos, g.p2.pos)
    && g.p1.score >= 0 && g.p1.score % COIN_REWARD == 0
    && g.p2.score >= 0 && g.p2.score % COIN_REWARD == 0
  }

  /** The state the constructor builds: players in opposite corners, scores zero, a coin placed. */
  function Initial(draws: seq<Draw>): (g: Game)
    requires ThreeDistinctCells(draws)
    ensures g.p1 == Player(Position(0, 0), 0)
    ensures g.p2 == Player(Position(HEIGHT - 1, WIDTH - 1), 0)
    ensures Inv(g)
  {
    var a := Position(0, 0);
    var b := Position(HEIGHT - 1, WIDTH - 1);
    ThreeCellsHaveFree(draws, a, b);
    Game(Player(a, 0), Player(b, 0), Respawn(Position(0, 0), draws, a, b))
  }

  /** The cell a move tries to reach. */
  function Target(g: Game, slot: Slot, dir: Direction): Position
  {
    Displace(PlayerIn(g, slot).pos, dir)
  }

  /** A move is refused when it leaves the grid or runs into a player. */
  predicate Refused(g: Game, slot: Slot, dir: Direction)
  {
    !InGrid(Target(g, slot, dir)) || Occupied(g, Target(g, slot, dir))
  }

  /** The state after the player in `slot` tries one step in `dir`. */
  function Moved(g: Game, slot: Slot, dir: Direction, draws: seq<Draw>): Game
    requires ThreeDistinctCells(draws)
  {
    var mover := PlayerIn(g, slot);
    var newPos := Displace(mover.pos, dir);
    if !InGrid(newPos) || Occupied(g, newPos) then g
    else
      var collects := newPos == g.coin;
      var h := WithPlayer(g, slot, Player(newPos, if collects then mover.score + COIN_REWARD else mover.score));
      if collects then
        ThreeCellsHaveFree(draws, h.p1.pos, h.p2.pos);
        h.(coin := Respawn(h.coin, draws, h.p1.pos, h.p2.pos))
      else h
  }

  /**
   * A refused move changes nothing. An accepted one puts the mover on the
   * target and leaves the other player alone; the mover gains the reward and
   * the coin moves exactly when the target holds the coin, and the coin then
   * lands on a free cell of the grid.
   */
  lemma MoveOutcome(g: Game, slot: Slot, dir: Direction, draws: seq<Draw>)
    requires ThreeDistinctCells(draws)
    ensures var h := Moved(g, slot, dir, draws);
      && (Refused(g, slot, dir) ==> h == g)
      && (!Refused(g, slot, dir) ==>
        && PlayerIn(h, slot).pos == Target(g, slot, dir)
        && PlayerIn(h, Other(slot)) == PlayerIn(g, Other(slot))
        && (PlayerIn(h, slot).score == PlayerIn(g, slot).score + COIN_REWARD <==> Target(g, slot, dir) == g.coin)
        && (h.coin != g.coin <==> Target(g, slot, dir) == g.coin))
      && (!Refused(g, slot, dir) && Target(g, slot, dir) != g.coin ==>
        PlayerIn(h, slot).score == PlayerIn(g, slot).score && h.coin == g.coin)
      && (!Refused(g, slot, dir) && Target(g, slot, dir) == g.coin ==>
        InGrid(h.coin) && Free(h.coin, h.p1.pos, h.p2.pos))
  {
  }

  /** Every move, accepted or refused, keeps the state's invariant. */
  lemma MovePreservesInv(g: Game, slot: Slot, dir: Direction, draws: seq<Draw>)
    requires ThreeDistinctCells(draws)
    requires Inv(g)
    ensures Inv(Moved(g, slot, dir, draws))
  {
    var h := Moved(g, slot, dir, draws);
    MoveOutcome(g, slot, dir, draws);
    if !Refused(g, slot, dir) {
      assert PlayerIn(g, Other(slot)).pos != Target(g, slot, dir);
    }
  }

  /** The eight fields a recipient is sent: itself first, then the other player, the coin, the scores. */
  function View(g: Game, recipient: Slot): Update
  {
    var self := PlayerIn(g, recipient);
    var other := PlayerIn(g, Other(recipient));
    Update(self.pos.x, self.pos.y, other.pos.x, other.pos.y, g.coin.x, g.coin.y, self.score, other.score)
  }

  /** The line the server sends to the connection that controls `recipient`. */
  function Serialize(g: Game, recipient: Slot): string
  {
    Format(View(g, recipient))
  }

  /** The two players are sent mirror images: each sees itself where the other sees its opponent. */
  lemma ViewsMirror(g: Game)
    ensures var u1, u2 := View(g, P1), View(g, P2);
      && u1.selfRow == u2.otherRow && u1.selfCol == u2.otherCol
      && u1.otherRow == u2.selfRow && u1.otherCol == u2.selfCol
      && u1.selfScore == u2.otherScore && u1.otherScore == u2.selfScore
      && u1.coinRow == u2.coinRow && u1.coinCol == u2.coinCol
  {
  }

  /** Parsing what the server sends a recipient yields that recipient's view, in order. */
  lemma SerializeParses(g: Game, recipient: Slot)
    requires Inv(g)
    requires g.p1.score <= INT_MAX && g.p2.score <= INT_MAX
    ensures Parse(Serialize(g, recipient)) == Some(View(g, recipient))
  {
    ParseFormat(View(g, recipient));
  }

  /**
   * The direction a command byte asks for. Only 'D', 'L' and 'R' name a
   * direction other than up; every other byte, 'U' included, means up.
   */
  function Decode(c: char): (d: Direction)
    ensures d == Down <==> c == 'D'
    ensures d == Left <==> c == 'L'
    ensures d == Right <==> c == 'R'
    ensures d == Up <==> c != 'D' && c != 'L' && c != 'R'
  {
    match c
    case 'U' => Up
    case 'D' => Down
    case 'L' => Left
    case 'R' => Right
    case _ => Up
  }

  /** The state object the server owns and mutates. */
  class GameState {
    var p1: Player
    var p2: Player
    var coin: Position

    function Snapshot(): Game
      reads this
    {
      Game(p1, p2, coin)
    }

    constructor (draws: seq<Draw>)
      requires ThreeDistinctCells(draws)
      ensures Snapshot() == Initial(draws)
    {
      p1 := Player(Position(0, 0), 0);
      p2 := Player(Position(HEIGHT - 1, WIDTH - 1), 0);
      coin := Position(0, 0);
      new;
      ThreeCellsHaveFree(draws, p1.pos, p2.pos);
      SpawnCoin(draws);
    }

    /** Redraws the coin until it stands on neither player. */
    method SpawnCoin(draws: seq<Draw>)
      requires Free(coin, p1.pos, p2.pos) || SomeFree(draws, p1.pos, p2.pos)
      modifies this`coin
      ensures coin == Respawn(old(coin), draws, p1.pos, p2.pos)
    {
      var i := 0;
      while coin == p1.pos || coin == p2.pos
        invariant 0 <= i <= |draws|
        invariant Free(coin, p1.pos, p2.pos) || SomeFree(draws[i..], p1.pos, p2.pos)
        invariant Respawn(coin, draws[i..], p1.pos, p2.pos) == Respawn(old(coin), draws, p1.pos, p2.pos)
        decreases |draws| - i
      {
        SomeFreeTail(draws[i..], p1.pos, p2.pos);
        assert draws[i..][1..] == draws[i + 1..];
        coin := Cell(draws[i]);
        i := i + 1;
      }
    }

    /** Moves the player in `slot` one step, unless the step is refused. */
    method MovePlayer(slot: Slot, dir: Direction, draws: seq<Draw>)
      requires ThreeDistinctCells(draws)
      modifies this
      ensures Snapshot() == Moved(old(Snapshot()), slot, dir, draws)
    {
      ghost var g := Snapshot();
      var player := if slot == P1 then p1 else p2;
      var newPos := player.pos;
      match dir {
        case Up => newPos := newPos.(x := newPos.x - 1);
        case Down => newPos := newPos.(x := newPos.x + 1);
        case Left => newPos := newPos.(y := newPos.y - 1);
        case Right => newPos := newPos.(y := newPos.y + 1);
      }
      assert newPos == Target(g, slot, dir);

      var outOfBound := newPos.x < 0 || newPos.x >= HEIGHT || newPos.y < 0 || newPos.y >= WIDTH;
      var collided := newPos == p1.pos || newPos == p2.pos;
      if outOfBound || collided {
        return;
      }

      player := player.(pos := newPos);
      var collects := player.pos == coin;
      if collects {
        player := player.(score := player.score + COIN_REWARD);
      }
      if slot == P1 { p1 := player; } else { p2 := player; }
      assert Snapshot() == WithPlayer(g, slot, player);
      if collects {
        ThreeCellsHaveFree(draws, p1.pos, p2.pos);
        SpawnCoin(draws);
      }
    }
  }

}
