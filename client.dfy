/**
 * The client: what its network thread does with each buffer it receives
 * (the first state line snaps the three entities into place, later ones give
 * them new targets), and which command byte each key sends.
 *
 * Positions are kept as reals, standing for the client's `float`s; the
 * interpolation between `previous` and `target` is not modelled.
 */
module Client {

  import opened Options
  import opened Wire
  import ServerGame

  /** A point in cell units: `x` the row, `y` the column. */
  datatype Position = Position(x: real, y: real)

  /** A parsed row and column, converted to the client's coordinates. */
  function ToPosition(row: int, col: int): (p: Position)
    ensures p.x == row as real && p.y == col as real
  {
    Position(row as real, col as real)
  }

  /** Something drawn on the board: where it is drawn, where it is heading, and where it came from. */
  class Entity {
    var current: Position
    var target: Position
    var previous: Position

    constructor ()
      ensures current == Position(0.0, 0.0) && target == current && previous == current
    {
      current := Position(0.0, 0.0);
      target := Position(0.0, 0.0);
      previous := Position(0.0, 0.0);
    }

    /** A new authoritative position: the old target becomes the point the entity moves from. */
    method UpdateTarget(newX: real, newY: real)
      modifies this
      ensures previous == old(target) && target == Position(newX, newY) && current == old(current)
    {
      previous := target;
      target := Position(newX, newY);
    }
  }

  // ---------------------------------------------------------------------------
  // The network thread, as a function of what it has received

  /** The three positions of one entity, as a value. */
  datatype Track = Track(current: Position, target: Position, previous: Position)

  /**
   * What the network thread has made of the buffers so far: the three
   * entities, the two scores, whether the game is over, and whether the first
   * state line has arrived (the thread has left its first loop).
   */
  datatype Screen = Screen(
    self: Track, other: Track, coin: Track,
    selfScore: int, otherScore: int,
    gameOver: bool, initialReceived: bool)

  function InitialScreen(): (v: Screen)
    ensures v.self == v.other == v.coin == Track(Position(0.0, 0.0), Position(0.0, 0.0), Position(0.0, 0.0))
    ensures v.selfScore == 0 && v.otherScore == 0 && !v.gameOver && !v.initialReceived
  {
    var origin := Track(Position(0.0, 0.0), Position(0.0, 0.0), Position(0.0, 0.0));
    Screen(origin, origin, origin, 0, 0, false, false)
  }

  /** What `updateTarget` does to an entity. */
  function Retarget(t: Track, p: Position): (r: Track)
    ensures r.previous == t.target && r.target == p && r.current == t.current
  {
    Track(t.current, p, t.previous).(previous := t.target)
  }

  /** The effect of one received buffer. */
  function Received(v: Screen, buf: string): Screen
  {
    if v.gameOver then v
    else
      match Parse(buf)
      case None => v
      case Some(u) =>
        var self := ToPosition(u.selfRow, u.selfCol);
        var other := ToPosition(u.otherRow, u.otherCol);
        var coin := ToPosition(u.coinRow, u.coinCol);
        if !v.initialReceived then
          Screen(Track(self, self, self), Track(other, other, other), Track(coin, coin, coin),
                 u.selfScore, u.otherScore, false, true)
        else
          Screen(Retarget(v.self, self), Retarget(v.other, other), Retarget(v.coin, coin),
                 u.selfScore, u.otherScore, false, true)
  }

  /** A buffer whose first eight tokens are not all integers changes nothing. */
  lemma UnparsedChangesNothing(v: Screen, buf: string)
    requires Parse(buf).None?
    ensures Received(v, buf) == v
  {
  }

  /**
   * The first state line puts each entity at its parsed pair, with nothing to
   * interpolate from, and sets both scores.
   */
  lemma FirstLineSnaps(v: Screen, buf: string, u: Update)
    requires !v.gameOver && !v.initialReceived && Parse(buf) == Some(u)
    ensures var w := Received(v, buf);
      && w.initialReceived && !w.gameOver
      && w.self.current == w.self.target == w.self.previous == ToPosition(u.selfRow, u.selfCol)
      && w.other.current == w.other.target == w.other.previous == ToPosition(u.otherRow, u.otherCol)
      && w.coin.current == w.coin.target == w.coin.previous == ToPosition(u.coinRow, u.coinCol)
      && w.selfScore == u.selfScore && w.otherScore == u.otherScore
  {
  }

  /**
   * A later state line gives each entity its parsed pair as the new target,
   * keeps where it is drawn, and overwrites both scores.
   */
  lemma LaterLineRetargets(v: Screen, buf: string, u: Update)
    requires !v.gameOver && v.initialReceived && Parse(buf) == Some(u)
    ensures var w := Received(v, buf);
      && w.initialReceived && !w.gameOver
      && w.self.target == ToPosition(u.selfRow, u.selfCol) && w.self.previous == v.self.target
      && w.other.target == ToPosition(u.otherRow, u.otherCol) && w.other.previous == v.other.target
      && w.coin.target == ToPosition(u.coinRow, u.coinCol) && w.coin.previous == v.coin.target
      && w.self.current == v.self.current && w.other.current == v.other.current
      && w.coin.current == v.coin.current
      && w.selfScore == u.selfScore && w.otherScore == u.otherScore
  {
  }

  /**
   * End to end: when the client receives the line the server sent it, its
   * own entity heads for its player's cell, the other entity for the other
   * player's, the coin entity for the coin, and the scores are the players'.
   */
  lemma ReceivesServerState(v: Screen, g: ServerGame.Game, slot: ServerGame.Slot)
    requires !v.gameOver && ServerGame.Inv(g) && g.p1.score <= INT_MAX && g.p2.score <= INT_MAX
    ensures var w := Received(v, ServerGame.Serialize(g, slot));
      && w.self.target == ToPosition(ServerGame.PlayerIn(g, slot).pos.x, ServerGame.PlayerIn(g, slot).pos.y)
      && w.other.target == ToPosition(ServerGame.PlayerIn(g, ServerGame.Other(slot)).pos.x, ServerGame.PlayerIn(g, ServerGame.Other(slot)).pos.y)
      && w.coin.target == ToPosition(g.coin.x, g.coin.y)
      && w.selfScore == ServerGame.PlayerIn(g, slot).score && w.otherScore == ServerGame.PlayerIn(g, ServerGame.Other(slot)).score
  {
    ServerGame.SerializeParses(g, slot);
  }

  /** The network thread's globals. */
  class Receiver {
    const selfEntity: Entity
    const otherEntity: Entity
    const coinEntity: Entity
    var selfScore: int
    var otherScore: int
    var gameOver: bool
    var initialReceived: bool

    ghost predicate Valid()
      reads this
    {
      selfEntity != otherEntity && selfEntity != coinEntity && otherEntity != coinEntity
    }

    function Snapshot(): Screen
      reads this, selfEntity, otherEntity, coinEntity
    {
      Screen(
        Track(selfEntity.current, selfEntity.target, selfEntity.previous),
        Track(otherEntity.current, otherEntity.target, otherEntity.previous),
        Track(coinEntity.current, coinEntity.target, coinEntity.previous),
        selfScore, otherScore, gameOver, initialReceived)
    }

    constructor ()
      ensures Valid() && Snapshot() == InitialScreen()
      ensures fresh(selfEntity) && fresh(otherEntity) && fresh(coinEntity)
    {
      selfEntity := new Entity();
      otherEntity := new Entity();
      coinEntity := new Entity();
      selfScore := 0;
      otherScore := 0;
      gameOver := false;
      initialReceived := false;
    }

    /** One pass of whichever receive loop the thread is in, over the buffer `recv` filled. */
    method Receive(buf: string)
      requires Valid()
      modifies this, selfEntity, otherEntity, coinEntity
      ensures Valid()
      ensures Snapshot() == Received(old(Snapshot()), buf)
    {
      if gameOver {
        return;
      }
      var parsed := Parse(buf);
      if parsed.None? {
        return;
      }
      var u := parsed.value;
      if !initialReceived {
        var p := ToPosition(u.selfRow, u.selfCol);
        selfEntity.current, selfEntity.target, selfEntity.previous := p, p, p;
        p := ToPosition(u.otherRow, u.otherCol);
        otherEntity.current, otherEntity.target, otherEntity.previous := p, p, p;
        p := ToPosition(u.coinRow, u.coinCol);
        coinEntity.current, coinEntity.target, coinEntity.previous := p, p, p;
        initialReceived := true;
      } else {
        selfEntity.UpdateTarget(u.selfRow as real, u.selfCol as real);
        otherEntity.UpdateTarget(u.otherRow as real, u.otherCol as real);
        coinEntity.UpdateTarget(u.coinRow as real, u.coinCol as real);
      }
      selfScore := u.selfScore;
      otherScore := u.otherScore;
    }

    /**
     * One pass of the main loop's event polling: the bytes it sends, while
     * `connected` says whether the network thread holds a socket.
     */
    method PollEvents(events: seq<Event>, connected: bool) returns (sent: seq<char>)
      modifies this`gameOver
      ensures sent == Polled(events, connected).0
      ensures gameOver == (old(gameOver) || Polled(events, connected).1)
    {
      sent := [];
      ghost var ended := false;
      var i := 0;
      assert events[i..] == events;
      assert sent + Polled(events, connected).0 == Polled(events, connected).0;
      while i < |events|
        invariant 0 <= i <= |events|
        invariant gameOver == (old(gameOver) || ended)
        invariant var rest := Polled(events[i..], connected);
          Polled(events, connected) == (sent + rest.0, ended || rest.1)
        decreases |events| - i
      {
        assert events[i..][0] == events[i];
        assert events[i..][1..] == events[i + 1..];
        match events[i] {
          case QuitRequested =>
            gameOver := true;
            ended := true;
            assert sent + [] == sent;
            return;
          case KeyDown(key) =>
            var cmd := Command(key);
            ghost var rest := Polled(events[i + 1..], connected);
            ghost var own := if cmd.Some? && connected then [cmd.value] else [];
            assert Polled(events[i..], connected) == (own + rest.0, key == KeyE || rest.1);
            assert sent + (own + rest.0) == (sent + own) + rest.0;
            assert own == [] ==> sent + own == sent;
            if key == KeyE {
              gameOver := true;
              ended := true;
            }
            if cmd.Some? && connected {
              sent := sent + [cmd.value];
            }
          case OtherEvent =>
            assert Polled(events[i..], connected) == Polled(events[i + 1..], connected);
        }
        i := i + 1;
      }
      assert sent + [] == sent;
    }
  }

  // ---------------------------------------------------------------------------
  // Keys

  datatype Key = ArrowUp | ArrowDown | ArrowLeft | ArrowRight | KeyE | OtherKey(code: int)

  /** What the window reports. */
  datatype Event = QuitRequested | KeyDown(key: Key) | OtherEvent

  /** The command byte a key sends, if any. */
  function Command(k: Key): (c: Option<char>)
    ensures c == Some('U') <==> k == ArrowUp
    ensures c == Some('D') <==> k == ArrowDown
    ensures c == Some('L') <==> k == ArrowLeft
    ensures c == Some('R') <==> k == ArrowRight
    ensures c == Some('E') <==> k == KeyE
    ensures c == None <==> k.OtherKey?
  {
    match k
    case ArrowUp => Some('U')
    case ArrowDown => Some('D')
    case ArrowLeft => Some('L')
    case ArrowRight => Some('R')
    case KeyE => Some('E')
    case OtherKey(_) => None
  }

  /**
   * One pass over the pending events: the bytes sent, in order, and whether
   * the game ended. A quit request stops the pass; the E key ends the game
   * but the events after it are still handled.
   */
  function Polled(events: seq<Event>, connected: bool): (r: (seq<char>, bool))
    decreases |events|
  {
    if events == [] then ([], false)
    else
      match events[0]
      case QuitRequested => ([], true)
      case KeyDown(k) =>
        var rest := Polled(events[1..], connected);
        var cmd := Command(k);
        ((if cmd.Some? && connected then [cmd.value] else []) + rest.0, k == KeyE || rest.1)
      case OtherEvent => Polled(events[1..], connected)
  }

  /** The direction the server reads from the byte an arrow key sends. */
  function Arrow(k: Key): ServerGame.Direction
    requires k in {ArrowUp, ArrowDown, ArrowLeft, ArrowRight}
  {
    match k
    case ArrowUp => ServerGame.Up
    case ArrowDown => ServerGame.Down
    case ArrowLeft => ServerGame.Left
    case ArrowRight => ServerGame.Right
  }

  /** Each arrow key's byte decodes, at the server, to the direction of that arrow. */
  lemma ArrowsDecode(k: Key)
    requires k in {ArrowUp, ArrowDown, ArrowLeft, ArrowRight}
    ensures Command(k).Some? && ServerGame.Decode(Command(k).value) == Arrow(k)
  {
  }

  /** Every byte a pass sends is one of the five commands, and nothing is sent without a socket. */
  lemma {:induction false} PolledBytes(events: seq<Event>, connected: bool)
    ensures forall i :: 0 <= i < |Polled(events, connected).0| ==> Polled(events, connected).0[i] in "UDLRE"
    ensures !connected ==> Polled(events, connected).0 == []
    decreases |events|
  {
    if events != [] {
      PolledBytes(events[1..], connected);
    }
  }

  /** Event `i` ends the game: a quit request or the E key, with no quit request before it. */
  predicate EndsAt(events: seq<Event>, i: int)
  {
    && 0 <= i < |events|
    && (events[i] == QuitRequested || events[i] == KeyDown(KeyE))
    && forall j :: 0 <= j < i ==> events[j] != QuitRequested
  }

  /**
   * A pass over the events ends the game exactly when some event ends it:
   * a quit request, or the E key with no quit request before it.
   */
  lemma {:induction false} PolledEnds(events: seq<Event>, connected: bool)
    ensures Polled(events, connected).1 <==> exists i :: EndsAt(events, i)
    decreases |events|
  {
    if events == [] {
    } else if events[0] == QuitRequested || events[0] == KeyDown(KeyE) {
      assert EndsAt(events, 0);
    } else {
      PolledEnds(events[1..], connected);
      if Polled(events, connected).1 {
        var i :| EndsAt(events[1..], i);
        EndsLater(events, i);
      }
      if exists i :: EndsAt(events, i) {
        var i :| EndsAt(events, i);
        EndsEarlier(events, i);
      }
    }
  }

  lemma EndsLater(events: seq<Event>, i: int)
    requires events != [] && events[0] != QuitRequested && EndsAt(events[1..], i)
    ensures EndsAt(events, i + 1)
  {
    assert events[i + 1] == events[1..][i];
    forall j | 1 <= j < i + 1
      ensures events[j] != QuitRequested
    {
      assert events[j] == events[1..][j - 1];
    }
  }

  lemma EndsEarlier(events: seq<Event>, i: int)
    requires events != [] && events[0] != QuitRequested && events[0] != KeyDown(KeyE) && EndsAt(events, i)
    ensures i > 0 && EndsAt(events[1..], i - 1)
  {
    assert events[1..][i - 1] == events[i];
    forall j | 0 <= j < i - 1
      ensures events[1..][j] != QuitRequested
    {
      assert events[1..][j] == events[j + 1];
    }
  }

}
