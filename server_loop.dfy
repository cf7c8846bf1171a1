/**
 * The body of the server's `select` loop, abstracted over socket handles: which
 * connections are admitted, which slot each one controls, when the match runs,
 * what a command byte or a disconnect does, and which lines go to whom.
 *
 * `Registry` and `ServerState` are the value of the loop's state and `Serve`
 * and `RunRound` its specification; the `Server` class holds the same state in
 * the fields the loop updates, and its methods are proved against them.
 */
module ServerLoop {

  import opened Options
  import opened Wire
  import opened ServerGame

  const MAX_CLIENTS := 2

  const FULL_NOTICE := "server full\n"
  const WAIT_NOTICE := "connected! waiting for other player...\n"
  const START_NOTICE := "game start!\n"

  /** A connected socket handle. */
  type Socket = nat

  /** One `send` of `text` to socket `to`. */
  datatype Message = Message(to: Socket, text: string)

  /** The connected sockets in arrival order, the slot each controls, and whether input is read. */
  datatype Registry = Registry(clients: seq<Socket>, playerMap: map<Socket, Slot>, gameStarted: bool)

  datatype ServerState = ServerState(reg: Registry, game: Game)

  /**
   * One socket that `select` reported ready. For the listening socket, the
   * handle `accept` returned; for a client socket, what one `recv` of one
   * byte gives (`None` when it reports a closed or failed connection) and the
   * `rand()` results that serving it may draw.
   */
  datatype Ready =
    | Listener(accepted: Socket)
    | Client(sock: Socket, received: Option<char>, draws: seq<Draw>)

  /** What serving one ready socket gives: the new state, the sends, and whether the round is broken off. */
  datatype Served = Served(state: ServerState, out: seq<Message>, quit: bool)

  /**
   * What holds of the registry between events: at most two clients, each
   * once; exactly the clients have a slot; input is read exactly when two are
   * connected; and every client after the first controls the second player.
   */
  ghost predicate RegistryInv(r: Registry)
  {
    && |r.clients| <= MAX_CLIENTS
    && (forall i, j :: 0 <= i < j < |r.clients| ==> r.clients[i] != r.clients[j])
    && (forall s :: s in r.playerMap <==> s in r.clients)
    && r.gameStarted == (|r.clients| == MAX_CLIENTS)
    && (forall i :: 1 <= i < |r.clients| ==> r.playerMap[r.clients[i]] == P2)
  }

  ghost predicate ServerInv(s: ServerState)
  {
    RegistryInv(s.reg) && Inv(s.game)
  }

  function InitialState(draws: seq<Draw>): (s: ServerState)
    requires ThreeDistinctCells(draws)
    ensures ServerInv(s)
    ensures s.reg.clients == [] && s.reg.playerMap == map[] && !s.reg.gameStarted
  {
    ServerState(Registry([], map[], false), Initial(draws))
  }

  /**
   * Admitting a connection: it is appended to the clients; it controls the
   * first player if it is now the only client and the second player otherwise;
   * the match starts when it makes two.
   */
  function Admit(r: Registry, c: Socket): Registry
    requires |r.clients| < MAX_CLIENTS
  {
    var clients := r.clients + [c];
    Registry(clients,
             r.playerMap[c := if |clients| == 1 then P1 else P2],
             if |clients| == MAX_CLIENTS then true else r.gameStarted)
  }

  /** Where `x` first occurs in `cs`. */
  function IndexOf(cs: seq<Socket>, x: Socket): (i: nat)
    requires x in cs
    ensures i < |cs| && cs[i] == x && x !in cs[..i]
  {
    if cs[0] == x then 0
    else
      var i := 1 + IndexOf(cs[1..], x);
      assert cs[..i] == [cs[0]] + cs[1..][..i - 1];
      i
  }

  /** A closed connection leaves the clients and the slot map, and the match stops. */
  function Drop(r: Registry, sock: Socket): Registry
    requires sock in r.clients
  {
    var i := IndexOf(r.clients, sock);
    Registry(r.clients[..i] + r.clients[i + 1..], r.playerMap - {sock}, false)
  }

  /** The state lines sent to `cs`, one per client in order, each framed for its recipient. */
  function StateLines(cs: seq<Socket>, playerMap: map<Socket, Slot>, g: Game): seq<Message>
    requires forall s :: s in cs ==> s in playerMap
  {
    if cs == [] then []
    else
      var last := cs[|cs| - 1];
      StateLines(cs[..|cs| - 1], playerMap, g) + [Message(last, Serialize(g, playerMap[last]))]
  }

  /** At the start of a match each client in order is sent the start notice and then its state line. */
  function Greeting(cs: seq<Socket>, playerMap: map<Socket, Slot>, g: Game): seq<Message>
    requires forall s :: s in cs ==> s in playerMap
  {
    Announced(StateLines(cs, playerMap, g))
  }

  /** Each message preceded by a start notice to the same recipient. */
  function Announced(lines: seq<Message>): seq<Message>
  {
    if lines == [] then []
    else
      var last := lines[|lines| - 1];
      Announced(lines[..|lines| - 1]) + [Message(last.to, START_NOTICE), last]
  }

  /** What the loop may be handed for one ready socket in state `r`. */
  ghost predicate ReadyFor(r: Registry, e: Ready)
  {
    match e
    case Listener(c) => c !in r.clients
    case Client(sock, _, draws) => sock in r.clients && ThreeDistinctCells(draws)
  }

  /**
   * What one round of `select` may report: the listening socket at most once
   * and each client socket at most once, all of them as in `ReadyFor`.
   */
  ghost predicate RoundReady(r: Registry, events: seq<Ready>)
  {
    && (forall i :: 0 <= i < |events| ==> ReadyFor(r, events[i]))
    && (forall i, j :: 0 <= i < j < |events| ==> !(events[i].Listener? && events[j].Listener?))
    && (forall i, j :: 0 <= i < j < |events| && events[i].Client? && events[j].Client? ==>
          events[i].sock != events[j].sock)
  }

  /**
   * The listening socket is ready and `accept` returned `c`: a full server
   * turns it away; otherwise it is admitted, and the match starts when it
   * makes two.
   */
  function Connect(s: ServerState, c: Socket): (t: Served)
    requires ServerInv(s) && c !in s.reg.clients
  {
    if |s.reg.clients| >= MAX_CLIENTS then Served(s, [Message(c, FULL_NOTICE)], false)
    else
      var reg := Admit(s.reg, c);
      var greeting := if |reg.clients| == MAX_CLIENTS then Greeting(reg.clients, reg.playerMap, s.game) else [];
      Served(ServerState(reg, s.game), [Message(c, WAIT_NOTICE)] + greeting, false)
  }

  /**
   * Client socket `sock` is ready. Before the match starts it is not read.
   * Then a closed connection is dropped, 'E' or 'e' breaks the round off, and
   * any other byte is a move followed by a broadcast.
   */
  function Input(s: ServerState, sock: Socket, received: Option<char>, draws: seq<Draw>): (t: Served)
    requires ServerInv(s) && sock in s.reg.clients && ThreeDistinctCells(draws)
  {
    if !s.reg.gameStarted then Served(s, [], false)
    else if received.None? then
      Served(ServerState(Drop(s.reg, sock), s.game), [], false)
    else if received.value == 'E' || received.value == 'e' then Served(s, [], true)
    else
      var g := Moved(s.game, s.reg.playerMap[sock], Decode(received.value), draws);
      Served(ServerState(s.reg, g), StateLines(s.reg.clients, s.reg.playerMap, g), false)
  }

  /** Serving one ready socket: the body of the inner `for` of the `select` loop. */
  function Serve(s: ServerState, e: Ready): (t: Served)
    requires ServerInv(s) && ReadyFor(s.reg, e)
  {
    match e
    case Listener(c) => Connect(s, c)
    case Client(sock, received, draws) => Input(s, sock, received, draws)
  }

  /**
   * The ready sockets can be served one after the other: each is one that
   * `select` may report in the state the previous ones left, up to a quit.
   */
  ghost predicate Runnable(s: ServerState, events: seq<Ready>)
    requires ServerInv(s)
    decreases |events|
  {
    events == [] ||
      (ReadyFor(s.reg, events[0]) &&
       var step := Serve(s, events[0]);
       ServeKeepsInv(s, events[0]);
       step.quit || Runnable(step.state, events[1..]))
  }

  /**
   * One round: the ready sockets are served in order, and a quit command
   * breaks the round off, so the sockets after it are not served. The flag
   * says whether the round was broken off.
   */
  function RunRound(s: ServerState, events: seq<Ready>): (t: (ServerState, seq<Message>, bool))
    requires ServerInv(s) && Runnable(s, events)
    ensures ServerInv(t.0)
    decreases |events|
  {
    if events == [] then (s, [], false)
    else
      var step := Serve(s, events[0]);
      if step.quit then (step.state, step.out, true)
      else
        ServeKeepsInv(s, events[0]);
        var rest := RunRound(step.state, events[1..]);
        (rest.0, step.out + rest.1, rest.2)
  }

  // ---------------------------------------------------------------------------
  // Lemmas the definitions rely on

  /** Serving a ready socket keeps the registry invariant and the game invariant. */
  lemma ServeKeepsInv(s: ServerState, e: Ready)
    requires ServerInv(s) && ReadyFor(s.reg, e)
    ensures ServerInv(Serve(s, e).state)
  {
    match e
    case Listener(c) =>
      if |s.reg.clients| < MAX_CLIENTS {
        AdmitKeepsInv(s.reg, c);
      }
    case Client(sock, received, draws) =>
      if s.reg.gameStarted && received.None? {
        DropKeepsInv(s.reg, sock);
      } else if s.reg.gameStarted && received.Some? {
        MovePreservesInv(s.game, s.reg.playerMap[sock], Decode(received.value), draws);
      }
  }

  /**
   * Serving a ready socket adds at most the accepted connection to the
   * clients and removes at most the served client.
   */
  lemma ServeMembers(s: ServerState, e: Ready)
    requires ServerInv(s) && ReadyFor(s.reg, e)
    ensures forall x :: x in Serve(s, e).state.reg.clients ==> x in s.reg.clients || (e.Listener? && x == e.accepted)
    ensures forall x :: x in s.reg.clients && !(e.Client? && x == e.sock) ==> x in Serve(s, e).state.reg.clients
  {
    match e
    case Listener(c) =>
      if |s.reg.clients| < MAX_CLIENTS {
        AdmitKeepsInv(s.reg, c);
      }
    case Client(sock, received, draws) =>
      if s.reg.gameStarted && received.None? {
        DropKeepsInv(s.reg, sock);
      }
  }

  lemma DropKeepsInv(r: Registry, sock: Socket)
    requires RegistryInv(r) && sock in r.clients
    ensures RegistryInv(Drop(r, sock))
    ensures forall s :: s in Drop(r, sock).clients <==> s in r.clients && s != sock
  {
    var i := IndexOf(r.clients, sock);
    var cs := r.clients[..i] + r.clients[i + 1..];
    assert forall k :: 0 <= k < i ==> cs[k] == r.clients[k];
    assert forall k :: i <= k < |cs| ==> cs[k] == r.clients[k + 1];
    forall s
      ensures s in cs <==> s in r.clients && s != sock
    {
      if s in cs {
        var k :| 0 <= k < |cs| && cs[k] == s;
        if k < i {
          assert r.clients[k] == s;
        } else {
          assert r.clients[k + 1] == s;
        }
      }
      if s in r.clients && s != sock {
        var k :| 0 <= k < |r.clients| && r.clients[k] == s;
        if k < i {
          assert cs[k] == s;
        } else {
          assert cs[k - 1] == s;
        }
      }
    }
  }

  lemma AdmitKeepsInv(r: Registry, c: Socket)
    requires RegistryInv(r) && |r.clients| < MAX_CLIENTS && c !in r.clients
    ensures RegistryInv(Admit(r, c))
    ensures forall s :: s in Admit(r, c).clients <==> s in r.clients || s == c
  {
  }

  /** After one socket is served, the rest of the round is still what `select` could report. */
  lemma ServeKeepsReady(s: ServerState, events: seq<Ready>)
    requires ServerInv(s) && RoundReady(s.reg, events) && |events| > 0
    ensures RoundReady(Serve(s, events[0]).state.reg, events[1..])
  {
    var t := Serve(s, events[0]).state.reg;
    ServeMembers(s, events[0]);
    forall i | 0 <= i < |events[1..]|
      ensures ReadyFor(t, events[1..][i])
    {
      assert events[1..][i] == events[i + 1];
      assert ReadyFor(s.reg, events[i + 1]);
    }
  }

  /**
   * What `select` reports in one round, each socket at most once, can be
   * served in order: no socket is dropped or admitted before its own turn.
   */
  lemma {:induction false} ReadyIsRunnable(s: ServerState, events: seq<Ready>)
    requires ServerInv(s) && RoundReady(s.reg, events)
    ensures Runnable(s, events)
    decreases |events|
  {
    if events != [] {
      ServeKeepsInv(s, events[0]);
      ServeKeepsReady(s, events);
      ReadyIsRunnable(Serve(s, events[0]).state, events[1..]);
    }
  }

  // ---------------------------------------------------------------------------
  // What the loop promises

  /** The broadcast sends each client, in client order, the state line framed for it. */
  lemma {:induction false} StateLinesAt(cs: seq<Socket>, playerMap: map<Socket, Slot>, g: Game)
    requires forall s :: s in cs ==> s in playerMap
    ensures |StateLines(cs, playerMap, g)| == |cs|
    ensures forall i :: 0 <= i < |cs| ==>
      StateLines(cs, playerMap, g)[i] == Message(cs[i], Serialize(g, playerMap[cs[i]]))
  {
    if cs != [] {
      StateLinesAt(cs[..|cs| - 1], playerMap, g);
      StateLinesStep(cs, playerMap, g);
    }
  }

  lemma StateLinesStep(cs: seq<Socket>, playerMap: map<Socket, Slot>, g: Game)
    requires cs != [] && forall s :: s in cs ==> s in playerMap
    requires var init := cs[..|cs| - 1];
      && |StateLines(init, playerMap, g)| == |init|
      && forall i :: 0 <= i < |init| ==>
        StateLines(init, playerMap, g)[i] == Message(init[i], Serialize(g, playerMap[init[i]]))
    ensures |StateLines(cs, playerMap, g)| == |cs|
    ensures forall i :: 0 <= i < |cs| ==>
      StateLines(cs, playerMap, g)[i] == Message(cs[i], Serialize(g, playerMap[cs[i]]))
  {
    var init := cs[..|cs| - 1];
    var prev := StateLines(init, playerMap, g);
    var out := StateLines(cs, playerMap, g);
    assert out == prev + [Message(cs[|cs| - 1], Serialize(g, playerMap[cs[|cs| - 1]]))];
    forall i | 0 <= i < |cs| - 1
      ensures out[i] == Message(cs[i], Serialize(g, playerMap[cs[i]]))
    {
      assert out[i] == prev[i] && init[i] == cs[i];
    }
  }

  /** The greeting sends each client, in client order, the start notice and then its state line. */
  lemma GreetingAt(cs: seq<Socket>, playerMap: map<Socket, Slot>, g: Game)
    requires forall s :: s in cs ==> s in playerMap
    ensures |Greeting(cs, playerMap, g)| == 2 * |cs|
    ensures forall i :: 0 <= i < |cs| ==>
      && Greeting(cs, playerMap, g)[2 * i] == Message(cs[i], START_NOTICE)
      && Greeting(cs, playerMap, g)[2 * i + 1] == Message(cs[i], Serialize(g, playerMap[cs[i]]))
  {
    StateLinesAt(cs, playerMap, g);
    AnnouncedAt(StateLines(cs, playerMap, g));
  }

  /** Message `i` lands at position `2 * i + 1`, right after its start notice. */
  lemma {:induction false} AnnouncedAt(lines: seq<Message>)
    ensures |Announced(lines)| == 2 * |lines|
    ensures forall i :: 0 <= i < |lines| ==>
      Announced(lines)[2 * i] == Message(lines[i].to, START_NOTICE) && Announced(lines)[2 * i + 1] == lines[i]
  {
    if lines != [] {
      AnnouncedAt(lines[..|lines| - 1]);
      AnnouncedStep(lines);
    }
  }

  lemma AnnouncedStep(lines: seq<Message>)
    requires lines != []
    requires var init := lines[..|lines| - 1];
      && |Announced(init)| == 2 * |init|
      && forall i :: 0 <= i < |init| ==>
        Announced(init)[2 * i] == Message(init[i].to, START_NOTICE) && Announced(init)[2 * i + 1] == init[i]
    ensures |Announced(lines)| == 2 * |lines|
    ensures forall i :: 0 <= i < |lines| ==>
      Announced(lines)[2 * i] == Message(lines[i].to, START_NOTICE) && Announced(lines)[2 * i + 1] == lines[i]
  {
    var n := |lines| - 1;
    var init := lines[..n];
    var prev := Announced(init);
    var out := Announced(lines);
    assert out == prev + [Message(lines[n].to, START_NOTICE), lines[n]];
    forall i | 0 <= i < n
      ensures out[2 * i] == Message(lines[i].to, START_NOTICE) && out[2 * i + 1] == lines[i]
    {
      assert out[2 * i] == prev[2 * i] && out[2 * i + 1] == prev[2 * i + 1] && init[i] == lines[i];
    }
  }

  /** Every state line a client is sent parses back to that client's view of the game. */
  lemma BroadcastParses(cs: seq<Socket>, playerMap: map<Socket, Slot>, g: Game)
    requires forall s :: s in cs ==> s in playerMap
    requires Inv(g) && g.p1.score <= INT_MAX && g.p2.score <= INT_MAX
    ensures |StateLines(cs, playerMap, g)| == |cs|
    ensures forall i :: 0 <= i < |cs| ==>
      Parse(StateLines(cs, playerMap, g)[i].text) == Some(View(g, playerMap[cs[i]]))
  {
    StateLinesAt(cs, playerMap, g);
    forall i | 0 <= i < |cs|
      ensures Parse(StateLines(cs, playerMap, g)[i].text) == Some(View(g, playerMap[cs[i]]))
    {
      SerializeParses(g, playerMap[cs[i]]);
    }
  }

  /**
   * None of the three notices reads as a state line: a client parsing one of
   * them on its own gets nothing from it.
   */
  lemma NoticesDoNotParse()
    ensures Parse(FULL_NOTICE) == None
    ensures Parse(WAIT_NOTICE) == None
    ensures Parse(START_NOTICE) == None
  {
    NoticeRejected(FULL_NOTICE);
    NoticeRejected(WAIT_NOTICE);
    NoticeRejected(START_NOTICE);
  }

  lemma NoticeRejected(notice: string)
    requires |notice| > 0 && 'a' <= notice[0] <= 'z'
    ensures Parse(notice) == None
  {
    var text := CString(notice);
    assert |text| > 0 && text[0] == notice[0];
    ParseRejectsText(notice);
  }

  /** A connection arriving while two clients are connected is told so and changes nothing. */
  lemma FullServerRejects(s: ServerState, c: Socket)
    requires ServerInv(s) && c !in s.reg.clients && s.reg.gameStarted
    ensures Connect(s, c) == Served(s, [Message(c, FULL_NOTICE)], false)
  {
  }

  /**
   * A connection arriving while fewer than two are connected is appended to
   * the clients and told to wait. It controls the first player exactly when
   * nobody else is connected. If it makes two, the match starts and every
   * client in order is sent the start notice and its state line.
   */
  lemma ConnectAdmits(s: ServerState, c: Socket)
    requires ServerInv(s) && c !in s.reg.clients && !s.reg.gameStarted
    ensures var t := Connect(s, c);
      && !t.quit && t.state.game == s.game
      && t.state.reg.clients == s.reg.clients + [c]
      && t.state.reg.playerMap == s.reg.playerMap[c := if s.reg.clients == [] then P1 else P2]
      && (t.state.reg.gameStarted <==> |s.reg.clients| == 1)
      && |t.out| == (if t.state.reg.gameStarted then 1 + 2 * MAX_CLIENTS else 1)
      && t.out[0] == Message(c, WAIT_NOTICE)
    ensures var t := Connect(s, c);
      t.state.reg.gameStarted ==>
        forall i :: 0 <= i < MAX_CLIENTS ==>
          var to := t.state.reg.clients[i];
          && t.out[1 + 2 * i] == Message(to, START_NOTICE)
          && t.out[2 + 2 * i] == Message(to, Serialize(s.game, t.state.reg.playerMap[to]))
  {
    var reg := Admit(s.reg, c);
    GreetingAt(reg.clients, reg.playerMap, s.game);
  }

  /** Until two clients are connected, a ready client socket is not read and nothing changes. */
  lemma WaitingIgnoresInput(s: ServerState, sock: Socket, received: Option<char>, draws: seq<Draw>)
    requires ServerInv(s) && sock in s.reg.clients && ThreeDistinctCells(draws) && |s.reg.clients| < MAX_CLIENTS
    ensures Input(s, sock, received, draws) == Served(s, [], false)
  {
  }

  /**
   * A closed connection is removed from the clients and the slot map and
   * stops the match; the game itself is kept as it was.
   */
  lemma DisconnectDrops(s: ServerState, sock: Socket, draws: seq<Draw>)
    requires ServerInv(s) && s.reg.gameStarted && sock in s.reg.clients && ThreeDistinctCells(draws)
    ensures var t := Input(s, sock, None, draws);
      && !t.quit && t.out == [] && t.state.game == s.game
      && |t.state.reg.clients| == |s.reg.clients| - 1
      && (forall x :: x in t.state.reg.clients <==> x in s.reg.clients && x != sock)
      && t.state.reg.playerMap == s.reg.playerMap - {sock}
      && !t.state.reg.gameStarted
  {
    DropKeepsInv(s.reg, sock);
  }

  /** 'E' or 'e' from either client breaks the round off and changes nothing. */
  lemma QuitChangesNothing(s: ServerState, sock: Socket, cmd: char, draws: seq<Draw>)
    requires ServerInv(s) && s.reg.gameStarted && sock in s.reg.clients && ThreeDistinctCells(draws)
    requires cmd == 'E' || cmd == 'e'
    ensures Input(s, sock, Some(cmd), draws) == Served(s, [], true)
  {
  }

  /**
   * Any other byte moves the sender's player in the direction it decodes to,
   * and then every client, in order, is sent its state line, even when the
   * move was refused and the game is unchanged.
   */
  lemma MoveBroadcasts(s: ServerState, sock: Socket, cmd: char, draws: seq<Draw>)
    requires ServerInv(s) && s.reg.gameStarted && sock in s.reg.clients && ThreeDistinctCells(draws)
    requires cmd != 'E' && cmd != 'e'
    ensures var t := Input(s, sock, Some(cmd), draws);
      && !t.quit && t.state.reg == s.reg
      && t.state.game == Moved(s.game, s.reg.playerMap[sock], Decode(cmd), draws)
      && (Refused(s.game, s.reg.playerMap[sock], Decode(cmd)) ==> t.state.game == s.game)
      && |t.out| == |s.reg.clients|
      && (forall i :: 0 <= i < |s.reg.clients| ==>
            t.out[i] == Message(s.reg.clients[i], Serialize(t.state.game, s.reg.playerMap[s.reg.clients[i]])))
  {
    var g := Moved(s.game, s.reg.playerMap[sock], Decode(cmd), draws);
    StateLinesAt(s.reg.clients, s.reg.playerMap, g);
  }

  /**
   * The slot goes by the number of clients after the new one is appended, so
   * when the first player's connection closes and a new one arrives, the
   * remaining client and the newcomer both control the second player and
   * nobody controls the first.
   */
  lemma ReconnectSharesSlot(s: ServerState, a: Socket, b: Socket, c: Socket, draws: seq<Draw>)
    requires ServerInv(s) && ThreeDistinctCells(draws)
    requires s.reg.clients == [a, b] && s.reg.playerMap[a] == P1 && c != a && c != b
    ensures var s1 := Input(s, a, None, draws).state; ServerInv(s1) && c !in s1.reg.clients
    ensures Connect(Input(s, a, None, draws).state, c).state.reg == Registry([b, c], map[b := P2, c := P2], true)
  {
    DropFirstOfTwo(s.reg, a, b);
    ServeKeepsInv(s, Client(a, None, draws));
    var s1 := Input(s, a, None, draws).state;
    assert s1.reg == Registry([b], map[b := P2], false);
    assert Connect(s1, c).state.reg == Admit(s1.reg, c);
  }

  /** Dropping the first of two clients leaves the second alone, still controlling the second player. */
  lemma DropFirstOfTwo(r: Registry, a: Socket, b: Socket)
    requires RegistryInv(r) && r.clients == [a, b]
    ensures Drop(r, a) == Registry([b], map[b := P2], false)
  {
    assert IndexOf(r.clients, a) == 0;
    assert r.clients[..0] + r.clients[1..] == [b];
    var pm := r.playerMap - {a};
    assert forall k :: k in pm <==> k == b;
    assert r.playerMap[r.clients[1]] == P2;
    assert pm == map[b := P2];
  }

  /**
   * One turn of the loop of a round: when what the round sends is what has
   * been sent so far followed by what the rest sends, serving the next socket
   * keeps it so, and a quit ends the round with what has been sent.
   */
  lemma RoundAdvance(total: (ServerState, seq<Message>, bool), out: seq<Message>, before: ServerState, todo: seq<Ready>, step: Served)
    requires ServerInv(before) && Runnable(before, todo) && todo != []
    requires var rest := RunRound(before, todo); total == (rest.0, out + rest.1, rest.2)
    requires step == Serve(before, todo[0])
    ensures !step.quit ==> ServerInv(step.state) && Runnable(step.state, todo[1..])
    ensures !step.quit ==>
      var rest := RunRound(step.state, todo[1..]);
      total == (rest.0, (out + step.out) + rest.1, rest.2)
    ensures step.quit ==> total == (step.state, out + step.out, true)
  {
    RunRoundStep(before, todo);
    if !step.quit {
      var rest := RunRound(step.state, todo[1..]);
      assert out + (step.out + rest.1) == (out + step.out) + rest.1;
    }
  }

  lemma RunRoundStep(s: ServerState, events: seq<Ready>)
    requires ServerInv(s) && Runnable(s, events) && events != []
    ensures ReadyFor(s.reg, events[0]) && ServerInv(Serve(s, events[0]).state)
    ensures var step := Serve(s, events[0]);
      step.quit ==> RunRound(s, events) == (step.state, step.out, true)
    ensures var step := Serve(s, events[0]);
      !step.quit ==>
        && Runnable(step.state, events[1..])
        && var rest := RunRound(step.state, events[1..]);
        RunRound(s, events) == (rest.0, step.out + rest.1, rest.2)
  {
    ServeKeepsInv(s, events[0]);
  }

  /** A round that can be served in full can be served up to any point. */
  lemma {:induction false} RunnablePrefix(s: ServerState, events: seq<Ready>, more: seq<Ready>)
    requires ServerInv(s) && Runnable(s, events + more)
    ensures Runnable(s, events)
    decreases |events|
  {
    var all := events + more;
    if events != [] {
      assert all[0] == events[0];
      assert all[1..] == events[1..] + more;
      var step := Serve(s, events[0]);
      ServeKeepsInv(s, events[0]);
      if !step.quit {
        RunnablePrefix(step.state, events[1..], more);
      }
    }
  }

  /** Once a quit breaks the round off, the sockets reported after it are not served. */
  lemma {:induction false} QuitEndsRound(s: ServerState, events: seq<Ready>, more: seq<Ready>)
    requires ServerInv(s) && Runnable(s, events + more)
    ensures Runnable(s, events)
    ensures RunRound(s, events).2 ==> RunRound(s, events + more) == RunRound(s, events)
    decreases |events|
  {
    RunnablePrefix(s, events, more);
    var all := events + more;
    if events != [] {
      assert all[0] == events[0];
      assert all[1..] == events[1..] + more;
      var step := Serve(s, events[0]);
      ServeKeepsInv(s, events[0]);
      if !step.quit {
        QuitEndsRound(step.state, events[1..], more);
      }
    }
  }

  // ---------------------------------------------------------------------------
  // The loop as the server runs it

  /** `std::find` over the clients: the position of the first `x` in `cs`. */
  method Find(cs: seq<Socket>, x: Socket) returns (i: nat)
    requires x in cs
    ensures i < |cs| && cs[i] == x && x !in cs[..i]
  {
    i := 0;
    while cs[i] != x
      invariant i < |cs| && x in cs[i..] && x !in cs[..i]
      decreases |cs| - i
    {
      assert cs[..i + 1] == cs[..i] + [cs[i]];
      i := i + 1;
    }
  }

  /** A position of a first occurrence is the first occurrence. */
  lemma FirstOccurrence(cs: seq<Socket>, x: Socket, i: nat)
    requires i < |cs| && cs[i] == x && x !in cs[..i]
    ensures IndexOf(cs, x) == i
  {
  }

  /** The registry and the game the server's loop owns. */
  class Server {
    var clients: seq<Socket>
    var playerMap: map<Socket, Slot>
    var gameStarted: bool
    const gameState: GameState

    function State(): ServerState
      reads this, gameState
    {
      ServerState(Registry(clients, playerMap, gameStarted), gameState.Snapshot())
    }

    ghost predicate Valid()
      reads this, gameState
    {
      ServerInv(State())
    }

    constructor (draws: seq<Draw>)
      requires ThreeDistinctCells(draws)
      ensures Valid() && State() == InitialState(draws)
      ensures fresh(gameState)
    {
      clients := [];
      playerMap := map[];
      gameStarted := false;
      gameState := new GameState(draws);
    }

    /** The state lines of one broadcast, one per client in order. */
    method Broadcast() returns (out: seq<Message>)
      requires forall s :: s in clients ==> s in playerMap
      ensures out == StateLines(clients, playerMap, gameState.Snapshot())
    {
      out := [];
      var i := 0;
      while i < |clients|
        invariant 0 <= i <= |clients|
        invariant out == StateLines(clients[..i], playerMap, gameState.Snapshot())
      {
        var s := clients[i];
        out := out + [Message(s, Serialize(gameState.Snapshot(), playerMap[s]))];
        assert clients[..i + 1][..i] == clients[..i];
        i := i + 1;
      }
      assert clients[..i] == clients;
    }

    /** The start notice and the first state line for every client in order. */
    method Greet() returns (out: seq<Message>)
      requires forall s :: s in clients ==> s in playerMap
      ensures out == Greeting(clients, playerMap, gameState.Snapshot())
    {
      out := [];
      var i := 0;
      while i < |clients|
        invariant 0 <= i <= |clients|
        invariant out == Greeting(clients[..i], playerMap, gameState.Snapshot())
      {
        var s := clients[i];
        ghost var lines := StateLines(clients[..i], playerMap, gameState.Snapshot());
        var line := Message(s, Serialize(gameState.Snapshot(), playerMap[s]));
        out := out + [Message(s, START_NOTICE), line];
        assert clients[..i + 1][..i] == clients[..i];
        assert StateLines(clients[..i + 1], playerMap, gameState.Snapshot()) == lines + [line];
        assert (lines + [line])[..|lines|] == lines;
        i := i + 1;
      }
      assert clients[..i] == clients;
    }

    /** Serves the listening socket; `c` is the connection `accept` returned. */
    method Accept(c: Socket) returns (out: seq<Message>)
      requires Valid() && c !in clients
      modifies this
      ensures Valid()
      ensures Serve(old(State()), Listener(c)) == Served(State(), out, false)
    {
      ServeKeepsInv(State(), Listener(c));
      if |clients| >= MAX_CLIENTS {
        out := [Message(c, FULL_NOTICE)];
        return;
      }
      clients := clients + [c];
      playerMap := playerMap[c := if |clients| == 1 then P1 else P2];
      out := [Message(c, WAIT_NOTICE)];
      if |clients| == MAX_CLIENTS {
        gameStarted := true;
        var greeting := Greet();
        out := out + greeting;
      }
    }

    /** Forgets a connection that closed: it leaves the clients and the slot map, and the match stops. */
    method Disconnect(sock: Socket)
      requires sock in clients
      modifies this
      ensures Registry(clients, playerMap, gameStarted) == Drop(old(State()).reg, sock)
    {
      var i := Find(clients, sock);
      FirstOccurrence(clients, sock, i);
      clients := clients[..i] + clients[i + 1..];
      playerMap := playerMap - {sock};
      gameStarted := false;
    }

    /** Moves the player `sock` controls as `cmd` asks and broadcasts the new state. */
    method MoveAndBroadcast(sock: Socket, cmd: char, draws: seq<Draw>) returns (out: seq<Message>)
      requires sock in playerMap && ThreeDistinctCells(draws)
      requires forall s :: s in clients ==> s in playerMap
      modifies gameState
      ensures gameState.Snapshot() == Moved(old(gameState.Snapshot()), playerMap[sock], Decode(cmd), draws)
      ensures out == StateLines(clients, playerMap, gameState.Snapshot())
    {
      gameState.MovePlayer(playerMap[sock], Decode(cmd), draws);
      out := Broadcast();
    }

    /** Serves a client socket that `select` reported ready. */
    method Service(sock: Socket, received: Option<char>, draws: seq<Draw>) returns (out: seq<Message>, quit: bool)
      requires Valid() && ReadyFor(State().reg, Client(sock, received, draws))
      modifies this, gameState
      ensures Valid()
      ensures Serve(old(State()), Client(sock, received, draws)) == Served(State(), out, quit)
    {
      ServeKeepsInv(State(), Client(sock, received, draws));
      out, quit := [], false;
      if !gameStarted {
        return;
      }
      if received.None? {
        Disconnect(sock);
        return;
      }
      var cmd := received.value;
      if cmd == 'E' || cmd == 'e' {
        quit := true;
        return;
      }
      out := MoveAndBroadcast(sock, cmd, draws);
    }

    /** Serves one socket that `select` reported ready. */
    method Step(e: Ready) returns (sent: seq<Message>, quit: bool)
      requires Valid() && ReadyFor(State().reg, e)
      modifies this, gameState
      ensures Valid()
      ensures Serve(old(State()), e) == Served(State(), sent, quit)
    {
      match e {
        case Listener(c) =>
          sent := Accept(c);
          quit := false;
        case Client(sock, received, draws) =>
          sent, quit := Service(sock, received, draws);
      }
    }

    /** One round of the loop over the sockets `select` reported ready, broken off by a quit. */
    method Round(events: seq<Ready>) returns (out: seq<Message>, quit: bool)
      requires Valid() && Runnable(State(), events)
      modifies this, gameState
      ensures Valid()
      ensures RunRound(old(State()), events) == (State(), out, quit)
    {
      out, quit := [], false;
      var todo := events;
      assert out + RunRound(State(), todo).1 == RunRound(State(), todo).1;
      while todo != [] && !quit
        invariant Valid()
        invariant !quit ==> Runnable(State(), todo)
        invariant !quit ==>
          var rest := RunRound(State(), todo);
          RunRound(old(State()), events) == (rest.0, out + rest.1, rest.2)
        invariant quit ==> RunRound(old(State()), events) == (State(), out, true)
        decreases |todo|
      {
        ghost var before := State();
        RunRoundStep(before, todo);
        var sent: seq<Message>;
        sent, quit := Step(todo[0]);
        RoundAdvance(RunRound(old(State()), events), out, before, todo, Served(State(), sent, quit));
        out := out + sent;
        todo := todo[1..];
      }
      if !quit {
        assert out + [] == out;
      }
    }
  }

}
