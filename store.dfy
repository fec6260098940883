/**
  * The sqlite store of Physics.py's Database class, as an in-memory relational store: one sequence of
  * rows per SQL table, in insertion order. Every INTEGER PRIMARY KEY AUTOINCREMENT id is one more than
  * the number of rows before it, since the program never deletes a row. A SELECT is a function over the
  * rows and `fetchone` is its first match in row order.
  */
module Store {
  import opened Wrappers
  import opened PhylibTypes
  import opened Phylib
  import opened Physics

  datatype TTableRow = TTableRow(tableId: nat, time: real)
  /** XVEL and YVEL are the only nullable columns. */
  datatype BallRow = BallRow(ballId: nat, ballNo: Byte, xpos: real, ypos: real, xvel: Option<real>, yvel: Option<real>)
  datatype BallTableRow = BallTableRow(ballId: nat, tableId: nat)
  datatype GameRow = GameRow(gameId: nat, gameName: string)
  datatype PlayerRow = PlayerRow(playerId: nat, gameId: nat, playerName: string)
  datatype ShotRow = ShotRow(shotId: nat, playerId: nat, gameId: nat)
  datatype TableShotRow = TableShotRow(tableId: nat, shotId: nat)

  /** The contents of phylib.db. */
  datatype Rows = Rows(tables: seq<TTableRow>, balls: seq<BallRow>, ballTables: seq<BallTableRow>,
                       games: seq<GameRow>, players: seq<PlayerRow>, shots: seq<ShotRow>,
                       tableShots: seq<TableShotRow>)

  /** The sqlite3 exceptions the modelled statements can raise. `UnsupportedParameters` is the error
      sqlite3 raises when the parameters of `execute` are not a sequence. */
  datatype Error = TypeError | IntegrityError | UnsupportedParameters

  /** The tables createDB creates in a new phylib.db. */
  function Empty(): Rows {
    Rows([], [], [], [], [], [], [])
  }

  /** Both velocity columns are NULL or both are set: what writeTable stores. */
  ghost predicate NullsPaired(balls: seq<BallRow>) {
    forall i :: 0 <= i < |balls| ==> (balls[i].xvel.None? <==> balls[i].yvel.None?)
  }

  /** What every state reached by the modelled methods satisfies. */
  ghost predicate WellFormed(s: Rows) {
    (forall i :: 0 <= i < |s.tables| ==> s.tables[i].tableId == i + 1) &&
    (forall i :: 0 <= i < |s.balls| ==> s.balls[i].ballId == i + 1) &&
    NullsPaired(s.balls) &&
    (forall i :: 0 <= i < |s.ballTables| ==>
      1 <= s.ballTables[i].ballId <= |s.balls| && 1 <= s.ballTables[i].tableId <= |s.tables|) &&
    (forall i :: 0 <= i < |s.games| ==> s.games[i].gameId == i + 1) &&
    (forall i :: 0 <= i < |s.players| ==> s.players[i].playerId == i + 1 && s.players[i].gameId <= |s.games|) &&
    (forall i :: 0 <= i < |s.shots| ==> s.shots[i].shotId == i + 1)
  }

  lemma EmptyIsWellFormed()
    ensures WellFormed(Empty())
  {
  }

  // ---------------------------------------------------------------------------------------------
  // Queries: the first matching row

  /** SELECT ... FROM TTable WHERE TABLEID = id */
  function TableWithId(rows: seq<TTableRow>, id: int): (r: Option<nat>)
    ensures r.Some? ==> r.value < |rows| && rows[r.value].tableId == id
    ensures r.Some? ==> forall j :: 0 <= j < r.value ==> rows[j].tableId != id
    ensures r.None? <==> forall j :: 0 <= j < |rows| ==> rows[j].tableId != id
  {
    if rows == [] then None
    else match TableWithId(rows[..|rows| - 1], id)
      case Some(k) => Some(k)
      case None => if rows[|rows| - 1].tableId == id then Some(|rows| - 1) else None
  }

  /** SELECT TABLEID FROM TTable WHERE TIME = time */
  function TableWithTime(rows: seq<TTableRow>, time: real): (r: Option<nat>)
    ensures r.Some? ==> r.value < |rows| && rows[r.value].time == time
    ensures r.Some? ==> forall j :: 0 <= j < r.value ==> rows[j].time != time
    ensures r.None? <==> forall j :: 0 <= j < |rows| ==> rows[j].time != time
  {
    if rows == [] then None
    else match TableWithTime(rows[..|rows| - 1], time)
      case Some(k) => Some(k)
      case None => if rows[|rows| - 1].time == time then Some(|rows| - 1) else None
  }

  /** The Ball row the ON Ball.BALLID = BallTable.BALLID clause pairs with a link. */
  function BallWithId(rows: seq<BallRow>, id: int): (r: Option<nat>)
    ensures r.Some? ==> r.value < |rows| && rows[r.value].ballId == id
    ensures r.Some? ==> forall j :: 0 <= j < r.value ==> rows[j].ballId != id
    ensures r.None? <==> forall j :: 0 <= j < |rows| ==> rows[j].ballId != id
  {
    if rows == [] then None
    else match BallWithId(rows[..|rows| - 1], id)
      case Some(k) => Some(k)
      case None => if rows[|rows| - 1].ballId == id then Some(|rows| - 1) else None
  }

  /** SELECT ... FROM Game WHERE GAMEID = id */
  function GameWithId(rows: seq<GameRow>, id: int): (r: Option<nat>)
    ensures r.Some? ==> r.value < |rows| && rows[r.value].gameId == id
    ensures r.None? <==> forall j :: 0 <= j < |rows| ==> rows[j].gameId != id
  {
    if rows == [] then None
    else match GameWithId(rows[..|rows| - 1], id)
      case Some(k) => Some(k)
      case None => if rows[|rows| - 1].gameId == id then Some(|rows| - 1) else None
  }

  /** SELECT GAMEID FROM Game WHERE GAMENAME = name */
  function GameWithName(rows: seq<GameRow>, name: string): (r: Option<nat>)
    ensures r.Some? ==> r.value < |rows| && rows[r.value].gameName == name
    ensures r.Some? ==> forall j :: 0 <= j < r.value ==> rows[j].gameName != name
    ensures r.None? <==> forall j :: 0 <= j < |rows| ==> rows[j].gameName != name
  {
    if rows == [] then None
    else match GameWithName(rows[..|rows| - 1], name)
      case Some(k) => Some(k)
      case None => if rows[|rows| - 1].gameName == name then Some(|rows| - 1) else None
  }

  /** SELECT PLAYERID FROM Player WHERE PLAYERNAME = name */
  function PlayerWithName(rows: seq<PlayerRow>, name: string): (r: Option<nat>)
    ensures r.Some? ==> r.value < |rows| && rows[r.value].playerName == name
    ensures r.Some? ==> forall j :: 0 <= j < r.value ==> rows[j].playerName != name
    ensures r.None? <==> forall j :: 0 <= j < |rows| ==> rows[j].playerName != name
  {
    if rows == [] then None
    else match PlayerWithName(rows[..|rows| - 1], name)
      case Some(k) => Some(k)
      case None => if rows[|rows| - 1].playerName == name then Some(|rows| - 1) else None
  }

  /** SELECT MAX(GAMEID) FROM Game, on a non-empty table. */
  function MaxGameId(rows: seq<GameRow>): (m: nat)
    requires rows != []
    ensures forall j :: 0 <= j < |rows| ==> rows[j].gameId <= m
    ensures (exists j :: 0 <= j < |rows| && rows[j].gameId == m)
  {
    if |rows| == 1 then rows[0].gameId
    else
      var m := MaxGameId(rows[..|rows| - 1]);
      assert forall j :: 0 <= j < |rows| - 1 ==> rows[..|rows| - 1][j] == rows[j];
      if rows[|rows| - 1].gameId > m then rows[|rows| - 1].gameId else m
  }

  /** SELECT MAX(PLAYERID) FROM Shot, on a non-empty table. */
  function MaxShotPlayerId(rows: seq<ShotRow>): (m: nat)
    requires rows != []
    ensures forall j :: 0 <= j < |rows| ==> rows[j].playerId <= m
    ensures (exists j :: 0 <= j < |rows| && rows[j].playerId == m)
  {
    if |rows| == 1 then rows[0].playerId
    else
      var m := MaxShotPlayerId(rows[..|rows| - 1]);
      assert forall j :: 0 <= j < |rows| - 1 ==> rows[..|rows| - 1][j] == rows[j];
      if rows[|rows| - 1].playerId > m then rows[|rows| - 1].playerId else m
  }

  // ---------------------------------------------------------------------------------------------
  // writeTable and readTable

  /** The Ball row writeTable inserts for a ball: a still ball leaves both velocity columns NULL. */
  function EncodeBall(o: Object, id: nat): (b: BallRow)
    requires o.StillBall? || o.RollingBall?
    ensures b.ballId == id && b.ballNo == o.number && b.xpos == o.pos.x && b.ypos == o.pos.y
    ensures b.xvel.None? <==> o.StillBall?
    ensures b.yvel.None? <==> o.StillBall?
    ensures o.RollingBall? ==> b.xvel == Some(o.vel.x) && b.yvel == Some(o.vel.y)
  {
    if o.StillBall? then BallRow(id, o.number, o.pos.x, o.pos.y, None, None)
    else BallRow(id, o.number, o.pos.x, o.pos.y, Some(o.vel.x), Some(o.vel.y))
  }

  function BallRows(bs: seq<Object>, first: nat): (r: seq<BallRow>)
    requires forall j :: 0 <= j < |bs| ==> bs[j].StillBall? || bs[j].RollingBall?
    ensures |r| == |bs| && forall k :: 0 <= k < |bs| ==> r[k] == EncodeBall(bs[k], first + k)
  {
    seq(|bs|, k requires 0 <= k < |bs| => EncodeBall(bs[k], first + k))
  }

  /** The BallTable rows linking `n` balls, numbered from `first`, to a table. */
  function Links(first: nat, n: nat, tableId: nat): (r: seq<BallTableRow>)
    ensures |r| == n && forall k :: 0 <= k < n ==> r[k] == BallTableRow(first + k, tableId)
  {
    seq(n, k requires 0 <= k < n => BallTableRow(first + k, tableId))
  }

  /**
    * writeTable on a table whose loop visits `items`: one TTable row holding the time, and for each
    * still or rolling ball one Ball row and one BallTable row linking it to the new table. The result
    * is the new TABLEID minus one.
    */
  function WriteTableRows(s: Rows, items: seq<Option<Item>>, time: real): (r: (Rows, int))
    ensures r.1 == |s.tables| && r.0.tables == s.tables + [TTableRow(r.1 + 1, time)]
    ensures r.0.balls == s.balls + BallRows(Balls(items), |s.balls| + 1)
    ensures forall k :: 0 <= k < |Balls(items)| ==>
      r.0.balls[|s.balls| + k].ballNo == Balls(items)[k].number &&
      (r.0.balls[|s.balls| + k].xvel.None? <==> Balls(items)[k].StillBall?) &&
      (r.0.balls[|s.balls| + k].yvel.None? <==> Balls(items)[k].StillBall?)
    ensures r.0.ballTables == s.ballTables + Links(|s.balls| + 1, |Balls(items)|, r.1 + 1)
    ensures r.0.games == s.games && r.0.players == s.players && r.0.shots == s.shots
    ensures r.0.tableShots == s.tableShots
    ensures WellFormed(s) ==> WellFormed(r.0)
  {
    var tableId := |s.tables| + 1;
    var bs := Balls(items);
    var s' := s.(tables := s.tables + [TTableRow(tableId, time)],
                 balls := s.balls + BallRows(bs, |s.balls| + 1),
                 ballTables := s.ballTables + Links(|s.balls| + 1, |bs|, tableId));
    assert s'.balls[..|s.balls|] == s.balls;
    (s', tableId - 1)
  }

  /**
    * The rows of readTable's join, iterating the BallTable rows in order and pairing each link of the
    * table with its Ball row.
    */
  function JoinBalls(links: seq<BallTableRow>, balls: seq<BallRow>, tableId: int): (r: seq<BallRow>)
    ensures NullsPaired(balls) ==> NullsPaired(r)
    decreases |links|
  {
    if links == [] then []
    else
      var rest := JoinBalls(links[..|links| - 1], balls, tableId);
      var l := links[|links| - 1];
      if l.tableId != tableId then rest
      else match BallWithId(balls, l.ballId)
        case Some(k) => rest + [balls[k]]
        case None => rest
  }

  /** The ball readTable builds from a row: NULL velocity gives a still ball, anything else a rolling
      ball whose acceleration is recomputed by the drag rule. */
  function DecodeBall(b: BallRow, norm: Coord -> real): (o: Object)
    requires b.xvel.None? <==> b.yvel.None?
    ensures o.StillBall? <==> b.xvel.None?
    ensures (o.StillBall? || o.RollingBall?) && o.number == b.ballNo && o.pos == Coord(b.xpos, b.ypos)
    ensures o.RollingBall? ==> o.vel == Coord(b.xvel.value, b.yvel.value) && o.acc == DragAcc(o.vel, norm)
  {
    if b.xvel.None? && b.yvel.None? then StillBall(b.ballNo, Coord(b.xpos, b.ypos))
    else
      var vel := Coord(b.xvel.value, b.yvel.value);
      RollingBall(b.ballNo, Coord(b.xpos, b.ypos), vel, DragAcc(vel, norm))
  }

  function DecodeAll(rows: seq<BallRow>, norm: Coord -> real): (r: seq<Object>)
    requires forall k :: 0 <= k < |rows| ==> (rows[k].xvel.None? <==> rows[k].yvel.None?)
    ensures |r| == |rows| && forall k :: 0 <= k < |rows| ==> r[k] == DecodeBall(rows[k], norm)
  {
    seq(|rows|, k requires 0 <= k < |rows| => DecodeBall(rows[k], norm))
  }

  /**
    * readTable(tableID): None when no TTable row has TABLEID = tableID + 1; otherwise a new table with
    * that row's time and the decoded balls added in join order.
    */
  function ReadTableRows(s: Rows, tableID: int, norm: Coord -> real): (r: Option<TableValue>)
    requires NullsPaired(s.balls)
    ensures r.None? <==> forall j :: 0 <= j < |s.tables| ==> s.tables[j].tableId != tableID + 1
    ensures r.Some? ==>
      exists j :: 0 <= j < |s.tables| && s.tables[j].tableId == tableID + 1 &&
        r.value.time == s.tables[j].time
  {
    match TableWithId(s.tables, tableID + 1)
    case None => None
    case Some(i) =>
      var rows := JoinBalls(s.ballTables, s.balls, tableID + 1);
      Some(TableValue(s.tables[i].time, AddAll(Standard().objects, DecodeAll(rows, norm))))
  }

  /** A ball as readTable rebuilds it: the stored fields, and a rolling ball's acceleration recomputed. */
  function Restore(o: Object, norm: Coord -> real): (r: Object)
    requires o.StillBall? || o.RollingBall?
    ensures r.StillBall? <==> o.StillBall?
    ensures (r.StillBall? || r.RollingBall?) && r.number == o.number && r.pos == o.pos
    ensures o.StillBall? ==> r == o
    ensures o.RollingBall? ==> r.vel == o.vel && r.acc == DragAcc(o.vel, norm)
  {
    if o.StillBall? then o else RollingBall(o.number, o.pos, o.vel, DragAcc(o.vel, norm))
  }

  function RestoreAll(bs: seq<Object>, norm: Coord -> real): (r: seq<Object>)
    requires forall j :: 0 <= j < |bs| ==> bs[j].StillBall? || bs[j].RollingBall?
    ensures |r| == |bs| && forall k :: 0 <= k < |bs| ==> r[k] == Restore(bs[k], norm)
  {
    seq(|bs|, k requires 0 <= k < |bs| => Restore(bs[k], norm))
  }

  lemma {:induction false} JoinBallsAppend(a: seq<BallTableRow>, b: seq<BallTableRow>, balls: seq<BallRow>, id: int)
    ensures JoinBalls(a + b, balls, id) == JoinBalls(a, balls, id) + JoinBalls(b, balls, id)
    decreases |b|
  {
    if b == [] {
      assert a + b == a;
    } else {
      assert (a + b)[..|a + b| - 1] == a + b[..|b| - 1];
      JoinBallsAppend(a, b[..|b| - 1], balls, id);
    }
  }

  lemma {:induction false} JoinBallsOther(links: seq<BallTableRow>, balls: seq<BallRow>, id: int)
    requires forall k :: 0 <= k < |links| ==> links[k].tableId != id
    ensures JoinBalls(links, balls, id) == []
    decreases |links|
  {
    if links != [] {
      JoinBallsOther(links[..|links| - 1], balls, id);
    }
  }

  /** The links writeTable adds join back to exactly the Ball rows it added, in order. */
  lemma {:induction false} JoinBallsLinks(balls: seq<BallRow>, first: nat, n: nat, id: nat)
    requires forall i :: 0 <= i < |balls| ==> balls[i].ballId == i + 1
    requires 1 <= first && first + n <= |balls| + 1
    ensures JoinBalls(Links(first, n, id), balls, id) == balls[first - 1..first - 1 + n]
    decreases n
  {
    if n > 0 {
      var lo, hi := first - 1, first - 1 + n;
      LinksSnoc(first, n - 1, id);
      BallWithIdIsIndex(balls, hi - 1);
      JoinBallsSnoc(Links(first, n - 1, id), BallTableRow(hi, id), balls, id);
      JoinBallsLinks(balls, first, n - 1, id);
      SliceSnoc(balls, lo, hi);
    }
  }

  /** A link of the table read whose ball exists adds that ball's row at the end of the join. */
  lemma JoinBallsSnoc(links: seq<BallTableRow>, l: BallTableRow, balls: seq<BallRow>, id: int)
    requires l.tableId == id && BallWithId(balls, l.ballId).Some?
    ensures JoinBalls(links + [l], balls, id) == JoinBalls(links, balls, id) + [balls[BallWithId(balls, l.ballId).value]]
  {
    assert (links + [l])[..|links|] == links;
  }

  /** With ids numbered from one by position, the Ball row with id i + 1 is the row at index i. */
  lemma BallWithIdIsIndex(balls: seq<BallRow>, i: nat)
    requires forall j :: 0 <= j < |balls| ==> balls[j].ballId == j + 1
    requires i < |balls|
    ensures BallWithId(balls, i + 1) == Some(i)
  {
    assert balls[i].ballId == i + 1;
  }

  /** Decoding the rows writeTable encoded gives back the balls, accelerations recomputed. */
  lemma DecodeEncoded(bs: seq<Object>, first: nat, norm: Coord -> real)
    requires forall j :: 0 <= j < |bs| ==> bs[j].StillBall? || bs[j].RollingBall?
    ensures DecodeAll(BallRows(bs, first), norm) == RestoreAll(bs, norm)
  {
  }

  /**
    * Round trip: reading back the id writeTable returns gives a table with the written time, the four
    * cushions and six holes of a new table, and the written balls in order with their numbers, positions
    * and velocities (rolling balls get the drag acceleration of their velocity). It needs the balls to
    * fit next to the ten fixtures.
    */
  lemma {:induction false} WriteReadRoundTrip(s: Rows, items: seq<Option<Item>>, time: real, norm: Coord -> real)
    requires WellFormed(s) && |Balls(items)| <= MAX_OBJECTS - 10
    ensures WellFormed(WriteTableRows(s, items, time).0)
    ensures ReadTableRows(WriteTableRows(s, items, time).0, WriteTableRows(s, items, time).1, norm) ==
      Some(TableValue(time, AddAll(Standard().objects, RestoreAll(Balls(items), norm))))
  {
    var r := WriteTableRows(s, items, time);
    JoinAfterWrite(s, items, time);
    assert TableWithId(r.0.tables, r.1 + 1) == Some(|s.tables|);
    DecodeEncoded(Balls(items), |s.balls| + 1, norm);
  }

  /** The new table's id joins exactly the Ball rows writeTable added. */
  lemma JoinAfterWrite(s: Rows, items: seq<Option<Item>>, time: real)
    requires WellFormed(s)
    ensures var r := WriteTableRows(s, items, time);
      JoinBalls(r.0.ballTables, r.0.balls, r.1 + 1) == BallRows(Balls(items), |s.balls| + 1)
  {
    var r := WriteTableRows(s, items, time);
    JoinNewLinks(s.ballTables, s.balls, BallRows(Balls(items), |s.balls| + 1), r.1 + 1);
  }

  /** Links to a new table id, added after links to older tables, join the rows they name. */
  lemma JoinNewLinks(links: seq<BallTableRow>, balls: seq<BallRow>, rows: seq<BallRow>, id: nat)
    requires forall i :: 0 <= i < |links| ==> links[i].tableId < id
    requires forall i :: 0 <= i < |balls + rows| ==> (balls + rows)[i].ballId == i + 1
    ensures JoinBalls(links + Links(|balls| + 1, |rows|, id), balls + rows, id) == rows
  {
    var all := balls + rows;
    JoinBallsAppend(links, Links(|balls| + 1, |rows|, id), all, id);
    JoinBallsOther(links, all, id);
    JoinBallsLinks(all, |balls| + 1, |rows|, id);
    assert all[|balls|..|balls| + |rows|] == rows;
  }

  /** The round trip seen through a loop over the table read back: its balls are the written ones. */
  lemma RoundTripBalls(s: Rows, items: seq<Option<Item>>, time: real, norm: Coord -> real)
    requires WellFormed(s) && |Balls(items)| <= MAX_OBJECTS - 10
    ensures var r := ReadTableRows(WriteTableRows(s, items, time).0, WriteTableRows(s, items, time).1, norm);
      r.Some? && r.value.time == time &&
      var back := Balls(ItemsOf(r.value.objects)); var bs := Balls(items);
      |back| == |bs| &&
      forall k :: 0 <= k < |bs| ==>
        back[k].number == bs[k].number && back[k].pos == bs[k].pos &&
        (back[k].StillBall? <==> bs[k].StillBall?) &&
        (bs[k].RollingBall? ==> back[k].vel == bs[k].vel)
  {
    WriteReadRoundTrip(s, items, time, norm);
    RestoredBalls(Balls(items), norm);
  }

  /** The balls of a new table with restored balls added are those balls, fields kept. */
  lemma RestoredBalls(bs: seq<Object>, norm: Coord -> real)
    requires forall j :: 0 <= j < |bs| ==> bs[j].StillBall? || bs[j].RollingBall?
    requires |bs| <= MAX_OBJECTS - 10
    ensures var back := Balls(ItemsOf(AddAll(Standard().objects, RestoreAll(bs, norm))));
      |back| == |bs| &&
      forall k :: 0 <= k < |bs| ==>
        back[k].number == bs[k].number && back[k].pos == bs[k].pos &&
        (back[k].StillBall? <==> bs[k].StillBall?) &&
        (bs[k].RollingBall? ==> back[k].vel == bs[k].vel)
  {
    BallsOfStandardPlus(RestoreAll(bs, norm));
  }

  // ---------------------------------------------------------------------------------------------
  // Games, players and shots

  /** The names getGame returns. */
  datatype GameNames = GameNames(gameName: string, player1Name: string, player2Name: string)

  /**
    * setGame: one Game row, then a Player row for player 1 and then one for player 2, both with the
    * game id read back by SELECT MAX(GAMEID). The result is that id.
    */
  function SetGameRows(s: Rows, gameName: string, player1Name: string, player2Name: string): (r: (Rows, nat))
    ensures r.0.games == s.games + [GameRow(|s.games| + 1, gameName)]
    ensures WellFormed(s) ==> r.1 == |s.games| + 1
    ensures r.0.players == s.players + [PlayerRow(|s.players| + 1, r.1, player1Name),
                                        PlayerRow(|s.players| + 2, r.1, player2Name)]
    ensures r.0.tables == s.tables && r.0.balls == s.balls && r.0.ballTables == s.ballTables
    ensures r.0.shots == s.shots && r.0.tableShots == s.tableShots
    ensures WellFormed(s) ==> WellFormed(r.0)
  {
    var games := s.games + [GameRow(|s.games| + 1, gameName)];
    var gameId := MaxGameId(games);
    var players := s.players + [PlayerRow(|s.players| + 1, gameId, player1Name)];
    var players' := players + [PlayerRow(|players| + 1, gameId, player2Name)];
    (s.(games := games, players := players'), gameId)
  }

  /** The first player row after P1 in the join: same game, larger PLAYERID. */
  function PartnerOf(p1: PlayerRow, ps: seq<PlayerRow>, gameId: int): (r: Option<nat>)
    ensures r.Some? ==> r.value < |ps| && ps[r.value].gameId == gameId && p1.playerId < ps[r.value].playerId
    ensures r.None? <==> forall j :: 0 <= j < |ps| ==> !(ps[j].gameId == gameId && p1.playerId < ps[j].playerId)
  {
    if ps == [] then None
    else match PartnerOf(p1, ps[..|ps| - 1], gameId)
      case Some(k) => Some(k)
      case None =>
        var p := ps[|ps| - 1];
        if p.gameId == gameId && p1.playerId < p.playerId then Some(|ps| - 1) else None
  }

  /** A player of the game who has a later-joined partner, so can be P1 of a join row. */
  predicate Opens(p: PlayerRow, ps: seq<PlayerRow>, gameId: int) {
    p.gameId == gameId && PartnerOf(p, ps, gameId).Some?
  }

  /** The first P1, P2 pair of the join for a game. */
  function FirstPair(p1s: seq<PlayerRow>, ps: seq<PlayerRow>, gameId: int): (r: Option<(nat, nat)>)
    ensures r.Some? ==>
      r.value.0 < |p1s| && p1s[r.value.0].gameId == gameId &&
        PartnerOf(p1s[r.value.0], ps, gameId) == Some(r.value.1)
    ensures r.Some? ==> forall j :: 0 <= j < r.value.0 ==> !Opens(p1s[j], ps, gameId)
    ensures r.None? <==> forall j :: 0 <= j < |p1s| ==> !Opens(p1s[j], ps, gameId)
  {
    if p1s == [] then None
    else match FirstPair(p1s[..|p1s| - 1], ps, gameId)
      case Some(k) => Some(k)
      case None =>
        var p := p1s[|p1s| - 1];
        if Opens(p, ps, gameId) then Some((|p1s| - 1, PartnerOf(p, ps, gameId).value)) else None
  }

  /** A row of getGame's join: a game row with the id and two of its players, P1 before P2. */
  ghost predicate JoinRow(s: Rows, gameId: int, g: int, i: int, j: int) {
    0 <= g < |s.games| && 0 <= i < |s.players| && 0 <= j < |s.players| &&
    s.games[g].gameId == gameId && s.players[i].gameId == gameId && s.players[j].gameId == gameId &&
    s.players[i].playerId < s.players[j].playerId
  }

  /**
    * getGame's join, Game x Player P1 x Player P2 with the same GAMEID and P1.PLAYERID < P2.PLAYERID,
    * first row in FROM order: the game's name and the two players' names, or None when no row matches.
    */
  function GetGameRows(s: Rows, gameId: int): (r: Option<GameNames>)
    ensures GameWithId(s.games, gameId).None? ==> r.None?
    ensures r.Some? ==> exists j :: 0 <= j < |s.games| && s.games[j].gameName == r.value.gameName
  {
    match GameWithId(s.games, gameId)
    case None => None
    case Some(g) =>
      match FirstPair(s.players, s.players, gameId)
      case None => None
      case Some((i, j)) => Some(GameNames(s.games[g].gameName, s.players[i].playerName, s.players[j].playerName))
  }

  /** getGame finds names exactly when the join has a row, and the names it finds are a row's. */
  lemma GetGameRowsIsJoin(s: Rows, gameId: int)
    ensures var r := GetGameRows(s, gameId);
      (r.Some? <==> exists g, i, j :: JoinRow(s, gameId, g, i, j)) &&
      (r.Some? ==> exists g, i, j :: (JoinRow(s, gameId, g, i, j) &&
        r.value == GameNames(s.games[g].gameName, s.players[i].playerName, s.players[j].playerName)))
  {
    match GameWithId(s.games, gameId)
    case None =>
      forall g, i, j ensures !JoinRow(s, gameId, g, i, j) {
        if 0 <= g < |s.games| {
          assert s.games[g].gameId != gameId;
        }
      }
    case Some(g) =>
      match FirstPair(s.players, s.players, gameId)
      case None =>
        forall g', i, j ensures !JoinRow(s, gameId, g', i, j) {
          if 0 <= i < |s.players| && s.players[i].gameId == gameId {
            assert PartnerOf(s.players[i], s.players, gameId).None?;
          }
        }
      case Some((i, j)) =>
        assert JoinRow(s, gameId, g, i, j);
  }

  /** setGame followed by getGame on the id it returns gives back the three names, player 1 first. */
  lemma SetThenGetGame(s: Rows, gameName: string, player1Name: string, player2Name: string)
    requires WellFormed(s)
    ensures var (s', id) := SetGameRows(s, gameName, player1Name, player2Name);
      GetGameRows(s', id) == Some(GameNames(gameName, player1Name, player2Name))
  {
    var (s', id) := SetGameRows(s, gameName, player1Name, player2Name);
    var n := |s.players|;
    assert GameWithId(s'.games, id) == Some(|s.games|);
    assert forall j :: 0 <= j < n ==> s'.players[j].gameId != id;
    assert PartnerOf(s'.players[n], s'.players, id) == Some(n + 1);
    assert FirstPair(s'.players, s'.players, id) == Some((n, n + 1));
  }

  /** The parameters handed to `cursor.execute`: a sequence, or a bare value. */
  datatype Params = Tuple(values: seq<int>) | Scalar(value: int)

  /** sqlite3's binding of parameters to a one-placeholder statement. */
  function Bind(p: Params): (r: Result<int, Error>)
    ensures r.Ok? <==> p.Tuple? && |p.values| == 1
  {
    match p
    case Scalar(_) => Err(UnsupportedParameters)
    case Tuple(vs) => if |vs| == 1 then Ok(vs[0]) else Err(UnsupportedParameters)
  }

  /** getGame with the parameters it hands to `execute`. */
  function GetGameQuery(s: Rows, p: Params): Result<Option<GameNames>, Error> {
    match Bind(p)
    case Err(e) => Err(e)
    case Ok(id) => Ok(GetGameRows(s, id))
  }

  /** getGame as written: `(gameID)` is the bare id, not a one-element tuple. */
  function GetGameAsWritten(s: Rows, gameId: int): (r: Result<Option<GameNames>, Error>)
    ensures r == Err(UnsupportedParameters)
  {
    GetGameQuery(s, Scalar(gameId))
  }

  /** getGame with `(gameID,)`: the join's result. */
  function GetGameFixed(s: Rows, gameId: int): (r: Result<Option<GameNames>, Error>)
    ensures r == Ok(GetGameRows(s, gameId))
  {
    GetGameQuery(s, Tuple([gameId]))
  }

  /** As written, getGame raises even right after setGame created the game, where the names were due. */
  lemma GetGameAsWrittenRaises(s: Rows, gameName: string, player1Name: string, player2Name: string)
    requires WellFormed(s)
    ensures var (s', id) := SetGameRows(s, gameName, player1Name, player2Name);
      GetGameAsWritten(s', id) == Err(UnsupportedParameters) &&
      GetGameRows(s', id) == Some(GameNames(gameName, player1Name, player2Name))
  {
    SetThenGetGame(s, gameName, player1Name, player2Name);
  }

  /** With the parameter tuple, getGame after setGame returns the names. */
  lemma GetGameFixedAfterSetGame(s: Rows, gameName: string, player1Name: string, player2Name: string)
    requires WellFormed(s)
    ensures var (s', id) := SetGameRows(s, gameName, player1Name, player2Name);
      GetGameFixed(s', id) == Ok(Some(GameNames(gameName, player1Name, player2Name)))
  {
    SetThenGetGame(s, gameName, player1Name, player2Name);
  }

  /**
    * newShot: None, with nothing inserted, when the player name or the game name is unknown; otherwise
    * one Shot row for the first matching player and game, and the result of SELECT MAX(PLAYERID) FROM
    * Shot, the largest player id of all shots, which is not in general the new SHOTID.
    */
  function NewShotRows(s: Rows, gameName: string, playerName: string): (r: (Rows, Option<nat>))
    ensures r.1.None? <==> PlayerWithName(s.players, playerName).None? || GameWithName(s.games, gameName).None?
    ensures r.1.None? ==> r.0 == s
    ensures r.1.Some? ==> r.0 == s.(shots := s.shots + [ShotRow(|s.shots| + 1,
      s.players[PlayerWithName(s.players, playerName).value].playerId,
      s.games[GameWithName(s.games, gameName).value].gameId)])
    ensures r.1.Some? ==> r.1.value == MaxShotPlayerId(r.0.shots)
    ensures WellFormed(s) ==> WellFormed(r.0)
  {
    match PlayerWithName(s.players, playerName)
    case None => (s, None)
    case Some(p) =>
      match GameWithName(s.games, gameName)
      case None => (s, None)
      case Some(g) =>
        var s' := s.(shots := s.shots + [ShotRow(|s.shots| + 1, s.players[p].playerId, s.games[g].gameId)]);
        (s', Some(MaxShotPlayerId(s'.shots)))
  }

  /** The id newShot returns is at least the id of the player who shot, whatever the new SHOTID is. */
  lemma NewShotReturnsPlayerBound(s: Rows, gameName: string, playerName: string)
    requires NewShotRows(s, gameName, playerName).1.Some?
    ensures var (s', id) := NewShotRows(s, gameName, playerName);
      s'.shots[|s'.shots| - 1].playerId <= id.value
  {
  }

  /** Example, one concrete store: a game "g" whose second player "b" takes the first shot; newShot
      answers 2, the PLAYERID, while the only Shot row has SHOTID 1. */
  lemma NewShotIsNotShotId()
    ensures var s := SetGameRows(Empty(), "g", "a", "b").0;
      var (s', id) := NewShotRows(s, "g", "b");
      |s'.shots| == 1 && s'.shots[0].shotId == 1 && id == Some(2)
  {
    var s := SetGameRows(Empty(), "g", "a", "b").0;
    assert s.players[0].playerName == "a" && s.players[1].playerName == "b";
    assert "a" != "b";
    assert PlayerWithName(s.players, "b") == Some(1);
    assert GameWithName(s.games, "g") == Some(0);
  }

  // ---------------------------------------------------------------------------------------------
  // Linking a frame to its shot

  /** How shoot ends: normally, by its `return None` when a frame's table is not found, or with an
      exception. */
  datatype Outcome = Completed | Abandoned | Raised(error: Error)

  /**
    * The statements of shoot after a frame was written: SELECT TABLEID FROM TTable WHERE TIME = ? and
    * INSERT INTO TableShot. The insert fails on the NOT NULL SHOTID column when the shot id is None and
    * on the (TABLEID, SHOTID) primary key when that pair is already linked.
    */
  function LinkFrameRows(s: Rows, time: real, shotId: Option<nat>): (r: (Rows, Outcome))
    ensures r.1 == Abandoned <==> TableWithTime(s.tables, time).None?
    ensures r.1 == Completed ==> shotId.Some? && r.0 == s.(tableShots := s.tableShots +
      [TableShotRow(s.tables[TableWithTime(s.tables, time).value].tableId, shotId.value)])
    ensures r.1 != Completed ==> r.0 == s
    ensures TableWithTime(s.tables, time).Some? && shotId.None? ==> r.1 == Raised(IntegrityError)
    ensures WellFormed(s) ==> WellFormed(r.0)
  {
    match TableWithTime(s.tables, time)
    case None => (s, Abandoned)
    case Some(i) =>
      var tableId := s.tables[i].tableId;
      match shotId
      case None => (s, Raised(IntegrityError))
      case Some(id) =>
        if TableShotRow(tableId, id) in s.tableShots then (s, Raised(IntegrityError))
        else (s.(tableShots := s.tableShots + [TableShotRow(tableId, id)]), Completed)
  }

  /**
    * After writeTable, the lookup by time always finds a table, so shoot's `return None` never runs.
    * The table it links is the one just written exactly when no earlier table has the same time.
    */
  lemma LinkAfterWrite(s: Rows, items: seq<Option<Item>>, time: real, shotId: Option<nat>)
    requires WellFormed(s)
    ensures var (s1, id) := WriteTableRows(s, items, time);
      TableWithTime(s1.tables, time).Some? &&
      LinkFrameRows(s1, time, shotId).1 != Abandoned &&
      (s1.tables[TableWithTime(s1.tables, time).value].tableId == id + 1 <==>
        forall j :: 0 <= j < |s.tables| ==> s.tables[j].time != time)
  {
    var (s1, id) := WriteTableRows(s, items, time);
    assert s1.tables[|s.tables|].time == time;
  }

  // ---------------------------------------------------------------------------------------------
  // The Database object

  /** Physics.Database: the connection's tables as fields. */
  class Database {
    var tables: seq<TTableRow>
    var balls: seq<BallRow>
    var ballTables: seq<BallTableRow>
    var games: seq<GameRow>
    var players: seq<PlayerRow>
    var shots: seq<ShotRow>
    var tableShots: seq<TableShotRow>

    function State(): Rows
      reads this
    {
      Rows(tables, balls, ballTables, games, players, shots, tableShots)
    }

    ghost predicate Valid()
      reads this
    {
      WellFormed(State())
    }

    /** Database(reset=True) followed by createDB: a new phylib.db with empty tables. */
    constructor ()
      ensures Valid() && State() == Empty()
    {
      tables, balls, ballTables := [], [], [];
      games, players, shots, tableShots := [], [], [], [];
    }

    /** The rows one call of writeTable leaves. */
    method WriteTable(t: Table) returns (id: int)
      requires t.Valid()
      modifies this, t`current
      ensures t.Valid() && t.current == -1
      ensures (State(), id) == WriteTableRows(old(State()), old(t.Remaining()), t.tab.time)
    {
      ghost var expected := WriteTableRows(State(), t.Remaining(), t.tab.time);
      tables := tables + [TTableRow(|tables| + 1, t.tab.time)];
      var tableId := |tables|;
      var items := t.Iterate();
      InsertBalls(items, tableId);
      id := tableId - 1;
      assert State() == expected.0;
    }

    /** writeTable's `for ball in table` loop over the visited items: a Ball row and a BallTable row
        for each still or rolling ball, nothing for the other objects. */
    method InsertBalls(items: seq<Option<Item>>, tableId: nat)
      modifies this
      ensures balls == old(balls) + BallRows(Balls(items), |old(balls)| + 1)
      ensures ballTables == old(ballTables) + Links(|old(balls)| + 1, |Balls(items)|, tableId)
      ensures tables == old(tables) && games == old(games) && players == old(players)
      ensures shots == old(shots) && tableShots == old(tableShots)
    {
      ghost var first := |balls| + 1;
      for k := 0 to |items|
        invariant balls == old(balls) + BallRows(Balls(items[..k]), first)
        invariant ballTables == old(ballTables) + Links(first, |Balls(items[..k])|, tableId)
        invariant tables == old(tables) && games == old(games) && players == old(players)
        invariant shots == old(shots) && tableShots == old(tableShots)
      {
        WriteStep(items, k, first, tableId);
        var ball := items[k];
        var row: BallRow;
        if ball.Some? && ball.value.cls == StillBallClass {
          var o := ball.value.obj;
          row := BallRow(|balls| + 1, o.number, o.pos.x, o.pos.y, None, None);
        } else if ball.Some? && ball.value.cls == RollingBallClass {
          var o := ball.value.obj;
          row := BallRow(|balls| + 1, o.number, o.pos.x, o.pos.y, Some(o.vel.x), Some(o.vel.y));
        } else {
          continue;
        }
        InsertStep(old(balls), old(ballTables), Balls(items[..k]), ball.value.obj, row, first, tableId);
        balls := balls + [row];
        // cur.lastrowid after an INSERT is the new row's id and never None
        var ballId := |balls|;
        ballTables := ballTables + [BallTableRow(ballId, tableId)];
      }
      assert items[..|items|] == items;
    }

    /** readTable(tableID): the table read back, or null for None. */
    method ReadTable(tableID: int, norm: Coord -> real) returns (t: Table?)
      requires Valid()
      ensures t == null <==> ReadTableRows(State(), tableID, norm).None?
      ensures t != null ==> (fresh(t) && fresh(t.tab) && fresh(t.tab.objects) && t.Valid() &&
        t.current == -1 && Some(t.Value()) == ReadTableRows(State(), tableID, norm))
    {
      var newTableId := tableID + 1;
      var row := TableWithId(tables, newTableId);
      if row.None? {
        return null;
      }
      t := new Table();
      t.tab.time := tables[row.value].time;
      var rows := JoinBalls(ballTables, balls, newTableId);
      AddRows(t, rows, norm);
    }

    /** readTable's `for row in rows` loop: each joined row decoded and added to the table. */
    static method AddRows(t: Table, rows: seq<BallRow>, norm: Coord -> real)
      requires t.Valid() && NullsPaired(rows)
      modifies t.tab.objects
      ensures t.Valid()
      ensures t.tab.objects[..] == AddAll(old(t.tab.objects[..]), DecodeAll(rows, norm))
    {
      ghost var start := t.tab.objects[..];
      for k := 0 to |rows|
        invariant t.Valid()
        invariant t.tab.objects[..] == AddAll(start, DecodeAll(rows[..k], norm))
      {
        var b := rows[k];
        DecodeStep(start, rows, k, norm);
        if b.xvel.None? && b.yvel.None? {
          t.Add(StillBall(b.ballNo, Coord(b.xpos, b.ypos)));
        } else {
          var vel := Coord(b.xvel.value, b.yvel.value);
          var speed := norm(vel);
          var acc := Coord(0.0, 0.0);
          if speed > VEL_EPSILON {
            acc := Coord((-vel.x / speed) * DRAG, (-vel.y / speed) * DRAG);
          }
          // the second speed test recomputes the same length with math.sqrt
          if norm(vel) > VEL_EPSILON {
            t.Add(RollingBall(b.ballNo, Coord(b.xpos, b.ypos), vel, acc));
          } else {
            t.Add(RollingBall(b.ballNo, Coord(b.xpos, b.ypos), vel, Coord(0.0, 0.0)));
          }
        }
      }
      assert rows[..|rows|] == rows;
    }

    /** setGame(gameName, player1Name, player2Name). */
    method SetGame(gameName: string, player1Name: string, player2Name: string) returns (gameId: nat)
      requires Valid()
      modifies this
      ensures Valid()
      ensures (State(), gameId) == SetGameRows(old(State()), gameName, player1Name, player2Name)
    {
      ghost var expected := SetGameRows(State(), gameName, player1Name, player2Name);
      games := games + [GameRow(|games| + 1, gameName)];
      gameId := MaxGameId(games);
      players := players + [PlayerRow(|players| + 1, gameId, player1Name)];
      // SELECT MAX(PLAYERID) FROM Player reads player 1's id, which setGame does not use
      players := players + [PlayerRow(|players| + 1, gameId, player2Name)];
      assert State() == expected.0;
    }

    /** getGame(gameID), with its parameters passed as the one-element tuple `(gameID,)`. */
    method GetGame(gameId: int) returns (r: Option<GameNames>)
      requires Valid()
      ensures Ok(r) == GetGameFixed(State(), gameId)
    {
      r := GetGameRows(State(), gameId);
    }

    /** newShot(gameName, playerName). */
    method NewShot(gameName: string, playerName: string) returns (shotId: Option<nat>)
      requires Valid()
      modifies this
      ensures Valid()
      ensures (State(), shotId) == NewShotRows(old(State()), gameName, playerName)
    {
      var player := PlayerWithName(players, playerName);
      if player.None? {
        return None;
      }
      var playerId := players[player.value].playerId;
      var game := GameWithName(games, gameName);
      if game.None? {
        return None;
      }
      var gameId := games[game.value].gameId;
      shots := shots + [ShotRow(|shots| + 1, playerId, gameId)];
      shotId := Some(MaxShotPlayerId(shots));
    }

    /** The lookup by time and the TableShot insert shoot runs after each frame. */
    method LinkFrame(time: real, shotId: Option<nat>) returns (o: Outcome)
      modifies this
      ensures (State(), o) == LinkFrameRows(old(State()), time, shotId)
    {
      var row := TableWithTime(tables, time);
      if row.None? {
        return Abandoned;
      }
      var tableId := tables[row.value].tableId;
      if shotId.None? {
        return Raised(IntegrityError);
      }
      if TableShotRow(tableId, shotId.value) in tableShots {
        return Raised(IntegrityError);
      }
      tableShots := tableShots + [TableShotRow(tableId, shotId.value)];
      return Completed;
    }
  }

  /** Appending one ball's Ball row and link extends the rows of the balls before it. */
  lemma InsertStep(balls: seq<BallRow>, links: seq<BallTableRow>, bs: seq<Object>, o: Object, row: BallRow,
                   first: nat, tableId: nat)
    requires forall j :: 0 <= j < |bs| ==> bs[j].StillBall? || bs[j].RollingBall?
    requires o.StillBall? || o.RollingBall?
    requires |balls| + 1 == first
    requires row.ballId == |balls| + |bs| + 1
    requires row == BallRow(row.ballId, o.number, o.pos.x, o.pos.y,
      if o.StillBall? then None else Some(o.vel.x), if o.StillBall? then None else Some(o.vel.y))
    ensures balls + BallRows(bs, first) + [row] == balls + BallRows(bs + [o], first)
    ensures |balls + BallRows(bs, first) + [row]| == first + |bs|
    ensures links + Links(first, |bs|, tableId) + [BallTableRow(first + |bs|, tableId)] ==
      links + Links(first, |bs + [o]|, tableId)
  {
    BallRowsSnoc(bs, o, first);
    LinksSnoc(first, |bs|, tableId);
  }

  lemma BallRowsSnoc(bs: seq<Object>, o: Object, first: nat)
    requires forall j :: 0 <= j < |bs| ==> bs[j].StillBall? || bs[j].RollingBall?
    requires o.StillBall? || o.RollingBall?
    ensures BallRows(bs + [o], first) == BallRows(bs, first) + [EncodeBall(o, first + |bs|)]
  {
  }

  lemma LinksSnoc(first: nat, n: nat, tableId: nat)
    ensures Links(first, n + 1, tableId) == Links(first, n, tableId) + [BallTableRow(first + n, tableId)]
  {
  }

  /** One step of readTable's loop: the next row's ball is added after those before it. */
  lemma DecodeStep(start: seq<Option<Object>>, rows: seq<BallRow>, k: nat, norm: Coord -> real)
    requires k < |rows| && NullsPaired(rows)
    ensures AddAll(start, DecodeAll(rows[..k + 1], norm)) ==
      AddTo(AddAll(start, DecodeAll(rows[..k], norm)), Some(DecodeBall(rows[k], norm)))
  {
    assert rows[..k + 1] == rows[..k] + [rows[k]];
    assert DecodeAll(rows[..k + 1], norm) == DecodeAll(rows[..k], norm) + [DecodeBall(rows[k], norm)];
    AddAllSnoc(start, DecodeAll(rows[..k], norm), DecodeBall(rows[k], norm));
  }

  /** One step of writeTable's loop: a ball item adds its Ball row and its link at the end. */
  lemma WriteStep(items: seq<Option<Item>>, k: nat, first: nat, tableId: nat)
    requires k < |items|
    ensures var bs := Balls(items[..k]); var ball := items[k];
      if ball.Some? && (ball.value.cls == StillBallClass || ball.value.cls == RollingBallClass) then
        Balls(items[..k + 1]) == bs + [ball.value.obj] &&
        BallRows(Balls(items[..k + 1]), first) == BallRows(bs, first) + [EncodeBall(ball.value.obj, first + |bs|)] &&
        Links(first, |bs| + 1, tableId) == Links(first, |bs|, tableId) + [BallTableRow(first + |bs|, tableId)]
      else Balls(items[..k + 1]) == bs
  {
    assert items[..k + 1][..k] == items[..k];
  }
}
