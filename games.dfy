/**
  * Physics.py's Game class: the constructor's two accepted argument combinations and `shoot`, which
  * records a shot, turns the cue ball into a rolling ball and then writes the frames of every segment
  * of the simulation, linking each one to the shot.
  */
module Games {
  import opened Wrappers
  import opened PhylibTypes
  import opened Phylib
  import opened Physics
  import opened Store

  // ---------------------------------------------------------------------------------------------
  // Game.__init__

  /** The attributes a Game object gets; None stands for an attribute the constructor never sets. */
  datatype GameFields = GameFields(gameId: Option<int>, gameName: Option<string>,
                                   player1Name: Option<string>, player2Name: Option<string>)

  /** Argument combination (i): a game id and no names. */
  predicate OpensGame(gameId: Option<int>, gameName: Option<string>, player1Name: Option<string>,
                      player2Name: Option<string>) {
    gameId.Some? && gameName.None? && player1Name.None? && player2Name.None?
  }

  /** Argument combination (ii): no game id and all three names. */
  predicate CreatesGame(gameId: Option<int>, gameName: Option<string>, player1Name: Option<string>,
                        player2Name: Option<string>) {
    gameId.None? && gameName.Some? && player1Name.Some? && player2Name.Some?
  }

  /**
    * Game(gameID, gameName, player1Name, player2Name) on the store `s`. Combination (i) reads the game
    * with SQL id gameID + 1 and takes its three names; unpacking the None of an unknown game raises
    * TypeError. Combination (ii) runs setGame and keeps only the returned id. Any other combination
    * raises TypeError.
    */
  function GameInit(s: Rows, gameId: Option<int>, gameName: Option<string>, player1Name: Option<string>,
                    player2Name: Option<string>): (r: Result<(Rows, GameFields), Error>)
    ensures r.Ok? ==> (r.value.1.gameId.Some? <==> CreatesGame(gameId, gameName, player1Name, player2Name))
    ensures r.Ok? && OpensGame(gameId, gameName, player1Name, player2Name) ==> r.value.0 == s
  {
    if OpensGame(gameId, gameName, player1Name, player2Name) then OpenGame(s, gameId.value)
    else if CreatesGame(gameId, gameName, player1Name, player2Name) then
      Ok(NewGame(s, gameName.value, player1Name.value, player2Name.value))
    else Err(TypeError)
  }

  /**
    * Combination (i) once getGame has answered: its error propagates, unpacking a None raises
    * TypeError, and otherwise the object gets the three names and no gameID attribute.
    */
  function Opened(s: Rows, looked: Result<Option<GameNames>, Error>): (r: Result<(Rows, GameFields), Error>)
    ensures r.Err? <==> looked.Err? || looked.value.None?
    ensures looked.Err? ==> r == Err(looked.error)
    ensures looked.Ok? && looked.value.None? ==> r == Err(TypeError)
    ensures r.Ok? ==> r.value.0 == s && r.value.1.gameId.None?
  {
    match looked
    case Err(e) => Err(e)
    case Ok(None) => Err(TypeError)
    case Ok(Some(names)) =>
      Ok((s, GameFields(None, Some(names.gameName), Some(names.player1Name), Some(names.player2Name))))
  }

  /**
    * Combination (i) with the corrected getGame: it fails, with TypeError, exactly when no game has
    * SQL id gameID + 1, reads nothing into the store and leaves the gameID attribute unset.
    */
  function OpenGame(s: Rows, gameId: int): (r: Result<(Rows, GameFields), Error>)
    ensures r.Err? <==> GetGameRows(s, gameId + 1).None?
    ensures r.Err? ==> r.error == TypeError
    ensures r.Ok? ==> r.value.0 == s && r.value.1.gameId.None?
  {
    Opened(s, GetGameFixed(s, gameId + 1))
  }

  /** Combination (i) as written: getGame's bare `(gameID)` parameter makes every call raise. */
  function OpenGameAsWritten(s: Rows, gameId: int): (r: Result<(Rows, GameFields), Error>)
    ensures r == Err(UnsupportedParameters)
  {
    Opened(s, GetGameAsWritten(s, gameId + 1))
  }

  /**
    * Combination (ii): setGame, of which the object keeps only the returned id (on a well-formed store
    * one past the number of games stored before); a game row and its two players' rows are appended.
    */
  function NewGame(s: Rows, gameName: string, player1Name: string, player2Name: string): (r: (Rows, GameFields))
    ensures r.1.gameId.Some? && r.1.gameName.None? && r.1.player1Name.None? && r.1.player2Name.None?
    ensures WellFormed(s) ==> r.1.gameId == Some(|s.games| + 1)
    ensures |r.0.games| == |s.games| + 1 && |r.0.players| == |s.players| + 2
  {
    var (s', id) := SetGameRows(s, gameName, player1Name, player2Name);
    (s', GameFields(Some(id), None, None, None))
  }

  /** Game(...) as written: combination (i) goes through the getGame that raises; the rest is GameInit. */
  function GameInitAsWritten(s: Rows, gameId: Option<int>, gameName: Option<string>, player1Name: Option<string>,
                             player2Name: Option<string>): Result<(Rows, GameFields), Error>
  {
    if OpensGame(gameId, gameName, player1Name, player2Name) then OpenGameAsWritten(s, gameId.value)
    else GameInit(s, gameId, gameName, player1Name, player2Name)
  }

  /**
    * As written, every call with combination (i) raises the parameter error, whatever the store holds,
    * while every other combination behaves as with the corrected getGame.
    */
  lemma GameInitAsWrittenRaises(s: Rows, gameId: Option<int>, gameName: Option<string>,
                                player1Name: Option<string>, player2Name: Option<string>)
    ensures OpensGame(gameId, gameName, player1Name, player2Name) ==>
      GameInitAsWritten(s, gameId, gameName, player1Name, player2Name) == Err(UnsupportedParameters)
    ensures !OpensGame(gameId, gameName, player1Name, player2Name) ==>
      GameInitAsWritten(s, gameId, gameName, player1Name, player2Name) ==
        GameInit(s, gameId, gameName, player1Name, player2Name)
  {
  }

  /**
    * The constructor's argument check: every error is a TypeError; it is raised for each combination
    * other than (i) and (ii), and for (i) exactly when no game has the id; (ii) always succeeds.
    */
  lemma GameInitChecksArguments(s: Rows, gameId: Option<int>, gameName: Option<string>,
                                player1Name: Option<string>, player2Name: Option<string>)
    ensures var r := GameInit(s, gameId, gameName, player1Name, player2Name);
      (r.Err? ==> r.error == TypeError) &&
      ((!OpensGame(gameId, gameName, player1Name, player2Name) &&
        !CreatesGame(gameId, gameName, player1Name, player2Name)) ==> r.Err?) &&
      (OpensGame(gameId, gameName, player1Name, player2Name) ==>
        (r.Err? <==> GetGameRows(s, gameId.value + 1).None?)) &&
      (CreatesGame(gameId, gameName, player1Name, player2Name) ==> r.Ok? && r.value.1.gameName.None?)
  {
  }

  /**
    * A game created with three names can be opened again with its id minus one: combination (ii)
    * keeps the one-based GAMEID that setGame returns, while combination (i) adds one to its argument.
    */
  lemma CreateThenOpen(s: Rows, gameName: string, player1Name: string, player2Name: string)
    requires WellFormed(s)
    ensures var r := GameInit(s, None, Some(gameName), Some(player1Name), Some(player2Name));
      r.Ok? && r.value.1.gameId.Some? &&
      GameInit(r.value.0, Some(r.value.1.gameId.value - 1), None, None, None) ==
        Ok((r.value.0, GameFields(None, Some(gameName), Some(player1Name), Some(player2Name))))
  {
    SetThenGetGame(s, gameName, player1Name, player2Name);
  }

  /**
    * As written, reopening a game just created raises, although the corrected constructor gives back
    * the three names there.
    */
  lemma CreateThenOpenAsWritten(s: Rows, gameName: string, player1Name: string, player2Name: string)
    requires WellFormed(s)
    ensures var r := GameInit(s, None, Some(gameName), Some(player1Name), Some(player2Name));
      r.Ok? && r.value.1.gameId.Some? &&
      GameInitAsWritten(r.value.0, Some(r.value.1.gameId.value - 1), None, None, None) ==
        Err(UnsupportedParameters) &&
      GameInit(r.value.0, Some(r.value.1.gameId.value - 1), None, None, None).Ok?
  {
    CreateThenOpen(s, gameName, player1Name, player2Name);
  }

  // ---------------------------------------------------------------------------------------------
  // The cue ball

  /** An object shoot's first loop retypes: a still ball numbered 0. */
  predicate IsCue(slot: Option<Object>) {
    slot.Some? && slot.value.StillBall? && slot.value.number == 0
  }

  /** The slots after shoot's loop over slots `from` .. `upto - 1`: each still ball numbered 0 there
      becomes a rolling ball with number 0, the same position, the shot's velocity and its drag. */
  function StrikeCue(s: Slots, from: int, upto: int, xvel: real, yvel: real, norm: Coord -> real): (r: Slots)
    ensures forall j :: 0 <= j < MAX_OBJECTS && !(from <= j < upto && IsCue(s[j])) ==> r[j] == s[j]
    ensures forall j :: 0 <= j < MAX_OBJECTS && from <= j < upto && IsCue(s[j]) ==>
      r[j].Some? && r[j].value.RollingBall? && r[j].value.number == 0 && r[j].value.pos == s[j].value.pos &&
      r[j].value.vel == Coord(xvel, yvel) && r[j].value.acc == DragAcc(Coord(xvel, yvel), norm)
  {
    seq(MAX_OBJECTS, j requires 0 <= j < MAX_OBJECTS =>
      if from <= j < upto && IsCue(s[j])
      then Some(RollingBall(0, s[j].value.pos, Coord(xvel, yvel), DragAcc(Coord(xvel, yvel), norm)))
      else s[j])
  }

  /** The table shoot simulates: the cue ball struck among the slots its loop visits. */
  function Struck(v: TableValue, from: int, xvel: real, yvel: real, norm: Coord -> real): TableValue {
    TableValue(v.time, StrikeCue(v.objects, from, MAX_OBJECTS, xvel, yvel, norm))
  }

  /** Striking twice changes nothing more: a struck cue ball is rolling, no longer a still ball. */
  lemma StrikeCueIdempotent(s: Slots, from: int, upto: int, xvel: real, yvel: real, norm: Coord -> real)
    ensures var once := StrikeCue(s, from, upto, xvel, yvel, norm);
      StrikeCue(once, from, upto, xvel, yvel, norm) == once
  {
    var once := StrikeCue(s, from, upto, xvel, yvel, norm);
    assert forall j :: 0 <= j < MAX_OBJECTS ==> StrikeCue(once, from, upto, xvel, yvel, norm)[j] == once[j] by {
      forall j | 0 <= j < MAX_OBJECTS
        ensures StrikeCue(once, from, upto, xvel, yvel, norm)[j] == once[j]
      {
        if from <= j < upto && IsCue(s[j]) {
          assert !IsCue(once[j]);
        }
      }
    }
  }

  /** With a cue still ball among the visited slots the struck table has a rolling ball, so the first
      segment exists. */
  lemma StrikeStartsMotion(v: TableValue, from: int, xvel: real, yvel: real, norm: Coord -> real,
                           kernel: TableValue -> TableValue, j: int)
    requires 0 <= from <= j < MAX_OBJECTS && IsCue(v.objects[j])
    ensures SegmentValue(Struck(v, from, xvel, yvel, norm), kernel).Some?
  {
    assert IsRolling(Struck(v, from, xvel, yvel, norm).objects[j]);
  }

  // ---------------------------------------------------------------------------------------------
  // Segments and frames

  /** The table after `n` calls of segment starting from `v`, or None once a call returned None. */
  function After(kernel: TableValue -> TableValue, v: TableValue, n: nat): (r: Option<TableValue>)
    ensures n == 0 ==> r == Some(v)
    decreases n
  {
    if n == 0 then Some(v)
    else match After(kernel, v, n - 1)
      case None => None
      case Some(w) => SegmentValue(w, kernel)
  }

  /** Once segment has returned None, the loop has ended for good. */
  lemma {:induction false} AfterNoneStays(kernel: TableValue -> TableValue, v: TableValue, j: nat, n: nat)
    requires j <= n && After(kernel, v, j).None?
    ensures After(kernel, v, n).None?
    decreases n
  {
    if j < n {
      AfterNoneStays(kernel, v, j, n - 1);
    }
  }

  /** The number of frames of a segment: math.floor((end - start) / FRAME_RATE), for which range gives
      no values when it is negative. */
  function FrameCount(start: real, end: real): (n: nat)
    ensures end - start < FRAME_RATE ==> n == 0
    ensures end - start >= 0.0 ==> n as real * FRAME_RATE <= end - start < (n + 1) as real * FRAME_RATE
  {
    var f := ((end - start) / FRAME_RATE).Floor;
    if f < 0 then 0 else f
  }

  /** Frame i of a segment: the segment's end table rolled by i * FRAME_RATE, with the time
      start + i * FRAME_RATE. */
  function Frame(start: real, e: TableValue, i: nat): (r: TableValue)
    ensures r.time == start + i as real * FRAME_RATE
  {
    var rolled := Rolled(ItemsOf(e.objects), i as real * FRAME_RATE);
    TableValue(start + i as real * FRAME_RATE, rolled.objects)
  }

  /** The frames shoot writes for one segment that started at `start` and ended with table `e`. */
  function SegmentFrames(start: real, e: TableValue): (r: seq<TableValue>)
    ensures |r| == FrameCount(start, e.time)
    ensures forall i :: 0 <= i < |r| ==> r[i] == Frame(start, e, i)
  {
    seq(FrameCount(start, e.time), i requires 0 <= i => Frame(start, e, i))
  }

  /** The frames of a segment are one FRAME_RATE apart, in ascending time, from the segment's start
      and before its end. */
  lemma SegmentFrameTimes(start: real, e: TableValue)
    ensures var r := SegmentFrames(start, e);
      (forall i :: 0 <= i < |r| ==> r[i].time == start + i as real * FRAME_RATE) &&
      (forall i, j :: 0 <= i < j < |r| ==> r[i].time < r[j].time) &&
      (forall i :: 0 <= i < |r| ==> start <= r[i].time < e.time)
  {
    var r := SegmentFrames(start, e);
    forall i | 0 <= i < |r|
      ensures r[i].time < e.time
    {
      assert (i + 1) as real * FRAME_RATE <= |r| as real * FRAME_RATE;
    }
  }

  /**
    * Every frame's balls come from the segment's END table: the first frame, rolled by 0 seconds,
    * shows each ball of that table exactly where the segment left it, not where it started.
    */
  lemma FirstFrameIsEnd(start: real, e: TableValue)
    requires FrameCount(start, e.time) > 0
    ensures var f := SegmentFrames(start, e)[0]; var bs := Balls(ItemsOf(e.objects));
      forall j :: 0 <= j < |bs| && 10 + j < MAX_OBJECTS ==>
        IsBall(f.objects[10 + j]) && f.objects[10 + j].value.number == bs[j].number &&
        f.objects[10 + j].value.pos == bs[j].pos
  {
    var bs := Balls(ItemsOf(e.objects));
    RolledLayout(ItemsOf(e.objects), 0.0);
    forall j | 0 <= j < |bs| && 10 + j < MAX_OBJECTS
      ensures RollBall(bs[j], 0.0).pos == bs[j].pos
    {
    }
  }

  /** The frames of segment k + 1: those of the segment from table After(k), if there is one. */
  function NthSegmentFrames(kernel: TableValue -> TableValue, v: TableValue, k: nat): (r: seq<TableValue>)
    ensures After(kernel, v, k + 1).None? ==> r == []
  {
    match After(kernel, v, k)
    case None => []
    case Some(w) =>
      match SegmentValue(w, kernel)
      case None => []
      case Some(e) => SegmentFrames(w.time, e)
  }

  /** The frames of the first `n` segments of the shot that starts from `v`. */
  function ShotFrames(kernel: TableValue -> TableValue, v: TableValue, n: nat): (r: seq<TableValue>)
    ensures n == 0 ==> r == []
  {
    Concat(SegmentsOf(kernel, v), n)
  }

  /** The frames of each segment of the shot that starts from `v`, by segment. */
  function SegmentsOf(kernel: TableValue -> TableValue, v: TableValue): nat -> seq<TableValue> {
    (k: nat) => NthSegmentFrames(kernel, v, k)
  }

  /** f(0) + f(1) + ... + f(n - 1). */
  function Concat<T>(f: nat -> seq<T>, n: nat): seq<T>
    decreases n
  {
    if n == 0 then [] else Concat(f, n - 1) + f(n - 1)
  }

  /** Fewer pieces concatenated are a prefix of more. */
  lemma {:induction false} ConcatPrefix<T>(f: nat -> seq<T>, k: nat, n: nat)
    requires k <= n
    ensures Concat(f, k) <= Concat(f, n)
    decreases n
  {
    if k < n {
      ConcatPrefix(f, k, n - 1);
      PrefixExtends(Concat(f, k), Concat(f, n - 1), f(n - 1));
    }
  }

  /** A prefix of a sequence is a prefix of that sequence extended. */
  lemma PrefixExtends<T>(a: seq<T>, b: seq<T>, c: seq<T>)
    requires a <= b
    ensures a <= b + c
  {
    assert (b + c)[..|a|] == b[..|a|];
  }

  /** Empty pieces from the k-th on add nothing. */
  lemma {:induction false} ConcatStable<T>(f: nat -> seq<T>, k: nat, n: nat)
    requires k <= n && forall m: nat :: k <= m < n ==> f(m) == []
    ensures Concat(f, n) == Concat(f, k)
    decreases n
  {
    if k < n {
      ConcatStable(f, k, n - 1);
      assert Concat(f, n - 1) + f(n - 1) == Concat(f, n - 1);
    }
  }

  /** The frames of fewer segments are a prefix of the frames of more. */
  lemma FramesPrefix(kernel: TableValue -> TableValue, v: TableValue, k: nat, n: nat)
    requires k <= n
    ensures ShotFrames(kernel, v, k) <= ShotFrames(kernel, v, n)
  {
    ConcatPrefix(SegmentsOf(kernel, v), k, n);
  }

  /** After segment has returned None no segment adds frames. */
  lemma FramesStable(kernel: TableValue -> TableValue, v: TableValue, k: nat, n: nat)
    requires k < n && After(kernel, v, k + 1).None?
    ensures ShotFrames(kernel, v, n) == ShotFrames(kernel, v, k)
  {
    NoSegmentsFrom(kernel, v, k, n);
    ConcatStable(SegmentsOf(kernel, v), k, n);
  }

  /** Segments k + 1 .. n after segment has returned None have no frames. */
  lemma NoSegmentsFrom(kernel: TableValue -> TableValue, v: TableValue, k: nat, n: nat)
    requires After(kernel, v, k + 1).None?
    ensures forall m: nat :: k <= m < n ==> SegmentsOf(kernel, v)(m) == []
  {
    forall m: nat | k <= m < n
      ensures NthSegmentFrames(kernel, v, m) == []
    {
      AfterNoneStays(kernel, v, k + 1, m + 1);
    }
  }

  /** A table without a rolling ball gives no segment and so no frame at all. */
  lemma {:induction false} NoRollingNoFrames(kernel: TableValue -> TableValue, v: TableValue, n: nat)
    requires forall j :: 0 <= j < MAX_OBJECTS ==> !IsRolling(v.objects[j])
    ensures ShotFrames(kernel, v, n) == []
    decreases n
  {
    if n > 0 {
      NoRollingNoFrames(kernel, v, n - 1);
      if n > 1 {
        AfterNoneStays(kernel, v, 1, n - 1);
      }
    }
  }

  // ---------------------------------------------------------------------------------------------
  // Writing the frames

  /** One frame: writeTable, then the lookup by time and the TableShot insert. */
  function FrameStep(s: Rows, f: TableValue, shotId: Option<nat>): (r: (Rows, Outcome))
    ensures WellFormed(s) ==> WellFormed(r.0)
  {
    LinkFrameRows(WriteTableRows(s, ItemsOf(f.objects), f.time).0, f.time, shotId)
  }

  /** What writes one frame: a store and a frame to the new store and the outcome. */
  type Step = (Rows, TableValue) -> (Rows, Outcome)

  /** The step of shoot's inner loop for the shot `shotId`. */
  function Writer(shotId: Option<nat>): Step {
    (s: Rows, f: TableValue) => FrameStep(s, f, shotId)
  }

  /** Frames written one after the other by `step`, up to and including the first that does not complete. */
  function Run(step: Step, s: Rows, frames: seq<TableValue>): (Rows, Outcome)
    decreases |frames|
  {
    if frames == [] then (s, Completed)
    else
      var before := Run(step, s, frames[..|frames| - 1]);
      if before.1 != Completed then before
      else step(before.0, frames[|frames| - 1])
  }

  /** The frames of the shot `shotId` written one after the other, up to and including the first that
      does not complete. */
  function RunFrames(s: Rows, frames: seq<TableValue>, shotId: Option<nat>): (r: (Rows, Outcome))
    ensures frames == [] ==> r == (s, Completed)
  {
    Run(Writer(shotId), s, frames)
  }

  /** Writing a + b is writing a and, if that completed, then b; a failure in a ends the run. */
  lemma {:induction false} RunAppend(step: Step, s: Rows, a: seq<TableValue>, b: seq<TableValue>)
    ensures Run(step, s, a + b) ==
      if Run(step, s, a).1 == Completed then Run(step, Run(step, s, a).0, b)
      else Run(step, s, a)
    decreases |b|
  {
    if b == [] {
      assert a + b == a;
    } else {
      assert (a + b)[..|a + b| - 1] == a + b[..|b| - 1];
      RunAppend(step, s, a, b[..|b| - 1]);
    }
  }

  /** Writing frames keeps the store well formed. */
  lemma {:induction false} RunKeepsWellFormed(s: Rows, frames: seq<TableValue>, shotId: Option<nat>)
    requires WellFormed(s)
    ensures WellFormed(RunFrames(s, frames, shotId).0)
    decreases |frames|
  {
    if frames != [] {
      RunKeepsWellFormed(s, frames[..|frames| - 1], shotId);
    }
  }

  /** The frame just written always has a TTable row with its time, so shoot's `return None` is never
      reached: a run either completes or raises. */
  lemma {:induction false} RunFramesNeverAbandons(s: Rows, frames: seq<TableValue>, shotId: Option<nat>)
    requires WellFormed(s)
    ensures RunFrames(s, frames, shotId).1 != Abandoned
    decreases |frames|
  {
    if frames != [] {
      var before := RunFrames(s, frames[..|frames| - 1], shotId);
      RunFramesNeverAbandons(s, frames[..|frames| - 1], shotId);
      RunKeepsWellFormed(s, frames[..|frames| - 1], shotId);
      if before.1 == Completed {
        var f := frames[|frames| - 1];
        LinkAfterWrite(before.0, ItemsOf(f.objects), f.time, shotId);
      }
    }
  }

  /** Without a shot id (unknown player or game) the first frame is written and its TableShot insert
      raises IntegrityError on the NOT NULL SHOTID column. */
  lemma ShotIdNoneRaises(s: Rows, frames: seq<TableValue>)
    requires WellFormed(s) && |frames| > 0
    ensures RunFrames(s, frames, None) ==
      (WriteTableRows(s, ItemsOf(frames[0].objects), frames[0].time).0, Raised(IntegrityError))
  {
    var f := frames[0];
    assert frames == [f] + frames[1..];
    RunAppend(Writer(None), s, [f], frames[1..]);
    assert [f][..0] == [];
    LinkAfterWrite(s, ItemsOf(f.objects), f.time, None);
  }

  // ---------------------------------------------------------------------------------------------
  // The Game object

  /** Physics.Game. */
  class Game {
    var gameId: Option<int>
    var gameName: Option<string>
    var player1Name: Option<string>
    var player2Name: Option<string>
    var table: Table?

    function Fields(): GameFields
      reads this
    {
      GameFields(gameId, gameName, player1Name, player2Name)
    }

    /** The object Game.__init__ leaves, attributes already decided. */
    constructor (fields: GameFields)
      ensures Fields() == fields && table == null
    {
      gameId, gameName := fields.gameId, fields.gameName;
      player1Name, player2Name := fields.player1Name, fields.player2Name;
      table := null;
    }

    /** Game.__init__: a new Game, or the TypeError it raises. */
    static method Create(db: Database, gameId: Option<int>, gameName: Option<string>,
                         player1Name: Option<string>, player2Name: Option<string>) returns (r: Result<Game, Error>)
      requires db.Valid()
      modifies db
      ensures db.Valid()
      ensures r.Err? ==> (db.State() == old(db.State()) &&
        GameInit(old(db.State()), gameId, gameName, player1Name, player2Name) == Err(r.error))
      ensures r.Ok? ==> (fresh(r.value) && r.value.table == null &&
        GameInit(old(db.State()), gameId, gameName, player1Name, player2Name) == Ok((db.State(), r.value.Fields())))
    {
      if gameId.Some? && (gameName.None? && player1Name.None? && player2Name.None?) {
        r := Open(db, gameId.value);
      } else if gameId.None? && (gameName.Some? && player1Name.Some? && player2Name.Some?) {
        var game := New(db, gameName.value, player1Name.value, player2Name.value);
        r := Ok(game);
      } else {
        r := Err(TypeError);
      }
    }

    /** Combination (i): the names of game gameId + 1, or the TypeError of unpacking None. */
    static method Open(db: Database, gameId: int) returns (r: Result<Game, Error>)
      requires db.Valid()
      ensures r.Err? ==> OpenGame(db.State(), gameId) == Err(r.error)
      ensures r.Ok? ==> (fresh(r.value) && r.value.table == null &&
                         OpenGame(db.State(), gameId) == Ok((db.State(), r.value.Fields())))
    {
      var values := db.GetGame(gameId + 1);
      if values.None? {
        // unpacking None into three attributes
        return Err(TypeError);
      }
      var game := new Game(GameFields(None, Some(values.value.gameName), Some(values.value.player1Name),
        Some(values.value.player2Name)));
      return Ok(game);
    }

    /** Combination (ii): setGame, keeping only the id it returns. */
    static method New(db: Database, gameName: string, player1Name: string, player2Name: string) returns (game: Game)
      requires db.Valid()
      modifies db
      ensures db.Valid() && fresh(game) && game.table == null
      ensures NewGame(old(db.State()), gameName, player1Name, player2Name) == (db.State(), game.Fields())
    {
      var id := db.SetGame(gameName, player1Name, player2Name);
      game := new Game(GameFields(Some(id), None, None, None));
    }

    /**
      * shoot(gameName, playerName, table, xvel, yvel): the new shot, the cue ball struck in place, and
      * the frames of every segment until segment returns None, each written and linked to the shot;
      * the run stops at a raised error. `bound` is any number of segments after which segment has
      * returned None; the source's loop does not terminate when there is none.
      */
    method Shoot(db: Database, gameName: string, playerName: string, table: Table, xvel: real, yvel: real,
                 norm: Coord -> real, kernel: TableValue -> TableValue, ghost bound: nat) returns (o: Outcome)
      requires db.Valid() && table.Valid()
      requires After(kernel, Struck(table.Value(), table.current + 1, xvel, yvel, norm), bound).None?
      modifies db, table, table.tab.objects
      ensures db.Valid() && table.Valid() && table.current == -1
      ensures table.Value() == Struck(old(table.Value()), old(table.current) + 1, xvel, yvel, norm)
      ensures var (s, shotId) := NewShotRows(old(db.State()), gameName, playerName);
        (db.State(), o) == RunFrames(s, ShotFrames(kernel, table.Value(), bound), shotId)
    {
      var shotId := db.NewShot(gameName, playerName);
      ghost var s := db.State();
      StrikeCueBall(table, xvel, yvel, norm);
      ghost var v := table.Value();
      o := PlaySegments(db, table, shotId, kernel, bound);
      assert table.Value() == v;
      RunKeepsWellFormed(s, ShotFrames(kernel, v, bound), shotId);
    }
  }

  /**
    * shoot's `while` loop from the struck table `start`: segment after segment until segment returns
    * None, the frames of each written and linked to the shot; a failure ends the loop.
    */
  method PlaySegments(db: Database, start: Table, shotId: Option<nat>, kernel: TableValue -> TableValue,
                      ghost bound: nat) returns (o: Outcome)
    requires start.Valid() && start.current == -1
    requires After(kernel, start.Value(), bound).None?
    modifies db
    ensures (db.State(), o) == RunFrames(old(db.State()), ShotFrames(kernel, start.Value(), bound), shotId)
  {
    ghost var s := db.State();
    ghost var v := start.Value();
    var current: Table := start;
    ghost var k := 0;
    assert k != bound;
    while true
      invariant Playing(db, current, s, kernel, v, k, bound, shotId)
      decreases bound - k
    {
      var segment;
      segment, o := PlaySegment(db, current, shotId, kernel, v, k, s, bound);
      if segment == null {
        FramesStable(kernel, v, k, bound);
        return;
      }
      if o != Completed {
        FramesStopEarly(s, kernel, v, k + 1, bound, shotId, db.State(), o);
        return;
      }
      current := segment;
      k := k + 1;
    }
  }

  /** The state of shoot's `while` loop before segment k + 1: the first k segments' frames have run and
      completed, and `current` is the table the k-th segment left. */
  ghost predicate Playing(db: Database, current: Table, s: Rows, kernel: TableValue -> TableValue, v: TableValue,
                          k: nat, bound: nat, shotId: Option<nat>)
    reads db, current, current.tab, current.tab.objects
  {
    current.Valid() && current.current == -1 &&
    k < bound && After(kernel, v, k) == Some(current.Value()) &&
    (db.State(), Completed) == RunFrames(s, ShotFrames(kernel, v, k), shotId)
  }

  /**
    * One pass of shoot's `while` loop from table After(k): segment, and unless it returned None the
    * segment's frames written after those of the k segments before it.
    */
  method PlaySegment(db: Database, current: Table, shotId: Option<nat>, kernel: TableValue -> TableValue,
                     ghost v: TableValue, ghost k: nat, ghost s: Rows, ghost bound: nat)
    returns (segment: Table?, o: Outcome)
    requires Playing(db, current, s, kernel, v, k, bound, shotId) && After(kernel, v, bound).None?
    modifies db
    ensures segment == null ==>
      o == Completed && db.State() == old(db.State()) && After(kernel, v, k + 1).None?
    ensures segment != null ==> (fresh(segment) && segment.Valid() && segment.current == -1 &&
      k + 1 < bound && After(kernel, v, k + 1) == Some(segment.Value()) &&
      (db.State(), o) == RunFrames(s, ShotFrames(kernel, v, k + 1), shotId))
  {
    var segmentStart := current.tab.time;
    segment := current.Segment(kernel);
    if segment == null {
      return segment, Completed;
    }
    o := PlayNext(db, segment, segmentStart, shotId, kernel, v, k, s, bound, current.Value());
  }

  /** The frames of segment k + 1, from table `w` to `segment`, written after those of the k before it. */
  method PlayNext(db: Database, segment: Table, segmentStart: real, shotId: Option<nat>,
                  kernel: TableValue -> TableValue, ghost v: TableValue, ghost k: nat, ghost s: Rows,
                  ghost bound: nat, ghost w: TableValue)
    returns (o: Outcome)
    requires segment.Valid() && segment.current == -1 && w.time == segmentStart
    requires k < bound && After(kernel, v, k) == Some(w) && SegmentValue(w, kernel) == Some(segment.Value())
    requires After(kernel, v, bound).None?
    requires (db.State(), Completed) == RunFrames(s, ShotFrames(kernel, v, k), shotId)
    modifies db, segment`current
    ensures segment.Valid() && segment.current == -1
    ensures k + 1 < bound && After(kernel, v, k + 1) == Some(segment.Value())
    ensures (db.State(), o) == RunFrames(s, ShotFrames(kernel, v, k + 1), shotId)
  {
    NextSegment(kernel, v, k, bound, w, segment.Value());
    o := PlayFrames(db, segment, segmentStart, shotId, s, ShotFrames(kernel, v, k), ShotFrames(kernel, v, k + 1));
  }

  /** Writing the shot's frames that stopped within the first n segments ends there. */
  lemma FramesStopEarly(s: Rows, kernel: TableValue -> TableValue, v: TableValue, n: nat, bound: nat,
                        shotId: Option<nat>, after: Rows, o: Outcome)
    requires n <= bound && o != Completed && (after, o) == RunFrames(s, ShotFrames(kernel, v, n), shotId)
    ensures (after, o) == RunFrames(s, ShotFrames(kernel, v, bound), shotId)
  {
    RunStopsEarly(Writer(shotId), s, kernel, v, n, bound);
  }

  /**
    * The frames of one segment, which started at `segmentStart`, written after the frames `done`:
    * the run reaches `done` followed by those frames.
    */
  method PlayFrames(db: Database, segment: Table, segmentStart: real, shotId: Option<nat>, ghost s: Rows,
                    ghost done: seq<TableValue>, ghost next: seq<TableValue>)
    returns (o: Outcome)
    requires segment.Valid() && segment.current == -1
    requires next == done + SegmentFrames(segmentStart, segment.Value())
    requires (db.State(), Completed) == RunFrames(s, done, shotId)
    modifies db, segment`current
    ensures segment.Valid() && segment.current == -1
    ensures (db.State(), o) == RunFrames(s, next, shotId)
  {
    o := WriteSegment(db, segment, segmentStart, shotId);
    RunAppend(Writer(shotId), s, done, SegmentFrames(segmentStart, segment.Value()));
  }

  /** A table exists After n segments but none After `bound`: n comes before the bound. */
  lemma BeforeBound(kernel: TableValue -> TableValue, v: TableValue, n: nat, bound: nat)
    requires n <= bound && After(kernel, v, n).Some? && After(kernel, v, bound).None?
    ensures n < bound
  {
  }

  /** Segment k + 1, from table `w` to table `e`, comes before the bound and extends the shot's frames. */
  lemma NextSegment(kernel: TableValue -> TableValue, v: TableValue, k: nat, bound: nat, w: TableValue, e: TableValue)
    requires k < bound && After(kernel, v, k) == Some(w) && SegmentValue(w, kernel) == Some(e)
    requires After(kernel, v, bound).None?
    ensures k + 1 < bound && After(kernel, v, k + 1) == Some(e)
    ensures ShotFrames(kernel, v, k + 1) == ShotFrames(kernel, v, k) + SegmentFrames(w.time, e)
  {
    AfterStep(kernel, v, k, w, e);
    BeforeBound(kernel, v, k + 1, bound);
    ShotFramesStep(kernel, v, k, w, e);
  }

  /** The table after segment k + 1 is the one segment returned from the table after k. */
  lemma AfterStep(kernel: TableValue -> TableValue, v: TableValue, k: nat, w: TableValue, e: TableValue)
    requires After(kernel, v, k) == Some(w) && SegmentValue(w, kernel) == Some(e)
    ensures After(kernel, v, k + 1) == Some(e)
  {
  }

  /** One more segment: its frames follow those of the earlier ones. */
  lemma ShotFramesStep(kernel: TableValue -> TableValue, v: TableValue, k: nat, w: TableValue, e: TableValue)
    requires After(kernel, v, k) == Some(w) && SegmentValue(w, kernel) == Some(e)
    ensures ShotFrames(kernel, v, k + 1) == ShotFrames(kernel, v, k) + SegmentFrames(w.time, e)
  {
  }

  /** A run of the shot's frames that stopped within the first n segments ends there, whatever the
      later segments add. */
  lemma RunStopsEarly(step: Step, s: Rows, kernel: TableValue -> TableValue, v: TableValue, n: nat, bound: nat)
    requires n <= bound && Run(step, s, ShotFrames(kernel, v, n)).1 != Completed
    ensures Run(step, s, ShotFrames(kernel, v, bound)) == Run(step, s, ShotFrames(kernel, v, n))
  {
    var done := ShotFrames(kernel, v, n);
    var all := ShotFrames(kernel, v, bound);
    FramesPrefix(kernel, v, n, bound);
    assert all == done + all[|done|..];
    RunAppend(step, s, done, all[|done|..]);
  }

  /** shoot's `for ball in table` loop: each still ball numbered 0 among the slots visited is retyped
      in place to a rolling ball at the same position with the shot's velocity and drag. */
  method StrikeCueBall(table: Table, xvel: real, yvel: real, norm: Coord -> real)
    requires table.Valid()
    modifies table, table.tab.objects
    ensures table.Valid() && table.current == -1 && table.tab.time == old(table.tab.time)
    ensures table.Value() == Struck(old(table.Value()), old(table.current) + 1, xvel, yvel, norm)
  {
    ghost var start := table.tab.objects[..];
    ghost var from := table.current + 1;
    var step := table.Next();
    while step.Yield?
      invariant table.Valid() && table.tab.time == old(table.tab.time)
      invariant step.Yield? ==> (from <= table.current < MAX_OBJECTS && step.item == table.GetItem(table.current) &&
        table.tab.objects[..] == StrikeCue(start, from, table.current, xvel, yvel, norm))
      invariant step.StopIteration? ==>
        table.current == -1 && table.tab.objects[..] == StrikeCue(start, from, MAX_OBJECTS, xvel, yvel, norm)
      decreases if step.Yield? then MAX_OBJECTS - table.current else 0
    {
      var ball := step.item;
      if ball.Some? && ball.value.cls == StillBallClass && ball.value.obj.number == 0 {
        var xpos := ball.value.obj.pos.x;
        var ypos := ball.value.obj.pos.y;
        var vel := Coord(xvel, yvel);
        var speedA := norm(vel);
        var acc := Coord(0.0, 0.0);
        if speedA > VEL_EPSILON {
          acc := Coord((-vel.x / speedA) * DRAG, (-vel.y / speedA) * DRAG);
        }
        table.tab.objects[table.current] := Some(RollingBall(0, Coord(xpos, ypos), vel, acc));
      }
      step := table.Next();
    }
  }

  /** The inner loop of shoot for one segment: its frames rolled from the segment's end table, each
      written and linked; the first failure ends the loop. */
  method WriteSegment(db: Database, segment: Table, segmentStart: real, shotId: Option<nat>) returns (o: Outcome)
    requires segment.Valid() && segment.current == -1
    modifies db, segment`current
    ensures segment.Valid() && segment.current == -1
    ensures (db.State(), o) == RunFrames(old(db.State()), SegmentFrames(segmentStart, segment.Value()), shotId)
  {
    ghost var s := db.State();
    ghost var frames := SegmentFrames(segmentStart, segment.Value());
    var segmentEnd := segment.tab.time;
    var segmentLength := ((segmentEnd - segmentStart) / FRAME_RATE).Floor;
    assert |frames| == if segmentLength < 0 then 0 else segmentLength;
    o := Completed;
    var i := 0;
    while i < segmentLength
      invariant segment.Valid() && segment.current == -1
      invariant frames == SegmentFrames(segmentStart, segment.Value())
      invariant 0 <= i <= |frames|
      invariant (db.State(), o) == RunFrames(s, frames[..i], shotId) && o == Completed
    {
      o := SegmentStep(db, segment, segmentStart, i, shotId, s, frames);
      if o != Completed {
        return;
      }
      i := i + 1;
    }
    assert frames[..i] == frames;
  }

  /** One pass of the inner loop: one more of the segment's frames has run, and a failure is where the
      whole run of the segment's frames ends. */
  method SegmentStep(db: Database, segment: Table, segmentStart: real, i: nat, shotId: Option<nat>,
                     ghost s: Rows, ghost frames: seq<TableValue>) returns (o: Outcome)
    requires segment.Valid() && segment.current == -1
    requires frames == SegmentFrames(segmentStart, segment.Value()) && i < |frames|
    requires (db.State(), Completed) == RunFrames(s, frames[..i], shotId)
    modifies db, segment`current
    ensures segment.Valid() && segment.current == -1
    ensures segment.Value() == old(segment.Value())
    ensures (db.State(), o) == RunFrames(s, frames[..i + 1], shotId)
    ensures o != Completed ==> (db.State(), o) == RunFrames(s, frames, shotId)
  {
    var newTableObject := RollFrame(segment, segmentStart, i);
    o := WriteFrame(db, newTableObject, shotId);
    RunSnoc(Writer(shotId), s, frames, i);
    if o != Completed {
      RunRest(Writer(shotId), s, frames, i + 1);
    }
  }

  /** The segment's end table rolled by i * FRAME_RATE, with the frame's time set: frame i of the segment. */
  method RollFrame(segment: Table, segmentStart: real, i: nat) returns (r: Table)
    requires segment.Valid() && segment.current == -1
    modifies segment`current
    ensures segment.Valid() && segment.current == -1
    ensures fresh(r) && fresh(r.tab) && fresh(r.tab.objects) && r.Valid() && r.current == -1
    ensures r.Value() == Frame(segmentStart, segment.Value(), i)
  {
    assert segment.tab.objects[0..] == segment.tab.objects[..];
    r := segment.Roll(i as real * FRAME_RATE);
    r.tab.time := segmentStart + i as real * FRAME_RATE;
    assert r.tab.objects[0..] == r.tab.objects[..];
  }

  /** writeTable followed by the link to the shot, for one frame. */
  method WriteFrame(db: Database, frame: Table, shotId: Option<nat>) returns (o: Outcome)
    requires frame.Valid() && frame.current == -1
    modifies db, frame`current
    ensures frame.Valid() && frame.current == -1
    ensures (db.State(), o) == FrameStep(old(db.State()), frame.Value(), shotId)
  {
    assert frame.tab.objects[0..] == frame.tab.objects[..];
    var _ := db.WriteTable(frame);
    o := db.LinkFrame(frame.tab.time, shotId);
  }

  /** A run whose first `n` frames did not complete ends there, whatever follows. */
  lemma RunRest(step: Step, s: Rows, frames: seq<TableValue>, n: nat)
    requires n <= |frames| && Run(step, s, frames[..n]).1 != Completed
    ensures Run(step, s, frames) == Run(step, s, frames[..n])
  {
    assert frames == frames[..n] + frames[n..];
    RunAppend(step, s, frames[..n], frames[n..]);
  }

  /** Running one more frame of a run that has completed so far is one more step. */
  lemma RunSnoc(step: Step, s: Rows, frames: seq<TableValue>, i: nat)
    requires i < |frames| && Run(step, s, frames[..i]).1 == Completed
    ensures Run(step, s, frames[..i + 1]) == step(Run(step, s, frames[..i]).0, frames[i])
  {
    assert frames[..i + 1][..i] == frames[..i];
  }
}
