# Billiards simulator: object store, table wrapper, persistence and shots

This project models two layers of a billiards simulator.

**The C layer (`phylib.h`, `phylib.c`).**
- `phylib.h` declares the constants and the tagged union of five object kinds: still ball, rolling ball, hole, horizontal cushion and vertical cushion.
- A table is a time plus 26 nullable object slots.
- `phylib.c` builds the standard table, appends an object into the first free slot, copies, frees, counts rolling balls, and stops a slow ball. It also bounces a ball off a cushion or into a hole, rolls a ball with its sign-change clamp, computes distances, and computes one segment of motion.

**The Python layer (`Physics.py`).**
- It wraps a table with an iteration cursor, a type dispatch on indexing, and `roll`.
- It stores tables, games, players and shots in seven SQL tables (TTable, Ball, BallTable, Game, Player, Shot, TableShot).
- It runs a shot: it retypes the cue ball, then writes one frame every `FRAME_RATE` seconds of every segment, each linked to the shot.

**Modules.**

| module | contents |
|---|---|
| `Wrappers` (`wrappers.dfy`) | `Option` and `Result` |
| `PhylibTypes` (`phylib_types.dfy`) | the constants, `Object` (the union with its tag) and `TableValue` (a time and exactly 26 slots) |
| `Phylib` (`phylib.dfy`) | the slot functions, the object functions, and the class `PhyTable`, whose slots are an `array` updated in place by the C functions' loops |
| `Physics` (`physics.dfy`) | the drag rule, `__getitem__`'s class dispatch, and the class `Table`, with the cursor `current` and the methods `Next`, `Iterate`, `Add`, `Segment`, `Roll` and `CushionSvg` |
| `Store` (`store.dfy`) | the database as one sequence of rows per SQL table. Every query is a first-match function over the rows, and each of `writeTable`, `readTable`, `setGame`, `getGame` and `newShot` is a pure function with the same name plus `Rows`. They are connected to the class `Database`, whose methods append to its fields. |
| `Games` (`games.dfy`) | `Game.__init__`'s argument check, and `shoot` as methods over the `Table` and `Database` objects. The methods are proved against a pure account of the frames of a shot: `ShotFrames` returns the frames, and `RunFrames` writes them one after the other, stopping at the first failure. |

**Parameters.** These parts of the system are not computed by the model; they are passed in:
- `norm: Coord -> real` is `phylib_length`, a square root. Lemmas that need it to be a true length assume `IsLength(norm)`.
- `kernel: TableValue -> TableValue` is the time-stepping search that `phylib_segment` runs on its copy.
- `collide: (Object, Object) -> (Object, Object)` is the elastic collision of two balls in `phylib_bounce`.

**Model or code conventions.**
- **Ids:** a row's AUTOINCREMENT id is one more than the number of rows before it, because no row is ever deleted.
- **`get_object`:** Python's `get_object` is taken to return the object in the slot itself, not a copy, so shoot's retyping of the cue ball changes the table.
- **Where the code differs from its evidently intended behaviour, the model follows the code:**
  - `newShot` returns `MAX(PLAYERID)` of the Shot table, not the new shot's id that the comment at Physics.py:658 asks for.
  - `getGame` as written raises on every call, and with it every `Game(gameID)`. Both are modelled as written (`Store.GetGameAsWritten`, `Games.GameInitAsWritten`). The rest of the model uses the corrected query; see Findings.
  - `shoot` rolls every frame from the segment's end table, not from its start table.
  - Balls rolled by `Table.roll` carry acceleration (0, 0), not the drag of their velocity, because `phylib_roll` clears an acceleration and never copies one.
  - readTable reconstructs the written table (the promise of Physics.py:556-560) only for the at most 16 balls that fit next to the 10 fixtures; `phylib_add_object` silently drops the rest.

## Model

| member | source | states |
|---|---|---|
| PhylibTypes.Tag | phylib.h:17-24 | the five kinds have the distinct tags 0..4, and each tag value is exactly one kind of object |
| Phylib.FirstFree | phylib.c:255-267 | the index add_object writes is a NULL slot with every lower slot occupied; there is none exactly when every slot is occupied |
| Phylib.AddTo | phylib.c:255-267 | add_object keeps the number of slots |
| Phylib.AddToSlots | phylib.c:255-267 | add_object never overwrites: occupied slots are kept, the lowest NULL slot gets the object, the other NULL slots stay NULL, and a full table is unchanged |
| Phylib.AddAllPacked | phylib.c:255-267 | adding objects one by one to a table whose first f slots are full puts the i-th object in slot f + i, keeps the first f slots, and drops what does not fit |
| Phylib.RollingCount | phylib.c:544-559 | the count of rolling balls is at most the number of slots, and it is 0 exactly when no slot holds a rolling ball |
| Phylib.RollingCountUpdate | phylib.c:544-559 | replacing one slot changes the count by exactly what that slot held and now holds |
| Phylib.Standard | phylib.c:133-179 | the new table's time is 0.0; its slots are described by StandardLayout |
| Phylib.Fixture | phylib.c:145-170 | slots 0 and 1 hold horizontal cushions, each at y = 0 or y = TABLE_LENGTH; slots 2 and 3 hold vertical cushions, each at x = 0 or x = TABLE_WIDTH; every other slot holds a hole at a corner or at the middle of a long side |
| Phylib.FixturesDistinct | phylib.c:145-170 | the ten fixtures are pairwise different and slots 0 and 2 are the cushions at 0; with Fixture's contract, slot 1 is the cushion at y = TABLE_LENGTH, slot 3 the one at x = TABLE_WIDTH, and the six holes take the six corner and mid-side positions, one each |
| Phylib.StandardHoldsSixteenBalls | phylib.c:143-176 | sixteen balls added to a new table land in slots 10..25 in order, after which no slot is NULL and any further add_object is dropped |
| Phylib.StandardLayout | phylib.c:143-176 | the new table's first ten slots are full and hold no ball, the other slots are NULL, no ball rolls, and the first free slot is 10 |
| Phylib.Stopped | phylib.c:420-442 | NULL gives 0; the result is 1 exactly when the speed is below VEL_EPSILON, and then the object becomes a still ball with the same number and position; otherwise the object is unchanged and the result is 0 |
| Phylib.StoppedBySquaredSpeed | phylib.c:430 | with a true length, a ball stops exactly when its squared speed is below VEL_EPSILON squared |
| Phylib.StoppingReducesRolling | phylib.c:435-438 | stopping a ball takes exactly one ball out of the rolling count |
| Phylib.Bounce | phylib.c:450-539 | HCUSHION negates only vel.y and acc.y; VCUSHION negates only vel.x and acc.x; number and position are kept; HOLE gives NULL; a still ball is upgraded and then collided; a rolling ball is collided |
| Phylib.Upgraded | phylib.c:482-489 | the upgraded still ball is a rolling ball with the same number and position and zero velocity and acceleration |
| Phylib.CushionBounceTwice | phylib.c:460-470 | bouncing off the same cushion twice restores the ball exactly |
| Phylib.HoleRemovesBall | phylib.c:474-477 | a ball that falls into a hole leaves the rolling count, one less |
| Phylib.Roll | phylib.c:381-414 | nothing changes unless both objects are rolling balls; otherwise position and velocity follow constant acceleration, a component whose sign changed is zeroed together with its acceleration, and no velocity component ever reverses direction |
| Phylib.Distance | phylib.c:322-375 | -1 when obj1 is not a rolling ball; otherwise centre distance minus a diameter for balls, minus HOLE_RADIUS for holes, and `fabs` of the coordinate difference minus a radius for cushions |
| Phylib.DistanceBetweenBalls | phylib.c:338-347 | with a true length, the distance between two rolling balls is symmetric and never below -BALL_DIAMETER |
| Phylib.SegmentValue | phylib.c:564-572 | NULL exactly when no slot holds a rolling ball, otherwise the kernel's result on the copy |
| Phylib.PhyTable.constructor | phylib.c:133-179 | a fresh table at time 0 whose slots are the standard layout |
| Phylib.PhyTable.PlaceFixtures | phylib.c:145-170 | slots 0..9 hold the two horizontal cushions, the two vertical cushions and the six holes at the corners and mid-sides |
| Phylib.PhyTable.Allocate | phylib.c:233-240 | a fresh table with the given time |
| Phylib.PhyTable.CopyTable | phylib.c:198-248 | NULL exactly for NULL; otherwise a fresh table and slot array with the same time, NULL exactly where the source is NULL, and equal objects elsewhere |
| Phylib.PhyTable.AddObject | phylib.c:255-267 | the object goes into the lowest NULL slot and no other slot changes; with no NULL slot the table is unchanged |
| Phylib.PhyTable.Free | phylib.c:273-282 | every slot is NULL afterwards |
| Phylib.PhyTable.Rolling | phylib.c:544-559 | 0 for NULL, otherwise the number of slots holding a rolling ball, hence at most 26 |
| Phylib.PhyTable.StoppedAt | phylib.c:420-442 | slot i and the result are Stopped of the old slot, and every other slot is unchanged |
| Phylib.PhyTable.BounceAt | phylib.c:613-617 | slot i becomes the bounced ball or NULL, the object slot j points to is updated through obj2, and every other slot is unchanged |
| Phylib.PhyTable.RollAt | phylib.c:585-588 | slot i is replaced by its rolled object and nothing else changes |
| Phylib.PhyTable.Advance | phylib.c:574-627 | the table's value becomes the kernel's result on its old value |
| Phylib.PhyTable.Segment | phylib.c:564-628 | NULL exactly when the table is NULL or no ball rolls; otherwise a fresh table holding SegmentValue of the input |
| Physics.DragAcc | Physics.py:762-773 | zero when the speed is at most VEL_EPSILON, otherwise -vel·DRAG/speed |
| Physics.DragOpposesMotion | Physics.py:768-770 | with a true length, the drag of a moving ball has magnitude DRAG, is parallel to the velocity and points against it |
| Physics.ClassOf | Physics.py:302-322 | the class assigned matches the tag: StillBall exactly for still balls and RollingBall exactly for rolling balls |
| Physics.Balls | Physics.py:573-582 | what the `isinstance` tests select is only still and rolling balls, and no more of them than there are slots |
| Physics.BallsOfStandardPlus | Physics.py:501-547 | after balls are added to a new Table, a loop over it finds exactly those balls, in order; the fixtures add none |
| Physics.RollBall | Physics.py:365-380 | a still ball is copied unchanged; a rolling ball stays a rolling ball with the same number |
| Physics.Rolled | Physics.py:363-384 | roll's table is at time 0.0 and keeps the fresh table's fixtures in slots 0..9 |
| Physics.RolledLayout | Physics.py:363-384 | roll's table keeps the fresh table's fixtures in slots 0..9, holds the visited balls in order in the next slots with their numbers, copies still balls exactly, and gives rolled balls acceleration zero |
| Physics.Table.constructor | Physics.py:263-271 | a fresh standard table with the cursor at -1 |
| Physics.Table.Wrap | Physics.py:343-346 | the table returned by segment becomes a Table with the cursor at -1 |
| Physics.Table.GetItem | Physics.py:302-322 | None exactly for an empty slot, otherwise the slot's object with the class its tag selects |
| Physics.Table.Next | Physics.py:290-300 | the cursor moves on and yields that slot; past the last slot it resets to -1 and stops |
| Physics.Table.Iterate | Physics.py:282-300 | a for loop yields the remaining slots in slot order, and the cursor ends at -1, so the next loop starts at slot 0 |
| Physics.Table.Add | Physics.py:273-280 | `+=` is add_object on the slots |
| Physics.Table.Segment | Physics.py:335-347 | None exactly when phylib_segment gives NULL, otherwise a fresh Table with cursor -1 holding the segment's result |
| Physics.Table.Roll | Physics.py:363-384 | a fresh table equal to Rolled of the slots visited, and this table's cursor reset to -1 |
| Physics.Table.CushionSvg | Physics.py:205-215 | a cushion at 0 is moved to -25 in place and drawn there; any other cushion keeps its coordinate, because the else branch compares instead of assigning; no other slot changes |
| Physics.SvgMoved | Physics.py:243-253 | the cushion after svg: only a coordinate of 0 changes, to -25 |
| Physics.StandardCushionsSvg | Physics.py:205-215 | on a new table the cushion coordinates drawn are -25 and 2700 (horizontal) and -25 and 1350 (vertical), whatever the missing assignment |
| Store.EmptyIsWellFormed | Physics.py:405-477 | the empty store that createDB makes satisfies the id and NULL-pairing invariant |
| Store.TableWithId | Physics.py:490-492 | fetchone: the first TTable row with the id, or None exactly when no row has it |
| Store.TableWithTime | Physics.py:815-816 | fetchone: the first TTable row with the time, or None exactly when no row has it |
| Store.BallWithId | Physics.py:506-511 | the Ball row the ON clause pairs with a link: the first with the id, or None exactly when there is none |
| Store.GameWithId | Physics.py:618-622 | a Game row with the id, or None exactly when there is none |
| Store.GameWithName | Physics.py:671-673 | the first Game row with the name, or None exactly when there is none |
| Store.PlayerWithName | Physics.py:664-666 | the first Player row with the name, or None exactly when there is none |
| Store.MaxGameId | Physics.py:640-641 | MAX(GAMEID) bounds every row's id and is some row's id |
| Store.MaxShotPlayerId | Physics.py:680-681 | MAX(PLAYERID) bounds every Shot row's player and is some row's player |
| Store.EncodeBall | Physics.py:574-580 | the Ball row keeps number and position; both velocity columns are NULL exactly for a still ball, and otherwise hold the velocity |
| Store.WriteTableRows | Physics.py:561-601 | exactly one TTable row with the time; one Ball row and one BallTable row per still or rolling ball, linked to the new id; XVEL and YVEL NULL exactly for still balls; the other tables unchanged; the result is the new TABLEID - 1 |
| Store.JoinBalls | Physics.py:506-517 | the joined rows keep the both-or-neither NULL velocity columns |
| Store.DecodeBall | Physics.py:519-547 | a NULL velocity gives a still ball; otherwise a rolling ball with the stored position and velocity and acceleration DragAcc(vel) |
| Store.ReadTableRows | Physics.py:479-554 | None exactly when no TTable row has TABLEID = id + 1; otherwise the time is that row's TIME |
| Store.DecodeEncoded | Physics.py:556-560 | decoding the rows writeTable encodes gives the same balls, with rolling balls' accelerations recomputed |
| Store.WriteReadRoundTrip | Physics.py:556-560 | readTable(writeTable(t)) is a new table with t's time, the ten fixtures and t's balls in order with their numbers, positions and velocities, and drag accelerations |
| Store.JoinAfterWrite | Physics.py:586-592 | the new id's join gives exactly the Ball rows writeTable added, in order |
| Store.RoundTripBalls | Physics.py:556-560 | the balls a loop over the table read back finds are the written balls: same count, numbers, positions, kinds and velocities |
| Store.SetGameRows | Physics.py:632-655 | one Game row; then player 1's Player row and then player 2's, so player 1's PLAYERID is smaller; the result is the new GAMEID; the other tables are unchanged |
| Store.GetGameRows | Physics.py:611-630 | an unknown game id gives None; names found include a stored game's name |
| Store.GetGameRowsIsJoin | Physics.py:618-630 | names are found exactly when the join has a row with P1.PLAYERID < P2.PLAYERID; the names are that row's; otherwise None |
| Store.SetThenGetGame | Physics.py:636-651 | after setGame, the join on the returned id gives the game name, then player 1, then player 2 |
| Store.Bind | Physics.py:622 | binding succeeds exactly for a one-element parameter sequence |
| Store.GetGameAsWritten | Physics.py:611-630 | getGame as written raises on every call |
| Store.GetGameFixed | Physics.py:611-630 | getGame with a parameter tuple returns the join's result |
| Store.GetGameAsWrittenRaises | Physics.py:622 | right after setGame, where the join has the names, getGame as written still raises |
| Store.GetGameFixedAfterSetGame | Physics.py:611-630 | the corrected getGame returns the three names that setGame stored |
| Store.NewShotRows | Physics.py:660-690 | None, with nothing inserted, exactly when the player name or the game name is unknown; otherwise one Shot row for the first matching player and game, and the result MAX(PLAYERID) of the shots |
| Store.NewShotReturnsPlayerBound | Physics.py:680-690 | the returned value is at least the id of the player who shot |
| Store.NewShotIsNotShotId | Physics.py:680 | in a new game "g" with players "a" and "b", a first shot by "b" returns 2, while the only SHOTID is 1 |
| Store.LinkFrameRows | Physics.py:813-824 | Abandoned exactly when no TTable row has the time; on success one TableShot row (the found table, the shot); a None shot id or a repeated pair raises IntegrityError and changes nothing |
| Store.LinkAfterWrite | Physics.py:812-820 | after writeTable the lookup by time always finds a row, so `return None` is unreachable; the row found is the one just written exactly when no earlier table has that time |
| Store.Database.constructor | Physics.py:391-477 | a database with every table empty |
| Store.Database.WriteTable | Physics.py:561-601 | the new rows and the result are WriteTableRows of the old rows and the visited slots, and the table's cursor ends at -1 |
| Store.Database.InsertBalls | Physics.py:573-592 | the ball loop appends exactly the Ball rows and links of the visited balls and changes no other table |
| Store.Database.ReadTable | Physics.py:479-554 | null exactly when ReadTableRows is None, otherwise a fresh Table with cursor -1 holding its value |
| Store.Database.AddRows | Physics.py:519-547 | each joined row is decoded (the second speed test included) and added to the table in order |
| Store.Database.SetGame | Physics.py:632-655 | the new rows and the id are SetGameRows of the old rows, and the invariant is kept |
| Store.Database.GetGame | Physics.py:611-630 | the corrected getGame: the join's result on the current rows |
| Store.Database.NewShot | Physics.py:660-690 | the new rows and the result are NewShotRows of the old rows, and the invariant is kept |
| Store.Database.LinkFrame | Physics.py:813-824 | the rows and the outcome are LinkFrameRows of the old rows |
| Games.GameInit | Physics.py:699-724 | with the corrected getGame: a successful call sets gameID exactly for combination (ii), and combination (i) leaves the store unchanged |
| Games.Opened | Physics.py:708-709 | getGame's error propagates, a None raises TypeError, and otherwise the names are set, gameID is not, and the store is unchanged |
| Games.OpenGame | Physics.py:703-709 | with the corrected getGame: TypeError exactly when no game has id gameID + 1; success leaves the store unchanged and gameID unset |
| Games.OpenGameAsWritten | Physics.py:703-709 | as written, combination (i) always raises the parameter error |
| Games.NewGame | Physics.py:711-716 | only gameID is set, to one past the number of stored games, and one Game row and two Player rows are added |
| Games.GameInitAsWrittenRaises | Physics.py:699-724 | as written, every call with combination (i) raises the parameter error; every other combination behaves as with the corrected getGame |
| Games.GameInitChecksArguments | Physics.py:699-724 | every error is TypeError; it is raised for any argument combination other than (i) and (ii), and for (i) exactly when no game has id gameID + 1; (ii) always succeeds and leaves gameName unset |
| Games.CreateThenOpen | Physics.py:704-716 | a game created by (ii) opens by (i) with the kept id minus one, giving back its three names |
| Games.CreateThenOpenAsWritten | Physics.py:704-716 | as written, reopening a game just created raises, where the corrected constructor returns it |
| Games.StrikeCue | Physics.py:741-776 | in the visited slots, exactly the still balls numbered 0 become rolling balls numbered 0 with the same position, velocity (xvel, yvel) and DragAcc; every other slot is unchanged |
| Games.StrikeCueIdempotent | Physics.py:741-742 | striking again changes nothing, because the struck cue ball is no longer a still ball |
| Games.StrikeStartsMotion | Physics.py:782-788 | when the visited slots hold a still cue ball, the first segment exists |
| Games.After | Physics.py:782-789 | after no segment the loop is at the struck table; once segment has returned None it stays None (AfterNoneStays) |
| Games.AfterNoneStays | Physics.py:785-788 | once segment returned None, no later segment exists |
| Games.FrameCount | Physics.py:795 | floor((end - start)/FRAME_RATE) frames, 0 for a segment shorter than FRAME_RATE, fitting between start and end |
| Games.Frame | Physics.py:803-808 | frame i carries the time start + i·FRAME_RATE |
| Games.SegmentFrames | Physics.py:802-808 | FrameCount(start, end) frames; frame i is the segment's end table rolled by i·FRAME_RATE, at time start + i·FRAME_RATE |
| Games.SegmentFrameTimes | Physics.py:803-808 | frame times are start + i·FRAME_RATE, strictly ascending, and within [start, end) |
| Games.FirstFrameIsEnd | Physics.py:785-804 | the first frame shows each ball where the segment's end table has it, not where the segment started |
| Games.NthSegmentFrames | Physics.py:785-788 | a segment after segment returned None has no frames |
| Games.ShotFrames | Physics.py:782-808 | the frames of no segment are none; its growth and stability are FramesPrefix, FramesStable and NextSegment |
| Games.FramesPrefix | Physics.py:782-824 | the frames of fewer segments are a prefix of the frames of more |
| Games.FramesStable | Physics.py:787-788 | after segment returned None, later segments add no frames |
| Games.NoRollingNoFrames | Physics.py:785-788 | a table with no rolling ball gives no frame at all |
| Games.FrameStep | Physics.py:812-824 | writing and linking one frame keeps the store well formed |
| Games.RunFrames | Physics.py:810-824 | writing no frame changes nothing and completes; RunAppend and RunFramesNeverAbandons say the rest |
| Games.RunAppend | Physics.py:803-824 | writing a + b writes a and, only if that completed, b |
| Games.RunKeepsWellFormed | Physics.py:803-824 | writing any frames keeps the store well formed |
| Games.RunFramesNeverAbandons | Physics.py:815-819 | the frame just written is always found by time, so the run never stops by `return None` |
| Games.ShotIdNoneRaises | Physics.py:822 | without a shot id, the first frame is written and its TableShot insert raises IntegrityError |
| Games.Game.constructor | Physics.py:699-724 | the object gets the decided attributes, and table None |
| Games.Game.Create | Physics.py:699-724 | an error leaves the store unchanged and is GameInit's error; success is GameInit's new store and attributes |
| Games.Game.Open | Physics.py:704-709 | combination (i): the names of game gameID + 1, or TypeError |
| Games.Game.New | Physics.py:712-716 | combination (ii): setGame's rows, and only the id kept |
| Games.Game.Shoot | Physics.py:726-824 | the shot is recorded first; the cue ball is struck in place; the store and outcome are the run of every segment's frames until segment returns None, rolled from each segment's end table, written and linked to newShot's value, and stopped at the first failure |
| Games.PlaySegments | Physics.py:782-824 | the while loop's store and outcome are the run of the frames of all segments from the struck table |
| Games.PlaySegment | Physics.py:783-789 | null exactly when segment returns None, with nothing written; otherwise the segment's frames are written after those of the segments before it |
| Games.PlayNext | Physics.py:789-824 | segment k + 1 comes before the bound, and its frames follow the earlier ones in the run |
| Games.FramesStopEarly | Physics.py:815-822 | a run that stopped at a failure within the first n segments is the run of the whole shot |
| Games.PlayFrames | Physics.py:795-824 | one segment's frames are written after the frames done so far |
| Games.NextSegment | Physics.py:785-808 | the next segment exists within the bound, and the shot's frames grow by exactly its frames |
| Games.RunStopsEarly | Physics.py:815-822 | once the run fails, the later segments' frames change nothing |
| Games.StrikeCueBall | Physics.py:741-776 | the loop over the table strikes the cue ball in place (StrikeCue over the visited slots), keeps the time, and resets the cursor |
| Games.WriteSegment | Physics.py:795-824 | the inner for loop's store and outcome are the run of the segment's frames |
| Games.SegmentStep | Physics.py:803-824 | one loop pass runs one more frame, and a failure ends the segment's run there |
| Games.RollFrame | Physics.py:804-808 | frame i: a fresh table that is the segment's end table rolled by i·FRAME_RATE, with time start + i·FRAME_RATE |
| Games.WriteFrame | Physics.py:812-824 | writeTable followed by the lookup by time and the TableShot insert, for one frame |
| Games.RunRest | Physics.py:815-822 | a run whose first n frames failed ends there |
| Games.RunSnoc | Physics.py:803-824 | running one more frame of a completed run is one more step |

## Left out

- **Floating point:** coordinates and times are reals. Rounding, and the `float()` casts, are not modelled.
- **`phylib_length` (sqrt):** it is the parameter `norm`; properties that need a true length assume `IsLength(norm)`. `phylib_dot_product` is used only inside the collision maths, so it is not modelled.
- **Elastic collision:** the ball-to-ball collision of `phylib_bounce` (phylib.c:493-533) is the parameter `collide`.
- **The time-stepping search of `phylib_segment`:** the search (phylib.c:574-627) is the parameter `kernel`. Only its NULL guard and its copying are modelled.
- **Non-termination of shoot:** `shoot`'s `while` loop ends only when segment returns None. `Games.Game.Shoot` takes a ghost `bound` after which it has. A shot that never ends is left out.
- **malloc failure and memory:** every allocation succeeds. `free` is modelled by NULL slots.
- **Text output:** `phylib_object_string`, `Table.__str__`, the ball and hole `svg` methods, `Table.svg`, `HEADER` and `FOOTER` are left out. So are the `%d` formatting in the cushion `svg` methods and the `print` at Physics.py:797.
- **SWIG glue (`phylib.i`):** it is not part of this model. `Table()` is assumed to be `phylib_new_table`, `segment` to be `phylib_segment`, and `get_object` to return the slot's object itself, so changes through it reach the table.
- **Connections:** sqlite3 connections are not modelled. Every `Database()`, `commit`, `close` and `createDB` maps to one shared in-memory store, and file deletion on `reset` is not modelled. Foreign keys are not enforced, since sqlite does not enforce them without a pragma.
- **Join row order:** `readTable` and `getGame` join without ORDER BY. The model takes the rows in the order of their tables' insertion: BallTable for readTable, and Player for getGame.
- **`cur.lastrowid`:** it is the new row's id, so the `ballID is not None` test in writeTable always holds.
- **Unused values:** the unused `Table()` instances in `shoot` (Physics.py:729, 802) and the unused player ids in `setGame` are not modelled.
- Games.GameInit: uses the corrected getGame `(gameID,)`; as written, combination (i) raises the parameter error (Games.GameInitAsWritten).
- Games.GameInitChecksArguments: states the argument check with the corrected getGame; as written, combination (i) raises the parameter error instead of succeeding or raising TypeError.
- Games.CreateThenOpen: holds with the corrected getGame only; as written the reopening raises (Games.CreateThenOpenAsWritten).
- Games.OpenGame: uses the corrected getGame; the as-written counterpart is Games.OpenGameAsWritten.
- Games.Game.Create: its combination (i) goes through Games.Game.Open and so uses the corrected getGame.
- Games.Game.Open: uses the corrected getGame, so it returns the names where the source raises; like the source, it does not set `gameID`.
- Games.Game.New: sets only `gameID`, as the source does; the names passed are not kept.
- Store.Database.GetGame: returns the corrected getGame's result; as written the call raises (Store.GetGameAsWritten).
- Phylib.PhyTable.StoppedAt: together with BounceAt and RollAt, these are the in-place updates that phylib_segment's loop makes on its copy; since that loop's search is the parameter `kernel` (Phylib.PhyTable.Advance), no other member calls them.
- **Store.Database.WriteTable:** Store.Database.WriteTable and Store.Database.LinkFrame do not require the store invariant and do not re-establish it in their own `ensures`; the invariant is recovered through `WriteTableRows` and `LinkFrameRows`.
- **Store.WriteReadRoundTrip:** holds only for tables with at most 16 balls. More balls do not fit next to the ten fixtures; readTable would drop them, and the model does not say what it reads back in that case.

## Findings

| source | as written | input that shows it | evidently intended | confidence | as-written member | corrected member |
|---|---|---|---|---|---|---|
| Physics.py:622 | `getGame` passes `(gameID)`, the bare integer, as the parameters of `execute`. sqlite3 rejects parameters that are not a sequence. | setGame("g", "a", "b") returns 1; getGame(1) then raises instead of returning ("g", "a", "b") | the one-element tuple `(gameID,)`, giving the join's row | not executed | Store.GetGameAsWritten, Store.GetGameAsWrittenRaises, Games.GameInitAsWrittenRaises, Games.CreateThenOpenAsWritten | Store.GetGameFixed, Store.GetGameFixedAfterSetGame, Games.CreateThenOpen |

As written, the error reaches `Game(gameID)` too: every call in combination (i) raises (Games.GameInitAsWrittenRaises), even for a game just created (Games.CreateThenOpenAsWritten). The rest of the model, including `Store.Database.GetGame`, `Games.GameInit` and `Games.Game.Open`, uses the corrected query.
