# Dog game server: a verified model

The repository is a game server in C++ with a small JavaScript client. Players join a map, steer dogs along
roads, pick up loot into bags, hand it in at offices for score, and retire when their dog stands still for too
long. This project models the parts of the server in which something can go wrong, and proves what they keep.

| file | models |
|---|---|
| `Wrappers.dfy`, `Sorting.dfy` | optional values, results, hash-map `emplace`; the library sorts |
| `Geometry.dfy` | points, roads, `std::round`, `std::clamp` |
| `RoadIndex.dfy` | the road index: fragments merged in place, binary search |
| `Movement.dfy` | one step of a body along the roads, and runs of steps |
| `Walk.dfy`, `Steering.dfy` | where a step ends, by the roads; where a command leads, by the tiles |
| `Pavement.dfy` | when a dog stays within half a road's width of a road |
| `Tiles.dfy` | the client's tile grid, and its agreement with the server |
| `Collision.dfy` | the collection test and the event list |
| `Dogs.dfy` | the dog object: speed, gatherer, bag, score, inactivity clock |
| `Gathering.dfy` | the event loop of a tick |
| `LootGenerator.dfy`, `MapSums.dfy` | the loot generator; sums over maps |
| `Session.dfy` | a session as a state machine, and its invariants over whole runs |
| `Ties.dfy` | when the order of two events of one dog matters |
| `DoubleBag.dfy`, `TieRun.dfy`, `TickCut.dfy` | runs: two dogs bag one object; the order of a tie decides; the cut into ticks decides |
| `Reach.dfy` | what a dog reaches in a tick: offices, loot, and what that does to bag and score |
| `GameSession.dfy` | the session object, which refines that state machine |
| `Lives.dfy` | the life of a dog over a run, up to the record of its retirement |
| `Registry.dfy` | players, tokens and sessions, and their removal |
| `ApplicationRuns.dfy` | the containers of the application as a state machine |
| `ConnectionPool.dfy` | the connection pool, as an object and as interleaved steps of threads |
| `Serialization.dfy` | the archive of a saved game |
| `SavedGames.dfy` | what saving and restoring a game keeps |
| `Renumbering.dfy` | what a restored session does with dogs and loot that are not under their own ids |
| `Games.dfy` | the whole server as a state machine: the containers and every session, runs of both, and a restart |
| `LostDog.dfy` | a run of the server after which a restart loses a player the dog |
| `Application.dfy` | the containers and the application as objects, which refine it |

Operations that change objects are classes whose methods are tied to functions of their old state; what the
program promises is proved about those functions. Runs are sequences of actions with the states between them.

## What was found

- A dog does not always stay within 0.4 of a road: at a crossing both roads widen the allowed rectangle, and a
  dog may run along one of them off its centre (`PavementCanBeLeft`). A tick ends within 0.4 of some road iff a
  condition on the dog before the tick and the roads holds (`RowMovePaved`, `ColumnMovePaved`; over whole runs
  `RunPavedIff`), and a player who turns only in the middle of the road turned into never gets further away
  (`CentredTurnsStayPaved`). What every run keeps is that the rounded position lies on a road, so the dog stays
  within half a cell of one (`RunFromSpawnIsSafe`).
- The inactivity clock is the only thing that the move of a dog makes depend on how time is cut into ticks: a tick
  that ends at a wall counts whole. `ClockDependsOnSplit` says exactly when two cuts disagree, and `SplitAtWall`
  shows a dog for which they do. What a dog picks up depends on the cut as well, because a tick gathers only along
  the half cell ahead of where it ends: `CutDecides` is a run after which one second leaves a ball on the map, and
  two half seconds put it into the bag.
- Two dogs can bag the same object in one tick, because the loop does not look whether it is still on the map.
  `BothBagIt` is a run of four steps that doubles the value in the session; `ConservedIffNoDoubles` shows that
  value is conserved exactly when this does not happen.
- Two events of one dog at the same time may be sorted either way, and the outcome may depend on it: `OrderDecides`
  is a run of four steps from the empty session with two ends. `TieIsImmaterialIff` says exactly when the order of
  two events of one dog does not matter, whatever comes before and after them: when they are two offices, or two
  objects that the dog has no room for or that look the same in the bag, or an object and an office of a dog that
  can carry nothing; or else when an office follows, the objects that only one of the two orders takes have the same
  value modulo 2^32, and other dogs take these objects anyway. Each order takes at most one object that the other does not
  (`DogTie`).
- The table from maps to sessions is not updated when a session is dropped, so it is right for every map exactly
  as long as none was (`LookupRightIffNoneDropped`). A run of two actions suffices to make it wrong (`StaleLookup`),
  and one action does not (`StaleNeedsTwo`). A restart from a saved game puts it right (`GameComesBack`).
- A join without a name on a map without a session leaves a listed session without players, and a later save
  then ends in an exception (`NamelessJoin`, `PopulatedIff`, `Application.SaveGame`). The web layer rejects
  empty names before they get that far.
- A restored dog is kept under the session's counter instead of its own id, and looked up under its own id. After
  a restore every player finds a dog under the id of its own iff the saved ids were 0, 1, 2, ... without a gap;
  some order of the save puts every dog under its own id iff they were, and every order does iff there is no dog
  but number 0 (`KeysMatchIff`). A player whose dog got another number steers the dog that got the player's, or a
  newcomer, or nobody (`WhoIsSteered`). When dog 0 has retired and dog 1 has not, a restore leaves the player of
  dog 1 with an error on every command (`LostSteering`) until somebody joins, and from then on with the newcomer's
  dog (`WrongDog`); `RestartLosesDog` is a run of the server that ends there. Before a restore that error is never
  reached (`MoveSucceeds`).
- A restored dog goes on exactly as it would have, but for the time it had lived, which a restart loses: its player's
  record will tell only the time since (`RestoredDogGoesOn`, `RecordsTellLives`).
- In a restored session the event loop finds a dog for every event iff the saved ids had no gap, and dereferences a
  missing entry otherwise; it finds the right dog for every event, and the cleanup removes the right players
  whatever retires, iff every dog is under its own id (`LoopAfterRestore`, `CleanupAfterRestore`). The invariant of
  all runs holds of a restored session iff dogs and loot are under their own ids and no dog carries anything
  (`RestoredInvIff`); then it goes on holding (`RestoredRunKeeps`).

## Assumptions

Doubles are reals. Integers are unbounded except the score, which wraps as `unsigned` does. Random choices, the
token generators, `std::pow` and the clock are parameters; that a fresh token eventually comes is assumed.
Hash maps are walked in an arbitrary order, and sorting leaves the order of equal keys open. A session tick
together with the handlers of its two signals is one step. In the connection pool, each stretch of code under
the mutex is one step, and a thread that uses several connections counts as several threads.

## Model

| member | source | states |
|---|---|---|
| RoadIndices.SortFragments | src/model/model.cpp:323-325 | the array ends sorted by first coordinate and is a permutation of what it was |
| RoadIndices.MergeInto | src/model/model.cpp:328-333 | one fragment widens the last stretch or opens the next one, and no cell behind the write position changes |
| RoadIndices.CompactFragments | src/model/model.cpp:326-335 | the in-place loop leaves strictly disjoint sorted stretches that cover the same points and edges; nothing unread is overwritten |
| RoadIndices.MergedIsExact | src/model/model.cpp:326-335 | merging any sorted proper list gives disjoint stretches over exactly the same points and unit edges |
| RoadIndices.SameStretchIffEdges | src/model/model.cpp:321-337 | two points lie in one stretch iff the first is covered and every unit edge between them is |
| RoadIndices.CanonicalUnique | src/model/model.cpp:321-337 | disjoint stretches are determined by the points and edges they cover |
| RoadIndices.IndexUnique | src/model/model.cpp:271-285 | a road map has one index, whatever order its roads are listed in |
| RoadIndices.LaidIsScan | src/model/model.cpp:272-281 | the fragments laid on a line cover what a scan of the roads of that orientation covers |
| RoadIndices.LowerBound | src/model/model.cpp:290-301 | finds the first stretch that does not end before the coordinate |
| RoadIndices.UpperBound | src/model/model.cpp:290-301 | finds the first stretch that starts after the coordinate |
| RoadIndices.EqualRange | src/model/model.cpp:301-303 | the range has length 0 or 1, so both assertions hold, and it is the stretch that a linear lookup finds |
| RoadIndices.LineLookupIsScan | src/model/model.cpp:299-316 | a stretch is found iff a scan covers the point, and holds exactly the points joined to it by scanned roads |
| RoadIndices.IndexAgreesWithScan | src/model/model.cpp:287-319 | a horizontal (vertical) road is found iff a scan of the roads of that orientation covers the point, and it reaches exactly as far as they join |
| RoadIndices.RoadIndex.constructor | src/model/model.cpp:271-285 | the two hash maps represent the road map: exact stretches on each line |
| RoadIndices.RoadIndex.GetRoadsAtPoint | src/model/model.cpp:287-319 | the search returns what the linear lookup of the represented index gives |
| Geometry.Segment.Normalized | src/model/model.cpp:37-47 | the same two ends in ascending order, orientation kept |
| Geometry.Round | src/app/game_session.cpp:97-98 | the nearest integer, halves away from zero |
| Movement.SlideCompose | src/app/game_session.cpp:119-131 | along one axis, a clamped slide of two lengths in one direction is the two slides one after the other |
| Movement.SpanIsKept | src/app/game_session.cpp:96-131 | the stretch found after a slide is the stretch found before it |
| Movement.MoveCompose | src/app/game_session.cpp:90-140 | a tick of s + t moves a body as a tick of s and then one of t, walls and crossings included |
| Movement.FrameRateIndependent | src/app/game_session.cpp:90-140 | any list of ticks gives the position and speed of one tick of their total, on any road map |
| Movement.MoveKeepsRoad | src/app/game_session.cpp:90-140 | a body moved at axis-aligned speed is on the road map iff it was before |
| Movement.SpawnIsOnRoad | src/app/use_cases.cpp:42-55 | every spawn point rounds to a cell of some road |
| Movement.PointOnRoadIsOnRoad | src/app/game_session.cpp:193-198 | so does every place where loot is dropped |
| Movement.DrawnPoint | src/app/game_session.cpp:193-198 | the drawn point divides its road in the ratio of the phase to the rest: start at 0, end at 1, middle at one half, on both axes |
| Movement.SpawnIsDrawn | src/app/use_cases.cpp:42-55 | a random spawn divides the drawn road as drawn; the other one is the start of the first road |
| Movement.RunKeepsRoad | src/app/game_session.cpp:10-22 | any commands and ticks keep the speed along an axis and the body on the road map |
| Movement.RunFromSpawnIsSafe | src/app/game_session.cpp:90-140 | from any spawn, whatever the inputs: the rounded position is on a road and the dog within half a cell of it |
| Walks.SpanIsStretch | src/model/model.cpp:287-319 | every point on a road lies in the stretch of its row that roads join to it, and the index finds it |
| Walks.RowWalk | src/app/game_session.cpp:90-131 | along a row, either way: speed times time if that ends on the stretch of road, speed kept; else the edge of the road 0.4 beyond the end it runs to, or its own place if it started beyond, at rest |
| Walks.ColumnWalk | src/app/game_session.cpp:90-131 | the same along a column |
| Walks.OffRoadStays | src/app/game_session.cpp:96-131 | a body off every road stays where it is |
| Steerings.GoesWhereItLooks | src/app/game_session.cpp:10-22 | after a command and a tick the dog is some way along the line from itself to the far end of its gatherer and, unless stopped, moves along that line at the map's speed |
| Steerings.Halts | src/app/game_session.cpp:64-65 | without a direction the dog stays where it is |
| Steerings.LeavesByItsSide | src/app/game_session.cpp:56-68 | a dog that changes its cell after a command has left it through the side of the client's tile that lies that way |
| Steerings.ActionOpensSide | src/app/player.cpp:5-20 | what a player asks for sends the dog through the side of the client's tile of that name, or leaves it where it is; the invalid action is an error |
| Steerings.WalksIffOpen | src/app/game_session.cpp:90-131 | sent off from the middle of a cell for the time of one cell, it reaches the middle of the next iff the tile is open on that side, and else stops 0.4 on |
| Pavements.PavementCanBeLeft | src/app/game_session.cpp:105-117 | a concrete run that ends 0.45 away from the nearest road |
| Pavements.OnPavementIff | src/app/game_session.cpp:91-117 | a position is within 0.4 of some road iff its cell is on a road and, on the side where it is off the centre, a road leads to the neighbouring cell; off both centres it never is |
| Pavements.RowMovePaved | src/app/game_session.cpp:90-140 | any dog on the road map that moves along a row ends within 0.4 of some road iff it does not stay beyond an end of its stretch or, off the row's middle, iff it ends in the middle of a column with a road on its side |
| Pavements.ColumnMovePaved | src/app/game_session.cpp:90-140 | the same for a move along a column |
| Pavements.RunPavedIff | src/app/game_session.cpp:90-140 | from any spawn and for any inputs, the dog is within 0.4 of some road all the time iff every tick meets that condition |
| Pavements.CentredTurnsStayPaved | src/app/game_session.cpp:56-68 | a dog that starts along a road only in the middle of it is within 0.4 of some road for ever |
| Tiles.RoadsInBounds | static/js/game_map.js:7-18 | every point of every road is inside the grid, so every write is in bounds |
| Tiles.BoundsAreLeast | static/js/game_map.js:7-18 | the grid holds every road and building, and is the least that does |
| Tiles.PaintedRoad | static/js/game_map.js:24-41 | painting a road over what the earlier roads show gives what all of them show by a scan |
| Tiles.PaintNextPoint | static/js/game_map.js:30-40 | each round of the inner loop paints the next point of the road and no other |
| Tiles.GameMap.PaintTile | static/js/game_map.js:31-39 | one tile gains its road flag and its open edges, all others stay |
| Tiles.GameMap.PaintRoad | static/js/game_map.js:24-40 | the inner loop paints the road from its low end to its high end |
| Tiles.GameMap.Load | static/js/game_map.js:5-42 | afterwards every tile of the grid shows exactly what a scan of the roads around it shows |
| Tiles.OpenEdge | src/model/model.cpp:321-337 | an edge is open iff the server's stretch through one end also holds the other |
| Tiles.ClientAgreesWithServer | src/model/model.cpp:287-319 | a tile is road iff the server finds one there; right at x iff left at x + 1, down likewise; open edges are the server's joins |
| Tiles.MovesFollowTiles | src/app/game_session.cpp:96-131 | any move crosses only cells that the client shows as joined |
| CollisionDetector.LineDistanceIsLeast | src/model/collision_detector.cpp:7-24 | the squared distance is not negative and is least over the whole line, reached exactly at the projection |
| CollisionDetector.CollectedIffPassesWithin | src/model/collision_detector.h:10-13 | an item is collected iff the nearest point of the line lies on the segment and within the radius |
| Sorting.SortedCopy | src/model/collision_detector.cpp:44-47 | the library sort's contract: sorted by the key and the same elements |
| CollisionDetector.DetectedIsEvent | src/model/collision_detector.cpp:33-41 | what the loop body records for a pair is what the reference definition calls its event |
| CollisionDetector.FindGatherEvents | src/model/collision_detector.cpp:29-49 | the result holds each pair exactly once iff the gatherer moved and passes within the summed widths, in order of time |
| Dogs.Dog.SetSpeed | src/model/model.cpp:148-156 | a non-zero speed makes the dog active and clears its inactivity clock, zero makes it inactive |
| Dogs.Dog.SetGatherer | src/model/model.cpp:166-185 | the gatherer runs from half a cell ahead of the dog back to it, and keeps its width |
| Dogs.Dog.AddItemToBag | src/model/model.cpp:211-216 | the item is appended iff the bag is not full, otherwise nothing changes |
| Dogs.Dog.ClearBag | src/model/model.cpp:218-222 | the loop adds the values of the whole bag to the score, once, as `unsigned` does, and empties the bag |
| Dogs.Dog.GetPlayTime | src/model/model.cpp:224-229 | the play time once the dog has been still for the limit, in whole seconds |
| Dogs.RetiresAtLimit | src/model/model.cpp:224-229 | a dog retires iff it is inactive and its clock in milliseconds has reached the limit |
| Dogs.GathererIsRectangle | src/model/model.cpp:166-185 | after a move the gatherer has length one half, so the projection is defined, and the test is membership in the rectangle ahead of the dog |
| Dogs.RunDogMovesBody | src/app/game_session.cpp:133-139 | a dog's body moves as a body alone does, so what holds of bodies holds of dogs |
| Dogs.DogFrameRateIndependent | src/app/game_session.cpp:90-140 | cutting time into ticks changes nothing of a dog but its inactivity clock |
| Dogs.ClockDependsOnSplit | src/app/game_session.cpp:134-139 | two ticks leave less on the clock than one of their total iff the dog moves, has time to add, and the first step ends inside the allowed rectangle while the whole step does not; otherwise they leave the same |
| Dogs.SplitAtWall | src/app/game_session.cpp:134-139 | a dog one cell before the end of its road for which the two clocks differ |
| Dogs.ClockOfTrace | src/model/model.cpp:148-156 | on any trace of clock steps the inactivity clock is the time ticked since the last motion |
| Dogs.RetirementClock | src/app/game_session.cpp:132-139 | over any run from a fresh dog: inactive time is the ticks since it was last left moving, live time is all ticks, and the first never exceeds the second |
| Gathering.DogsFactor | src/app/game_session.cpp:169-181 | the interleaved loop leaves a dog as its own events alone would, in their order |
| Gathering.LostFactors | src/app/game_session.cpp:172-176 | an object is still on the map iff it was and no dog picks it |
| Gathering.FactorsByDog | src/app/game_session.cpp:169-181 | the loop factors by dog: every bag and score, and exactly the union of what is picked leaves the map |
| Gathering.ReorderingAcrossDogs | src/app/game_session.cpp:169-181 | only the order of each dog's own events matters |
| Gathering.SortOrderIsImmaterial | src/model/collision_detector.cpp:44-47 | any two event lists of one configuration give the same outcome unless a single dog has a tie |
| Ties.MeetsCommuteIff | src/app/game_session.cpp:169-181 | meeting two things in either order leaves the dog the same iff both are offices, or both are loot and the bag is full or they look the same in it, or one is loot and the dog can carry nothing |
| Ties.DogTie | src/app/game_session.cpp:169-181 | whatever the dog meets afterwards: it ends the same iff the two things commute, or an office follows and the objects that only one order takes have the same value as far as the score can tell; and each order takes at most one object that the other does not, which is named |
| Ties.TieIsImmaterialIff | src/app/game_session.cpp:167-181 | swapping two neighbouring events of one dog anywhere in a list leaves the whole board the same iff the dog ends the same and other dogs take what only one of the orders takes |
| TieRuns.OrderDecides | src/app/game_session.cpp:165-181 | two runs from the empty session that differ only in the order of two events of one time, both orders being event lists of the same tick: different bags, different loot on the map |
| TickCuts.CutDecides | src/app/game_session.cpp:146-181 | from a reachable state two ticks of half a second and one of a second end with the dog at the same place, and with different bags |
| Gathering.LedgerGrows | src/model/model.cpp:211-222 | score plus bag grows by exactly the value of what is accepted, up to a multiple of 2^32 |
| Gathering.LedgerExact | src/model/model.cpp:211-222 | and exactly so while the values are not negative and the total fits `unsigned` |
| Gathering.MeetAllBag | src/model/model.cpp:203-216 | bags stay within capacity, hold no object twice, and hold only what was there or was accepted |
| Gathering.OwnLootDistinct | src/app/game_session.cpp:152-163 | no dog meets an object twice in one tick |
| Gathering.PlayKeepsBoardOk | src/app/game_session.cpp:169-181 | no object is both on the map and in a bag, and every object that leaves the map is picked by a dog |
| Gathering.ValueAccounted | src/app/game_session.cpp:169-181 | the value on the map, in bags and in scores changes exactly by the objects accepted after they had left the map |
| Gathering.ConservedIffNoDoubles | src/app/game_session.cpp:172-176 | with positive values, a tick conserves value iff no object is accepted by two dogs |
| DoubleBags.BothBagIt | src/app/game_session.cpp:169-181 | two joins, one drop and one tick from the empty session: both dogs hold the object, and the value in the session goes from 10 to 20 |
| LootGenerators.Generated | src/model/loot_generator.cpp:11-14 | never more than the shortage, nothing for a draw of at most 0, the whole shortage for a draw of at least 1 |
| LootGenerators.GeneratedMonotone | src/model/loot_generator.cpp:13-14 | a larger draw never generates less |
| LootGenerators.CountIsShare | src/model/loot_generator.cpp:11-14 | for a power and a roll in [0, 1] the count is (1 - power) times the roll of what is missing, to the nearest integer; nothing while the power is 1, all that is missing when it is 0 and the roll 1 |
| LootGenerators.LongerWaitNeverLess | src/model/loot_generator.cpp:12-13 | for a power that falls with time, a longer time without loot never generates less |
| LootGenerators.Memoryless | src/model/loot_generator.cpp:12-13 | what stays away over two times together is what stays away over each |
| LootGenerators.HalfAndQuarter | tests/loot_generator_tests.cpp:44-57 | three objects for four looters after two intervals at one half, one when a quarter is reached |
| LootGenerators.LootGenerator.Generate | src/model/loot_generator.cpp:8-19 | the share of what is missing that the power over the time since loot last appeared gives, to the nearest integer; that time is cleared iff some appears |
| Sessions.StepKeeps | src/app/game_session.cpp:29-68 | every join, command, loot drop and tick keeps the loot accounting and every dog's road safety |
| Sessions.DroppedEach | src/app/game_session.cpp:189-200 | each draw drops one object under the next number: of the drawn kind and its value, at the drawn point of the drawn road |
| Sessions.RunKeepsInv | src/app/game_session.cpp:146-201 | so does every run from the empty session |
| Sessions.LootNeverExceedsPeak | src/app/game_session.cpp:186-200 | there is never more loot on the map than dogs counted at some generation so far |
| Sessions.RunLedger | src/model/model.cpp:211-222 | for every dog of every run, score plus bag is the value of all it ever accepted, exactly while that fits `unsigned` |
| Sessions.SessionClocks | src/app/game_session.cpp:132-139 | for every dog of every session run: inactive time is the time ticked since it was last left moving, live time the time ticked since its join, and with tick lengths that are not negative 0 <= inactive <= live |
| Sessions.TickRetires | src/app/game_session.cpp:257-260 | a tick of a run drops a dog iff it ends the tick at rest and the time ticked since it was last left moving has reached the limit |
| Reaches.MeetsWhatIsAhead | src/app/game_session.cpp:152-167 | in a tick a dog meets exactly the offices and the loot ahead of it: within half a cell along its way, and to each side within the width of the thing and its own |
| Reaches.TickBagAndScore | src/app/game_session.cpp:169-181 | with an office ahead the score gains, modulo 2^32, the bag and all picked up before the last office, and the bag holds what came after; with none the score stays and the bag gains what lies ahead while there is room |
| Lives.KeepsName | src/app/game_session.cpp:29-34 | in every state of every run a dog has the id, name, bag and width it entered with |
| Lives.RecordsTellLives | src/app/game_session.cpp:234-264 | over any run: the records of a tick are one for each dog that leaves in it, with the name that joined, the value of all it ever picked up less what is in its bag, and the whole seconds since the join |
| Lives.LootLeavesIffPicked | src/app/game_session.cpp:169-181 | in any step an object stays on the map as it is, unless a dog picks it in a tick, and then it leaves |
| Lives.CarriedLayOnMap | src/app/game_session.cpp:173-176 | whatever a dog carries in a run lay on the map before, with the same id, kind and value |
| Lives.CarriedIsWorthItsKind | src/app/game_session.cpp:186-200 | and it is worth what the map says of its kind |
| GameSessions.GameSession.constructor | src/app/game_session.cpp:24-27 | an empty session with an index of its map's roads |
| GameSessions.GameSession.AddDog | src/app/game_session.cpp:29-34 | a new dog at the spawn point under the next id, nothing else changed |
| GameSessions.GameSession.AddLostObject | src/app/game_session.cpp:44-49 | a new object under the next id, nothing else changed |
| GameSessions.GameSession.AddRestoredDog | src/app/game_session.cpp:36-38 | a restored dog goes under the session's counter, whatever its own id |
| GameSessions.GameSession.AddRestoredObject | src/app/game_session.cpp:51-54 | a restored object goes under the session's counter |
| GameSessions.GameSession.SetDogDirection | src/app/game_session.cpp:56-68 | turns and starts, or stops, the one dog; an unknown id is an error and changes nothing |
| GameSessions.GameSession.NextBody | src/app/game_session.cpp:91-131 | computes the clamped step that the movement theorems are about |
| GameSessions.GameSession.MoveDog | src/app/game_session.cpp:90-140 | moves the dog object as the dog theorems say |
| GameSessions.GameSession.MoveAll | src/app/game_session.cpp:147-150 | every dog is moved once, in whatever order the hash map is walked |
| GameSessions.GameSession.CollectItems | src/app/game_session.cpp:152-159 | the item vector holds each object of the map once and then the offices |
| GameSessions.GameSession.CollectDogs | src/app/game_session.cpp:160-163 | the gatherer vector holds each dog once |
| GameSessions.GameSession.FindEvents | src/app/game_session.cpp:165-167 | the vectors and the complete event list of the moved dogs |
| GameSessions.GameSession.HandleEvent | src/app/game_session.cpp:170-180 | one event changes its dog and the map as the fold's step says |
| GameSessions.GameSession.HandleEvents | src/app/game_session.cpp:169-181 | the loop leaves the session as the fold over all events does |
| GameSessions.GameSession.CollectRecords | src/app/game_session.cpp:235-251 | one correct record for each dog that retires and none for others |
| GameSessions.GameSession.RemoveInactiveDogs | src/app/game_session.cpp:234-264 | exactly the retiring dogs leave, with those records |
| GameSessions.GameSession.Tick | src/app/game_session.cpp:146-184 | one tick of the state machine, with the records of the dogs it drops; the others stay the same objects |
| GameSessions.GameSession.GenerateLoot | src/app/game_session.cpp:186-201 | drops as many objects as the generator says for the dogs and loot there are, each at a drawn place on a drawn road |
| Registries.EnrolledKeeps | src/app/use_cases.cpp:57-65 | a join keeps tokens and players in bijection and the session's players matched to its dogs, and leaves other sessions alone |
| Registries.AdmittedKeeps | src/app/player.cpp:79-82 | adding any player whose id and token are new keeps all containers consistent |
| Registries.EraseNext | src/app/player.cpp:132-138 | each erasure of the cleanup finds every entry it looks up, because the session's entry goes only with its last player |
| Registries.CleanupIsExact | src/app/application.cpp:247-272 | whatever order the copy is walked in, the loop meets no missing entry and removes exactly the players whose dog is gone |
| Registries.UnlistedAt | src/app/application.cpp:260-267 | the search erases the first session with the id and keeps the order of the others |
| Registries.UnlistedExact | src/app/application.cpp:260-267 | exactly the session with the id leaves the list |
| Registries.CleanedPlayers | src/app/application.cpp:254-257 | a player is left iff it is of another session or its dog is still there |
| Registries.CleanedTokens | src/app/player.cpp:88-92 | exactly the tokens of the removed players are gone, the others lead where they did |
| Registries.CleanedSessions | src/app/application.cpp:258-268 | the session is dropped iff no player stays; other sessions, the counters and the table are as before |
| Registries.CleanedKeeps | src/app/application.cpp:247-272 | all containers agree again, and the session's players match its remaining dogs one to one |
| ApplicationRuns.RetiredHadPlayers | src/app/application.cpp:252 | when dogs retire their session has a player entry, so taking its value is safe |
| ApplicationRuns.NextKeeps | src/app/application.cpp:63-74 | every join, refused or not, and every tick with cleanup keeps all containers consistent with all sessions' dogs |
| ApplicationRuns.RunConsistent | src/app/player.cpp:69-138 | in every reachable state tokens and players are in bijection, ids are below their counters, and each listed session's players match its dogs one to one |
| ApplicationRuns.PopulatedIff | src/app/application.cpp:67-71 | a step leaves every listed session with players iff it is not a nameless join that opens a session |
| ApplicationRuns.RunPopulated | src/app/application.cpp:247-272 | while no such join happens, every listed session has a non-empty player map |
| ApplicationRuns.NamelessJoin | src/app/application.cpp:67-71 | such a join from the start: an error, and a listed session without players |
| ApplicationRuns.RunTable | src/app/application.cpp:88-105 | while no session was dropped every recorded place is right; once one was, some map has an entry and no session |
| ApplicationRuns.LookupRightIffNoneDropped | src/app/application.cpp:76-86 | on any run, the lookup by map is right for every map iff no session has been dropped |
| ApplicationRuns.StaleLookup | src/app/application.cpp:76-86 | a run of two actions after which the lookup gives a place outside the list |
| ApplicationRuns.StaleNeedsTwo | src/app/application.cpp:76-86 | no run of fewer than two actions makes the lookup wrong for any map |
| Applications.Players.Add | src/app/player.cpp:94-107 | a new player under the next id in its session's entry, which is made if need be |
| Applications.Players.Readmit | src/app/player.cpp:109-121 | a restored player under its own id, the counter raised above it |
| Applications.Players.ErasePlayerFromSession | src/app/player.cpp:132-134 | exactly that player leaves its session's entry |
| Applications.Players.EraseSession | src/app/player.cpp:136-138 | exactly that entry leaves |
| Applications.PlayersToken.AddPlayer | src/app/player.cpp:69-77 | the loop ends with the first generated token that nobody has, all before it being taken, and records it both ways |
| Applications.PlayersToken.FindPlayerByToken | src/app/player.cpp:55-61 | the player of the token, or nothing iff nobody has it |
| Applications.PlayersToken.EraseTokenByPlayerId | src/app/player.cpp:88-92 | the id and its token leave both maps |
| Applications.Application.FindSessionsByMapId | src/app/application.cpp:76-86 | the place recorded for any one session of the map, or nothing |
| Applications.Application.AddSession | src/app/application.cpp:88-122 | a new empty session under the next id, listed, and its place recorded |
| Applications.Application.Join | src/app/use_cases.cpp:57-65 | an empty name is an error that changes nothing; otherwise a dog with that name at the spawn point, its player and a fresh token, and nothing else in any session |
| Applications.Application.JoinGame | src/app/application.cpp:63-74 | the join step of the server, for every outcome and from every valid application: the session found or opened gains the dog, all other sessions are as they were; where the recorded place is outside the list it says so and has done nothing |
| Applications.Application.MovePlayer | src/app/use_cases.cpp:113-119 | the player's dog turns and starts or stops, and nothing else; an unknown token does nothing, and a known one never fails |
| Applications.Application.GenerateLoot | src/app/game_session.cpp:186-201 | the session gains its loot and all other sessions are as they were |
| Applications.Application.ErasePlayer | src/app/application.cpp:256-269 | the erasures of one round of the cleanup |
| Applications.Application.RemoveInactivePlayers | src/app/application.cpp:247-272 | the loop over the copy leaves exactly what the cleanup should, in any order, with every look-up found |
| Applications.Application.Tick | src/app/application.cpp:112-119 | the tick step of the server: the session ticks, its retired dogs' players are cleaned up, all other sessions are as they were; the records it hands on are one for each dog that retires, with its name, score and time |
| Applications.Application.SavePlayers | src/app/application.cpp:167-174 | each player of the session once, with its dog and its token |
| Applications.Application.SaveGame | src/app/application.cpp:164-177 | a record for every listed session in order, which together are a saved game of this application; an exception iff some listed session has no players |
| Applications.Application.IsSavedGame | src/app/application.cpp:166-177 | the records it returns are a saved game in the sense of the round trip |
| Applications.Application.RestorePlayer | src/app/application.cpp:211-217 | dog, token, player and session entry of one record, or an error iff the bag does not fit |
| Applications.Application.RestoreSession | src/app/application.cpp:208-222 | a fresh session that holds what the record says, or an error iff some bag does not fit |
| Applications.Application.AddRestoredSession | src/app/application.cpp:124-142 | the session joins the list, its place is recorded, the counter raised above its id |
| Applications.Application.RestoreGame | src/app/application.cpp:208-226 | all sessions of the records in order, or an error iff some bag does not fit |
| Applications.Application.Restart | src/app/application.cpp:164-237 | from any valid application: it fails iff some listed session has no players; otherwise what is saved, archived, read and restored has the same players, tokens and list, a right table, and in each session the same dogs and loot |
| ConnectionPools.ConnectionPool.constructor | src/database/connection_pool.h:48-54 | one slot for each connection the factory returns, in order, none used |
| ConnectionPools.ConnectionPool.TryTake | src/database/connection_pool.h:56-66 | under the lock: takes the connection of the next slot and leaves it empty, or nothing iff none is free |
| ConnectionPools.ConnectionPool.ReturnConnection | src/database/connection_pool.h:69-77 | puts the connection into the last used slot; an error iff none was used |
| ConnectionPools.StepKeeps | src/database/connection_pool.h:36-80 | every step of every thread keeps ownership and the wake-up bound |
| ConnectionPools.ConnectionsOwned | src/database/connection_pool.h:65-77 | in every interleaving: used slots empty, the rest full, each connection in one slot or one hand, as many hands as used slots, and no throw |
| ConnectionPools.WakeupsKept | src/database/connection_pool.h:56-80 | while a thread sleeps, the free connections number at most the threads woken or about to notify, so one of them exists if a connection is free |
| ConnectionPools.NobodyStuck | src/database/connection_pool.h:60-62 | when nothing can move, nobody is asleep unless the pool is empty |
| ConnectionPools.EmptyPoolStrands | src/database/connection_pool.h:60-62 | a pool of capacity zero does leave its caller asleep |
| ConnectionPools.DrainEnds | src/database/connection_pool.h:56-80 | without new callers and spurious wake-ups every run ends within a computed number of steps |
| ConnectionPools.EveryoneIsServed | src/database/connection_pool.h:56-80 | then every sleeper has held a connection, however the threads are scheduled |
| Serialization.DogLayout | src/game_data_store/model_serialization.h:43-53 | the fields of a dog in the order of the archive |
| Serialization.ArchivedAsAsked | src/model/model.h:134-140 | a direction is archived as the letter of the action that asks for it, and that letter is read back as it |
| Serialization.ItemLayout | src/game_data_store/model_serialization.h:25-30 | the fields of a bag item in order |
| Serialization.LostLayout | src/game_data_store/model_serialization.h:72-78 | the fields of a lost object in order |
| Serialization.PlayerLayout | src/game_data_store/model_serialization.h:93-98 | the fields of a player in order |
| Serialization.SessionLayout | src/game_data_store/model_serialization.h:118-124 | the fields of a session in order, its two vectors with their lengths |
| Serialization.VectorExact | src/game_data_store/model_serialization.h:52 | a length-prefixed vector is read back exactly if its elements are |
| Serialization.GameRoundTrip | src/game_data_store/model_serialization.h:118-124 | a game is read back as it was written, whatever follows it, and no other stream is accepted |
| SavedGames.RestoreDog | src/game_data_store/model_serialization.cpp:9-20 | the dog object of a record, or an error iff its bag does not fit |
| SavedGames.DogComesBack | src/game_data_store/model_serialization.cpp:5-20 | a saved dog comes back but for its gatherer, its clocks and its activity at rest, iff its bag was within capacity |
| SavedGames.ReloadedIsSavedAgain | src/game_data_store/model_serialization.cpp:5-7 | saving a restored dog gives the record it came from |
| SavedGames.RestoredDogGoesOn | src/game_data_store/model_serialization.cpp:5-20 | whatever commands and ticks follow, a restored dog is the same dog at the same place with the same bag and score, gathers the same from its first tick on, and has lost the time it had lived |
| SavedGames.RestoredPlayersIs | src/app/application.cpp:211-217 | the loop over the players of a record succeeds iff every bag fits, and numbers the dogs anew |
| SavedGames.SessionsComeBack | src/app/application.cpp:208-226 | after any number of records exactly their players and tokens are back, and the list and the table say so |
| SavedGames.GameComesBack | src/app/application.cpp:164-237 | a saved game comes back with the same players, tokens and list, consistent, and with a table that is right for every map, even if it was not when saved |
| SavedGames.SessionComesBack | src/game_data_store/model_serialization.cpp:36-52 | each session comes back with the same dogs and loot, each once and under new numbers, counters past them |
| Renumberings.KeysMatchIff | src/app/game_session.cpp:36-38 | whatever the order of the save, every player finds a dog under the id of its own iff the ids have no gap; some order keeps all keys iff they have none, every order iff there is no dog but number 0 |
| Renumberings.WhoIsSteered | src/app/game_session.cpp:56-68 | after a restore and any number of joins, whom the player of a dog id steers: the dog restored under that number, or the newcomer with it, or nobody; and it is the player's own dog iff the save put it there |
| Renumberings.LostSteering | src/app/game_session.cpp:56-68 | when only dog 1 is left, every restore puts it under number 0 and steering it is an error |
| Renumberings.WrongDog | src/app/game_session.cpp:56-68 | after the next join the same command turns the newcomer's dog and leaves the player's own alone |
| Renumberings.LoopAfterRestore | src/app/game_session.cpp:169-171 | in a restored session the look-up of every event's dog by its own id finds an entry iff the saved ids had no gap, and the gathering dog itself iff each dog is under its own id |
| Renumberings.CleanupAfterRestore | src/app/application.cpp:254-255 | the cleanup keeps exactly the players whose dog is left, whichever entries a tick leaves, iff each dog is under its own id |
| Renumberings.RestoredInvIff | src/app/application.cpp:208-222 | a restored session meets the invariant of all runs iff dogs and loot are under their own ids and all bags are empty |
| Renumberings.RestoredRunKeeps | src/app/game_session.cpp:146-201 | from such a state on every step keeps the invariant |
| LostDogs.RestartLosesDog | src/app/game_session.cpp:36-68 | a run of four steps from the start after which only dog 1 is left; after any save and restore its player's commands fail, and steer the newcomer after the next join |
| Games.MoveSucceeds | src/app/use_cases.cpp:113-119 | in every reachable state the dog of a token's player is in its session, so the error for an unknown dog is not reached |
| Games.MoveGives | src/app/use_cases.cpp:113-119 | a move turns the dog of the token's player and leaves every other dog of every session alone |
| Games.JoinThenMove | src/app/use_cases.cpp:57-65 | who joins and then moves: the dog of that name, at the drawn place, with nothing, is on its way as told, and no other dog has noticed |
| Games.JoinsItsMap | src/app/application.cpp:63-74 | a join enters on the map asked for, as long as the table of sessions is right for it |
| Games.NextKeeps | src/app/application.cpp:63-122 | every join, command, loot drop and tick keeps the containers in agreement with the dogs of all sessions, and each session in a state that a session run leads to |
| Games.RunKeeps | src/app/application.cpp:63-122 | so does every run of the server, so what holds on session runs holds of every session of it |
| Games.RunOfContainers | src/app/application.cpp:63-272 | every run of the server is, its commands and loot drops left out, a run of the containers, so what holds on those holds here |
| Games.GameSavable | src/app/application.cpp:164-177 | every reachable state meets all that saving and restoring need: bags within capacity, dogs under their ids, each with its player |
| Games.RestartKeeps | src/app/application.cpp:164-237 | from any reachable state, the records of a save are read back from the archive as they were written, all accepted, and the game comes back |

## Left out

- Rounding of floating-point numbers: reals are exact; `std::pow` in the loot generator is a parameter.
- Widths of ids, coordinates, bag values and times: unbounded integers; only the score wraps.
- Applications.Application.JoinGame: where the recorded place is outside the list the program indexes a vector past its end, and the model stops with a flag; `LookupRightIffNoneDropped` says when that cannot happen.
- GameSessions.GameSession.AddRestoredDog: the loot generation that the program dispatches after it is a separate step of the state machine.
- Tiles.GameMap.Load: for a map without roads and buildings the program has infinite bounds; the model has an empty grid.
- Runs of the server across a restart: the whole-run results are about sessions built since the start. A restored session keeps the session's invariant iff the condition of `RestoredInvIff` holds; what happens without it is stated for commands, look-ups and the cleanup, not for whole runs.
- Applications.Application.MovePlayer: the player's pointer to its session is an id here, which a search of the list stands for; every player of a valid application is in a listed session.
- Dropped sessions keep ticking in the program while their timers live; they have no dogs, and the model does not run them.
- `SetMaxInactiveTime`: the limit is a constant of the session.
- The order of steps between sessions is arbitrary but each step is atomic: strands, timers, the io_context and the walk over the session list while a tick drops sessions from it are not modelled.
- The use cases that only list: they would only add easy members.
- The archive's header, versions and text encoding: one token per value; a read fills a new record instead of an existing one.
- Move assignment of the connection wrapper, which the repository does not use.
- HTTP, JSON, logging, SQL, files, the command line, and the rendering and user interface of the client.
