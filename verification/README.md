# Verification of the bubble game server

A Dafny model of the competitive bubble shooter: its game engine, the servers
that run matches on it, the room manager, the browser's landing simulation and
the gateway's packet codec, with proofs of what they keep over whole runs.
`dafny verify dfyconfig.toml` checks everything.

## How the model is built

Each component that changes state in place is modelled twice. Once as a value
with functions that say what an operation means (`Rules`, `Matches`,
`MonoRules`, `RoomRules`, `SessionRules`), and once in the program's own form,
with classes, arrays, worklists and loops (`Resolve`, `Layers`, `Engine`,
`Scheduler`, `Mono`, `RoomManager`, `Sessions`, `Packets`). Every method is
proved to change its objects exactly as the value-level function says; the
theorems about runs are proved of the functions and so hold of the methods.

| modules | what they cover |
|---|---|
| `Wrappers` | optional values and results |
| `Grid`, `Reachability`, `Boards` | the 14 by 17 offset grid and its geometry, paths and connectivity, colour groups, hanging and floating bubbles |
| `Resolve`, `Placement`, `Reprojection`, `Layers` | matching, dropping, snapping a landing to a cell, pushing the board down one row |
| `Rules`, `Engine`, `Flight` | one player's game, its mutable state, server-side flight |
| `Matches`, `Scheduler` | a whole match, its accounts, the ten-second layer scheduler and its catch-up loop |
| `MonoRules`, `Mono`, `Outcomes`, `Ledgers` | the single-process server: rooms, homes, games, tickets, deadlines, heartbeats, when its matches end, and the books of every running match |
| `CommandLog`, `RoomRules`, `RoomStates`, `RoomManager`, `RoomReaders` | the room manager, the states of its rooms, its bounded command log and its readers |
| `SessionRules`, `Winners`, `Sessions`, `SessionTables` | game sessions: heartbeat loss, the winner, sending the losers out; the table of sessions and the connections to them |
| `Client`, `Animation`, `FrameRates` | the browser's landing simulation against what the server accepts, the animation that reports the landing, and the frame rates at which it can miss |
| `Packets` | the length-prefixed packet codec |

Conventions:

- A handler that holds the server's mutex is one atomic step.
- Random draws, clocks, fresh room ids and the order of map iteration are
  inputs or arbitrary choices. Clocks never run backwards where the source
  subtracts them; a match step may be given any clock value.
- Positions, velocities and angles are exact reals and all cell centres are
  integers. The sine and cosine of a clamped angle are two reals with
  cos² + sin² = 1 and sin ≤ −0.19. Rounding is to the nearest integer, halves
  away from zero, as `math.Round` does.
- A `Board` is a map from all cells to a colour or `EMPTY`; `View` reads one
  off the mutable grid.

Where a property one might expect does not hold, an input shows it, and the
exact condition is proved for all inputs:

- Every board of every run is anchored exactly when the dealt board is, that is,
  when a drop would take nothing from it (`Matches.AlwaysAnchoredIffDealtSo`);
  a deal need not be (`Matches.DealtBoardMayFloat`).
- An accepted landing is lost exactly when the whole window around it is
  occupied (`Placement.RefusedIffWindowFull`), which a deal allows
  (`Matches.LandingMayBeLost`); a landing simulated on the board of its shot is
  never lost (`Client.PendingLandingIsPlaced`).
- Members are at home in their rooms in every state of a run exactly when nobody
  entered a second room (`MonoRules.MirroredRunsNeverJoinTwice`), which happens
  (`MonoRules.SecondJoinHappens`).
- A landing never leaves a match running with one survivor, and a poll does so
  exactly if the layers it adds push every other board to its last row
  (`Outcomes.PollLeavesOverdueIff`), which happens
  (`Outcomes.PollMayLeaveOverdue`); the next poll ends such a match
  (`Outcomes.DecidedMatchesEnd`).
- A pull returns everything new exactly when the reader is at most 2048 behind
  (`CommandLog.PullIsExact`, `CommandLog.LaggardMissesSome`).
- Bytes that read as a packet are the ones it is written as exactly when the
  reserved byte is 0 (`Packets.OnlyEncodingsDecode`, `Packets.FlagIsIgnored`).
- Every connection is of a player with a game in its session, in every state of a
  run, exactly when no session was created without someone connected to its room
  (`SessionTables.StrangersNeedReplacement`), which happens
  (`SessionTables.StrangerHappens`); an aim of such a stranger brings the server
  down (`Sessions.HandleMessage`).

One such property has its condition proved only up to a gap:

- The page reports every landing if its frames take at most 19 milliseconds, and
  does not if they may take 20.4 or more (`FrameRates.LandsByFrameBound`). Then a
  shot on a dealt board, which the server accepted, can be missed
  (`FrameRates.SlowAnimationMisses`), and the whole match gets no more layers
  (`Matches.UnsentLandingStopsLayers`). For bounds between 19 and 20.4 neither is
  proved: which of them suffices depends on how the simulation's own steps of
  1/120 second fall on the walls, shot by shot.

## Model

| member | source | states |
|---|---|---|
| Grid.AdjacencyIsCloseness | internal/gameplay/engine.go:378-383 | two distinct cells are neighbours exactly when their squared centre distance is at most 1040; all others are at 3088 or more |
| Grid.AdjacencyIsSymmetric | internal/gameplay/engine.go:378-383 | the two row-parity neighbour lists agree with each other |
| Grid.RoundsToNearest | internal/gameplay/engine.go:158-171 | the rounding picks a nearest integer, and of two the one farther from zero; no other integer qualifies |
| Grid.SnapInvertsCenter | internal/gameplay/engine.go:464-484 | snapping a cell's centre gives the cell back, and so does any displacement of less than half a cell |
| Grid.SnapIsNearest | internal/gameplay/engine.go:464-484 | every point, on the board or off it, snaps to the nearest of the 14 rows and the nearest of that row's 17 columns, the later of two as near |
| Grid.ColumnBelow | internal/gameplay/engine.go:158-171 | where the rounded abscissa of each cell falls in the next row: same column, one to the right, or the last column twice |
| Reachability.ReachIsLeast | internal/gameplay/engine.go:432-447 | the reachable cells are the least closed set containing the sources |
| Reachability.ReachIsIdempotent | internal/gameplay/engine.go:432-447 | restricting the graph to what is reachable changes nothing |
| Reachability.FrontierExhausted | internal/gameplay/engine.go:395-411 | a breadth-first search with an empty worklist has seen exactly the reachable cells |
| Boards.DropAnchors | internal/gameplay/engine.go:422-461 | after a drop every bubble is anchored, the kept bubbles are the hanging ones in their colours, a second drop removes nothing |
| Boards.QuietDrop | internal/gameplay/engine.go:422-461 | a bubble put on an anchored board stays, or it alone falls |
| Boards.GroupOfMember | internal/gameplay/engine.go:386-411 | every cell of a colour group has that same group: starting the search elsewhere in it finds the same cells |
| Boards.ClearedExactly | internal/gameplay/engine.go:412-418 | clearing takes the whole colour group of a bubble if it has three or more members, otherwise nothing, and changes no other cell |
| Resolve.ScanColour | internal/gameplay/engine.go:399-410 | one cell's neighbours are scanned and the unseen ones of the colour enqueued, in order and once |
| Resolve.SearchGroup | internal/gameplay/engine.go:387-411 | the worklist terminates with the same-colour component of the start, each cell listed once |
| Resolve.ClearMatches | internal/gameplay/engine.go:386-419 | the board loses exactly the colour group of the cell when it has three or more cells, and the count returned is the number removed |
| Resolve.SearchHanging | internal/gameplay/engine.go:422-447 | the search from the occupied top-row cells visits exactly the hanging bubbles |
| Resolve.SweepRow | internal/gameplay/engine.go:449-459 | one row of the sweep erases and counts its unvisited bubbles |
| Resolve.DropFloating | internal/gameplay/engine.go:422-461 | exactly the bubbles not connected to the top row go, and the count returned is their number |
| Placement.FindNearestEmpty | internal/gameplay/engine.go:504-525 | finds an empty cell of the 5 by 5 window closest to the point, first in scan order among equals; fails exactly when there is none |
| Placement.NearestEmptyIsUnique | internal/gameplay/engine.go:504-525 | closeness and scan order together determine the cell |
| Placement.RefusedIffWindowFull | internal/gameplay/engine.go:323-336 | a landing is lost exactly when every cell of the window that is on the board is occupied |
| Placement.LandsNearest | internal/gameplay/engine.go:323-336 | the landing cell is the snapped one if empty, else an empty one at most two rows and columns away than which no other such cell is nearer to the point |
| Reprojection.BelowIsNearest | internal/gameplay/engine.go:138-139 | reprojecting by rounded abscissa is the shift the closed form of the pushed board uses |
| Reprojection.TargetKeepsColour | internal/gameplay/engine.go:129-149 | each bubble above the last row is found at its target in its colour |
| Reprojection.TargetIsOnto | internal/gameplay/engine.go:129-149 | every bubble below the new top row came from some bubble of the old board |
| Reprojection.SourceOfTarget | internal/gameplay/engine.go:129-149 | no two bubbles share a target, relocated ones included |
| Reprojection.OddRowPushed | internal/gameplay/engine.go:131-149 | the exact contents of the row below an odd row, with the right-wall merge and its relocation |
| Reprojection.RowColoursKept | internal/gameplay/engine.go:129-149 | new row r+1 holds the same multiset of colours as old row r |
| Reprojection.PushedCounts | internal/gameplay/engine.go:120-156 | a layer adds 17 bubbles and loses exactly those of the last row |
| Reprojection.PushedGains | internal/gameplay/engine.go:120-156 | with the last row empty the total grows by exactly 17 |
| Reprojection.RunHangs | internal/gameplay/engine.go:378-383 | an unbroken run of bubbles in a row hangs if one of them does |
| Reprojection.CollisionRun | internal/gameplay/engine.go:140-146 | the bubble relocated at the right wall lands at the end of an unbroken run reaching that wall |
| Reprojection.PathHangs | internal/gameplay/engine.go:120-156 | along a path of bubbles from the top row, every bubble still hangs after the push |
| Reprojection.AnchoringSurvives | internal/gameplay/engine.go:120-156 | if every bubble is connected to the top row and the last row is empty, the same holds after a layer |
| Layers.NearestEmptyInRow | internal/gameplay/engine.go:173-188 | from every centre that does not make the source index outside the row: finds the free column nearest to it, left before right, of those closer than the row is long; fails exactly when there is none |
| Layers.ChooseColumn | internal/gameplay/engine.go:137-146 | the column chosen for a bubble is its target and one always exists: the branch that drops a bubble is never taken |
| Layers.MoveRow | internal/gameplay/engine.go:132-148 | one row of the insertion loop produces the row of the pushed board |
| Layers.PushDown | internal/gameplay/engine.go:120-154 | the new grid is the pushed board, and the old grid is untouched |
| Rules.StatusMeansRow | internal/gameplay/engine.go:355-375 | a running game has its last row empty, a lost one has a bubble there, a won one has none at all |
| Rules.LandingLedger | internal/gameplay/engine.go:323-352 | a landing conserves bubbles (one placed, the cleared and dropped gone), pays 10 and 15 for them, clears none or at least three, and leaves an anchored board; without a free cell nothing changes |
| Rules.QuietLanding | internal/gameplay/engine.go:323-352 | on an anchored board a landing that completes no group moves nothing else |
| Rules.ShotLandsExactly | internal/gameplay/engine.go:215-260 | an accepted shot and its landing on the game before them: when each is accepted, that it is the colour then in the shooter that lands, in which cell, cell by cell what goes and what stays, what it pays, the status and what is in the shooter next |
| Rules.LandingOfShot | internal/gameplay/engine.go:236-260 | the same of the landing of a shot that has been pending |
| Rules.ShotIsRecorded | internal/gameplay/engine.go:215-234 | an accepted shot records clamped angle, time, colour and the next number, and touches nothing else |
| Rules.ClampIsNearest | internal/gameplay/engine.go:262-271 | a clamped aim is the nearest angle at least 0.2 above the horizontal |
| Rules.ElapsedIsCapped | internal/gameplay/engine.go:91-97 | a tick takes the time that passed, at least none and at most 33 milliseconds |
| Rules.LayerLedger | internal/gameplay/engine.go:120-156 | a layer on a running game costs no bubble, adds 17, never wins and keeps anchoring |
| Engine.MovingBubble.Fly | internal/gameplay/engine.go:103-112 | free flight with wall bounces, on the object |
| Engine.CountBubbles | internal/gameplay/engine.go:355-363 | the scan counts exactly the bubbles on the board |
| Engine.CollideBoard | internal/gameplay/engine.go:305-320 | reports a hit exactly when some bubble's centre is within 30 |
| Engine.ChooseCell | internal/gameplay/engine.go:327-336 | the cell taken is the snapped one, or the nearest empty one of its window |
| Engine.DealBoard | internal/gameplay/engine.go:66-78 | the first five rows hold what was drawn, all other cells are empty |
| Engine.PlayerState.NewInitialState | internal/gameplay/engine.go:49-80 | the initial game of a deal |
| Engine.PlayerState.CheckState | internal/gameplay/engine.go:355-375 | sets won, lost or playing by the bubbles and the last row, and nothing else |
| Engine.PlayerState.PlaceAndResolve | internal/gameplay/engine.go:323-352 | the object ends as the rules say, placed or not; without a bubble in flight nothing changes |
| Engine.PlayerState.TickState | internal/gameplay/engine.go:83-117 | a tick clamps the elapsed time, flies, and lands on contact |
| Engine.PlayerState.AddTopLayer | internal/gameplay/engine.go:120-156 | replaces the board by the pushed one in a new grid and rechecks the status |
| Engine.PlayerState.Fire | internal/gameplay/engine.go:191-212 | refused when finished or in flight and then without effect, otherwise launches the current colour in the direction of the clamped angle |
| Engine.PlayerState.BeginClientShot | internal/gameplay/engine.go:215-233 | refused when finished, in flight or pending and then without effect, otherwise numbers and records the shot |
| Engine.PlayerState.CommitLanding | internal/gameplay/engine.go:236-259 | refused without a pending shot or outside the play field and then without effect, otherwise lands the recorded colour |
| Flight.FlightInvariant | internal/gameplay/engine.go:83-117 | until it lands a fired bubble keeps VY and the size of VX, stays between the walls, and its height is a function of the accumulated time |
| Flight.FlightSettles | internal/gameplay/engine.go:83-117 | the bubble has landed once the accumulated clamped time reaches 672/abs(VY) |
| Flight.StepLength | internal/gameplay/engine.go:99-112 | a step with a bounce is never longer than speed times time |
| Flight.NoTunnelling | internal/gameplay/engine.go:305-320 | between two ticks without a landing the straight path stays farther than the square root of 826 from every bubble |
| Flight.FlownLegsAreClear | internal/gameplay/engine.go:83-117 | the same for the latest leg of any flight still going, over whole runs of ticks |
| Client.CollideBoard | web/assets/game.js:568-588 | the browser's scan reports a hit exactly when a listed bubble is within 30, for boards and rows that are no arrays, of any length, and for entries of any number |
| Client.ToInt32Wraps | web/assets/game.js:575 | the script's conversion drops the fraction and multiples of 2 to the 32 |
| Client.SimulateLanding | web/assets/game.js:545-566 | the loop always returns a hit within 817 of its 5000 steps, the first position that touches, and inside the server's bounds |
| Client.FirstHaltIsLegal | internal/gameplay/engine.go:246-248 | the first touching position always passes the server's position check |
| Client.SimulatedLandingIsAccepted | internal/gameplay/engine.go:236-259 | whatever board the browser simulated on, the server accepts the landing of an accepted shot |
| Client.HaltsIsStops | web/assets/game.js:568-588 | on the server's own board the two collision tests agree |
| Client.SnapIsClose | internal/gameplay/engine.go:464-484 | snapping moves a point of the field by at most 14 and 16, at the walls and first and last rows too |
| Client.SyncedLandingSnaps | internal/gameplay/engine.go:323-336 | simulated on the server's current board, the hit always snaps to an empty cell: never relocated, never lost |
| Client.SyncedLandingIsPlaced | internal/gameplay/engine.go:236-259 | so the server places that landing |
| Client.PendingLandingIsPlaced | internal/gameplay/engine.go:236-259 | over whole runs: however late the landing of a shot arrives, while the shot is pending it is accepted and placed where it snapped |
| Animation.LocalShot.BeginLocalShot | web/assets/game.js:500-511 | the animation starts where the simulation does |
| Animation.LocalShot.AdvanceLocalShot | web/assets/game.js:513-543 | one frame moves the bubble by the capped time; exactly when it is then within 14 of the hit the flight is over, and if the connection is up the landing is sent with the shot's angle and its hit |
| Animation.SimulationIsGlide | web/assets/game.js:545-566 | the simulation is the animation at 120 even frames a second |
| Animation.GlideOnTrack | web/assets/game.js:518-529 | for any frames, the bouncing bubble is the folding of a straight track |
| Animation.OvershootBound | web/assets/game.js:523-529 | each wall cuts off less than one frame's step from that track |
| Animation.SmoothAnimationLands | web/assets/game.js:531-542 | with frames of at most 19 ms, whatever they are, some frame after the shot and in its first 7 seconds is within 14 of the hit, for every board and angle |
| Animation.AnimateShot | web/assets/game.js:207-243 | the page's frames one after the other: the landing is sent exactly at the first frame near the hit and only if the connection is up then |
| Animation.PlayShot | web/assets/game.js:99-107 | so a shot that is simulated and then animated in 7 seconds of smooth frames sends its landing, at the simulated hit |
| FrameRates.LandsByFrameBound | web/assets/game.js:513-543 | every shot of a game in play is landed by any 7 seconds of frames of at most d if d is at most 19 ms, and not if d is 20.4 ms or more |
| FrameRates.SlowAnimationMisses | web/assets/game.js:513-543 | frames of at most 20.4 ms, and an angle on a dealt board, after which no frame, however long one goes on, is ever near the hit |
| FrameRates.SteadyAnimationMisses | web/assets/game.js:518-542 | at a steady 33 ms a frame or more, an angle on a dealt board at which no frame ever is |
| Matches.InitialIsDealt | internal/gameplay/engine.go:49-80 | what a match may assume of a new state |
| Boards.AnchoredMeansNothingDrops | internal/gameplay/engine.go:422-461 | a board is anchored exactly when a drop would remove nothing |
| Boards.ProppedIsAnchored | internal/gameplay/engine.go:422-461 | a board is anchored if each bubble below the first row touches one in the row above |
| Matches.DealtBoardMayFloat | internal/gameplay/engine.go:72-78 | the random initial board need not be anchored |
| Matches.LandingMayBeLost | internal/gameplay/engine.go:329-336 | a deal on which an accepted landing places nothing |
| Matches.LayerDeepens | internal/gameplay/engine.go:120-156 | a layer lowers the deepest bubble by exactly one row |
| Matches.CatchUpIsExact | internal/mono/server.go:811-821 | the catch-up adds all passed deadlines' layers, or stops exactly when a board reaches its last row |
| Matches.CatchUpIsBounded | internal/mono/server.go:811-821 | for any clock at most 14 layers are added at once, and at most 13 minus a board's deepest row |
| Matches.DueLayersGoOn | internal/mono/server.go:793-823 | the scheduler adds layers exactly if the deadline has passed and everybody is playing and idle: the same number to every board, at least one, each moving the deadline by ten seconds, until it is ahead of the clock or a board has reached its last row |
| Matches.StepKeepsConsistent | internal/mono/server.go:604-637 | every message, tick and layer turn keeps the ledger, the score, the landing count, anchoring after a placed landing, and the deadline |
| Matches.ReachableIsConsistent | internal/mono/server.go:793-823 | so in every reachable state of every match: bubbles = initial + 17·layers + placed − cleared − dropped, equal layers for all, deadline exactly 10000 ms per layer, layers within the elapsed time, and a pending shot only in a running game |
| Matches.StepKeepsAnchored | internal/mono/server.go:604-637 | no message, tick or layer turn leaves an anchored board unanchored |
| Matches.AlwaysAnchoredIffDealtSo | internal/gameplay/engine.go:120-156 | a player's board is anchored in every run exactly when the board it starts with is |
| Matches.RunFollows | internal/mono/server.go:604-637 | frozen board: while a shot is pending its board and both its colours stay, whatever happens in the match |
| Matches.MessageIsPrivate | internal/mono/server.go:613-632 | a message changes no game but its sender's and no deadline; an aim sets the clamped angle alone, and a shot or a landing does what the engine makes of its own angle, time and position, or nothing when refused |
| Matches.UnsentLandingStopsLayers | internal/mono/server.go:825-841 | as long as one shot's landing does not arrive, nobody in the match gets a layer |
| Scheduler.DealAll | internal/mono/server.go:506-511 | every member gets a new state sharing nothing with any other |
| Scheduler.MayAddLayer | internal/mono/server.go:825-841 | true exactly when there are games and all are running with nothing in flight or pending |
| Scheduler.IdleMayAdd | internal/mono/server.go:825-841 | which is what the match machine asks before it adds a layer |
| Scheduler.TickAll | internal/mono/server.go:657-659 | ticks every player's game once, in any order |
| Scheduler.AddLayerToAll | internal/mono/server.go:815-819 | one layer on every board, in any order |
| Scheduler.CatchUpLayers | internal/mono/server.go:811-821 | terminates for every clock, adds the catch-up's number of layers and moves the deadline by as many periods |
| Scheduler.MaybeAddTopLayer | internal/mono/server.go:793-823 | the whole turn, with the unset and the not-yet-due deadline |
| Scheduler.Receive | internal/mono/server.go:617-632 | a message changes its sender's game as the engine says and no other |
| MonoRules.RemoveKeepsCoherent | internal/mono/server.go:705-744 | removing a player keeps the tables in step, also when it empties the room or ends the match |
| MonoRules.CreateKeepsCoherent | internal/mono/server.go:341-374 | creating a room with a fresh id keeps them in step, leaving the old room first |
| MonoRules.JoinKeepsCoherent | internal/mono/server.go:376-409 | joining keeps them in step |
| MonoRules.BeginKeepsCoherent | internal/mono/server.go:475-520 | starting keeps them in step and begins a run of the match machine |
| MonoRules.ReceiveKeepsCoherent | internal/mono/server.go:604-637 | messages keep them in step |
| MonoRules.PollKeepsCoherent | internal/mono/server.go:639-675 | polls keep them in step |
| MonoRules.ServedGoesOn | internal/mono/server.go:341-823 | a run can be continued by every request that the environment may send next |
| MonoRules.ServedIsCoherent | internal/mono/server.go:341-429 | in every reachable state: a room plays exactly when it has games, tickets and a deadline, then with two members or more; rooms are non-empty, within 2 to 8, owned by a member; whoever is at home in a room is its member |
| MonoRules.SweepEffect | internal/mono/server.go:677-703 | whatever order a heartbeat sweep takes and whoever inherits rooms in between, each room loses exactly the silent players at home in it |
| Ledgers.RecordedIsKept | internal/mono/server.go:341-823 | beside the tables, the books of each match (what was dealt, each accepted landing, each layer) follow every request |
| Ledgers.EveryRunIsBooked | internal/mono/server.go:341-823 | every run of the server has such books beside it |
| Ledgers.RunningMatchesBalance | internal/mono/server.go:793-823 | in every state of every run of the server those books balance for every running match: bubbles and score of each game, landings against shots, anchoring after a placed landing, the exact deadline |
| MonoRules.OutcomeNamesTheSurvivor | internal/mono/server.go:746-791 | a match ends by outcome exactly when someone lost and one member did not, and that one is named |
| Outcomes.OutcomeIsExact | internal/mono/server.go:746-791 | a match is ended exactly if some member has lost, one has not, and no other member with a game is still in; that one is named, the match is dropped, and nothing else changes |
| Outcomes.DecidedMatchesEnd | internal/mono/server.go:639-675 | over runs: after a poll or a landing no match is left running with one survivor, unless that poll has just added layers, and one so left is over after the next poll, won by that survivor |
| Outcomes.PollLeavesOverdueIff | internal/mono/server.go:655-661 | a poll leaves a match running with one survivor exactly if it adds n layers and n layers push every member's board but one to the last row; n is 0 unless everybody is playing and idle, and otherwise the passed deadlines or what the deepest board can take, whichever is less |
| Outcomes.PollMayLeaveOverdue | internal/mono/server.go:655-661 | four requests after which a decided match is still running |
| Outcomes.PollAddsDueLayers | internal/mono/server.go:639-661 | a poll adds n layers to every board and n times ten seconds to the deadline, n being positive exactly if the deadline has passed, and stops only ahead of the clock or with somebody at the last row |
| Outcomes.RemovalIsExact | internal/mono/server.go:705-744 | a removal changes only that room, its match and that home; the last one out closes it, the owner stays if it can, and a match left with one member ends, won by it if it has not lost |
| MonoRules.MirrorBreaksOnSecondJoin | internal/mono/server.go:401-406 | one request keeps rooms and homes mirrored exactly when it is not by someone at home in one room entering another |
| MonoRules.MirroredRunsNeverJoinTwice | internal/mono/server.go:341-429 | over whole runs: they mirror each other in every state exactly when no request was such a second join |
| MonoRules.SecondJoinHappens | internal/mono/server.go:376-409 | a reachable state in which they do not |
| MonoRules.PendingShotFreezes | internal/mono/server.go:604-637 | frozen board on the server: until the match is over or dealt anew, no request of anybody, refused starts included, changes the board or colours under a pending shot |
| Mono.CountOutcome | internal/mono/server.go:755-767 | the loop's alive list and loser count are those of the members with a game |
| Mono.Server.constructor | internal/mono/server.go:91-103 | starts with empty tables |
| Mono.Server.LastStanding | internal/mono/server.go:726-733 | names the single remaining member if it has not lost |
| Mono.Server.Abandon | internal/mono/server.go:727-736 | shows that member as the winner in its last state and drops the match |
| Mono.Server.RemovePlayer | internal/mono/server.go:705-744 | the tables change as the rules say, for some choice of new owner, and a match that ends by it shows its winner |
| Mono.Server.CreateRoom | internal/mono/server.go:352-369 | likewise, with the default name and the capacity clamped to 2 to 8 |
| Mono.Server.HandleJoin | internal/mono/server.go:390-406 | likewise, with the exact conditions of the not-found and full replies |
| Mono.Server.HandleLeave | internal/mono/server.go:421-426 | likewise |
| Mono.Server.HandleConnect | internal/mono/server.go:539-570 | admits exactly the players at home in the room, while it plays only with their ticket of that match, and counts it as a sign of life |
| Mono.Server.HandleBeat | internal/mono/server.go:611-612 | any other message only moves the sender's last sign of life |
| Mono.Server.HeartbeatSweep | internal/mono/server.go:677-703 | removes exactly the players silent for longer than the timeout and forgets them |
| Mono.Server.HandleStart | internal/mono/server.go:489-518 | likewise, with the exact conditions of each refusal, a ticket for each member and the starter's own in the reply |
| Mono.Server.MarkOutcome | internal/mono/server.go:774-787 | final verdicts: the survivor won, all others lost, nothing in flight |
| Mono.Server.ResolveRoomOutcome | internal/mono/server.go:746-791 | the match ends exactly when decided, and then its last states show the recorded winner |
| Mono.Server.HandleMessage | internal/mono/server.go:611-635 | a message is a sign of life, reaches its sender's game if it has one, and a landing may decide the match |
| Mono.Server.MaybeAddTopLayerTo | internal/mono/server.go:793-823 | the scheduler's turn on the tables, dropping the deadline of a room that does not play |
| Mono.Server.BuildState | internal/mono/server.go:639-675 | a poll ticks, settles the outcome and adds due layers, in that order; it then panics exactly when the poller had no game in the match |
| CommandLog.AppendKeepsTail | internal/room/service.go:220-223 | appending and truncating keeps the log the last 2048 of the history |
| CommandLog.Select | internal/room/service.go:235-240 | the filter loop returns the entries numbered above the reader's, in order |
| CommandLog.PullIsExact | internal/room/service.go:228-241 | one pull returns everything after the reader's number exactly when it is at most 2048 behind, and otherwise the last 2048 |
| CommandLog.FollowerReceivesAll | internal/room/service.go:228-241 | a reader never more than 2048 behind gets the whole history once and in order, from pulls at any lengths of it |
| RoomReaders.HistoryGrows | internal/room/service.go:198-226 | no request changes a room's history but by one input at its end |
| RoomReaders.ReaderMissesNothing | internal/room/service.go:198-241 | over whole runs of the manager with pulls among the requests: such a reader has at every point the first inputs of the room, once and in order, and after a pull all of them |
| CommandLog.LaggardMissesSome | internal/room/service.go:228-241 | a reader farther behind loses an input for good |
| RoomRules.JoinKeepsCoherent | internal/room/service.go:117-137 | an accepted join keeps the invariant |
| RoomRules.LeaveKeepsCoherent | internal/room/service.go:172-196 | a leave keeps it, with any remaining player as the new owner |
| RoomRules.SubmitKeepsCoherent | internal/room/service.go:198-226 | an accepted input keeps it: numbers stay consecutive and frames nondecreasing |
| RoomRules.ServeKeepsCoherent | internal/room/service.go:81-242 | so does every operation, accepted or refused |
| RoomRules.ServedIsCoherent | internal/room/service.go:81-303 | in every reachable state the two maps are inverse, rooms are non-empty, within capacity and owned by a member, one member means Idle, several mean Ready or Playing, all ready means Playing, Loading, Settlement and Closed are never stored, and the log is the tail of a numbered history with nondecreasing frames |
| RoomStates.UpdatedExactly | internal/room/service.go:266-296 | a room of two or more is ready while anybody is not ready and plays once everybody is, from then on if it never played before; nothing else changes |
| RoomStates.JoinLeavesReady | internal/room/service.go:117-137 | after an accepted join the room is ready, the newcomer is not, and everything else about it is as before |
| RoomStates.LeaveIsExact | internal/room/service.go:172-196 | a departure changes only that room, keeps the others' readiness and, if it can, the owner, and closes the room after the last one |
| RoomStates.PlaysIfReadyOrStarted | internal/room/service.go:139-170 | over whole runs: a room of two or more plays exactly if all are ready or its owner started it since anybody last came, went or changed readiness |
| RoomStates.PlayStartsOnce | internal/room/service.go:159-168 | the time of first play is set by the operation that makes the room play and never changes |
| RoomStates.FrameIsExact | internal/room/service.go:298-303 | the frame of a playing room is the number of whole frame lengths since it first played |
| RoomManager.Manager.constructor | internal/room/service.go:70-79 | starts empty, with 50 ms frames by default |
| RoomManager.Manager.UpdateRoomState | internal/room/service.go:266-296 | the room state recomputed after a change |
| RoomManager.Manager.CreateRoom | internal/room/service.go:81-105 | serves the request or refuses it for the rules' reason |
| RoomManager.Manager.JoinRoom | internal/room/service.go:117-137 | likewise |
| RoomManager.Manager.PlayerRoom | internal/room/service.go:254-264 | the lookup all other operations start with |
| RoomManager.Manager.SetReady | internal/room/service.go:139-150 | likewise, returning the room |
| RoomManager.Manager.StartGame | internal/room/service.go:152-170 | likewise, returning the room |
| RoomManager.Manager.LeaveRoom | internal/room/service.go:172-196 | likewise, for some choice of new owner, returning the room as it goes on or closed |
| RoomManager.Manager.SubmitInput | internal/room/service.go:198-226 | likewise, extending the room's history by the returned event |
| RoomManager.Manager.PullInputs | internal/room/service.go:228-242 | returns the missing part of the history, or its last 2048 entries, nothing to a reader ahead of it, the current frame and the room |
| SessionRules.LeaveEffect | internal/room/service.go:172-196 | a leave takes exactly that player out of every room and touches no other membership |
| SessionRules.DismissEffect | internal/gamesvc/server.go:338-350 | the effect of sending players out does not depend on their order or on who inherits in between |
| SessionRules.WinnerKeepsRoom | internal/gamesvc/server.go:338-350 | the winner keeps its room, and is alone in it, owner of an idle room, exactly when all its other members were sent out |
| SessionRules.HeardKeepsLost | internal/gamesvc/server.go:241-267 | no message revives a lost game |
| SessionRules.ActIsFair | internal/gamesvc/server.go:231-375 | no action revives a lost player or replaces a winner, and a winner is set exactly when the room is finalised |
| Winners.TimedOutExactly | internal/gamesvc/server.go:363-373 | a check strikes exactly the players heard of longer than the timeout ago and changes nothing else |
| Winners.BuildIsExact | internal/gamesvc/server.go:286-375 | a poll: once a winner stands nobody times out any more, until then exactly the silent lose, and every game is then at the time of the poll |
| Winners.ResolveIsExact | internal/gamesvc/server.go:325-350 | of two or more players the last one not lost is named and the others are sent out once; in any other case nothing happens |
| Winners.WinnerIsNamedAtOnce | internal/gamesvc/server.go:231-375 | over whole runs: in every state with one survivor it has been named the winner and the others have been sent out |
| SessionRules.WinnerIsFinal | internal/gamesvc/server.go:325-375 | over whole runs: the players not lost only shrink, a winner once set stays, even after losing its own board, and finalised holds exactly when a winner is set |
| SessionRules.DecisionEmptiesTheRoom | internal/gamesvc/server.go:325-350 | if the session's players are the members of the winner's room, a decision leaves the winner as sole member and owner of an idle room and no loser in the index, for every order and every handover |
| SessionRules.RunKeepsLobby | internal/gamesvc/server.go:231-375 | the room manager's invariant holds in every state of every run of a session beside it |
| SessionRules.FinalisationEmptiesTheRoom | internal/gamesvc/server.go:325-350 | over whole runs: whenever an action names the winner, and the session's players are the members of the winner's room then, it leaves the winner as sole member and owner of an idle room and no loser in the index |
| Sessions.GameSession.constructor | internal/gamesvc/server.go:405-423 | a new session: dealt games, a ticket each, everyone heard from, no winner |
| Sessions.HandleConnect | internal/gamesvc/server.go:161-191 | admits exactly who shows the ticket it was dealt, and counts it as a sign of life |
| Sessions.CollectAlive | internal/gamesvc/server.go:326-331 | lists, once each, the players who have not lost |
| Sessions.FinalizeRoomAfterWin | internal/gamesvc/server.go:338-350 | sends out everyone but the winner, once, and nobody if already finalised |
| Sessions.ResolveSession | internal/gamesvc/server.go:325-336 | names the survivor exactly when one of two or more is left |
| Sessions.StrikeSilent | internal/gamesvc/server.go:363-373 | exactly the players silent for longer than the timeout lose |
| Sessions.ApplyHeartbeatTimeouts | internal/gamesvc/server.go:352-375 | nothing once a winner stands or nobody was heard of; otherwise the silent lose and the outcome is settled |
| Sessions.BuildState | internal/gamesvc/server.go:286-298 | a poll strikes the silent, then ticks every game; it then panics exactly when the poller has no game in the session |
| Sessions.HandleHeartbeat | internal/gamesvc/server.go:268-273 | a heartbeat only moves the player's last sign of life |
| Sessions.HandleMessage | internal/gamesvc/server.go:241-267 | a message counts as a sign of life and reaches its sender's game, and a landing may decide the match; an aim from who has no game in the session brings the server down, and nothing else does |
| SessionTables.StrangersAreLeftOut | internal/gamesvc/server.go:423 | from a state without strangers, a change makes one exactly when it creates a session without someone connected to its room |
| SessionTables.StrangersNeedReplacement | internal/gamesvc/server.go:161-423 | over whole runs: nobody without a game is connected in any state exactly when no session was ever so created |
| SessionTables.StrangerHappens | internal/gamesvc/server.go:405-423 | three changes after which a player is connected to a session that has no game for it |
| SessionTables.GameServer.CreateSession | internal/gamesvc/server.go:378-432 | refuses without a room or players; otherwise a new session, its tickets in the reply, takes the place of any old one, whose connections stay |
| SessionTables.GameServer.HandleWSGame | internal/gamesvc/server.go:170-187 | a connection is added exactly for who shows the ticket of the session that the room has then |
| SessionTables.GameServer.ReadWS | internal/gamesvc/server.go:229-273 | a message reaches the session its room has by then, and takes the server down exactly as an aim of who has no game there |
| Packets.DecodeInvertsEncode | internal/protocol/packet.go:32-88 | reading back a written packet gives it and leaves exactly what follows |
| Packets.Layout | internal/protocol/packet.go:66-88 | the bytes of a packet one by one: magic number, version, reserved byte, command, number and length, high byte first, and the payload |
| Packets.StrictPrefixRunsDry | internal/protocol/packet.go:33-57 | every strict prefix of a packet is an end-of-stream error, and which one |
| Packets.OnlyEncodingsDecode | internal/protocol/packet.go:32-64 | exactly which bytes are accepted, and that re-encoding gives them back if and only if the reserved byte is 0 |
| Packets.FlagIsIgnored | internal/protocol/packet.go:42-48 | any packet with a reserved byte set reads as that packet, though nothing is written so |
| Packets.CutStreamReads | internal/protocol/packet.go:32-64 | a stream cut anywhere yields exactly the packets that arrived complete, then its end |
| Packets.StreamRoundTrip | internal/protocol/packet.go:32-88 | any sequence of packets within the limit is read back whole with nothing left over |
| Packets.StreamsAreUnique | internal/protocol/packet.go:66-88 | no two sequences of packets are written as the same bytes |
| Packets.PutUint32 | internal/protocol/packet.go:77-78 | fills four bytes of the buffer, high byte first, and no others |
| Packets.WritePacket | internal/protocol/packet.go:66-88 | appends the packet's encoding, as much of it as the connection takes with an error if that is not all, or nothing when the payload is too long |
| Packets.ReadPacket | internal/protocol/packet.go:32-64 | answers and consumes exactly as decoding the stream says, in every error case |

## Left out

- Floating point: rounding, overflow and NaN coordinates. Reals are exact, so
  the clearance of 826, the 817 steps, the frame bounds and the snapping
  results are those of exact arithmetic. `math.MaxFloat64` as the initial best
  distance is "none found yet".
- Real sine and cosine: any direction with cos² + sin² = 1 and sin ≤ −0.19
  stands for a clamped angle. π is a decimal literal.
- Go's 64-bit integers do not wrap in the model: scores, shot numbers, command
  numbers and millisecond clocks are unbounded.
- Room records and flying bubbles are values in the tables and objects' fields;
  that two table entries could point to the same room is not captured. Players'
  states are separate objects and are proved never to be shared.
- Layers.NearestEmptyInRow: no centre more than one column off the row, where
  the source would index outside it; its one caller passes columns of the row.
- Scheduler.TickAll: no state with a bubble in server-side flight. Only `Fire`
  makes one, neither server calls it, and that no player has one is part of the
  invariants; a single tick of a flying bubble is in `Engine` and `Flight`.
- Mono.Server.RemovePlayer: the closing of the player's connection; open
  connections are not modelled.
- Mono.Server.HandleStart: that tickets are random and secret; they are given.
- Tokens, log-in and users, and the parts of a reply that only copy the state
  out (`CloneState`, room listings, `Snapshot`).
- Frames are taken at the time an operation is served; for a clock before the
  start of play, which a monotone clock never shows, the model says frame 0.
- RoomManager.Manager.CreateRoom: room ids are assumed fresh, because they are
  nanosecond time stamps; two rooms created within one nanosecond are not
  modelled. The same holds of the other server's rooms.
- Sessions.FinalizeRoomAfterWin: the departures of one decision are served
  together; requests that other connections get in at the room manager between
  two of them are not modelled, only before and after.
- Sessions.HandleMessage: nothing is said of the server after the aim that
  brings it down.
- Sessions.BuildState: a panic of a poll ends its connection only, because
  `net/http` recovers it; that recovery, and the lock it releases, are taken for
  granted. The same holds of Mono.Server.BuildState.
- SessionTables.GameServer.ReadWS: that different sessions share no player state
  is not stated; each is created with states of its own.
- FrameRates.LandsByFrameBound: bounds on the frames between 19 and 20.4
  milliseconds.
- Packets.WritePacket: an error of the connection after it took every byte.
- Sockets, HTTP, gRPC, Redis, SQL and configuration: transport around the
  modelled steps.
- The lobby server with its cache of remote replies, the TCP gateway's
  sessions, and the per-room heartbeat monitor goroutine: weak state, or logic
  that repeats what is modelled here.
- That every match ends with a winner: the code does not promise it, since all
  boards can lose in the same round of layers.
