# crossroads — a verified model of the intersection simulator core

crossroads simulates one four-way road intersection (approaches North, East,
South, West). The parts modelled here are:

- **The safety kernel** (`SafetyChecker`). It judges an eight-light
  `IntersectionState` as safe or unsafe. It judges a change from one state to
  the next as a valid transition, given the time the orange lights have
  shown. It validates an `IntersectionConfig` (lanes, signal groups and lane
  connections). It decides whether a set of active signal groups is free of
  conflicting movements.
- **The light controllers.** `BasicLightController` cycles NS-green, NS-orange,
  EW-green and EW-orange, and commits a phase only when the safety kernel
  accepts the transition. `BasicControllerAdapter` wraps it.
  `NullControlController` is the fail-safe: it flashes every light orange,
  toggling once per whole second.
- **The engine supervisor** (`SimulatorEngine`). Each tick it advances the
  controller and lets vehicles start and finish crossing. It generates and
  moves traffic, then checks the lights. Unsafe lights count a safety
  violation and switch the engine to null control. It also handles the UI
  commands, the control-mode switches and the metrics.
- **The traffic generator** (`TrafficGenerator`). It spawns vehicles at a
  fixed interval: four per round, one per direction, in the order N, S, E, W.
  It chooses a lane and a movement, either from the configured lanes or by
  the legacy layout. It resolves each vehicle's destination through the lane
  connections. It applies lane changes and car-following speeds, starts and
  completes crossings, and reports queues and averages.
- **The configuration helpers.** These cover the approach and lane
  numbering, `effectiveToLaneCount`, the destination of a movement, and the
  default four-approach configuration with its synthesised lane connections.
- **The JSON configuration parser** (`intersectionConfigFromJson`). It works
  on a parsed JSON tree. It collects validation errors and produces the
  configuration.
- **The pure helpers of the HTTP UI server.** These are route decoding,
  status lines, `cmd=` extraction, content types, guarded web-file reading
  and response framing.

Each loop or state-changing operation of the source is a Dafny method, with
one exception: the loop of `readWebFile` over its two web roots is written out
as the function `HttpHelpers.ReadWebFile`, one step per root. Each method is
proved equal to a specification function (or to a new state expressed by
one), and the properties are proved about those functions as lemmas. The
objects the source updates in place are classes: `BasicLightController`, the
controllers, `TrafficGenerator` and `SimulatorEngine`.

Notes on the behaviour captured:

- `hasConflictingGreens` returns `true` when there is *no* conflict, and
  `isSafe` relies on that. The model follows the code.
- A lane change that finds no safe gap leaves the vehicle as it is. The
  code does this (src/TrafficGenerator.cpp:295-304). A vehicle that may not
  change lane at all does degrade to straight (`LaneChangeDegradesToStraight`).
- The legacy spawn layout numbers lanes `100 * Direction + i`, with the
  `Direction` order N, S, E, W. `laneIdFor` numbers them
  `100 * ApproachId + i`, with the order N, E, S, W. The two agree for North
  and West only (`LegacyNumberingDiffers`).
- Three cases in tests/test_safety.cpp:63-95 expect `isValidTransition` to
  reject a crossing light going green while the opposite light is active.
  The code has no such check: `checkCrossingLightSafety` looks only at the
  perpendicular corridor. The model follows the code and does not encode
  those cases.
- When `lane_connections` is absent, the parser synthesises connections
  with a `uint16_t` lane counter (src/IntersectionConfigJson.cpp:553). That
  loop never ends for an approach with 65536 lanes or more. The model
  returns `Diverges` there.

## Model

| member | source | states |
|---|---|---|
| Intersection.Uniform | include/Intersection.hpp:13-26 | every one of the eight lights shows the given colour |
| Intersection.DefaultState | include/Intersection.hpp:13-26 | a default-constructed state has all eight lights Red |
| Intersection.LightsInjective | include/Intersection.hpp:13-26 | two states with the same eight lights are the same state (the light listing loses nothing) |
| Intersection.ActiveIffNotRed | include/Intersection.hpp:6-11 | a light is one of three colours, and it is inactive exactly when it is Red |
| Configuration.ApproachIndex | include/IntersectionConfig.hpp:33-36 | every approach maps to a slot below 4 |
| Configuration.ApproachAt | include/IntersectionConfig.hpp:33-36 | slot to approach is the inverse of approachIndex |
| Configuration.DestinationIsElsewhere | include/IntersectionConfig.hpp:38-68 | no movement leads back to its own approach, and the three movements from one approach reach three different approaches |
| Configuration.StraightIsInvolution | include/IntersectionConfig.hpp:38-68 | going straight twice returns to the starting approach |
| Configuration.LaneIdForInjective | include/IntersectionConfig.hpp:28-31 | for lane indices below 100 the lane id is 100 * approach + index, and distinct (approach, index) pairs get distinct ids |
| Configuration.EffectiveToLaneCountSpec | include/IntersectionConfig.hpp:88-99 | the effective count is at least 1: the configured count if positive, else the lane count if there are lanes, else 1 |
| Configuration.FindLaneIndex | src/TrafficGenerator.cpp:241-249 | finds the first lane carrying the id, or none when no lane carries it |
| Configuration.AddUnique | src/TrafficGenerator.cpp:408-414 | the result holds exactly the movements of both inputs and keeps the accumulated prefix unchanged |
| Configuration.AddUniqueDistinct | src/TrafficGenerator.cpp:408-414 | adding movements without repeats to a list without repeats gives a list without repeats |
| Configuration.DefaultConnection | include/IntersectionConfig.hpp:148-157 | the synthesised target lane is within the destination's effective lane count and never above the source lane index |
| Configuration.InLaneConnectionsUpTo | include/IntersectionConfig.hpp:146-158 | a connection is synthesised for the first k lanes of an approach iff some allowed movement of one of them yields it |
| Configuration.InConnectionsUpTo | include/IntersectionConfig.hpp:141-160 | a connection is synthesised for the first i approaches iff some (approach, lane, allowed movement) among them yields it |
| Configuration.SynthesizedConnectionsSpec | include/IntersectionConfig.hpp:141-160 | the synthesised connections are exactly one per (approach, lane, allowed movement); each goes to the geometric destination, within its lane count |
| Configuration.SynthesizeConnections | include/IntersectionConfig.hpp:141-160 | the nested loops produce exactly the synthesised connection list |
| Configuration.PushMovementConnections | include/IntersectionConfig.hpp:146-158 | the inner loop appends one default connection per allowed movement of the lane, in order |
| Configuration.MakeDefaultIntersectionConfig | include/IntersectionConfig.hpp:127-163 | four approaches in slot order, three default lanes each, to-lane count 3, no signal groups, connections equal to the synthesised ones |
| SafetyChecker.ValidateLanes | src/SafetyChecker.cpp:25-47 | the lane pass succeeds iff every approach has lanes and all lane ids are distinct with movements; on success it has seen exactly all lane ids |
| SafetyChecker.ValidateApproachLanes | src/SafetyChecker.cpp:36-46 | one approach's lanes extend a well-formed prefix iff the longer list is still well-formed; the seen set grows accordingly |
| SafetyChecker.ValidateConfig | src/SafetyChecker.cpp:25-71 | validateConfig answers true exactly when the configuration satisfies the validity predicate (lanes, groups, lane references) |
| SafetyChecker.NewChecker | src/SafetyChecker.cpp:14-18 | a checker built from a configuration remembers it and caches whether it is valid |
| SafetyChecker.FindGroup | src/SafetyChecker.cpp:190-197 | finds a group with the requested id, or none when no group has it |
| SafetyChecker.FindApproachIn | src/SafetyChecker.cpp:73-88 | a lane resolves to the id of an approach holding it, and fails only when no approach holds it |
| SafetyChecker.Refs | src/SafetyChecker.cpp:207-210 | one movement reference per green movement, all from the lane's approach, in order |
| SafetyChecker.CollectLaneRefs | src/SafetyChecker.cpp:199-211 | the loop over controlled lanes computes the group's movement references, failing if a lane is unknown |
| SafetyChecker.PushRefs | src/SafetyChecker.cpp:207-210 | the inner loop appends the movement references of one lane |
| SafetyChecker.CollectActiveMovements | src/SafetyChecker.cpp:187-212 | the loop over active ids computes the union of their movement references, failing on an unknown group or lane |
| SafetyChecker.NoPairConflicts | src/SafetyChecker.cpp:214-224 | the double loop answers true iff no two collected movements conflict |
| SafetyChecker.AreSignalGroupsConflictFree | src/SafetyChecker.cpp:174-227 | areSignalGroupsConflictFree answers the conflict-freedom predicate: valid config, every group known and no conflicting pair |
| SafetyProperties.CrossCorridorGreensUnsafe | src/SafetyChecker.cpp:229-239 | a green north/south light together with a green east/west light is unsafe |
| SafetyProperties.CoaxialGreensSafe | src/SafetyChecker.cpp:229-263 | with east, west and every turn light Red, any north/south colours are safe |
| SafetyProperties.TurnGuards | src/SafetyChecker.cpp:241-263 | in a safe state each green turn light has its guarded crossing light Red |
| SafetyProperties.NoGreenIsSafe | src/SafetyChecker.cpp:229-263 | a state with no green light is always safe |
| SafetyProperties.DefaultStateSafe | src/SafetyChecker.cpp:229-263 | all-Red and all-Orange are safe, and all-Green is not |
| SafetyProperties.SafetyExamples | src/SafetyChecker.cpp:229-263 | a north+east green pair and a green turn over an active crossing light are unsafe; one green, or a green turn over a Red crossing light, is safe |
| SafetyProperties.NextColour | src/SafetyChecker.cpp:274-298 | the successor colour always differs from the current one |
| SafetyProperties.ValidForLightIsStayOrAdvance | src/SafetyChecker.cpp:274-298 | a single light may only stay or advance one step in the cycle Red, Green, Orange |
| SafetyProperties.SkippingOrangeRejected | src/SafetyChecker.cpp:274-298 | any light going straight from Green to Red makes the transition invalid |
| SafetyProperties.EarlyOrangeToRedRejected | src/SafetyChecker.cpp:300-316 | an Orange-to-Red change before the orange duration makes the transition invalid |
| SafetyProperties.ValidityMonotoneInDt | src/SafetyChecker.cpp:300-316 | a transition valid after some time stays valid after a longer time |
| SafetyProperties.DtIrrelevantWithoutOrangeToRed | src/SafetyChecker.cpp:300-316 | without an Orange-to-Red change the elapsed time does not matter |
| SafetyProperties.ValidTransitionTargetSafe | src/SafetyChecker.cpp:265-272 | the target of a valid transition is a safe state |
| SafetyProperties.StayingValidIffSafe | src/SafetyChecker.cpp:265-272 | staying in the same state is a valid transition exactly when that state is safe |
| SafetyProperties.TransitionNotSymmetric | src/SafetyChecker.cpp:274-298 | Green to Orange is valid, but Orange back to Green is not |
| SafetyProperties.CrossingGuard | src/SafetyChecker.cpp:318-338 | a north/south light turning green requires east and west Red afterwards; an east/west light turning green requires north Red |
| SafetyProperties.TurningTransitionsRepeatTurnSafety | src/SafetyChecker.cpp:340-362 | the turning-transition check is the same test as the turning-safety check on the new state |
| SafetyProperties.OrangeTimingExample | src/SafetyChecker.cpp:300-316 | Orange to Red is rejected after 1 s and accepted after 2 s |
| SafetyProperties.DestinationForAgrees | src/SafetyChecker.cpp:90-121 | the checker's own destination table agrees with destinationApproachFor |
| SafetyProperties.ConflictIrreflexive | src/SafetyChecker.cpp:131-172 | a movement never conflicts with itself |
| SafetyProperties.ConflictSymmetric | src/SafetyChecker.cpp:131-172 | the conflict relation is symmetric |
| SafetyProperties.SharedEndConflicts | src/SafetyChecker.cpp:131-172 | two different movements from one approach, or two movements into the same approach, conflict |
| SafetyProperties.OpposingMovements | src/SafetyChecker.cpp:123-172 | opposing straights do not conflict; opposing lefts and perpendicular straights do |
| SafetyProperties.PairwiseIffAllPairs | src/SafetyChecker.cpp:214-224 | the triangular double loop's test equals "no two positions conflict" over all pairs |
| SafetyProperties.ActiveMovementsContents | src/SafetyChecker.cpp:187-212 | collection succeeds iff every active id resolves, and then holds exactly the movements of the active groups |
| SafetyProperties.ConflictFreeOrderIndependent | src/SafetyChecker.cpp:174-227 | the verdict depends only on the set of active ids, not their order or repetition |
| SafetyProperties.NoActiveGroupsConflictFree | src/SafetyChecker.cpp:174-227 | with a valid configuration, no active groups is conflict-free |
| SafetyProperties.DefaultLanesWellFormed | include/IntersectionConfig.hpp:127-139 | the default layout has lanes on every approach, distinct ids, and every laneIdFor(a, i) for i < 3 |
| SafetyProperties.DefaultConfigValid | src/SafetyChecker.cpp:25-71 | the default layout without signal groups passes validateConfig |
| SafetyProperties.DefaultLaneResolves | src/SafetyChecker.cpp:73-88 | in the default layout lane 0 of each approach resolves to that approach |
| SafetyProperties.CrossingGroupsRejected | src/SafetyChecker.cpp:174-227 | a north/south straight group active with an east/west straight group is rejected |
| SafetyProperties.SingleGroupAccepted | src/SafetyChecker.cpp:174-227 | a single north/south straight group has no conflicting pair |
| SafetyProperties.SignalGroupExample | src/SafetyChecker.cpp:174-227 | in a two-group configuration both groups together are rejected, one alone is accepted, and an unknown id is rejected |
| BasicController.PhasePattern | src/BasicLightController.cpp:21-53 | every phase keeps the turn lights Red and lights exactly one corridor, with both lights of it equal; green phases show green, orange phases orange |
| BasicController.Settle | src/BasicLightController.cpp:90-135 | the tick loop ends inside the current phase's duration; it advances at most two phases, each only after the phase's time ran out, and it restarts the phase clock when it moves |
| BasicController.BasicLightController.constructor | src/BasicLightController.cpp:6-11 | the controller keeps both green durations and starts in NS-green with a zero clock |
| BasicController.BasicLightController.Reset | src/BasicLightController.cpp:13-19 | reset returns to NS-green with a zero clock and the NS-green pattern |
| BasicController.BasicLightController.TransitionToNextPhase | src/BasicLightController.cpp:55-88 | the next phase is committed iff the safety kernel accepts the transition; otherwise nothing changes |
| BasicController.BasicLightController.Tick | src/BasicLightController.cpp:90-135 | the clock after a tick is the specified step of the phase clock, and the lights shown are always safe |
| BasicController.BasicLightController.GetCurrentState | src/BasicLightController.cpp:137-140 | the state returned is the current phase's pattern, which is safe |
| BasicController.PhasePatternSafe | src/BasicLightController.cpp:21-53 | every phase pattern is safe |
| BasicController.PhaseSuccessorValid | src/BasicLightController.cpp:77-88 | moving from any phase to its successor is always a valid transition, so no commit is ever refused |
| BasicController.CycleOrder | src/BasicLightController.cpp:55-75 | the phases form a cycle of exactly four, alternating green and orange |
| BasicController.StepAtMostOneChange | src/BasicLightController.cpp:90-135 | with positive durations a tick changes phase at most once, exactly when the phase time runs out; the clock stays in range |
| BasicController.RunElapsedBounded | src/BasicLightController.cpp:90-135 | over any sequence of ticks the phase clock stays between zero and the total time spent |
| BasicController.PhaseLeftOnlyAfterDuration | src/BasicLightController.cpp:95-116 | a phase is left only after at least its full duration has elapsed |
| BasicController.OrangeDwell | src/BasicLightController.cpp:95-116 | an orange phase lasts at least the orange duration |
| BasicController.CadenceExample | src/BasicLightController.cpp:90-135 | with 1 s greens the cycle goes NS-green, NS-orange, EW-green, EW-orange at the expected ticks |
| Controllers.BasicControllerAdapter.constructor | include/TrafficLightControllers.hpp:20-23 | the adapter owns a fresh basic controller with the given durations at its initial clock |
| Controllers.BasicControllerAdapter.Tick | include/TrafficLightControllers.hpp:25-28 | tick steps the wrapped controller's clock as specified |
| Controllers.BasicControllerAdapter.GetCurrentState | include/TrafficLightControllers.hpp:30-33 | returns the wrapped controller's phase pattern, which is safe |
| Controllers.BasicControllerAdapter.Reset | include/TrafficLightControllers.hpp:35-38 | reset restores the wrapped controller's initial clock |
| Controllers.FlashPattern | include/TrafficLightControllers.hpp:77-88 | all eight lights are Orange when the flash is on and Red when it is off |
| Controllers.WholeSeconds | include/TrafficLightControllers.hpp:56-61 | no whole second has passed exactly when less than 1 s has accumulated |
| Controllers.NullControlController.constructor | include/TrafficLightControllers.hpp:47-51 | the flasher starts with a zero clock and the orange flash on |
| Controllers.NullControlController.ApplyPattern | include/TrafficLightControllers.hpp:77-88 | the lights are set to the flash pattern, and the clock and flash flag are unchanged |
| Controllers.NullControlController.Tick | include/TrafficLightControllers.hpp:53-62 | the clock and flash flag after a tick are the flash function of the accumulated time |
| Controllers.NullControlController.GetCurrentState | include/TrafficLightControllers.hpp:64-67 | returns the flash pattern, which is safe |
| Controllers.NullControlController.Reset | include/TrafficLightControllers.hpp:69-74 | reset gives a zero clock, flash on and all lights Orange |
| Controllers.FlashPatternSafe | include/TrafficLightControllers.hpp:77-88 | the flash pattern is safe and never shows Green |
| Controllers.FlashSpec | include/TrafficLightControllers.hpp:53-62 | after a tick the clock lies in [0, 1) and differs from the total by whole seconds; the flag flipped iff an odd number of seconds passed |
| Controllers.FlashClockBounded | include/TrafficLightControllers.hpp:53-62 | a clock kept below 1 s stays below 1 s after any non-negative tick |
| Controllers.OpaqueController.constructor | include/TrafficLightControllers.hpp:8-15 | a controller seen only through its interface starts with its behaviour's initial lights and hidden state |
| Controllers.OpaqueController.Tick | include/TrafficLightControllers.hpp:12 | tick moves the controller's hidden state and lights on by its own tick behaviour, so the next lights may depend on timers that the lights do not show |
| Controllers.OpaqueController.GetCurrentState | include/TrafficLightControllers.hpp:13 | returns the current lights |
| Controllers.OpaqueController.Reset | include/TrafficLightControllers.hpp:14 | reset restores the behaviour's reset lights and hidden state |
| Vehicles.DirectionIndex | include/Vehicle.hpp:9-15 | every direction has a number below 4 |
| Vehicles.DirectionAt | include/Vehicle.hpp:9-15 | number to direction is the inverse of the numbering |
| Vehicles.NewVehicle | include/Vehicle.hpp:27-29 | a new vehicle keeps its id, lane and arrival, has no crossing or exit time, and is waiting |
| Vehicles.WaitTime | include/Vehicle.hpp:35-40 | -1 while waiting; otherwise the time from arrival to the start of crossing |
| Vehicles.CrossingDuration | include/Vehicle.hpp:42-47 | -1 until crossed; otherwise the time from the start of crossing to exit |
| Vehicles.StatusExclusive | include/Vehicle.hpp:31-33 | a vehicle is waiting, crossing or crossed, and never both waiting and crossing or both crossing and crossed |
| Vehicles.LifecycleStamps | include/Vehicle.hpp:31-47 | stamping the crossing and exit times moves a waiting vehicle through crossing to crossed, and wait plus crossing time is exit minus arrival |
| TrafficModel.Initial | src/TrafficGenerator.cpp:308-320 | a new generator is well-formed and holds no vehicles |
| TrafficModel.SpawnInterval | src/TrafficGenerator.cpp:354-359 | the interval is positive: 1e6 s for a non-positive rate, else the reciprocal of the rate |
| TrafficModel.ConnectedLaneIndices | src/TrafficGenerator.cpp:385-392 | exactly the indices of lanes connected to the intersection |
| TrafficModel.StraightCount | src/TrafficGenerator.cpp:467-474 | the count of straight-going vehicles never exceeds the queue length |
| TrafficModel.LegacyRoute | src/TrafficGenerator.cpp:458-484 | legacy routing only sets the route fields; id, times and motion are untouched |
| TrafficModel.ConfiguredRoute | src/TrafficGenerator.cpp:417-450 | configured routing only sets the route fields; id, times and motion are untouched |
| TrafficModel.SpawnedVehicle | src/TrafficGenerator.cpp:375-485 | no vehicle is produced exactly when configured spawns are on and the approach has lanes but none connected; otherwise it is the new vehicle with route fields set |
| TrafficModel.SpawnBookkeeping | src/TrafficGenerator.cpp:375-402 | preparing a spawn always uses up one id and leaves queues, time and crossed list alone |
| TrafficModel.SpawnOne | src/TrafficGenerator.cpp:373-496 | one spawn uses up exactly one id and keeps the time and crossed list |
| TrafficModel.SpawnFrom | src/TrafficGenerator.cpp:370-497 | spawning the remaining directions of a round uses up one id per direction |
| TrafficModel.SpawnRound | src/TrafficGenerator.cpp:370-497 | a round uses up four ids and keeps the time and crossed list |
| TrafficModel.Intervals | src/TrafficGenerator.cpp:366-368 | no spawn round runs exactly when less than one interval has accumulated |
| TrafficModel.IntervalsStep | src/TrafficGenerator.cpp:366-368 | each round taken out of at least one interval lowers the remaining round count by one |
| TrafficModel.LaneChangesFrom | src/TrafficGenerator.cpp:232-305 | the lane-change pass keeps the queue length |
| TrafficModel.AheadIn | src/TrafficGenerator.cpp:613-620 | the leader is the last non-crossing vehicle in the same lane ahead, or -1 when there is none |
| TrafficModel.AheadIndex | src/TrafficGenerator.cpp:613-620 | the leader's index is strictly before the vehicle's own, or -1 |
| TrafficModel.DesiredGap | src/TrafficGenerator.cpp:624-631 | the desired gap is never less than one car length |
| TrafficModel.TargetPosition | src/TrafficGenerator.cpp:634-639 | the target never passes the stop line, nor the leader minus the minimum front distance |
| TrafficModel.SpeedPass | src/TrafficGenerator.cpp:603-722 | the speed pass keeps the queue length |
| TrafficModel.UpdateSpeeds | src/TrafficGenerator.cpp:589-725 | updating speeds changes no ids, cursors, clock or crossed list |
| TrafficModel.CompleteFrom | src/TrafficGenerator.cpp:517-534 | completing a crossing changes no ids, cursors or clock |
| TrafficModel.Reset | src/TrafficGenerator.cpp:578-587 | after reset the generator holds no vehicles |
| TrafficModel.QueueDensity | src/TrafficGenerator.cpp:727-730 | density lies in [0, 1], is 1 exactly from ten vehicles on, and is length/10 below that |
| TrafficModel.LaneVehicleStateOf | src/TrafficGenerator.cpp:745-759 | the reported state copies the vehicle's id, crossing flag, times, position, speed and lane |
| TrafficProperties.SpawnOneEffect | src/TrafficGenerator.cpp:373-496 | one spawn touches only its own direction: nothing is queued when there is nothing to spawn, else exactly the new vehicle is appended |
| TrafficProperties.SpawnRoundEffect | src/TrafficGenerator.cpp:370-497 | a round gives N, S, E, W the ids n, n+1, n+2, n+3, each queue either kept or extended by exactly that vehicle |
| TrafficProperties.LegacyStraightAlternates | src/TrafficGenerator.cpp:465-476 | two consecutive legacy straight vehicles take different lanes among the first two |
| TrafficProperties.LegacyNumberingDiffers | src/TrafficGenerator.cpp:469-482 | legacy lane ids are 100 * direction + index and agree with laneIdFor only for North and West |
| TrafficProperties.ConfiguredSpawnLane | src/TrafficGenerator.cpp:399-450 | a configured spawn lands on a connected lane of its approach, and its destination lane is in range with the matching lane id |
| TrafficProperties.AvailableMovementsSpec | src/TrafficGenerator.cpp:404-415 | the available movements have no repeats and are exactly those allowed on some connected lane |
| TrafficProperties.LaneRewrittenOnlyWithGap | src/TrafficGenerator.cpp:220-306 | a vehicle changes lane only if waiting, allowed, before the commit point, on a lane not allowing its movement, with a safe gap, onto a candidate lane |
| TrafficProperties.LaneChangeDegradesToStraight | src/TrafficGenerator.cpp:261-277 | a vehicle on a wrong lane that may not change lane goes straight on its own lane |
| TrafficProperties.LaneChangesKeepBodies | src/TrafficGenerator.cpp:232-305 | lane changes never alter ids, times or motion |
| TrafficProperties.LaneChangesCrossingUntouched | src/TrafficGenerator.cpp:236-239 | vehicles already crossing are left untouched by lane changes |
| TrafficProperties.SpeedPassClamps | src/TrafficGenerator.cpp:698-721 | after the speed pass every waiting vehicle's speed and position are in range, and stopped before the line when it may not move |
| TrafficProperties.SpeedPassKeepsCrossing | src/TrafficGenerator.cpp:607-608 | crossing vehicles are skipped, and the pass changes only position and speed |
| TrafficProperties.UpdateQueueClamps | src/TrafficGenerator.cpp:589-725 | a whole direction update keeps the length, clamps every waiting vehicle, and leaves crossing vehicles alone |
| TrafficProperties.StartCrossingSpec | src/TrafficGenerator.cpp:502-515 | startCrossing succeeds iff the id is at the queue head; it then stamps only that vehicle, otherwise nothing changes |
| TrafficProperties.CompleteFromSpec | src/TrafficGenerator.cpp:517-534 | the scan from the k-th direction succeeds iff a queue head from there on has the id; it then pops the head of the first such queue only and logs it as crossed with its exit time; otherwise nothing changes; population is kept |
| TrafficProperties.CompleteCrossingSpec | src/TrafficGenerator.cpp:517-534 | completeCrossing succeeds iff some queue head has the id; the snapshot is then exactly the one where the first such queue in the order North, South, East, West lost its head and that vehicle, exit time stamped, was appended to the crossed list; otherwise nothing changes; population is kept |
| TrafficProperties.AverageWaitBounds | src/TrafficGenerator.cpp:564-576 | the average wait of crossed vehicles lies between the least and greatest individual wait |
| Routing.FirstIndex | src/TrafficGenerator.cpp:117-150 | the first position of an element, or the length when it is absent |
| Routing.SpawnMovementIndex | src/TrafficGenerator.cpp:117-150 | for a non-empty movement list the chosen index is in range |
| Routing.ChooseSpawnMovementIndex | src/TrafficGenerator.cpp:117-150 | the search loops compute the specified movement index |
| Routing.SpawnMovementChoice | src/TrafficGenerator.cpp:117-150 | ids ending 0-5 go straight, 6-7 right and 8-9 left when available, else the first listed movement; the index is the first occurrence |
| Routing.NearestPos | src/TrafficGenerator.cpp:182-193 | picks the earliest candidate at minimal distance from the current lane |
| Routing.PreferredLaneIndex | src/TrafficGenerator.cpp:152-194 | the preferred lane is the current one or a connected lane allowing the movement |
| Routing.CollectCandidates | src/TrafficGenerator.cpp:154-166 | the loop collects the candidate lanes in index order |
| Routing.NearestCandidate | src/TrafficGenerator.cpp:182-193 | the loop returns the earliest nearest candidate |
| Routing.ChoosePreferredLaneIndex | src/TrafficGenerator.cpp:152-194 | the method computes the specified preferred lane |
| Routing.CandidatesUpToSpec | src/TrafficGenerator.cpp:154-166 | the candidates are exactly the connected lanes allowing the movement, in increasing order |
| Routing.PreferredLaneIsCandidate | src/TrafficGenerator.cpp:152-194 | with no candidate the lane stays; otherwise a lane allowing the movement is chosen |
| Routing.PreferredRightIsHighest | src/TrafficGenerator.cpp:173-176 | a right turn prefers the highest-index candidate |
| Routing.PreferredLeftIsLowest | src/TrafficGenerator.cpp:177-180 | a left turn prefers the lowest-index candidate |
| Routing.PreferredStraightIsNearest | src/TrafficGenerator.cpp:182-193 | straight traffic prefers the nearest candidate, the lower index on ties |
| Routing.FirstConnection | src/TrafficGenerator.cpp:64-75 | the position of the first connection matching (approach, lane, movement), or the length |
| Routing.FindLaneConnection | src/TrafficGenerator.cpp:64-75 | finds a matching connection, or none when no connection matches |
| Routing.ResolveVehicleRoute | src/TrafficGenerator.cpp:77-115 | sets the movement and the turning flag; reports whether a connection matched; the destination approach is the first matching connection's, otherwise the geometric one; the requested lane (the connection's target, else the vehicle's own index) is kept when below the destination's outgoing lane count and otherwise becomes its last lane; id = laneIdFor |
| Routing.ExplicitConnectionWins | src/TrafficGenerator.cpp:77-115 | a matching lane connection decides the destination approach, and its in-range lane index is used as is |
| Routing.HasSafeGapForLaneChange | src/TrafficGenerator.cpp:196-218 | the loop answers the safe-gap predicate for the target lane |
| Traffic.CollectConnectedLanes | src/TrafficGenerator.cpp:385-392 | the loop collects exactly the connected lane indices |
| Traffic.AddMovements | src/TrafficGenerator.cpp:408-414 | the loop adds unseen movements in order |
| Traffic.CollectAvailableMovements | src/TrafficGenerator.cpp:404-415 | the nested loops collect the available movements of the connected lanes |
| Traffic.CountStraight | src/TrafficGenerator.cpp:467-474 | the loop counts the straight-going vehicles |
| Traffic.RouteLegacy | src/TrafficGenerator.cpp:458-484 | the method performs the specified legacy routing |
| Traffic.RouteConfigured | src/TrafficGenerator.cpp:417-450 | the method performs the specified configured routing |
| Traffic.FindAhead | src/TrafficGenerator.cpp:613-620 | the backward search finds the specified leader |
| Traffic.ComputeTargetSpeed | src/TrafficGenerator.cpp:606-693 | the method computes the specified target speed |
| Traffic.UpdateOneSpeed | src/TrafficGenerator.cpp:604-721 | one vehicle's update is the specified speed step |
| Traffic.UpdateQueueSpeeds | src/TrafficGenerator.cpp:603-722 | the loop over a queue is the specified speed pass |
| Traffic.ChangeLaneOne | src/TrafficGenerator.cpp:234-304 | one vehicle's update is the specified lane-change step |
| Traffic.ChangeLanes | src/TrafficGenerator.cpp:232-305 | the loop over a queue is the specified lane-change pass |
| Traffic.TrafficGenerator.Default | src/TrafficGenerator.cpp:308-313 | the default generator uses the default configuration, legacy spawns and an empty initial state |
| Traffic.TrafficGenerator.constructor | src/TrafficGenerator.cpp:315-320 | a generator built from a configuration uses configured spawns and an empty initial state |
| Traffic.TrafficGenerator.SetQueue | src/TrafficGenerator.cpp:322-336 | replaces one direction's queue and nothing else |
| Traffic.TrafficGenerator.GetNextSpawnInterval | src/TrafficGenerator.cpp:354-359 | returns the spawn interval of the arrival rate |
| Traffic.TrafficGenerator.TakeId | src/TrafficGenerator.cpp:375 | hands out the next id exactly once |
| Traffic.TrafficGenerator.AdvanceCursor | src/TrafficGenerator.cpp:399-402 | returns the connected lane under the cursor and moves that approach's cursor one step round |
| Traffic.TrafficGenerator.PrepareConfigured | src/TrafficGenerator.cpp:377-451 | configured preparation does the specified bookkeeping and yields the specified vehicle |
| Traffic.TrafficGenerator.SpawnOnConnected | src/TrafficGenerator.cpp:399-450 | with connected lanes, the cursor advances and the vehicle is routed on the chosen lane |
| Traffic.TrafficGenerator.PrepareLegacy | src/TrafficGenerator.cpp:452-484 | legacy preparation does the specified bookkeeping and yields the specified vehicle |
| Traffic.TrafficGenerator.PrepareSpawn | src/TrafficGenerator.cpp:375-485 | spawn preparation does the specified bookkeeping and yields the specified vehicle |
| Traffic.TrafficGenerator.Enqueue | src/TrafficGenerator.cpp:490-495 | appends the vehicle to its direction's queue |
| Traffic.TrafficGenerator.SpawnVehicle | src/TrafficGenerator.cpp:373-496 | the generator's new state is one specified spawn |
| Traffic.TrafficGenerator.SpawnRoundNow | src/TrafficGenerator.cpp:370-497 | the generator's new state is one specified round |
| Traffic.TrafficGenerator.SpawnLoopTurn | src/TrafficGenerator.cpp:366-498 | one loop turn removes one interval and runs one round |
| Traffic.TrafficGenerator.RunSpawnLoop | src/TrafficGenerator.cpp:366-499 | the loop runs rounds until less than one interval remains |
| Traffic.TrafficGenerator.AddTime | src/TrafficGenerator.cpp:363 | adds the tick to the accumulated time only |
| Traffic.TrafficGenerator.AccumulateAndSpawn | src/TrafficGenerator.cpp:363-499 | accumulating a tick and running the loop gives the specified state |
| Traffic.TrafficGenerator.GenerateTraffic | src/TrafficGenerator.cpp:361-500 | generateTraffic's new state is the specified generation step |
| Traffic.TrafficGenerator.StartCrossing | src/TrafficGenerator.cpp:502-515 | state and result agree with the specified start of crossing |
| Traffic.TrafficGenerator.CompleteCrossing | src/TrafficGenerator.cpp:517-534 | state and result agree with the specified completion of crossing |
| Traffic.TrafficGenerator.GetQueueLength | src/TrafficGenerator.cpp:536-550 | returns the length of the direction's queue |
| Traffic.TrafficGenerator.GetTotalWaiting | src/TrafficGenerator.cpp:552-556 | waiting plus crossed vehicles is the population |
| Traffic.TrafficGenerator.PeekNextVehicle | src/TrafficGenerator.cpp:558-562 | no vehicle iff the queue is empty, else its head |
| Traffic.TrafficGenerator.GetTotalGenerated | include/TrafficGenerator.hpp:60 | the total generated is one less than the next id |
| Traffic.TrafficGenerator.GetTotalCrossed | include/TrafficGenerator.hpp:63 | the total crossed is the length of the crossed list |
| Traffic.TrafficGenerator.GetAverageWaitTime | src/TrafficGenerator.cpp:564-576 | returns the average wait of crossed vehicles, bounded by AverageWaitBounds |
| Traffic.TrafficGenerator.Reset | src/TrafficGenerator.cpp:578-587 | the new state is the specified empty reset state |
| Traffic.TrafficGenerator.MaybeApplyLaneChanges | src/TrafficGenerator.cpp:220-306 | applies lane changes only in configured mode, as specified |
| Traffic.TrafficGenerator.UpdateDirection | src/TrafficGenerator.cpp:597-722 | replaces one queue by its specified lane-change and speed update |
| Traffic.TrafficGenerator.UpdateVehicleSpeeds | src/TrafficGenerator.cpp:589-725 | the new state is the specified update of all four queues |
| Traffic.TrafficGenerator.GetAverageQueueDensity | src/TrafficGenerator.cpp:727-730 | returns the queue density of the direction |
| Traffic.TrafficGenerator.GetLaneVehicleStates | src/TrafficGenerator.cpp:732-761 | one reported state per queued vehicle, in queue order |
| SpawnLoop.RoundsIds | src/TrafficGenerator.cpp:366-368 | the spawn loop uses up four ids for each whole interval accumulated |
| SpawnLoop.RoundsKeepCrossed | src/TrafficGenerator.cpp:366-368 | the spawn loop never touches the crossed list |
| SpawnLoop.RoundsKeepQueued | src/TrafficGenerator.cpp:366-368 | the spawn loop only appends: every old queue is a prefix of the new one |
| SpawnLoop.RoundsTime | src/TrafficGenerator.cpp:366-368 | the loop leaves less than one interval, and a non-negative clock stays non-negative |
| SpawnLoop.IntervalsSpec | src/TrafficGenerator.cpp:366-368 | the round count is the floor of the accumulated time divided by the interval |
| SpawnLoop.RoundAtEffect | src/TrafficGenerator.cpp:370-497 | each round uses four ids, keeps the crossed list and only appends to queues |
| SpawnLoop.Accumulate | src/TrafficGenerator.cpp:363-499 | any round that uses four ids and only appends gives: ids grow by 4 per interval, under one interval left, crossed kept, queues extended |
| SpawnLoop.GenerateSpec | src/TrafficGenerator.cpp:361-500 | generateTraffic uses four ids per elapsed interval, leaves under one interval, keeps the crossed list and only appends to queues |
| Engine.CanMove | src/SimulatorEngine.cpp:98-102 | the can-move flags list, per direction, whether that direction's light is green |
| Engine.FindApproachById | src/SimulatorEngine.cpp:31-38 | finds the first approach entry with the id, or none when no entry has it |
| Engine.FindLaneConfig | src/SimulatorEngine.cpp:29-48 | nothing is found exactly when the direction has no approach entry or its first entry holds no lane with the id; a lane found carries the id and belongs to that entry |
| Engine.StartQueue | src/SimulatorEngine.cpp:131-155 | starting crossings keeps the queue length |
| Engine.CompleteDueFrom | src/SimulatorEngine.cpp:159-175 | completing due crossings changes no cursors or ids |
| Engine.MoveStep | src/SimulatorEngine.cpp:97-105 | moving vehicles changes no cursors or ids |
| Engine.LitAmong | src/SimulatorEngine.cpp:496-524 | keeps exactly the listed movements whose light is active |
| Engine.LitMovements | src/SimulatorEngine.cpp:496-524 | the lit movements are exactly those whose light is active |
| Engine.ListIds | src/SimulatorEngine.cpp:526 | the id list holds each active group exactly once |
| Engine.StepsLeftDecrease | src/SimulatorEngine.cpp:79-86 | each step of the simulate loop brings it closer to the end |
| Engine.SimulatorEngine.constructor | src/SimulatorEngine.cpp:56-77 | the engine keeps the configuration and durations, builds a fresh controller, and caches the config's validity |
| Engine.SimulatorEngine.Default | src/SimulatorEngine.cpp:51-54 | the default engine holds the default configuration (four approaches in slot order with the default lanes, outgoing lane count 3, no signal groups, synthesised connections), the given durations and the cached validity; it is stopped, in Basic mode at time 0, with a basic controller of those durations at its initial clock showing the NS-green pattern |
| Engine.SimulatorEngine.AdvanceController | src/SimulatorEngine.cpp:177-180 | the controller's lights become its ticked lights |
| Engine.SimulatorEngine.GetCurrentLightState | src/SimulatorEngine.cpp:182-185 | returns the controller's lights |
| Engine.SimulatorEngine.IsLightGreen | src/SimulatorEngine.cpp:434-449 | answers whether the direction's light is green |
| Engine.SimulatorEngine.SetControlMode | src/SimulatorEngine.cpp:391-412 | sets the mode only; installs a fresh basic, group or flashing controller as the mode and configuration demand, at its reset lights |
| Engine.SimulatorEngine.SetController | src/SimulatorEngine.cpp:419-427 | installs the custom controller, reset to its reset lights and hidden state, and records the mode |
| Engine.SimulatorEngine.StartOne | src/SimulatorEngine.cpp:133-155 | a vehicle is stamped with the current time iff it may start crossing |
| Engine.SimulatorEngine.StartDirection | src/SimulatorEngine.cpp:129-156 | replaces one queue by its specified crossing starts |
| Engine.SimulatorEngine.ProcessVehicleCrossings | src/SimulatorEngine.cpp:125-157 | the new traffic state is the specified start of crossings |
| Engine.SimulatorEngine.CompleteDirection | src/SimulatorEngine.cpp:162-173 | completes the head of one queue iff its crossing is done |
| Engine.SimulatorEngine.CompleteVehicleCrossings | src/SimulatorEngine.cpp:159-175 | the new traffic state is the specified completion of due crossings |
| Engine.SimulatorEngine.MoveVehicles | src/SimulatorEngine.cpp:97-105 | the new traffic state is the specified movement step |
| Engine.SimulatorEngine.MoveTraffic | src/SimulatorEngine.cpp:96-105 | the new traffic state is generation followed by the movement step |
| Engine.SimulatorEngine.MoveTrafficOnly | src/SimulatorEngine.cpp:96-105 | the traffic step leaves the controller's lights alone |
| Engine.SimulatorEngine.IncludeMatchingGroups | src/SimulatorEngine.cpp:474-494 | adds exactly the groups serving the movement |
| Engine.SimulatorEngine.ResolveActiveSignalGroups | src/SimulatorEngine.cpp:451-527 | lists each group that serves a lit movement exactly once |
| Engine.SimulatorEngine.IsConfigSignalStateSafe | src/SimulatorEngine.cpp:529-548 | answers the configured safety predicate of the lights |
| Engine.SimulatorEngine.CheckLights | src/SimulatorEngine.cpp:107-115 | unsafe lights count one violation and force null control, installing a fresh flasher unless already in it; safe lights change nothing |
| Engine.SimulatorEngine.AdvanceAndRead | src/SimulatorEngine.cpp:94-107 | returns and shows the controller's ticked lights |
| Engine.SimulatorEngine.FinishTick | src/SimulatorEngine.cpp:107-117 | supervision follows the specified rule, and only a new violation replaces the lights by the flash pattern |
| Engine.SimulatorEngine.MoveAndCheck | src/SimulatorEngine.cpp:96-117 | the traffic step and the supervision step of a running tick |
| Engine.SimulatorEngine.Tick | src/SimulatorEngine.cpp:88-118 | a stopped engine does nothing; a running one advances time, moves traffic as specified, and counts a violation and falls back iff the ticked lights are unsafe |
| Engine.SimulatorEngine.Reset | src/SimulatorEngine.cpp:339-346 | stopped, Basic mode, time 0, no violations, traffic reset, a fresh controller at its reset lights |
| Engine.SimulatorEngine.Start | src/SimulatorEngine.cpp:348-351 | sets running and nothing else |
| Engine.SimulatorEngine.Stop | src/SimulatorEngine.cpp:353-356 | clears running and nothing else |
| Engine.SimulatorEngine.HandleCommand | src/SimulatorEngine.cpp:363-389 | Start/Stop toggle running only; Reset resets supervision, traffic and the controller (a fresh one showing its reset lights); Step runs exactly one tick, gives the lights that tick shows (all Orange on a new fallback) and restores the running flag |
| Engine.SimulatorEngine.SingleStep | src/SimulatorEngine.cpp:374-386 | one tick as if running, then the old running flag; supervision, traffic and the controller's lights are those of that tick |
| Engine.SimulatorEngine.Simulate | src/SimulatorEngine.cpp:79-86 | simulate ends stopped, with the clock past the duration by less than one step |
| Engine.SimulatorEngine.RunUntil | src/SimulatorEngine.cpp:83-84 | the loop stops as soon as the clock reaches the duration |
| Engine.SimulatorEngine.LoopTick | src/SimulatorEngine.cpp:84 | each loop tick advances the clock by the step and keeps running |
| Engine.SimulatorEngine.GetMetrics | src/SimulatorEngine.cpp:187-204 | metrics report time, violations, generated and crossed counts, average wait, per-direction queues, and queued plus crossed is the population |
| EngineProperties.StoppedRunChangesNothing | src/SimulatorEngine.cpp:90-93 | any number of ticks on a stopped engine leaves supervision unchanged |
| EngineProperties.RunningRunCounts | src/SimulatorEngine.cpp:107-117 | a running engine stays running; the violations grow by the unsafe ticks, and the time by the total tick length |
| EngineProperties.NullControlIsSticky | src/SimulatorEngine.cpp:111-114 | once in null control the engine never leaves it by ticking |
| EngineProperties.ViolationMeansFallback | src/SimulatorEngine.cpp:107-117 | violations never decrease, and any new violation leaves the engine in null control |
| EngineProperties.FromResetState | src/SimulatorEngine.cpp:339-346 | after reset and start, the violations count the unsafe ticks, and the engine is in null control iff one occurred |
| EngineProperties.AllRedActivatesNothing | src/SimulatorEngine.cpp:496-548 | all-Red lights activate no signal group and are never judged unsafe for an ungrouped or valid configuration |
| EngineProperties.FlashingActivatesEveryServingGroup | src/SimulatorEngine.cpp:453-524 | the orange flash lights every movement, so every group serving one is active |
| ConfigJson.ApproachFromString | src/IntersectionConfigJson.cpp:31-54 | a name parses to an approach exactly when it is that approach's printed name |
| ConfigJson.MovementFromString | src/IntersectionConfigJson.cpp:70-88 | a name parses to a movement exactly when it is that movement's printed name |
| ConfigJson.ParseMovements | src/IntersectionConfigJson.cpp:332-352 | the loop keeps the recognised movements without repeats and reports the rest |
| ConfigJson.ParseLaneEntry | src/IntersectionConfigJson.cpp:302-356 | one lane entry is parsed as specified, or the JSON library throws |
| ConfigJson.ParseLaneEntries | src/IntersectionConfigJson.cpp:299-356 | the lanes loop parses every entry as specified |
| ConfigJson.ParseApproachEntry | src/IntersectionConfigJson.cpp:253-358 | one approach entry is parsed as specified |
| ConfigJson.ParseApproachEntries | src/IntersectionConfigJson.cpp:251-359 | the approaches loop parses every entry as specified |
| ConfigJson.DefaultToLaneCounts | src/IntersectionConfigJson.cpp:361-374 | each slot gets the specified default to-lane count |
| ConfigJson.ReportMissing | src/IntersectionConfigJson.cpp:376-382 | one error per approach never seen |
| ConfigJson.ParseControlledLanes | src/IntersectionConfigJson.cpp:423-431 | the loop keeps the valid lane ids and reports the rest |
| ConfigJson.ParseGroupEntry | src/IntersectionConfigJson.cpp:395-461 | one signal-group entry is parsed as specified; a timing that is present but not a number (a boolean included) makes the JSON library throw |
| ConfigJson.ParseGroupEntries | src/IntersectionConfigJson.cpp:384-464 | the groups loop parses every entry as specified |
| ConfigJson.ResolveLaneId | src/IntersectionConfigJson.cpp:126-144 | a lane id resolves to the first approach holding it and its index there, and fails only when no approach holds it |
| ConfigJson.ParseConnectionEntries | src/IntersectionConfigJson.cpp:466-548 | the connections loop parses every entry as specified |
| ConfigJson.ParseConfig | src/IntersectionConfigJson.cpp:214-575 | ok iff no errors; approaches not an array and a count other than four each fail with their own error |
| ConfigJson.IntersectionConfigFromJson | src/IntersectionConfigJson.cpp:214-575 | the method computes the specified outcome |
| ConfigJsonProperties.RecognisedContents | src/IntersectionConfigJson.cpp:332-346 | a movement is recognised exactly when some entry names it |
| ConfigJsonProperties.EveryMovementKeptOrReported | src/IntersectionConfigJson.cpp:332-346 | every movement entry is either recognised or reported, never both |
| ConfigJsonProperties.AddUniqueFirstOccurrence | src/IntersectionConfigJson.cpp:348-351 | deduplication keeps movements in order of first occurrence |
| ConfigJsonProperties.MovementListSpec | src/IntersectionConfigJson.cpp:332-352 | the movement list has no repeats, holds exactly the recognised names, in order of first occurrence |
| ConfigJsonProperties.NamesRoundTrip | src/IntersectionConfigJson.cpp:15-88 | printing then parsing an approach or movement name gives it back; the upper-case names are not accepted |
| ConfigJsonProperties.ParseLaneWellParsed | src/IntersectionConfigJson.cpp:302-356 | a parsed lane keeps the lane list well-parsed and adds at most one lane |
| ConfigJsonProperties.ParseLanesWellParsed | src/IntersectionConfigJson.cpp:299-319 | the lanes loop keeps the list well-parsed and adds at most one lane per entry |
| ConfigJsonProperties.ParseApproachStep | src/IntersectionConfigJson.cpp:253-358 | one approach entry keeps progress well-parsed, records its named approach and only appends errors |
| ConfigJsonProperties.DuplicateApproachStep | src/IntersectionConfigJson.cpp:273-278 | an approach seen before is skipped with a duplicate-id error |
| ConfigJsonProperties.ApproachesWellParsedFrom | src/IntersectionConfigJson.cpp:251-359 | the approaches loop keeps progress well-parsed and only grows the seen set and the errors |
| ConfigJsonProperties.SeenApproachesAreNamed | src/IntersectionConfigJson.cpp:251-359 | the seen set is exactly the approaches named by the entries |
| ConfigJsonProperties.DuplicateApproachReported | src/IntersectionConfigJson.cpp:273-278 | an approach named twice is always reported as a duplicate |
| ConfigJsonProperties.MissingApproachesReported | src/IntersectionConfigJson.cpp:376-382 | one missing-approach error per unseen approach, none iff all four are seen |
| ConfigJsonProperties.FixToLaneCountsSpec | src/IntersectionConfigJson.cpp:361-374 | a slot keeps its id and lanes and gets its effective to-lane count, at least 1 |
| ConfigJsonProperties.BooleanTimingThrows | src/IntersectionConfigJson.cpp:414-415 | a signal group whose `min_green_seconds` or `orange_seconds` is a boolean makes the parse throw |
| ConfigJsonProperties.GroupsWellParsedFrom | src/IntersectionConfigJson.cpp:455-458 | the groups loop keeps every kept group well-formed |
| ConfigJsonProperties.ConnectionsInRangeFrom | src/IntersectionConfigJson.cpp:538-545 | every kept connection is in range, and each entry is kept or reported |
| ConfigJsonProperties.SynthesizedInRange | src/IntersectionConfigJson.cpp:549-570 | synthesised connections are in range |
| ConfigJsonProperties.FixedSlotsWellFormed | src/IntersectionConfigJson.cpp:361-374 | after fixing the counts every slot is in place, well-parsed and has a sensible to-lane count |
| ConfigJsonProperties.ParsedConfigWellFormed | src/IntersectionConfigJson.cpp:251-570 | a returned configuration has slots in place, well-parsed lanes and groups, and only in-range connections |
| ConfigJsonProperties.GroupErrorsKeptFrom | src/IntersectionConfigJson.cpp:384-464 | the signal group loop only appends errors: the errors it starts from are a prefix of those it ends with |
| ConfigJsonProperties.ConnectionErrorsKeptFrom | src/IntersectionConfigJson.cpp:466-548 | the lane connection loop only appends errors: the errors it starts from are a prefix of those it ends with |
| ConfigJsonProperties.ApproachErrorsReachResult | src/IntersectionConfigJson.cpp:251-575 | the errors of the approach entries and the missing-approach errors are the first errors of the returned result |
| ConfigJsonProperties.DuplicateApproachInResult | src/IntersectionConfigJson.cpp:273-278 | a document naming an approach twice gets a result holding a duplicate-id error for it, and the result is not ok |
| ConfigJsonProperties.MissingApproachInResult | src/IntersectionConfigJson.cpp:376-382 | a document naming an approach in none of its four entries gets a result holding a missing-approach error, and the result is not ok |
| HttpHelpers.Find | src/SimpleHttpUiServer.cpp:62-76 | the first occurrence of a pattern, or none when it does not occur |
| HttpHelpers.DecodePathSpec | src/SimpleHttpUiServer.cpp:18-41 | each route is chosen exactly by its path or prefix |
| HttpHelpers.PrefixRoutesKeepSuffixes | src/SimpleHttpUiServer.cpp:24-38 | anything after a prefix route does not change the route |
| HttpHelpers.UpToAmpersand | src/SimpleHttpUiServer.cpp:70-74 | the prefix up to the first '&', or the whole string |
| HttpHelpers.ExtractCmd | src/SimpleHttpUiServer.cpp:62-76 | the command is the text after the first "cmd=" up to '&' or the end, or empty without "cmd=" |
| HttpHelpers.ContentTypeSpec | src/SimpleHttpUiServer.cpp:109-128 | each content type is chosen exactly by its file extension |
| HttpHelpers.NatToString | src/SimpleHttpUiServer.cpp:58 | decimal text is non-empty digits without a leading zero |
| HttpHelpers.NatToStringRoundTrip | src/SimpleHttpUiServer.cpp:58 | reading the decimal text back gives the number |
| HttpHelpers.NatToStringInjective | src/SimpleHttpUiServer.cpp:58 | different numbers have different decimal texts |
| HttpHelpers.StatusTextShape | src/SimpleHttpUiServer.cpp:43-60 | a status line is the code, a space and its reason phrase |
| HttpHelpers.CodeReadBack | src/SimpleHttpUiServer.cpp:43-60 | the code can be read back from the front of any status line |
| HttpHelpers.StatusTextNamesCode | src/SimpleHttpUiServer.cpp:43-60 | the status line determines its code, so different codes give different lines |
| HttpHelpers.BuildHttpResponse | src/SimpleHttpUiServer.cpp:359-373 | the response starts with the status line and ends with a blank line then the body |
| HttpHelpers.ResponseFraming | src/SimpleHttpUiServer.cpp:363-371 | the body follows the header block exactly, and the stated length is the body's length |
| HttpHelpers.ContentLengthStated | src/SimpleHttpUiServer.cpp:368 | the header block carries the Content-Length line |
| HttpHelpers.ReadWebFile | src/SimpleHttpUiServer.cpp:90-107 | an empty or ".."-containing path gives nothing; any content comes from ./web or ../web |
| HttpHelpers.ReadWebFileGuard | src/SimpleHttpUiServer.cpp:92-95 | a ".." path reads nothing whatever the files; the result depends only on the two web directories |
| HttpHelpers.RouteExamples | src/SimpleHttpUiServer.cpp:18-41 | query strings and sub-paths route as expected, and "/configure" is unknown |
| HttpHelpers.UnknownStatusExample | src/SimpleHttpUiServer.cpp:57-58 | an unlisted code gets the reason "Unknown" |
| HttpHelpers.ExtractCmdExample | src/SimpleHttpUiServer.cpp:62-76 | "cmd=pause&x=1" yields "pause" |

## Left out

- Display names of approaches, lanes and signal groups are not modelled. They are never read by the logic modelled here.
- JSON text: lexing, `dump`, `intersectionConfigToJson` and `validationErrorsToJson` are not modelled. The parser works on an already parsed JSON tree, and an exception from the JSON library's typed getters is the outcome `Threw`.
- Parser error messages are constructors of an error datatype, not the formatted strings.
- `getSnapshot`, `getSnapshotJson`, `getControlMode`, `isRunning` and `getIntersectionConfig` are not modelled. They only copy or print state that the model exposes directly.
- The socket and thread code of the HTTP server (src/SimpleHttpUiServer.cpp:158-358) is not modelled, because it is I/O.
- The `Database` module is not modelled, because it is I/O.
- `main.cpp` is not modelled; its safety vectors appear in `SafetyProperties.SafetyExamples`.
- `readFileIfExists` becomes a lookup in a map from paths to contents, because it reads the file system.
- Doubles are reals, so floating-point rounding is not modelled.
- `std::sqrt`, `Vehicle::updateSpeed` and `getCrossingDuration` are parameters of the model (a `Physics` bundle). The model assumes that `updateSpeed` changes only the speed.
- Vehicles.NewVehicle: the `Vehicle` constructor at include/Vehicle.hpp:27-29 sets only the id, the entry lane, the arrival time and the two time stamps. The position, speed, turning flag, queue index, lane id, movement, destination and lane-change flag that the traffic generator reads and writes are fields that header does not declare. The model gives them fixed starting values: position 0, speed 0, not turning, queue index 0, lane id 0, movement straight, destination North lane 0 with lane id 0, and lane change allowed. The position matters for a vehicle spawned into an empty queue, which keeps it (src/TrafficGenerator.cpp:492-495).
- Engine.SimulatorEngine.SetController: the controller handed over is never null in the model, so the case where the source skips `reset` on a null controller (src/SimulatorEngine.cpp:423-426) is not modelled.
- HttpHelpers.ResponseFraming: a `string` stands for the source's byte string, one character per byte, and `Content-Length` counts those characters. Text encoding is not modelled: text with characters outside one byte must first be written as its bytes for the stated length to be the source's.
- Vehicle ids are natural numbers; the 32-bit wrap-around of `next_vehicle_id` is not modelled.
- Controllers.OpaqueController: `ConfigurableSignalGroupController` (created at src/SimulatorEngine.cpp:75 and :403) and any controller handed to `setController` are seen only through their interface. ConfigurableSignalGroupController is not part of this model. Its timers are an opaque hidden state (a number), and its tick and reset are parameters over that state and the lights. Nothing is proved about its lights beyond what the engine checks.
- Engine.SimulatorEngine.Simulate: modelled only for a positive time step. The source loop never ends for a non-positive step when the duration is positive.
- ConfigJson.ParseConfig: when `lane_connections` is absent and an approach has 65536 or more lanes, the synthesis loop never ends (src/IntersectionConfigJson.cpp:553). The model returns `Diverges` for that input rather than running forever.
- Engine.SimulatorEngine.RunUntil: states only the clock bounds at loop exit and the running flag, not the accumulated traffic, violations and lights of every tick; `Tick` states those for one tick.
- Engine.SimulatorEngine.LoopTick: states only the clock step and the running flag of the loop's tick, for the same reason as `RunUntil`.
- Engine.SimulatorEngine.Simulate: states only that the run ends stopped with the clock past the duration by less than one step, for the same reason as `RunUntil`.
- The cases in tests/test_safety.cpp:63-95 that contradict the code are not encoded.
