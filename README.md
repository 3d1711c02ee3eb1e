# Traffic diorama simulation — a verified Dafny model

This project models the controller of an LED traffic diorama. Two vehicles
drive around a fixed road network of eight streets, and the network is drawn
on a strip of 44 LEDs. Streets 0 and 4 are the main roads, with addresses
0–9. Streets 1–3 and 5–7 are ramps, with addresses 0–3.

Each tick the controller does two things in order:

1. It renders the frame. It clears the buffer, lights in yellow the pixels
   around every vehicle's registered position, and paints each vehicle's
   marker: blue for vehicle 0, red for any other.
2. It moves the vehicles, one after the other. Each vehicle:
   - proposes its next position: an optional side-street turn decided by a
     coin, a fixed u-turn or merge at the last pixel of a street, and one
     address forward;
   - commits the proposal to the position registry (the "cloud") if no other
     vehicle is registered on that pixel, or otherwise rolls back.

Modules:

- `Layout` (`layout.dfy`): the (street, address) → pixel map `PixelOf`, its
  inverse `PositionAt`, and the proof that it is a bijection from the valid
  positions onto pixels 0..43.
- `CloudRegistry` (`cloud.dfy`): class `Cloud`, two arrays indexed by vehicle
  id that `Update` overwrites in place. `IsFree` is the scanning loop. The
  predicates `FreeIn` and `Distinct` work on the registry's abstract value,
  a `seq<Position>`.
- `Movement` (`movement.dfy`): the tables the step uses, keyed as in the
  code. `Divert` is the side-street turn and `UTurn` is keyed by the starting
  pixel. `Proposal` is the candidate position for any integers. `NextPosition`
  is the network's transition table keyed by address, and
  `ProposalFollowsTable` proves the two agree on valid positions.
  `MoveOutcome` is commit-or-rollback on abstract state. Class `Vehicle` has
  the imperative `Move`.
- `Rendering` (`rendering.dfy`): colours, the lighting rules, and `Frame`,
  which describes the finished frame pixel by pixel. It also holds the
  in-place painting methods for one vehicle's lighting.
- `Simulation` (`simulation.dfy`): class `Simulation`, which holds the
  registry, the vehicles and the frame buffer. `Render` builds the frame and
  `Tick` is one pass of the main loop, and `Run` is start-up followed by any
  number of ticks. `MoveFirst` and `TickMoves` describe the sequential moves.
  Because a vehicle's own position changes only in its own move, every
  vehicle's candidate for a tick (`Candidates`) is taken from the state
  before the tick, and only the commit sees the earlier movers. The lemmas show that a tick preserves three things:
  every position is valid, the registry agrees with the vehicles, and no two
  vehicles share a pixel.

Quirks of the code that the model keeps:

- The registry starts zero-filled. Until their first commit, both ids are
  registered at (0, 0), even though vehicle 1 itself stands at (4, 0).
  `FirstTick` shows that the first tick separates them, whatever the coins.
- Lighting reads the registry, but markers read each vehicle's own position.
- The u-turn is keyed by the pixel the step starts on, so it would override
  a turn taken in the same step. `BranchIsNotRoadEnd` shows that the two
  never meet, for any integers.
- The coin is drawn only on streets 0 and 4, and at most once per step, so
  one `bool` per move stands for it.
- Moves are sequential. Vehicle 1's check sees the position vehicle 0 has
  just committed, and `MergeBlockedBySequentialMove` shows a tick where this
  holds vehicle 1 back.

Further behaviour of the code that the model keeps:

- The merge targets at the ends of streets 5, 6 and 7 are (0, 4), (4, 1) and
  (4, 7) before the forward step, so the vehicle lands on (0, 5), (4, 2) and
  (4, 8).
- A turn and a u-turn never combine in one step.
- Markers are drawn from the vehicles' own fields, not from the registry.
- `PixelOf` is total arithmetic, as in the code. Only the operations that
  index the 44-pixel buffer require in-range positions; out-of-range indices
  are undefined behaviour in the code.

## Model

| member | source | states |
|---|---|---|
| `Layout.PixelOf` | main.cpp:248-259 | on a real street the pixel is the street's first pixel (0, 10, 14, 18, 22, 32, 36, 40) plus the address; valid positions land in 0..43; street 0 → 0..9, street 4 → 22..31, street 7 → 40..43 |
| `Layout.PositionAt` | main.cpp:248-259 | every pixel 0..43 is the pixel of some valid position (surjectivity) |
| `Layout.PositionAtPixel` | main.cpp:248-259 | reading back the owner of a valid position's pixel gives that position |
| `Layout.PixelInjective` | main.cpp:248-259 | two valid positions with the same pixel are equal |
| `Layout.PixelBijection` | main.cpp:248-259 | each pixel 0..43 is owned by exactly one valid position |
| `Layout.StripEnds` | main.cpp:248-259 | (0, 0) is pixel 0 and (7, 3) is pixel 43, and back |
| `CloudRegistry.Cloud.constructor` | main.cpp:143 | a fresh (zero-initialised) registry holds (0, 0) for both ids |
| `CloudRegistry.Cloud.Update` | main.cpp:22-25 | afterwards the entry of `id` is exactly (street, address), its street, address and pixel read back as such, and every other entry is unchanged |
| `CloudRegistry.Cloud.LocationOf` | main.cpp:26-28 | the registered pixel of `id`; on a valid entry it lies in 0..43 and identifies the entry |
| `CloudRegistry.Cloud.Street` | main.cpp:36-38 | returns the street registered for `id` |
| `CloudRegistry.Cloud.Address` | main.cpp:39-41 | returns the address registered for `id` |
| `CloudRegistry.Cloud.IsFree` | main.cpp:29-35 | true iff no id other than `id` is registered on the pixel (vacuously true when nobody is) |
| `CloudRegistry.OwnEntryNeverBlocks` | main.cpp:29-35 | whatever `id`'s own entry holds, it does not change whether a pixel is free for `id` |
| `CloudRegistry.OccupiedIsNotFree` | main.cpp:29-35 | a pixel on which another id is registered is not free |
| `CloudRegistry.CommitKeepsDistinct` | main.cpp:131-135 | writing a free pixel into a collision-free registry keeps it collision-free |
| `Movement.Divert` | main.cpp:71-90 | the position changes exactly when the coin is true at a branch point (0, 4), (4, 1) or (4, 7), and then it is just before the first address of that branch's side street |
| `Movement.UTurn` | main.cpp:93-126 | every u-turn key is a pixel of the strip, and one step forward from every target is a valid position |
| `Movement.Proposal` | main.cpp:66-128 | the candidate of a step, for any integers, is never the starting position; from a valid position it stays on the same street exactly when it is one address further on |
| `Movement.Rejoin` | main.cpp:93-128 | the continuation after each street's last address is a valid position on another street |
| `Movement.NextPosition` | main.cpp:71-128 | the transition table: from a valid position the next position is valid and on a different pixel |
| `Movement.BranchIsNotRoadEnd` | main.cpp:71-126 | branch points (pixels 4, 23, 29) are never u-turn pixels, so a turn and a u-turn never both apply |
| `Movement.UTurnAtRoadEnd` | main.cpp:93-126 | on a valid position the u-turn table fires exactly at the street's last address |
| `Movement.ProposalFollowsTable` | main.cpp:65-128 | from a valid position the step's candidate is the table's: address + 1; (4,0)/(5,0)/(6,0)/(7,0)/(0,0)/(0,5)/(4,2)/(4,8) from pixels 9/13/17/21/31/35/39/43; (1,0)/(2,0)/(3,0) from (0,4)/(4,1)/(4,7) when the coin is true |
| `Movement.ProposalIsValid` | main.cpp:71-128 | a step from a valid position always proposes a valid position |
| `Movement.ForwardThenUTurn` | main.cpp:93-128 | from (0, 8) one step gives (0, 9) and the next gives (4, 0) |
| `Movement.MoveOutcome` | main.cpp:129-135 | a move either rolls back completely or commits the candidate as both the vehicle's position and its registry entry; it rolls back exactly when another id is registered on the candidate's pixel (the commit rule itself is the helper `Commit`, which `MoveOutcome` applies to `Proposal`) |
| `Movement.MoveNeverCollides` | main.cpp:129-135 | other entries are never changed, and a committed position shares no pixel with any other registered vehicle |
| `Movement.MoveKeepsDistinct` | main.cpp:129-135 | a move keeps the registered pixels pairwise distinct |
| `Movement.MoveKeepsValid` | main.cpp:65-135 | a move from a valid position against a valid registry leaves both valid |
| `Movement.Vehicle.constructor` | main.cpp:58-63 | the vehicle holds the given id, registry and position |
| `Movement.Vehicle.Location` | main.cpp:138-140 | the pixel of the vehicle's own position; on a valid position it lies in 0..43 and identifies the position |
| `Movement.Vehicle.Propose` | main.cpp:66-128 | the in-place side-street turn, u-turn and forward step leave the vehicle on `Proposal` of its starting position |
| `Movement.Vehicle.Move` | main.cpp:65-136 | the registry and the vehicle's position end as `MoveOutcome` of the old ones: rollback of both street and address with the registry untouched, or commit of the candidate to both |
| `Rendering.StreetLit` | main.cpp:179-192 | the look-ahead lighting never covers the vehicle's own pixel, and for a vehicle on streets 0..7 it stays within 0..43 |
| `Rendering.LitBy` | main.cpp:179-225 | a vehicle on a valid position never lights its own pixel, with either the look-ahead or the intersection lighting |
| `Rendering.MarkerColor` | main.cpp:230 | the marker is blue exactly for vehicle 0, and a marker is never off or yellow |
| `Rendering.Frame` | main.cpp:170-231 | the frame has one colour per LED; every valid vehicle position shows blue or red, and a pixel shows blue or red only where some vehicle stands |
| `Rendering.IntersectionPixels` | main.cpp:194-225 | the six intersection warning groups; all of their pixels are on the strip |
| `Rendering.LastMarker` | main.cpp:228-231 | the last vehicle whose marker lands on a pixel: it is on that pixel and no later vehicle is |
| `Rendering.LitPixelsOnStrip` | main.cpp:179-225 | every pixel lit for a vehicle on a real street is within 0..43 |
| `Rendering.FramePixel` | main.cpp:170-231 | a pixel is yellow iff no marker is on it and some registered vehicle lights it (a −1/+1/+2 on-street offset or an intersection group), and off iff neither |
| `Rendering.FrameMarker` | main.cpp:228-231 | with vehicles on distinct pixels, each vehicle's own pixel is blue for vehicle 0 and red otherwise |
| `Rendering.LightingAtStreetStart` | main.cpp:179-192 | a vehicle at (0, 0) lights (0, 1) and (0, 2) but not (0, 3) |
| `Rendering.MergeLighting` | main.cpp:211-215 | a vehicle at (5, 2) lights (0, 4), (0, 5), (0, 6) but not (0, 7) |
| `Rendering.LightStreet` | main.cpp:179-192 | paints yellow exactly the on-street −1/+1/+2 offsets of the vehicle and leaves every other pixel as it was |
| `Rendering.LightIntersection` | main.cpp:194-225 | paints yellow exactly the vehicle's intersection group and leaves every other pixel as it was |
| `Simulation.Step` | main.cpp:129-135 | only the moving vehicle's entry and position can change; every other vehicle's entry and position is untouched |
| `Simulation.StepHeldOrStepped` | main.cpp:129-135 | the moving vehicle is either held back with its entry untouched, or stands on its candidate and is registered there |
| `Simulation.StepKeepsDistinct` | main.cpp:129-135 | one step keeps the registered pixels pairwise distinct |
| `Simulation.MoveFirst` | main.cpp:239-242 | moving vehicles 0..n−1 in order leaves every later vehicle's entry and position untouched |
| `Simulation.MoveFirstSteps` | main.cpp:239-242 | after vehicles 0..n−1 have moved, each of them was either held back with its entry untouched, or stands on its candidate and is registered there |
| `Simulation.TickMoves` | main.cpp:239-242 | after one tick each vehicle either stands where it stood with its entry untouched, or has taken its own step from where it stood and is registered there |
| `Simulation.MoveFirstKeepsDistinct` | main.cpp:239-242 | sequential moves keep the registered pixels pairwise distinct |
| `Simulation.MoveFirstKeepsValid` | main.cpp:239-242 | sequential moves keep all entries and positions valid |
| `Simulation.MoveFirstKeepsSynced` | main.cpp:239-242 | once registry and vehicles agree, sequential moves keep them agreeing |
| `Simulation.TickKeepsInvariant` | main.cpp:239-242 | a tick from a synced, valid, collision-free state yields another such state |
| `Simulation.FirstTick` | main.cpp:143-147 | from start-up, whatever the coins, one tick puts vehicle 0 on (0, 1) and vehicle 1 on (4, 1), synced and collision-free |
| `Simulation.MergeBlockedBySequentialMove` | main.cpp:239-242 | vehicle 1's check sees vehicle 0's fresh commit: merging from (5, 3) onto (0, 5) is refused after vehicle 0 moved there |
| `Simulation.Simulation.constructor` | main.cpp:143-147 | start-up state: both registry entries at (0, 0), vehicles at (0, 0) and (4, 0), buffer all off |
| `Simulation.Simulation.Render` | main.cpp:170-231 | the buffer ends equal to `Frame` of the registry entries and the vehicles' own positions; every write is within 0..43 |
| `Simulation.Simulation.PaintLighting` | main.cpp:173-226 | over a cleared buffer, yellow exactly where some registered vehicle lights, off elsewhere |
| `Simulation.Simulation.PaintMarkers` | main.cpp:228-231 | each pixel carrying a marker takes the colour of the last vehicle drawn there; other pixels are unchanged |
| `Simulation.Simulation.MoveAll` | main.cpp:239-242 | the registry and the vehicles end as `TickMoves` of the state before the pass |
| `Simulation.Simulation.Tick` | main.cpp:169-243 | the buffer shows the frame of the state before the tick, and the new state is every vehicle moved once, in id order |
| `Simulation.Run` | main.cpp:143-243 | from start-up, any number of ticks can run with every tick's requirements met; after the first tick the registry agrees with the vehicles, every position is valid and no two vehicles share a pixel |

## Left out

- The LED driver: `pixels.begin`, `setPixelColor`, `show` and the colour packing. These are calls into a foreign library. Colours are the enumeration `Color` {Off, Yellow, Blue, Red}. GREEN is defined in the code but never used.
- Randomness: `random(100) < 25` and the analog-pin seed. Each move takes the coin as a `bool` parameter, because the code draws it at most once per move.
- `Serial.begin`, `delay(350)`, Arduino's `setup`/`loop` scheduling and the commented-out timer code. These are I/O and timing, with no effect on the simulation.
- The `direction` constructor argument: it is always 1, so the model uses the constant `Direction` = 1.
- Machine integer width: the model uses unbounded integers. Every value in the simulation (pixel arithmetic passes through 47 on the way to 43, and the output loop index reaches 44) stays far inside a 16-bit `int`, so nothing wraps.
- Simulation.Simulation.Render: requires every registered street to be in 0..7 and every vehicle's own position to be valid, which holds in every state reachable from start-up (`Run`, through `FirstTick` and `TickKeepsInvariant`). Some excluded states would still write inside the buffer, for example a registry entry on street −1 or a vehicle at (1, −1); the code writes outside the 44-entry buffer, which is undefined behaviour, only for a street above 7 or a position whose pixel is outside 0..43 (a vehicle at (0, −2), for example, writes entry −2).
