# Gear-train engine of the gear simulator

The gear simulator (`app.js`) lets the user place gears on a canvas, drag
them, edit them and run a simulation in which driver gears turn at a set
rpm and turn every gear they touch. This project models the engine behind
that page and proves properties of it:

- **Contacts** (`contacts.dfy`): each step classifies every unordered pair
  of gears as coaxial (centres closer than 1e-6), meshed (centre distance at
  most the sum of radii plus 2) or unrelated, and records the relation in
  both neighbour lists, in gear order.
- **Propagation** (`traversal.dfy`, `propagation.dfy`): a first-in
  first-out breadth-first traversal seeded from every driver. A newly
  discovered gear gets the speed of the gear that dequeued it, copied over a
  coaxial edge and scaled by −d_cur/d_nb over a meshed edge. The visited set
  makes the first assignment win.
- **Tick** (`physics.dfy`): drivers take ω = rpm·2π/60, all other gears
  start at 0, speeds are propagated, then rpm is recomputed from ω and the
  angle advances by ω·dt. `IsTick` states the result of one tick as a
  relation between the old and the new gear list.
- **Placement** (`placement.dfy`): grid snapping; the clamp, snap and
  collision nudging of a new gear; the hit test of the pointer; and the
  release rule of a drag, which puts a dropped gear beside its nearest
  neighbour when that neighbour is within 20 units.
- **Registry** (`registry.dfy`): the program state (gear list, id
  counter, running flag, time of the last frame) as the class
  `Registry.GearSim`. Its methods are the add, drop, save, delete, start,
  stop and frame operations. Every one of them keeps the invariant
  `Consistent`: ids are distinct and below the counter, diameters are at
  least 8, tooth counts at least 4, and there is at most one driver.
- **Common definitions** (`gear.dfy`): the gear record, squared distances and
  rounding.

Gears are records in a sequence. The JavaScript code holds object
references (the dragged gear, the inspected gear); the model uses their
index in the list instead.

Distances are compared in squared form. Each distance test of the source
has a lemma saying the squared test agrees with the test written on the
true distance: `ClassifyAgreesWithDistance`, `CollidesAgreesWithDistance`
and `HitsAgreesWithDistance`. The nearest-gear scan and the drop threshold
compare squared distances as well. This gives the same choice as comparing
distances, because squaring is monotone on non-negative reals
(`Gears.SquareMonotone`).

The only square root the model needs is the length of the unit vector in
the drop rule. It is a parameter `sqrt` of that operation, with the
precondition `IsSqrt(sqrt)`.

## Model

| member | source | states |
|---|---|---|
| Gears.SquareMonotone | app.js:331-341 | for non-negative reals, `a < b` iff `a² < b²` and `a ≤ b` iff `a² ≤ b²`, so squared distance tests decide like the distance tests |
| Contacts.Classify | app.js:329-344 | the classification the contact graph uses, on squared distances; what it means on the true distance is stated by `ClassifyAgreesWithDistance` |
| Contacts.ClassifyDistance | app.js:333-344 | the three branches on the centre distance d: coaxial iff d < 1e-6; otherwise meshed iff d ≤ rsum + 2 (the `abs(d-rsum) ≤ 2` and `d < rsum + 2` branches together); otherwise unrelated |
| Contacts.ClassifyAgreesWithDistance | app.js:329-344 | for gears of positive size, the squared classification equals the three-branch classification on the true distance |
| Contacts.ClassifySymmetric | app.js:333-344 | a pair is related the same way whichever gear comes first |
| Contacts.NeighborsMember | app.js:327-346 | an edge (b, kind) is in a's list iff b is another gear and the pair is related by that kind |
| Contacts.NeighborsSorted | app.js:327-328 | neighbour lists are strictly increasing in gear index, so each neighbour appears once, in gear order |
| Contacts.AdjacencySymmetric | app.js:335-343 | b is a's neighbour with a kind iff a is b's neighbour with the same kind |
| Contacts.Connect | app.js:329-344 | one pair i < j appends j to i's list and i to j's list when related; no other list changes |
| Contacts.ConnectRow | app.js:328-345 | after row i of the pair loop, lists 0..i are complete and later lists hold their neighbours up to i |
| Contacts.BuildAdjacency | app.js:323-346 | the nested pair loop builds exactly the contact graph `Adjacency(gs)` |
| Traversal.Transfer | app.js:365-372 | over a coaxial edge the speed is copied; over a meshed edge ω_nb·d_nb = −(ω_cur·d_cur): equal and opposite rim speeds |
| Traversal.PathExtend | app.js:362-374 | a driver path extended by a neighbour of its last gear is a driver path |
| Traversal.ClosedContainsPath | app.js:349-376 | a set holding every driver and closed under edges holds the end of every driver path |
| Traversal.ClosedContainsReachable | app.js:349-376 | such a set holds every gear reachable from a driver |
| Traversal.Seeded | app.js:349-357 | the seeded queue and visited set satisfy the traversal invariant |
| Traversal.DequeueStep | app.js:359-361 | the gear taken from the head of the queue is a visited gear of the list, and the invariant holds for it with none of its neighbour list handled yet |
| Traversal.AssignStep | app.js:363-374 | a not yet visited neighbour gets its speed by `Transfer`, is marked and enqueued, and the invariant holds for the next list entry |
| Traversal.SkipStep | app.js:364 | an already visited neighbour leaves the state unchanged and the invariant holds for the next entry |
| Traversal.FinishStep | app.js:362-375 | after the whole neighbour list the dequeued gear counts as expanded |
| Traversal.UnvisitedShrinks | app.js:359-376 | each discovery shrinks the set of unvisited gears, so the loop terminates even on cyclic graphs |
| Traversal.Done | app.js:359-376 | at an empty queue the visited set is closed, hence equals the set of gears reachable from a driver; the dequeue order puts the drivers first and the other gears in discovery order |
| Traversal.FifoAppend | app.js:373-374 | enqueueing a newly discovered gear at the tail keeps the queue in discovery order, since it is discovered after every gear already queued or dequeued |
| Traversal.FifoOrder | app.js:359-375 | in a first-in first-out order of distinct gears, a non-driver comes before another exactly when it was discovered before it |
| Propagation.SeedDrivers | app.js:352-357 | the queue holds exactly the drivers, in gear order, and they are the visited set |
| Propagation.Discover | app.js:362-374 | one neighbour entry: a new neighbour gets the transfer of the current gear's speed, is added to the visited set and appended to the queue, with nothing else changed; a visited one leaves speeds, visited set and queue unchanged |
| Propagation.Expand | app.js:361-375 | the dequeued gear's whole list is processed in order and the traversal invariant is kept |
| Propagation.Drain | app.js:359-376 | the dequeue loop runs until the queue is empty and keeps the traversal invariant throughout |
| Propagation.Propagate | app.js:348-376 | visited is exactly the set of gears reachable from a driver; drivers and unvisited gears keep their initial speed; every other visited gear got its speed from the first dequeued gear that touches it, across its first matching list entry, and that gear was dequeued before it; the dequeue order holds every visited gear once, the drivers first in index order, then the other gears in the order they were discovered |
| Physics.RpmToRadPerSec | app.js:387 | converting rpm to rad/s and back gives the rpm |
| Physics.RadPerSecToRpm | app.js:388 | the rpm has the sign of the rad/s value, and is zero exactly when it is |
| Physics.RadRoundTrip | app.js:387-388 | converting rad/s to rpm and back gives the rad/s value |
| Physics.RpmScales | app.js:388 | the conversion is linear, so speed ratios are kept in rpm |
| Physics.DriverOmegas | app.js:314-321 | drivers get the speed whose rpm is their rpm, every other gear 0 |
| Physics.Integrate | app.js:380-384 | each gear keeps its body, takes its new speed, shows it in rpm and turns by ω·dt |
| Physics.AdjacencyWellFormed | app.js:326-346 | every neighbour names a gear of the list |
| Physics.AssignedIsFed | app.js:362-374 | a gear discovered by the traversal is fed, under the transfer law, by the contact partner at its source position in the dequeue order, and it does not itself occur in the order up to that position |
| Physics.SimulatePhysics | app.js:311-385 | one step produces `IsTick(gs, gs', dt)`: bodies kept, rpm from ω, angle advanced by ω·dt, drivers at their rpm, undriven gears at rest, and the new speeds are the first-wins record of the breadth-first traversal: drivers dequeued first in index order, the others in discovery order, each fed by the first dequeued gear that touches it, which is dequeued before it |
| Physics.StepIsTick | app.js:311-385 | the contracts of the four phases together give `IsTick` |
| Physics.StepFirstWins | app.js:348-376 | the record the traversal leaves (dequeue order, source positions, list entries) is a first-wins record of the new speeds |
| Physics.FirstWinsFeedOrder | app.js:359-375 | in a first-wins record every non-driver is fed by a gear listed before it |
| Physics.TickFeedOrder | app.js:311-385 | the speeds of a tick follow a feed order, so no two gears feed each other |
| Physics.PathStartsAtDriver | app.js:352-357 | a driver path starts at a driver |
| Physics.TickKeepsDriverRpm | app.js:316-317 | after a tick a driver shows the rpm it was given |
| Physics.TickUndrivenAtRest | app.js:318-384 | a gear with no contact chain to a driver ends with ω = 0, rpm = 0 and its angle unchanged, whatever its former speed |
| Physics.NoDriverNoneDriven | app.js:358 | with no driver no gear is driven |
| Physics.TickNoDriverAllRest | app.js:358-384 | with no driver every gear ends at ω = 0 and rpm = 0 |
| Physics.DriverIsDriven | app.js:352-356 | a driver is driven by itself |
| Physics.FedSpeeds | app.js:365-372 | meshed partners have equal and opposite rim speeds in rad/s and in rpm; coaxial partners turn at the same rpm |
| Physics.PairContacts | app.js:329-344 | the two gears of the pair example mesh |
| Physics.PairDriven | app.js:349-376 | the small gear of the pair is reachable from the driver |
| Physics.PairFeedOrder | app.js:359-375 | in every feed order of the pair the small gear is fed by the driver |
| Physics.PairSpeeds | app.js:365-372 | the mesh of a 40-unit and a 20-unit gear: 2π and −4π rad/s |
| Physics.TwoGearExample | app.js:311-385 | a 40-unit driver at 60 rpm touching a 20-unit gear: after 0.5 s the driver turned by π and the small gear runs at −120 rpm and turned by −2π |
| Physics.ChainContacts | app.js:329-344 | in the three-gear chain neighbours mesh and the two ends are unrelated |
| Physics.ChainDriven | app.js:349-376 | both followers of the chain are reachable from the driver |
| Physics.ChainFeeders | app.js:362-374 | in the chain the last gear can only be fed by the middle one, the middle one only by its two neighbours |
| Physics.ChainFeedOrder | app.js:349-376 | in every feed order of the chain the middle gear is fed by the driver and the last gear by the middle one |
| Physics.ChainSpeeds | app.js:365-372 | down the chain each mesh reverses the direction: 2π, −4π and 4π rad/s |
| Physics.ThreeGearChain | app.js:311-385 | a 40-unit driver at 60 rpm, a 20-unit gear touching it and a 20-unit gear touching only that one: after 1 s the last gear runs at 120 rpm and turned by 4π |
| Physics.TriangleContacts | app.js:329-344 | in the triangle every pair of gears meshes |
| Physics.TriangleDriven | app.js:349-376 | the driver's list names both followers, so both are driven |
| Physics.TriangleFedByDriver | app.js:359-374 | in the triangle each follower takes its speed from the driver, which is dequeued first and touches it, and not from the other follower |
| Physics.TriangleSpeeds | app.js:365-372 | both followers turn against the driver at its speed: −2π rad/s |
| Physics.TriangleExample | app.js:311-385 | three mutually touching 20-unit gears, one a driver at 60 rpm: after 1 s each follower runs at −60 rpm, as the first assignment wins |
| Placement.SnapToGrid | app.js:59-60 | the result is a multiple of 40 within half a cell of the input (halves round up) |
| Placement.SnapIdempotent | app.js:59-60 | snapping twice is snapping once |
| Placement.ClampAxis | app.js:68-69 | the clamped coordinate is at least 15, at most size − 15 when the axis is at least 30 long; unchanged inside the band; 15 below it; size − 15 above it; 15 on an axis shorter than 30 |
| Placement.StartPos | app.js:66-73 | the start position is the clamped request, snapped when asked |
| Placement.SnapCanLeaveCanvas | app.js:68-72 | snapping after the clamp can leave the clamp band: a request at (5, 5) starts at (0, 0) |
| Placement.Collides | app.js:81-85 | the collision test of the placement loop, on squared distances; what it means on the true distance is stated by `CollidesAgreesWithDistance` |
| Placement.CollidesAgreesWithDistance | app.js:81-85 | the squared collision test is `dist < (d_other + 30)/2 + 4` |
| Placement.Nudge | app.js:88-92 | a nudge moves half a cell right and down, on each axis: to the moved coordinate (at least 15) while that is inside the band, to size − 15 past the far edge, to 15 on an axis shorter than 30; it stays inside the clamp band |
| Placement.ResolveOverlap | app.js:76-98 | at most 20 nudges; the result is the start nudged that many times; every earlier position collided; stopping early means no existing gear collides with the result |
| Placement.Hits | app.js:164-165 | the hit test of the pointer, on squared distances; what it means on the true distance is stated by `HitsAgreesWithDistance` |
| Placement.HitsAgreesWithDistance | app.js:164-165 | the squared hit test is `hypot ≤ r + 6` |
| Placement.FindGearAt | app.js:159-168 | returns a gear the pointer hits and no later gear is hit; returns none iff no gear is hit |
| Placement.FindNearest | app.js:199-210 | returns the nearest other gear, the first on ties; returns none iff there is no other gear |
| Placement.NearestUnique | app.js:206-209 | because of the strict comparison the nearest gear is unique |
| Placement.Distance | app.js:217 | the distance is non-negative and its square is the squared distance |
| Placement.SnapBeside | app.js:213-226 | the centre the drop rule computes from the unit vector and the sum of radii; its geometry is stated by `SnapBesideTouches` |
| Placement.SnapBesideTouches | app.js:213-226 | the new centre is at exactly rA + rB from the nearest centre; when the centres coincide it is (nearest.x + rA + rB, nearest.y); otherwise it lies on the line through both centres, on the dragged gear's side |
| Placement.UnitVector | app.js:217-222 | dividing by the length gives a unit vector, so scaling it by t gives length t along the same ray |
| Placement.DropTarget | app.js:197-226 | a new centre exists iff the nearest other gear is within 20, and it is the snap beside that gear |
| Registry.TickKeepsConsistent | app.js:380-384 | a tick keeps the state invariant |
| Registry.NewGear | app.js:100-111 | the new gear has the given id and position, diameter 30, 10 teeth, is at rest and is not a driver |
| Registry.AppendKeepsConsistent | app.js:100-112 | appending a gear with the counter's id keeps the invariant with the counter incremented |
| Registry.Edited | app.js:264-274 | the edited gear has the driver flag as asked, rpm as typed for a driver and 0 otherwise, diameter the input when it is at least 8 and 8 otherwise, teeth the input rounded half up when that is at least 4 and 4 when the input is below 3.5 |
| Registry.ClearOtherDrivers | app.js:266 | every gear other than the inspected one stops being a driver; nothing else changes |
| Registry.SaveKeepsConsistent | app.js:261-274 | saving keeps the invariant, and with the box checked the edited gear is the only driver |
| Registry.DeleteKeepsConsistent | app.js:280-286 | removing a gear keeps the invariant and its id no longer occurs |
| Registry.MoveKeepsConsistent | app.js:225-226 | moving a gear keeps the invariant |
| Registry.FrameDt | app.js:497 | the step is the elapsed time in seconds, capped at 0.05 |
| Registry.Stamp | app.js:496 | the frame time is the timestamp unless it is missing or 0, and the clock reading otherwise |
| Registry.GearSim.constructor | app.js:31-34 | no gears, ids from 1, not running, no last frame time |
| Registry.GearSim.AddGearAt | app.js:62-114 | appends exactly one gear with the old counter as id at the resolved position; the counter grows by one; the existing gears are unchanged |
| Registry.GearSim.EndDrag | app.js:193-227 | only the dragged gear's x and y may change; within 20 of its nearest gear it is placed beside it; otherwise nothing changes |
| Registry.GearSim.Save | app.js:261-278 | the inspected gear is edited; with the box checked it is the only driver; unchecked, other gears are unchanged |
| Registry.GearSim.Delete | app.js:280-286 | the list is the old list without the inspected gear, whose id is gone |
| Registry.GearSim.Start | app.js:289 | running from the given time |
| Registry.GearSim.Stop | app.js:290 | not running; nothing else changes |
| Registry.GearSim.Frame | app.js:494-501 | dt is the capped time since the last frame; the last frame time becomes the frame time; while running the gears advance by one tick (`IsTick`, with the first-wins choice of speeds); when stopped they are unchanged |

## Left out

- Drawing (`resize`, `drawGrid`, `drawGear`, `render`), the gear list, toasts, the inspector's display logic and the list click handler: they draw or show state, they do not change it.
- Pointer handling (`getMousePos`, the mousedown, dblclick and touchstart handlers with their 220 ms timer, `startDrag`, `onDrag`) and the listener and cursor bookkeeping in `endDrag`. The model starts at the moment a drag ends, with the gear at its dropped position.
- The `dragging` field of a gear: the model has no drag in progress, so the field is not part of the record.
- Frame scheduling: `requestAnimationFrame`, the immediate `loop()` call made by the start button, and the extra frame chain that each click on start begins. `Frame` models one frame.
- `performance.now()`: a parameter (`clock`, `now`). The source reads the clock twice in one frame; the model uses one reading for both.
- `canvas.clientWidth` and `canvas.clientHeight`: the parameters `w` and `h`.
- Text-input parsing: the editor's inputs are already numbers. `Number(...)` on non-numeric text gives NaN, and the NaN cases of `Math.max` and `|| 0` are not modelled.
- IEEE-754 rounding, infinities and NaN: all quantities are real numbers. `Math.hypot` appears only in its squared form, or through the `sqrt` parameter of the drop rule.
- Physics.SimulatePhysics: requires every diameter to be positive. The meshed transfer divides by the neighbour's diameter, and the state invariant guarantees at least 8.
- The "no gear" exits: `endDrag` does nothing without a dragged gear (app.js:194), and the save and delete handlers return without an inspected gear (app.js:262, app.js:281). The model's `EndDrag`, `Save` and `Delete` take the gear's index, so they always have one; without one the source changes nothing.
- Registry.GearSim.AddGearAt: the nudge count is a ghost result, since the source does not return it.
- Object identity: the traversal marks gears by list index where the source marks them by id. The two agree because the state invariant keeps ids distinct.
