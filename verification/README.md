# Verified models of six concurrent systems

This project models six parts of the repository and proves that they keep what they are built for.

* **Parking** (`ParkingModels`, `MovementOrder`, `Packing`, `RearrangementPlanners`, `Balancing`, `Allocation`,
  `Facility`, `Commitment`, `Shuffle`, `ParkingSystem`, `Rearrangement`). Strategies choose floors for new vehicles;
  planners rebuild the whole reserved layout; a dependency graph of the moves is split into components and sorted; the
  commit moves the reservations; robots carry the vehicles. Proved: the ledger of reservations in every run of all public operations
  and robots, the optimality of the compaction plan, the fairness of the balanced one and exactly when it may refuse,
  exactly which orders may overfill a floor while they are committed, and that robots on acyclic components never
  wait for space, in the shuffling model and by the facility's own counters.
* **Key-value store** (`HeapOrder`, `ExpiryHeaps`, `KeyValueStores`). A map, an index and a heap that tracks
  positions agree after every operation; lookups answer as a table that never forgets allows, whatever other threads
  do between their critical sections; the cleaner misses no deadline.
* **LRU cache** (`Recency`, `LruCaches`). The linked nodes and the hash map refine a list in order of use; the
  cache holds the most recent keys; a bigger cache includes a smaller one.
* **Connection pool** (`PoolProtocol`, `ConnectionPools`). A step machine in which receiving from the channel and
  taking the lock are separate, with its invariants over every interleaving; the pool's class takes its steps.
* **Elevator** (`RequestHeaps`, `LookSchedule`, `Elevators`, `ElevatorRuns`). The LOOK scheduler over two heaps, the
  cost of a drain, and the wake-up protocol of the processor, whose steps the elevator's class takes.
* **Token bucket** (`TokenBudgets`, `TokenBuckets`). Two stored numbers decide as a scan of the whole history would.

Code that runs under a lock is one method per critical section, or one step of a protocol per critical section or
channel operation; every interleaving is a sequence of these. Objects that the source updates in place are classes.
Integers are unbounded except where the machine's largest integer serves as a sentinel. Clock readings, new ticket
numbers and connections' health are parameters. Iteration over Go's maps is an arbitrary choice.

Preconditions beyond a class's own invariant: clock readings do not go backwards, new tickets are not ones issued
before, floors have equal capacities (as the constructor makes them), the numbers of floors and of idle connections
are not negative (a slice or channel of negative size fails at construction), and a `Put` is not made on an LRU cache
of capacity 0 (it would evict from an empty list and fail).

Where code and names or comments differ, the code is followed: the compaction planner's comment calls its problem
NP-hard, but for the sizes 6, 2 and 1 best fit is optimal; and the connection pool's registry need not be empty after
a shutdown.

## Model

| member | source | states |
|---|---|---|
| ParkingModels.SpacesDivide | Parking_Management/models/types.go:37-43 | Of the sizes of any two known vehicle types, the smaller divides the larger: the fact behind the optimality of the compaction plan. |
| ParkingModels.ZonesPartitionFloors | Parking_Management/models/zone.go:9-24 | Each floor is in the zone of exactly one known vehicle type, whatever the number of floors. |
| ParkingModels.ZoneShares | Parking_Management/models/zone.go:9-24 | Trucks have the lowest fifth of the floors, bikes the highest three tenths, both rounded down, and cars what lies between. |
| ParkingModels.EmptyZones | Parking_Management/models/zone.go:9-24 | Which types are left without a floor, exactly, when there are few floors. |
| ParkingModels.IndexByTicketOf | Parking_Management/parking_rearrangement/graph.go:24-30 | The index holds only given moves, each under its own ticket, and with distinct tickets all of them. |
| MovementOrder.BuildDirectedGraph | Parking_Management/parking_rearrangement/graph.go:32-51 | An entry for every move, listing exactly the moves that depend on it, each once. |
| MovementOrder.FindDisconnectedComp | Parking_Management/parking_rearrangement/graph.go:72-88 | Starting anywhere unvisited, the stack search returns exactly the moves connected to the start, each once, and marks them. |
| MovementOrder.DisconnectedComponents | Parking_Management/parking_rearrangement/graph.go:53-70 | The components cover all moves, overlap nowhere, and each is closed under dependency and connected. |
| MovementOrder.KahnStep | Parking_Management/parking_rearrangement/graph.go:111-124 | Taking a move from the queue keeps the invariant of Kahn's algorithm: counters count the unlisted dependencies, and exactly the free moves are queued. |
| MovementOrder.KahnStuck | Parking_Management/parking_rearrangement/graph.go:125-131 | When the queue runs dry before all moves are listed, the moves left over contain a dependency cycle. |
| MovementOrder.TopologicalHasNoCycle | Parking_Management/parking_rearrangement/graph.go:111-132 | When all are listed, every dependency points forward, so there is no cycle. |
| MovementOrder.TopoSort | Parking_Management/parking_rearrangement/graph.go:90-133 | Lists the moves of the component, each once; reports a loop if and only if the component has a dependency cycle; without one, every departure comes before every arrival on the same floor. |
| MovementOrder.BuildMovementOrder | Parking_Management/parking_rearrangement/graph.go:5-22 | For any list of moves: components that no dependency crosses and that are connected; `loop` exactly on those with a dependency cycle, the others departures first; every move exactly once when tickets are distinct, and the same move for each ticket in any case. |
| MovementOrder.DistinctPositions | Parking_Management/parking_rearrangement/graph.go:5-22 | In the order, a ticket has one place in one component. |
| Commitment.DepartsBefore | Parking_Management/parking.go:176-193 | On a floor where no circular component arrives, all departures are committed before the first arrival. |
| Commitment.NeverFullerMidway | Parking_Management/parking.go:176-193 | After any number of committed moves, such a floor is reserved no fuller than before the blueprint or after it. |
| Commitment.ArrivalFirst | Parking_Management/parking.go:181-193 | However its moves are ordered, a circular component has an arrival before a departure on the same floor. |
| Commitment.OverfillsIffLoop | Parking_Management/parking.go:176-193 | For vehicles of whatever sizes, committing an order can make some floor fuller than both before and after if and only if some component is marked as a loop. |
| Commitment.ExchangeOverfills | Parking_Management/parking.go:189-193 | With vehicles as they are: two full floors of size 2 that exchange their cars fit before and after but not in between; the exchange is a valid plan, the one the load balancer hands over when it takes the second car first. |
| Packing.SumLoadsTotal | Parking_Management/parking_rearrangement/compaction_balanced.go:68-95 | The loads of all floors add up to the space of all vehicles. |
| Packing.NoRoomAnywhere | Parking_Management/parking_rearrangement/compaction_balanced.go:82-84 | If no floor has room for a vehicle whose size divides all sizes placed, no assignment at all fits all of them. |
| Packing.NewFloorNeeded | Parking_Management/parking_rearrangement/compaction_balanced.go:68-95 | If on equal floors no used floor has room for such a vehicle, every fitting assignment uses one more floor than is used now. |
| RearrangementPlanners.CollectVehicles | Parking_Management/parking_rearrangement/compaction_balanced.go:54-67 | The vehicles to place are those with no retrieval requested and a known type, each once. |
| RearrangementPlanners.SortBySpaceDescending | Parking_Management/parking_rearrangement/compaction_balanced.go:68-70 | A permutation in descending order of size; ties fall anyhow. |
| RearrangementPlanners.BestFit | Parking_Management/parking_rearrangement/compaction_balanced.go:73-81 | The fitting floor with the least room left over, the first of these, or -1 exactly when none fits. |
| RearrangementPlanners.BestFitKeepsFewest | Parking_Management/parking_rearrangement/compaction_balanced.go:72-94 | Placing the next smaller vehicle by best fit keeps the number of used floors minimal among all assignments. |
| RearrangementPlanners.CompactionImpossible | Parking_Management/parking_rearrangement/compaction_balanced.go:82-84 | The planner gives up only when no fitting assignment exists. |
| RearrangementPlanners.PlanCompaction | Parking_Management/parking_rearrangement/compaction_balanced.go:47-96 | Returns nil if and only if no assignment of the vehicles fits; else the planned layout fits, is carried out exactly by the listed moves, and uses the fewest floors of any assignment that fits. |
| RearrangementPlanners.PlanComplete | Parking_Management/parking_rearrangement/compaction_balanced.go:85-94 | The listed moves, and no others, turn the present layout into the planned one. |
| RearrangementPlanners.LeastLoaded | Parking_Management/parking_rearrangement/load_balanced.go:23-31 | The fitting floor with the least load, the first of these, or none if none fits. |
| RearrangementPlanners.GapStep | Parking_Management/parking_rearrangement/load_balanced.go:23-35 | Placing a vehicle on the least loaded of equal floors keeps all loads within the largest vehicle of each other. |
| RearrangementPlanners.SelectedFloor | Parking_Management/parking_rearrangement/load_balanced.go:23-31 | The scan for a floor finds the first of the least loaded floors with room, or -1 exactly when none has room. |
| RearrangementPlanners.PlanLoadBalanced | Parking_Management/parking_rearrangement/load_balanced.go:7-45 | The plan is exactly what the balancer makes of some order of the active vehicles, nil included; a plan fits, and on equal floors the loads of any two floors differ by no more than the largest vehicle placed. |
| RearrangementPlanners.GapOfATruck | Parking_Management/parking_rearrangement/load_balanced.go:7-45 | Hence by at most 6 units. |
| Balancing.BalanceKeeps | Parking_Management/parking_rearrangement/load_balanced.go:15-43 | In any order, the balancer places exactly the vehicles it is given, each floor within capacity. |
| Balancing.BikesFirst | Parking_Management/parking_rearrangement/load_balanced.go:23-34 | Enough bikes are spread so evenly that no floor keeps room for a larger vehicle, so one that comes last is refused. |
| Balancing.BigFirst | Parking_Management/parking_rearrangement/load_balanced.go:23-34 | With the larger vehicle first, the same vehicles are all placed. |
| Balancing.RefusalCondition | Parking_Management/parking_rearrangement/load_balanced.go:32-34 | On n equal floors with room R whose largest vehicle takes W units: vehicles of a given total exist that fit and are refused in some order, if and only if n*(R+1-W)+W <= total <= n*R; with room for a truck, n*(R-5)+6 <= total. |
| Balancing.BikesThenTruck | Parking_Management/parking_rearrangement/load_balanced.go:23-34 | On two floors of 6 the balancer refuses two bikes and then a truck, though they fit; with 8 units in all that can happen, with 7 it cannot. |
| RearrangementPlanners.FirstFit | Parking_Management/parking_rearrangement/zone_balanced.go:24-42 | The first floor of the zone with room, or none exactly when no floor of the zone has room. |
| RearrangementPlanners.PlanZoneBalanced | Parking_Management/parking_rearrangement/zone_balanced.go:7-47 | Returns nil if and only if no assignment within the zones fits; else every vehicle is planned in the zone of its type, every floor fits, and a vehicle is on a floor only where no lower floor of its zone has room for it. |
| Allocation.AllocateNearest | Parking_Management/parking_strategy/nearest_floor.go:7-21 | The lowest floor with room for the vehicle, or none if there is none. |
| Allocation.AllocateLoadBalanced | Parking_Management/parking_strategy/load_balanced.go:7-27 | The first of the least reserved floors with room. |
| Allocation.AllocateCompaction | Parking_Management/parking_strategy/compaction.go:9-35 | The fullest floor with room, by share of capacity, the first of equally full ones. |
| Allocation.PercentageOrder | Parking_Management/parking_strategy/compaction.go:23-27 | On equal floors the share of capacity orders floors as their reservations do. |
| Allocation.AllocateZoneBalanced | Parking_Management/parking_strategy/zone_based.go:7-26 | The first floor of the vehicle's zone with room. |
| Allocation.Allocate | Parking_Management/parking.go:61-64 | For each strategy: a floor if and only if some floor qualifies, and then the one the strategy prefers: the lowest, the first of the least reserved, the first of the fullest, or the lowest of the zone. |
| Facility.ParkKeepsLedger | Parking_Management/parking.go:58-97 | After a Park each floor's reservation is still the sum of the spaces of not-yet-retrieved records targeting it, within 0 and capacity. |
| Facility.UnparkKeepsLedger | Parking_Management/parking.go:116-129 | The same after an accepted Unpark, which releases exactly the space of the record. |
| Facility.StillRemembered | Parking_Management/workers.go:206-221 | A step that concerns one vehicle leaves nobody forgotten: every stored vehicle that was asked for has a job on its way, or is being taken out. |
| Facility.RetargetKeepsBooks | Parking_Management/parking.go:189-193 | One step of a commit keeps the reservations equal to the sums, though perhaps above capacity. |
| Facility.ParkConsistent | Parking_Management/parking.go:58-97 | Park keeps the whole consistency of the facility: ledger, jobs on their way and, until a rearrangement, physical occupancy. |
| Facility.UnparkConsistent | Parking_Management/parking.go:99-137 | Unpark keeps it: a stored vehicle gets exactly one unpark job now, one not stored yet gets it when it is. |
| Facility.ClaimConsistent | Parking_Management/workers.go:194-203 | A parker's claim keeps it: the space claimed is within the floor's capacity. |
| Facility.StoreConsistent | Parking_Management/workers.go:205-221 | Storing a vehicle keeps it, and yields an unpark job exactly when its retrieval was requested meanwhile. |
| Facility.FetchConsistent | Parking_Management/workers.go:225-239 | An unparker taking a job keeps it, and passes over stale jobs. |
| Facility.RemovalConsistent | Parking_Management/workers.go:241-250 | Taking a vehicle out keeps it. |
| Facility.LiftConsistent | Parking_Management/workers.go:121-149 | A shuffle robot lifting a vehicle keeps what holds in all runs. |
| Facility.SetDownConsistent | Parking_Management/workers.go:162-185 | Setting it down keeps it, never exceeds the floor's capacity, and sends an unpark job for a vehicle that was asked for meanwhile. |
| Facility.LostSetDownConsistent | Parking_Management/workers.go:163-184 | So does setting down a vehicle whose record was deleted while the robot waited: the space is still taken, within capacity, and an unpark job still sent. |
| Facility.BufferingConsistent | Parking_Management/workers.go:139-161 | So do putting a vehicle into a buffer slot and taking it out. |
| Facility.OnlyDeparturesBlock | Parking_Management/workers.go:198-202 | Without rearrangement, a parker kept waiting for a vehicle nobody has asked for is kept waiting by a vehicle on its way out. |
| Facility.RetrievedFromFloor | Parking_Management/workers.go:237-246 | Without rearrangement, what an unparker remembered across its sleep still holds: the vehicle is on that floor, its target, and takes that space. |
| ParkingSystem.AutomatedParkingSystem.Park | Parking_Management/parking.go:58-97 | Succeeds exactly when the staging channel has room and some floor qualifies; takes the floor the strategy in force prefers and records the vehicle, its job and its reservation together, or changes nothing. |
| ParkingSystem.AutomatedParkingSystem.Unpark | Parking_Management/parking.go:99-137 | Each refusal exactly in its case, with nothing changed; an accepted request releases the reservation once and queues a job exactly for a stored vehicle. |
| ParkingSystem.CommitStep | Parking_Management/parking.go:181-193 | Each single move of a commit keeps every reservation the sum of the records, and retargets exactly the record it names, unless that is gone or being retrieved. |
| ParkingSystem.CommitHandsOver | Parking_Management/parking.go:181-213 | Whatever the state of the vehicles: a move is handed to the robots if and only if its record got another floor and the vehicle is not there already; it starts where the vehicle is, or at its old target if it is on no floor; each ticket once and no empty component. |
| ParkingSystem.ComponentsKeepOrder | Parking_Management/parking.go:181-213 | The components handed over are non-empty remainders of the planned ones, in the planned order, each with its loop flag and its moves in order. |
| ParkingSystem.AutomatedParkingSystem.CommitComponent | Parking_Management/parking.go:181-209 | Moves the reservations of one component front to back and lists a physical move for exactly the vehicles that are not where they are to stand: from where a vehicle is, or from its old target if it is not stored yet. |
| ParkingSystem.AutomatedParkingSystem.CommitBlueprint | Parking_Management/parking.go:176-215 | Carries out the whole order; the components handed over are the planned ones in their order and with their loop flags, without the moves that are not needed. |
| ParkingSystem.AutomatedParkingSystem.Rearrange | Parking_Management/parking.go:146-154 | Plans and commits, or changes nothing: for compaction and zones refused exactly when no assignment exists, by the balancer only when it can get stuck. What it hands over are exactly the moves needed. |
| ParkingSystem.AutomatedParkingSystem.SwitchStrategy | Parking_Management/parking.go:139-174 | Keeps the ledger with reservations within capacity; refuses exactly while shuffling or, for compaction and zones, when no assignment exists (the balancer: only if it can get stuck); otherwise the new reservations meet the strategy's promise, every ticket stands for the same vehicle, the robots are told exactly the moves needed in any state, and if no vehicle stands on a floor other than its target they are given the whole plan, on which they never block. |
| ParkingSystem.CommitIsRunnable | Parking_Management/parking.go:176-215 | If no vehicle stands on a floor other than its target, stored or not, the commit hands over the plan itself, marks exactly its circular components, and meets all that freedom from blocking needs. |
| ParkingSystem.BlueprintCommitted | Parking_Management/parking.go:139-174 | After the last move the reservations are the planned layout, within capacity again, and exactly the moves needed are handed over. |
| ParkingSystem.AutomatedParkingSystem.ParkerClaims | Parking_Management/workers.go:198-203 | Claims the space exactly when the floor has room, else changes nothing. |
| ParkingSystem.AutomatedParkingSystem.ParkerStores | Parking_Management/workers.go:205-216 | Stores the vehicle where its job says, and asks for an unpark job if its retrieval was requested. |
| ParkingSystem.AutomatedParkingSystem.UnparkerTakesJob | Parking_Management/workers.go:226-239 | Takes the next job; remembers floor and space for a record that still wants retrieval. |
| ParkingSystem.AutomatedParkingSystem.UnparkerRemoves | Parking_Management/workers.go:241-250 | Frees the remembered floor and deletes the record. |
| ParkingSystem.AutomatedParkingSystem.ShuffleLifts | Parking_Management/workers.go:121-149 | Lifts the vehicle exactly when it is where the move expects it. |
| ParkingSystem.AutomatedParkingSystem.ShuffleSetsDown | Parking_Management/workers.go:162-179 | Sets the vehicle down at its current target exactly when there is room, else changes nothing. |
| ParkingSystem.AutomatedParkingSystem.ShuffleSetsDownLost | Parking_Management/workers.go:163-184 | The same for a vehicle whose record has been deleted while the robot waited. |
| ParkingSystem.AutomatedParkingSystem.ClaimBufferSlot | Parking_Management/buffer_slots.go:25-35 | Claims the first free slot, or answers none exactly when all are claimed. |
| ParkingSystem.AutomatedParkingSystem.ShuffleBuffers | Parking_Management/workers.go:157-161 | Puts the carried vehicle into the slot; its reservation stays. |
| ParkingSystem.AutomatedParkingSystem.ShuffleUnbuffers | Parking_Management/workers.go:128-148 | Takes a vehicle out of a slot exactly when its record says that it is there. |
| Shuffle.NobodyStillToLeave | Parking_Management/workers.go:14-19 | When a robot on an acyclic component carries a vehicle to a floor, nobody who is to leave that floor is still waiting on it. |
| Shuffle.NeverBlocks | Parking_Management/workers.go:163-171 | Then the floor has room for it, whatever other robots, looped components and new arrivals have done. |
| Shuffle.RunInv | Parking_Management/workers.go:7-19 | The invariant holds in every state of every interleaving. |
| Shuffle.RunsNeverBlock | Parking_Management/workers.go:14-19 | In every state of every run no floor is over capacity and every unfinished acyclic component can go on. |
| Shuffle.EndsAsPlanned | Parking_Management/workers.go:142-176 | When all moves are placed and all admitted vehicles stored, the vehicles stand exactly as reserved. |
| Shuffle.NoFullerThanBeforeOrAfter | Parking_Management/workers.go:142-176 | A floor without looped or new arrivals is never fuller than the larger of its initial and planned load. |
| Rearrangement.StepMirrored | Parking_Management/workers.go:121-221 | Each critical section of customers, parkers and shuffle robots is a step of the shuffling model, or none: the counters and records keep saying what the model says. |
| Rearrangement.RobotsNeverWait | Parking_Management/workers.go:163-171 | In every run that starts with all vehicles stored and in which nobody asks for one: a robot with a vehicle of an acyclic component always finds room by the floor's own counter, and every vehicle yet to be moved is where its move says. |
| Rearrangement.FirstReady | Parking_Management/workers.go:204-216 | Before any rearrangement, a facility with all vehicles stored has its counters right and no job on its way. |
| Rearrangement.BlueprintStarts | Parking_Management/parking.go:139-174 | In such a facility a committed blueprint starts a run of that kind. |
| Rearrangement.EndsReady | Parking_Management/workers.go:172-176 | When all its moves are made and all new vehicles stored, the facility is again as required for the next. |
| HeapOrder.SwapUp | KeyValueStore/heap.go:30-38 | Swapping a too small key with its parent moves the one possible disorder up to the parent's slot. |
| HeapOrder.SwapDown | KeyValueStore/heap.go:30-38 | Swapping a too large key with its smaller child moves it down. |
| HeapOrder.RootIsLeast | KeyValueStore/heap.go:55-60 | The root of a heap is minimal. |
| HeapOrder.Rekeyed | KeyValueStore/main.go:115-117 | Changing any one key leaves everything in order except around its slot. |
| ExpiryHeaps.ExpiryHeap.Swap | KeyValueStore/heap.go:34-38 | Exchanges two items and updates both positions, so every item knows its slot. |
| ExpiryHeaps.ExpiryHeap.Push | KeyValueStore/heap.go:40-44 | Appends the item with its position. |
| ExpiryHeaps.ExpiryHeap.Pop | KeyValueStore/heap.go:46-53 | Takes the last item off and gives it position -1. |
| ExpiryHeaps.ExpiryHeap.Peek | KeyValueStore/heap.go:55-60 | The item with the earliest deadline, or nil exactly for an empty heap. |
| ExpiryHeaps.HeapPush | KeyValueStore/main.go:119-124 | Keeps order and positions, and adds exactly the item. |
| ExpiryHeaps.HeapPop | KeyValueStore/main.go:68 | Keeps order and positions, and removes exactly the item in slot 0, which has the earliest deadline. |
| ExpiryHeaps.HeapRemove | KeyValueStore/main.go:104-106 | Removes exactly the item in any given slot, keeping order and positions. |
| ExpiryHeaps.HeapFix | KeyValueStore/main.go:115-117 | Restores the order after a deadline has changed either way, keeping positions and items. |
| KeyValueStores.KeyValueStore.Set | KeyValueStore/main.go:88-129 | Each refusal exactly in its case. An accepted Set stores the value, with no deadline for ttl 0 and otherwise to be found until now + ttl and not after, replaces any deadline the key had, touches no other key, and keeps index and heap in step with the store. |
| KeyValueStores.KeyValueStore.ReadOrExpire | KeyValueStore/main.go:151-169 | Under the write lock the answer is one that a table which never forgets allows at that instant; only an expired key is dropped. |
| KeyValueStores.KeyValueStore.ReadEntry | KeyValueStore/main.go:138-147 | A missing key may be missing at that moment, and an entry that is still fresh at any later reading of the clock might be answered at that moment. |
| KeyValueStores.KeyValueStore.PerformAll | KeyValueStore/main.go:47-234 | What other threads may do during a lookup: any sequence of sets, deletes, expiries, steps of the cleaner and a shutdown keeps all the guarantees. |
| KeyValueStores.KeyValueStore.Get | KeyValueStore/main.go:137-170 | Whatever runs between its critical sections, the answer is one that a table which never forgets allows, with the table and value at the moment of the first look, or at that of the second. |
| KeyValueStores.UninterruptedAnswer | KeyValueStore/main.go:137-170 | So a lookup that nothing interrupts finds the latest value before the deadline and nothing after it. |
| KeyValueStores.SetThenGet | KeyValueStore/main.go:113-161 | A key set with a ttl and then looked up, with only the cleaner and other lookups in between: found with its value while the lookup ends before ttl is over, or always for ttl 0, and not found once it is over. |
| KeyValueStores.KeyValueStore.Exists | KeyValueStore/main.go:191-224 | The same for existence, whatever runs in between. |
| KeyValueStores.KeyValueStore.Delete | KeyValueStore/main.go:172-189 | Removes the key from store, index and heap together and answers yes exactly when the store is open and still had it. |
| KeyValueStores.LookupAllowed | KeyValueStore/main.go:65-71 | A store that has dropped some keys at or after their deadlines answers as the table which never forgets allows. |
| KeyValueStores.AllowedIsDetermined | KeyValueStore/main.go:148-150 | Both answers are allowed exactly at the instant of the deadline: a lookup keeps such an entry while the cleaner may drop it. |
| KeyValueStores.KeyValueStore.CleanerPeeks | KeyValueStore/main.go:50-62 | The cleaner's first look, which may be stale by the time it acts, keeps every wake-up guarantee. |
| KeyValueStores.KeyValueStore.CleanerPops | KeyValueStore/main.go:64-73 | Deletes at most one key, and only one whose current deadline has come, whatever was set since the first look. |
| KeyValueStores.KeyValueStore.SleepIsSafe | KeyValueStore/main.go:52-60 | While the cleaner sleeps and no wake-up is pending, nothing in the store expires before it rises. |
| LruCaches.LRUCache.Put | LRU cache/main.go:37-79 | The list stays linked both ways without cycles and holds exactly the map's nodes; the contents become the recency list with the key in front, its old place removed, or the last item evicted exactly when a new key meets a full cache. |
| LruCaches.LRUCache.Get | LRU cache/main.go:105-113 | A hit answers the data and moves the item to the front; a miss answers NOT FOUND and changes nothing. |
| LruCaches.LRUCache.ReRank | LRU cache/main.go:81-103 | From any slot, the node becomes the first and the others keep their order, with all links matching. |
| LruCaches.LRUCache.EvictLast | LRU cache/main.go:51-63 | Unlinks the last node, also when it is the only one, and deletes its key from the map. |
| LruCaches.LRUCache.AddFront | LRU cache/main.go:64-76 | Links a new node in front, also into an empty list, under its key. |
| LruCaches.LRUCache.constructor | LRU cache/main.go:28-35 | An empty cache, of any capacity. |
| Recency.RunKeeps | LRU cache/main.go:37-113 | After any calls keys are distinct and a positive capacity is never exceeded. |
| Recency.HoldsMostRecent | LRU cache/main.go:37-113 | After any calls the cache holds exactly the most recently used keys, up to its capacity, each with its latest data, in order of use. |
| Recency.IncludedPut | LRU cache/main.go:41-76 | A Put keeps the smaller of two caches included in the larger. |
| Recency.IncludedGet | LRU cache/main.go:105-113 | So does a Get, even when it hits in one and misses in the other; where both hit, they answer the same. |
| Recency.RunsIncluded | LRU cache/main.go:37-113 | Two caches of capacities k <= n run on the same calls: the smaller list is always a subsequence of the larger, with equal data and length min(k, length of the larger). |
| PoolProtocol.CountedStep | Connection Pool/main.go:92-116 | Every step keeps totalConnections equal to the size of the registry and within the limit, and the wait group equal to the number of connections in use. |
| PoolProtocol.PlacedStep | Connection Pool/main.go:91-193 | Every step keeps each registered idle connection in exactly one place: the channel, one caller's hands, a Release about to send it, or dropped after the close. |
| PoolProtocol.RunInv | Connection Pool/main.go:84-193 | Both hold in every interleaving, whatever anybody releases. |
| PoolProtocol.NothingGoesWrong | Connection Pool/main.go:153-172 | In every run a Release about to send finds room in the channel, the wait group never goes below zero, and only registered connections are deleted. |
| PoolProtocol.BorrowsOnlyFall | Connection Pool/main.go:93-117 | From the close on, the number of borrowed connections never rises. |
| PoolProtocol.LeftByShutdown | Connection Pool/main.go:176-193 | When a Shutdown finds the channel empty, the registry holds exactly the connections that an Acquire has dropped or that somebody still has in hand. |
| PoolProtocol.LostToShutdown | Connection Pool/main.go:91-96 | So the registry need not be empty after a shutdown: a run in which one idle connection is received before the close and never taken out. |
| PoolProtocol.RunOneHolder | Connection Pool/main.go:97-117 | If callers release only what they hold, connections in use and holders correspond one to one, so no connection has two holders. |
| PoolProtocol.LentSinceRelease | Connection Pool/main.go:97-106 | A connection released at t and, after any further steps of others, in the hands of an Acquire before the close: lent if healthy and the time is at most t + idleTimeout, discarded otherwise. |
| ConnectionPools.Pool.Sizes | Connection Pool/main.go:47-59 | In every state of the pool itself: totalConnections is the size of the registry and within the limit, the wait group counts the connections in use, and the idle channel holds registered idle connections, with room whenever a send is due. |
| ConnectionPools.Pool.Poll | Connection Pool/main.go:86-108 | The first select of Acquire takes the first idle connection, or goes on exactly when there is none. |
| ConnectionPools.Pool.Decide | Connection Pool/main.go:92-106 | Cancelled exactly after the close; lent exactly if healthy, recently used and idle, else taken out of the registry and the count; and the pool takes that step of the protocol. |
| ConnectionPools.Pool.Create | Connection Pool/main.go:109-119 | A new connection in use exactly when the limit and the close allow it, as the protocol's step. |
| ConnectionPools.Pool.Acquire | Connection Pool/main.go:84-120 | With nothing in between and an open pool, up to the second select: the first idle connection if it is usable, otherwise a new one, or a wait exactly with nothing idle and the limit reached. |
| ConnectionPools.Pool.Resume | Connection Pool/main.go:121-144 | A waiting caller to whom a connection comes gets it, or discards it and begins again. |
| ConnectionPools.Pool.Return | Connection Pool/main.go:147-171 | Each error of a release exactly in its case; otherwise the connection is idle, the wait group one less, and it is left to be sent, used last just now, exactly when the pool is open and the channel has room; else it is taken out of the registry. |
| ConnectionPools.Pool.SendIdle | Connection Pool/main.go:172 | The send, with receives possibly in between, always finds room. |
| ConnectionPools.Pool.Release | Connection Pool/main.go:147-174 | Both together, for the holder or for a stray caller. |
| ConnectionPools.Pool.DrainOne | Connection Pool/main.go:182-192 | A shutdown takes the next idle connection, or is done exactly when there is none. |
| RequestHeaps.RequestHeap.Push | Elevator_System/heap.go:7 | On heap order by floor: adds exactly the request. |
| RequestHeaps.RequestHeap.Pop | Elevator_System/heap.go:8-14 | Takes exactly one request, with the lowest floor (or the highest, for the other heap). |
| Elevators.Directional.AddRequest | Elevator_System/elevator.go:84-96 | A new request waits on the way down if and only if its direction is down, and else on the way up; all others stay where they are; one that is pending already changes nothing. |
| Elevators.Directional.AskAtTheDoor | Elevator_System/elevator.go:84-112 | A request at the floor where the car stands, followed by the choice of the next: that floor is served at once if the request goes with the sweep; if it goes against the sweep, it is served next only when nothing pending lies ahead. |
| Elevators.Directional.Rebucket | Elevator_System/elevator.go:114-121 | All that the car has left behind changes heap, and nothing else. |
| Elevators.Directional.NextRequest | Elevator_System/elevator.go:98-112 | None exactly when nothing is pending; else a request that the LOOK discipline may serve next, pending no more. |
| Elevators.Directional.HeapsArePending | Elevator_System/elevator.go:67-73 | The two heaps together are exactly the pending set, each request once. |
| LookSchedule.TwoPasses | Elevator_System/elevator.go:114-121 | One pass over each heap is enough: all of up is at or above the car and all of down at or below. |
| LookSchedule.AtTheDoor | Elevator_System/elevator.go:98-121 | With a request pending at the car's own floor, the next stop is there if and only if some request there waits for this sweep or nothing lies ahead; one waiting for the way back is passed over while anything is ahead. |
| LookSchedule.NextIsNearestAhead | Elevator_System/elevator.go:98-121 | No pending request lies strictly between the car and the served floor; the sweep turns only when nothing is strictly ahead; the served request is pending before and not after. |
| LookSchedule.DrainPays | Elevator_System/elevator.go:98-126 | Each served request pays for its travel out of the way left, and each turn out of the turns left. |
| LookSchedule.LookDrain | Elevator_System/elevator.go:98-126 | Draining without arrivals serves every pending request exactly once, turns at most once and travels at most twice the span of the car's and the pending floors. |
| Elevators.ElevatorSystem.Call | Elevator_System/elevator.go:225-237 | Accepts exactly the calls for an existing floor that do not lead out of the shaft; an accepted one takes the two steps of a caller: the request joins the side of its direction, and a token waits. |
| Elevators.ElevatorSystem.SelectFloor | Elevator_System/elevator.go:239-258 | Accepts exactly existing floors; the side follows from where the car is; then the same two steps. |
| Elevators.ElevatorSystem.AlwaysTrue | Elevator_System/elevator.go:225-282 | In every state of the elevator itself: a sleeping processor with pending requests has a token waiting or a caller about to signal; the car is in the shaft; every accepted request is pending, on its way or served. |
| Elevators.ElevatorSystem.ChooseNext | Elevator_System/elevator.go:273-277 | Takes a request the LOOK discipline allows, or goes to sleep exactly when nothing is pending. |
| Elevators.ElevatorSystem.MoveTo | Elevator_System/elevator.go:284-324 | Goes floor by floor to the target; a shutdown leaves the car where it is, on the way. |
| Elevators.ElevatorSystem.Serve | Elevator_System/elevator.go:273-279 | The processor's loop, when nothing else arrives, serves every pending request exactly once with at most one turn and at most twice the span of way, and ends asleep. |
| ElevatorRuns.RunKeepsInv | Elevator_System/elevator.go:225-282 | In every run: pending plus under way plus served are the accepted requests; the car stays in the shaft; and a sleeping processor with pending requests has a token waiting or a caller about to signal. |
| ElevatorRuns.QuietMeansServed | Elevator_System/elevator.go:260-282 | Whenever all is quiet, every request ever accepted has been served, as often as it was accepted. |
| ElevatorRuns.NeverStuck | Elevator_System/elevator.go:260-282 | Short of quiet, some step other than a new request is possible. |
| ElevatorRuns.StepsLeadToQuiet | Elevator_System/elevator.go:260-282 | Every such step comes closer to quiet. |
| TokenBudgets.TokensAreLeastBudget | Token Bucket Rate Limiter/main.go:63-67 | After the refill the tokens are exactly the least of the budgets of all windows that start with the bucket's creation, an earlier call or this one. |
| TokenBudgets.TokenIffFits | Token Bucket Rate Limiter/main.go:68-73 | One token is there if and only if the call fits every window. |
| TokenBudgets.OneASecond | Token Bucket Rate Limiter/main.go:61-73 | Capacity 1 and rate 1: half a second after an allowed call the next is refused, a second after it allowed. |
| TokenBudgets.CreationWindowImplied | Token Bucket Rate Limiter/main.go:52-55 | With a rate that is not negative, the windows that start with calls are enough. |
| TokenBudgets.HonestKeepsBudgets | Token Bucket Rate Limiter/main.go:61-73 | A bucket's answers never break a window's budget. |
| TokenBudgets.WindowBound | Token Bucket Rate Limiter/main.go:61-73 | In any stretch of calls the allowed ones are at most capacity + rate * duration. |
| TokenBudgets.NoneAllowsMore | Token Bucket Rate Limiter/main.go:61-73 | Of all ways to answer the same calls within the budgets, none has at any moment allowed more than the bucket. |
| TokenBuckets.Bucket.Take | Token Bucket Rate Limiter/main.go:61-73 | Allows the call if and only if, for every window that starts with the bucket's creation, an earlier call or this one, capacity + rate * duration less the calls allowed in it is at least 1. |
| TokenBuckets.TokenBucketRateLimiter.FindOrCreate | Token Bucket Rate Limiter/main.go:43-59 | The user's bucket, made full if there is none; one put there meanwhile is kept. |
| TokenBuckets.TokenBucketRateLimiter.Allow | Token Bucket Rate Limiter/main.go:41-74 | The same per user, with the other users' buckets untouched. |

## Left out

- Looped components after their first vehicle is moved aside: the vehicle is just the first of the component and the new order of the rest ignores its loop flags, so freedom from blocking is not claimed for them. In the model their vehicles may be lifted, buffered and set down in any order.
- The wait before a component starts (`Parking_Management/workers.go:80-119`): runs start with every vehicle stored at its target.
- Exact physical occupancy when retrievals and a rearrangement overlap: a shuffle robot does not look at retrieval requests and an unparker keeps a floor across its sleep. It is proved without rearrangement and without retrievals; the ledger of reservations, and the floors' physical limits, in all runs.
- ParkingSystem.AutomatedParkingSystem.RobotSendsUnparkJob: has room in the channel as its precondition; the time a robot spends blocked on a full channel is not modelled.
- Parking records are values in a map that the methods reassign, so that two names for one record, and the index by registration number, are not modelled.
- Allocation.AllocateCompaction: percentages are reals, not 64-bit floats.
- Fees, entry and exit times, customers' names and the format of tickets.
- The in-degree table that the dependency graph also returns and nobody reads.
- PoolProtocol.RunInv: contexts may be cancelled at any step, and whether blocked callers are woken is not modelled.
- Token bucket arithmetic uses reals; rounding of 64-bit floats is not modelled.
- ElevatorRuns.RunKeepsInv: runs end at a shutdown, after which the processor discards what is pending.
- Elevator doors, travel times, the first-in-first-out strategy (nothing constructs it) and the sorted list of pending requests for display.
- Go's container/heap is written out on the repository's own `Less`, `Swap`, `Push` and `Pop`; its sort is an insertion sort, of which only the contract is used.
- The job queue (its redrive stops at the first refusal and loses the rest of the batch), publish and subscribe, snakes and ladders and the expense splitter: easy or unfinished.
