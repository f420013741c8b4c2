# EcosystemPy core in Dafny

This project models the simulation core of EcosystemPy, a grid world that is lived one
day at a time. The world holds:

- **vegetebobs**, which are plants with a density;
- **erbasts**, which are herbivores that graze;
- **carvizes**, which are predators that hunt erbasts;
- **herds** (groups of erbasts) and **prides** (groups of carvizes).

The model covers the cells (`cells.py`), the species (`species.py`), the groups
(`groups.py`) and the world (`world.py`). It proves the following about them.

The world invariant (`Ecosystem.Valid`) keeps all the indexes consistent:

- the grid of cells;
- each cell's populations and group sets;
- the world's per-species population sets;
- the registry of groups;
- every entity's record of its cell and group.

Every operation that completes a step of the source keeps this invariant. Some partial steps break it for a moment: `Animals.RemoveFromCurrentCell` and `Animals.AddToCell`, for example, are only halves of a move. They are proved to compose into operations that keep it.

The operations also carry contracts that state their effect. Where a contract states less than the source does, the gap is listed under Left out, on a line that starts with the member's name. The effects covered are:

- a birth or a death;
- a move or a group's march;
- a merge, a fight or a hunt;
- growth, grazing, appeal evaluation;
- world generation;
- the two phases of a day.

The lemmas beside the operations prove their consequences, among them:

- a pride's hunt hands out exactly the victim's energy;
- ten days of age cost exactly one unit of energy;
- growth never takes a vegetebob's density past 100 from a density of whole half units at most 100, and grazing only lowers it (a fact about each step: the world invariant does not carry the bound);
- a group that marches keeps at least one member, and every remaining member ends in the chosen cell;
- generation never takes a species more than one above its cap, and leaves an interior ground cell empty only once every species is above its cap;
- a day's first phase runs the first phase of every entity present at the start, each once, and nothing else;
- the second phase of a day visits the groups exactly as Python's list iterator does over the registry that each group's day changes.

### How the model is organised

- **State as values.** `Ecosystem.World` is a single value, with maps from identities to entity records (`vegetebobOf`, `animalOf`, `groupOf`). References between objects become identities.
- **Operations.** An operation is a method that returns the new world. Its contract states the new world in terms of the old one. A separate `...KeepsValid` lemma proves that the invariant is preserved.
- **Loops.** Where the source loops (over a group's members, a cell's residents or the grid), the model loops too, with invariants.
- **Modules:** `Constants`, `Cells`, `Ecosystem` (the world, its invariant, appeal evaluation and neighbour lookup), `Vegetation` and `Animals` (`species.py`), `Groups`, `Herds` and `Prides` (`groups.py`), and `Simulation` (`world.py`).

### Source behaviour kept as written

The model keeps the following behaviours of the source exactly as they are written:

- **Animals.DecideToMove.** `Animal.decide_to_move` compares the bound method `get_best_cell_in_neighborhood` (not its result) with the current cell. That comparison is never equal, so an animal votes to move exactly when its energy is at least 4.
- **Groups.Join.** `Group.join` computes the union of the two member sets and discards it. Joining therefore only deletes the other group and leaves its members without a group; the joining group gains nobody.
- **Vegetation.Overwhelm.** The vegetebob's `del animal` only unbinds a loop variable, so overwhelming removes no animal.
- **Neighbour coordinates.** Both coordinates are bounded by `NUMCELLS_R`, the column included.
- **Population caps.** A species may still spawn while its count is *at most* its cap, so generation can end one above the cap.
- **Appeal.** Appeal evaluation takes 10 per erbast and 25 per carviz off the erbast appeal. It adds 50 per erbast to the carviz appeal and takes 10 per carviz off it.

## Model

| member | source | states |
|---|---|---|
| Cells.NewCell | cells.py:13-30 | A new cell has the given coordinates and type, zero appeal for both species, no vegetebob, erbast or carviz, no herd or pride, and an empty neighbour cache. |
| Cells.SurroundingCoordinatesSpec | cells.py:73-80 | The neighbour list holds exactly the positions of the 3x3 block around the cell. The cell itself is excluded, and both coordinates are in [0, NUMCELLS_R). The list has at most 8 entries and is strictly row-major ordered, so it has no repeats. |
| Cells.SurroundingCoordinatesIndexed | cells.py:78-79 | Every entry of the neighbour list, read by index, is a neighbour in that sense. |
| Cells.ScanBlockMembers | cells.py:78-79 | The comprehension's scan, from block index k on, keeps exactly the kept neighbours whose block index is at least k. |
| Cells.ScanBlockSorted | cells.py:78-79 | That scan yields positions in strictly increasing row-major order. |
| Ecosystem.TriggerAppealEvaluation | cells.py:38-61 | The new erbast appeal is the cell's vegetebob density (0 without one), less 10 per erbast and 25 per carviz. The new carviz appeal is 50 per erbast less 10 per carviz. Only that cell's two appeal values change. Evaluating a cell whose appeal is already up to date changes nothing. |
| Ecosystem.VegetationAppealAgrees | cells.py:50-53 | The vegetation part of the appeal depends only on the cell's vegetebob and its density, whichever way the single vegetebob is picked. |
| Ecosystem.GetSurroundingCells | cells.py:82-87 | The result is the neighbour list. A filled cache is left as it is; an empty cache is filled with that list. Nothing else changes. |
| Ecosystem.InteriorNeighboursInGrid | cells.py:78-79 | Every neighbour of an interior cell exists in the grid, so the cache lookup never indexes outside it. |
| Ecosystem.NewGroup | groups.py:14-19 | A new group takes the next identity and holds the given individuals. It is appended to the registry and added to its cell's group set of its kind. Nothing else changes. |
| Vegetation.NewVegetebob | species.py:29-53 | A new vegetebob of density 5 with no neighbour cache takes the next identity. It is added to its cell, whose appeal is re-evaluated, and to the world population. Animals and groups are untouched. |
| Vegetation.PlantedKeepsValid | species.py:29-53 | Planting on an interior cell without a vegetebob keeps the world invariant. |
| Vegetation.Grow | species.py:61-68 | Below density 100, density grows by 0.5 and the cell's appeal is brought up to date; only the density and that appeal change. At 100 or more the world is unchanged. |
| Vegetation.GrowthCapped | species.py:61-68 | From a whole number of half units at most 100, growth stays a whole number of half units and never passes 100; below 100 it strictly increases. |
| Vegetation.HalfUnitsKept | species.py:287-295 | The initial density and a graze of one unit keep densities in whole half units, so growth stops at exactly 100. |
| Vegetation.CollectVegetation | species.py:70-79 | The list has one entry per neighbouring cell that holds a vegetebob, in neighbour order. Each entry is that cell's vegetebob. |
| Vegetation.ListedVegetation | species.py:74-77 | A vegetebob is in the list if and only if it stands in one of the scanned cells. |
| Vegetation.GetSurroundingVegetebobs | species.py:70-79 | The vegetebob's cache is set to that list and its cell's neighbour cache is filled. Nothing else changes. |
| Vegetation.Overwhelm | species.py:81-90 | An empty cache is filled first. The result is true exactly when every cached neighbour has density 100. Only caches change; no animal is removed. |
| Vegetation.OverwhelmKeepsValid | species.py:81-90 | Overwhelming keeps the world invariant. |
| Vegetation.LiveFirstPhase | species.py:92-98 | Only this vegetebob changes, in its density, as growth dictates, and in its cache: kept when filled, otherwise listing the neighbouring vegetebobs in order. Only its cell changes, in its appeal, up to date after growth and kept at full density, and in its neighbour cache. No other cell, vegetebob, animal or group changes, and the invariant is kept. |
| Vegetation.GrowThenFill | species.py:97-98 | Growth followed by overwhelming gives exactly that day. |
| Vegetation.DayLivedResidents | species.py:92-98 | A vegetebob's day moves no vegetebob and keeps every cell's vegetation and animal populations. |
| Animals.NewAnimal | species.py:101-117 | A newborn takes the next identity. Its age is 0. Its energy is a whole number in [1, MAX_ENERGY], its lifetime is in [1, MAX_LIFE] and its social attitude is in [0, 1]. It has no group and is not deleted. It joins its spawn cell, whose appeal is re-evaluated, and its species' world population. Nothing else changes. |
| Animals.NewAnimalKeepsValid | species.py:101-124 | A birth on an interior cell keeps the invariant, and the newborn is alive. |
| Animals.AddToWorldPopulationData | species.py:119-124 | The animal's species population gains it, and adding one already present changes nothing. The other species and everything else are unchanged. |
| Animals.RemoveFromWorldPopulationData | species.py:126-130 | The animal's species population loses it. Everything else is unchanged. |
| Animals.RemoveFromCurrentCell | species.py:132-137 | The animal's cell loses it from the population of its species, and that cell's appeal is re-evaluated. Nothing else changes. |
| Animals.AddToCell | species.py:139-145 | The target cell gains the animal and has its appeal re-evaluated. The animal's cell becomes the target. Nothing else changes. |
| Animals.RemoveFromCurrentGroup | species.py:147-153 | The animal has no group afterwards. If it had one, that group loses it. Nothing else changes. |
| Animals.LeaveKeepsValid | species.py:147-153 | A member leaving its group keeps the invariant and stays alive. |
| Animals.AddToGroup | species.py:155-160 | The animal names the target group, and the target group gains it. Nothing else changes. |
| Animals.ScanForBestCell | species.py:162-181 | The result is the current cell unless some neighbour that is not water has appeal of at least the current cell's plus 50. In that case the result is such a neighbour, no neighbour that is not water has greater appeal, and no later neighbour in the list that is not water has equal appeal, so it is the last of the best in list order, as the `>=` scan picks it. |
| Animals.BestCellUnique | species.py:162-181 | That choice is unique: two cells that both meet it are the same cell, so the scan is deterministic. |
| Animals.GetBestCellInNeighborhood | species.py:162-181 | The same choice, the last best non-water neighbour, over the cell's neighbour list. The only other change is filling the neighbour cache. |
| Animals.Move | species.py:183-189 | The animal loses one unit of energy and moves from its cell to the target. Both cells' appeal is brought up to date, and every other cell is unchanged. |
| Animals.MoveComposed | species.py:183-189 | The energy decrement, the removal from the cell and the addition to the target compose to that move. |
| Animals.MoveKeepsValid | species.py:183-189 | A move onto an interior cell keeps the invariant. |
| Animals.AgingOverDays | species.py:191-197 | After n days the age has grown by n. The energy has dropped by AGING for every multiple of ten crossed. |
| Animals.TenDaysCostAging | species.py:191-197 | Any ten consecutive days cost exactly AGING energy. |
| Animals.IncreaseAge | species.py:191-197 | The animal's record is replaced by its one-day-older self: age +1, and AGING less energy when the new age is a multiple of 10. Only amounts change. |
| Animals.DecideToMove | species.py:199-210 | The answer is true exactly when the animal's energy is at least 4. The only other change is filling the neighbour cache. |
| Animals.SpawnOffspring | species.py:212-219 | If the animal's group has fewer than MAX_GROUP members, a newborn of the same species appears in the same cell. Otherwise nothing changes. |
| Animals.SpawnKeepsValid | species.py:212-219 | Spawning keeps the invariant and leaves the parent alive and unchanged. |
| Animals.DieFromLifetime | species.py:221-228 | Two spawn attempts, then the animal's deletion. |
| Animals.LifetimeOffspring | species.py:221-228 | When the group is below MAX_GROUP, the two attempts add exactly two newborns, with the next two identities, of the parent's species in its cell. Otherwise they add none. |
| Animals.LiveSpawnPhase | species.py:230-239 | At the end of its lifetime the animal spawns twice and is deleted. Otherwise, below 1 energy, it is deleted. Otherwise nothing changes. Only its species' population in its own cell changes. |
| Animals.LiveSpawnPhaseOutcome | species.py:230-239 | The animal survives exactly when its age is below its lifetime and its energy is at least 1; a survivor is unchanged. Every other live animal stays alive in its cell. |
| Animals.LiveSpawnPhaseKeepsValid | species.py:230-239 | The spawn phase keeps the invariant. |
| Animals.SpawnPhaseOwnPopulation | species.py:230-239 | The spawn phase changes no cell population other than the animal's own species in its own cell. |
| Animals.LiveFirstPhase | species.py:248-256 | The new world is the animal aged by one day, then, if it had no group, with the group it initiates, as InitiateGroup states it, and then after its spawn phase, as LiveSpawnPhase states it. It survives exactly when its aged record has age below lifetime and energy at least 1, and a survivor is its aged record, now with a group. Every other live animal stays alive in its cell, and only its species' population in its cell changes. The invariant is kept. |
| Animals.FirstPhaseComposed | species.py:253-256 | Ageing, then the group initiation when the animal has no group, then the spawn phase compose to that first phase. |
| Animals.GroupingOwnPopulation | species.py:253-255 | Ageing and group initiation change no cell population at all. |
| Animals.Delete | species.py:258-265 | The animal is marked deleted and loses its group. It is removed from its cell, whose appeal is brought up to date, from its species' world population and from its group. Nothing else changes. |
| Animals.DeleteComposed | species.py:258-265 | The four steps compose to that deletion. |
| Animals.DeleteKeepsValid | species.py:258-265 | Deletion keeps the invariant. |
| Animals.InitiateGroup | species.py:275-285 | A new herd (erbast) or pride (carviz) takes the next identity. Its members are the groupless animals of the cell plus the initiator, and each of them now names it. It is appended to the registry and added to its cell's group set. Nothing else changes. |
| Animals.InitiateGroupKeepsValid | species.py:305-315 | Group initiation keeps the invariant. |
| Animals.Graze | species.py:287-295 | If the cell's vegetebob has positive density, the density drops by 1 and the erbast's energy rises by 1, so their sum is unchanged. Otherwise nothing changes. |
| Groups.FirstIndex | groups.py:75 | The position of the first occurrence of the group in the registry. |
| Groups.RemoveFirstDistinct | groups.py:75 | Removing a group from a registry without repeats leaves exactly the other groups, still without repeats. |
| Groups.RemoveFromCurrentCell | groups.py:21-24 | The group set of the group's kind in its cell loses the group. No other group set and nothing else changes. |
| Groups.AddToTargetCell | groups.py:26-28 | The target's group set gains the group, and the group's cell becomes the target. Nothing else changes. |
| Groups.SetCurrentCell | groups.py:30-34 | The group is relocated to the cell of one of its members: its record and its group-set entry move there. |
| Groups.RelocationComposed | groups.py:30-34 | Removing from the old cell and adding to the target compose to that relocation. |
| Groups.RelocatedKeepsValid | groups.py:30-34 | Relocation keeps the invariant. |
| Groups.CollectVotes | groups.py:37 | There is one vote per listed member, in order, and a vote is true exactly when that member's energy is at least 4. Only neighbour caches change. |
| Groups.VotesCountKeen | groups.py:37-40 | The number of true votes equals the number of members with energy at least 4. |
| Groups.DecideToMove | groups.py:36-43 | The group moves exactly when at least half of its members have energy at least 4. Only neighbour caches change, and the invariant is kept. |
| Groups.ListOf | groups.py:56 | The list holds every element of the set exactly once. |
| Groups.Scan | groups.py:53-54 | The best cell is chosen by one member's best-cell scan, and the members are listed exactly once. Only caches change. |
| Groups.MarchEach | groups.py:56-60 | Members with energy 1 leave the group and stay where they are. Every other member moves to the best cell with one unit less energy. |
| Groups.KeenRemain | groups.py:56-62 | When at least half of a non-empty group has energy at least 4, some member remains after those with energy 1 leave, so `list(individuals)[0]` exists. |
| Groups.MarchedMembersAtBest | groups.py:56-62 | After the march the remaining members are the group minus those with energy 1, and all of them stand in the best cell. |
| Groups.MarchedKeepsValid | groups.py:56-60 | The march keeps the invariant. |
| Groups.Movement | groups.py:49-63 | The group moves exactly when the vote passes. The best cell is then one member's best-cell choice: members with energy 1 leave, the others move there, and the group is relocated there. Otherwise only caches change. The invariant is kept. |
| Groups.DeleteGroup | groups.py:65-76 | The group is marked deleted and emptied, and leaves the registry, keeping the order of the others, and its cell's group set. Its members lose their group; when killing, they are also deleted from their cells and the world populations, and the cells they left have their appeal brought up to date. No other cell's appeal or contents, no other group and no other animal changes, and the invariant is kept. |
| Groups.DeletionComposed | groups.py:65-76 | Disbanding the members, then unregistering, composes to that deletion. |
| Groups.DisbandedKeepsValid | groups.py:68-73 | Disbanding the members, by release or by killing, keeps the invariant. |
| Groups.UnregisteredKeepsValid | groups.py:75-76 | Unregistering an emptied group keeps the invariant, and the group is no longer registered. |
| Groups.DeletedDismissed | groups.py:65-76 | After a deletion every former member has no group, and it is still in its species' population exactly when the members were not killed. |
| Groups.Join | groups.py:45-47 | The other group is deleted without killing, and its members end without a group. The joining group's own record is unchanged, because the union is discarded. |
| Groups.DeleteIfNoMembers | groups.py:78-83 | The result is true exactly when the group has no members. The group is then deleted; otherwise nothing changes. |
| Groups.JoinNext | groups.py:106-110 | One step of merging: another group of the cell is joined, and the group itself is skipped. The world stays a merge of the groups joined so far: their records are emptied and unregistered, their members lose their group, and nothing else changes. |
| Groups.MergedFacts | groups.py:45-47 | After a merge the merging group keeps its record and registration, its cell holds exactly the groups not joined, the groups not joined keep their records, and no animal's social attitude changes. |
| Groups.MergedDismissed | groups.py:65-73 | After a merge every member of a joined group has no group, and is deleted exactly when the merge killed. |
| Herds.JoinAll | groups.py:106-110 | Every other herd of the cell is joined, so their members end without a group. The herd is then the only herd in its cell, and its own record is unchanged. |
| Herds.Grazing | groups.py:102-104 | Every member grazes once, and only energies and densities change. Each member gains one unit of energy or none. A member on a vegetebob with density at least the herd's size is fed, and a member on bare ground is not. Every vegetebob loses exactly one unit for each member fed from it, that is each member standing in its cell whose energy grew, so a vegetebob in a cell without members keeps its density, and none loses more units than the herd has members. The invariant is kept. |
| Herds.LiveDay | groups.py:112-118 | An empty herd is deleted, releasing nobody. Otherwise it first joins every other herd of its cell, leaving it alone there. It moves exactly when at least half of its members have energy at least 4: the target is the best cell of one member's scan, and the move is GroupMoved (members with energy 1 leave, the rest go there, the herd follows). Otherwise it grazes, as Grazing states. Between the join and the move or the graze only neighbour caches change. It stays registered exactly when it had members. |
| Prides.SumOfTrait | groups.py:125-128 | The loop's total is the sum of the trait over the set. |
| Prides.GetAverageSocialAttitude | groups.py:125-128 | The result is the mean social attitude of the members, or 0 for an empty pride. |
| Prides.AverageAttitudeBounds | groups.py:125-128 | That average lies in [0, 1]. |
| Prides.AlliesMember | groups.py:132 | A pride is an ally exactly when it is another pride of the cell and both average attitudes are at least 0.5. |
| Prides.TryJoinAll | groups.py:130-134 | Exactly the allies are joined, so their members end without a group. The pride itself is unchanged and stays registered. |
| Prides.MergingKeepsAverage | groups.py:130-134 | A pride still waiting in the loop keeps its average while others are joined, so each decision uses the averages the loop started with. |
| Prides.Weigh | groups.py:137-142 | The weights are the members' total energy per pride. Their sum and the set of prides with positive weight are computed exactly. |
| Prides.InitiateFight | groups.py:136-147 | The draw succeeds exactly when the total weight is positive. The winner is then a pride of the cell with positive weight, and every other pride of the cell is deleted with its members killed. Otherwise nothing changes. |
| Prides.FindStrongestErbast | groups.py:149-151 | The victim is an erbast of the pride's cell with no other erbast there having more energy. |
| Prides.Hunt | groups.py:153-162 | The victim is the strongest erbast of the cell. Every member gains the victim's energy divided by the pride's size, and then the victim is deleted. |
| Prides.HuntSharesVictim | groups.py:156-160 | The members' total energy grows by exactly the victim's energy. |
| Prides.LiveDay | groups.py:164-175 | An empty pride is deleted, releasing nobody. Otherwise it joins exactly its allies. It moves, as Herds.LiveDay states the move, when the vote passes, and the day then succeeds. Otherwise it stays, as Prides.Stay states. It is registered at the end only if it had members. |
| Prides.Stay | groups.py:170-175 | A pride that did not move fights exactly when its cell holds more than one pride. The fight fails, changing nothing, exactly when the prides' total weight is not positive; otherwise a pride of positive weight wins and every other pride of the cell is deleted with its members killed. Unless the fight failed, the pride then hunts if it is still registered and its cell holds an erbast, and otherwise the world stays as the fight left it. |
| Simulation.Blank | world.py:20-28 | A rows x cols grid of fresh water cells, with empty populations and an empty registry. |
| Simulation.Generate | world.py:18-36 | The generated world satisfies the invariant and has no groups. The outer ring is empty water, and every other cell has the type drawn for it. No cell holds more than one resident and no water cell holds any. No species count exceeds its cap by more than one. An interior ground cell is left empty only when every species' count is above its cap. |
| Simulation.GenerateRow | world.py:34-36 | The cells of row x are laid with their types, and the generation invariants (valid, sparse, capped, no groups, the rest unfilled, empty ground only once saturated) extend to the end of the row. |
| Simulation.InitializeCell | world.py:38-47 | A boundary cell becomes a new water cell. Any other cell gets the drawn type and holds exactly one resident exactly when it is ground and some species is eligible. No other cell changes and no count decreases. |
| Simulation.SaturatedStep | world.py:49-66 | Filling one slot keeps the rule that an interior ground cell is empty only once no species is eligible, because counts never decrease and the other cells are unchanged. |
| Simulation.LaidStep | world.py:41-46 | Laying one cell with its type, and changing no other, keeps every earlier cell's type. |
| Simulation.SlotFilled | world.py:42-46 | Placing a fresh cell in its slot keeps the invariant, and keeps at most one resident per cell. |
| Simulation.ChooseSpecies | world.py:55-69 | No species is chosen exactly when no species is eligible. A chosen species is eligible, that is, its count is at most its cap. |
| Simulation.InitializeSpecies | world.py:49-71 | Nothing spawns exactly when the cell is not ground or no species is eligible. A spawn adds exactly one entity of an eligible species, the cell's only resident, and leaves the other counts and cells unchanged. |
| Simulation.CappedAfterSpawn | world.py:58-63 | Because eligibility allows a count equal to the cap, counts never exceed the cap by more than one. |
| Simulation.Spawn | world.py:69-71 | A vegetebob is planted, or an animal of the chosen kind is born, on the vacant cell, with the next identity. |
| Simulation.SpawnedCell | world.py:69-71 | After a spawn the cell is ground with exactly one resident, and every other cell is unchanged. |
| Simulation.SpawnCounted | world.py:69-71 | A spawn raises that species' count by one and leaves the others unchanged. |
| Simulation.SpawnKeepsValid | world.py:69-71 | A spawn keeps the invariant. |
| Simulation.PlantsStep | world.py:79-80 | In row-major order, the vegetebobs before the next cell are those before this one plus this cell's, with no overlap. |
| Simulation.AnimalsStep | world.py:79-80 | The same for animals. |
| Simulation.RowEnd | world.py:79-80 | Finishing a row's last column is the same as starting the next row. |
| Simulation.ListedApart | world.py:81-82 | A cell's erbast list followed by its carviz list has no repeats and holds exactly the cell's animals. |
| Simulation.PlantsLive | world.py:81-83 | The listed vegetebobs live their first phase one after another: a trace of worlds from w to r in which each step is Vegetation.LiveFirstPhase's day of the next vegetebob, which changes only that vegetebob and its own cell's appeal and neighbour cache. No cell's residents change, and the invariant is kept. |
| Simulation.AnimalsLive | world.py:81-83 | The listed animals live their first phase one after another: a trace from w to r in which each step is Animals.LiveFirstPhase's first phase of the next animal. Only that species' population in that cell changes, and the invariant is kept. |
| Simulation.OthersKeepResidents | world.py:81-83 | A cell's animals living their day leave every other cell's residents unchanged. The carviz list is taken after the erbasts have lived, and is the cell's original carvizes. |
| Simulation.AnimalsOfCellLive | world.py:81-83 | The erbasts, then the carvizes, present when each list is taken live their first phase, traced from w to r step by step. The entities traced are exactly the cell's animals at the start, each once, with no erbast after a carviz; other cells keep their residents. |
| Simulation.ErbastsBeforeCarvizes | world.py:81-82 | Listing a cell's erbasts and then its carvizes, without repeats, puts no erbast after a carviz. |
| Simulation.LiveCell | world.py:80-83 | The entities traced from w to r are exactly the cell's residents at the start, each once, every vegetebob before every animal and every erbast before every carviz, and each step is that entity's first phase. Other cells keep their residents, and the invariant is kept. |
| Simulation.FirstPhaseCell | world.py:80-83 | One more cell in row-major order has lived: the trace from the start of the day is extended by that cell's residents' first phases, the entities traced are exactly those that stood before the next cell, and the cells not yet reached are untouched. |
| Simulation.FirstPhaseRow | world.py:79-83 | The same for one more row, column by column. |
| Simulation.FirstPhase | world.py:77-83 | The entities that live their first phase are exactly the vegetebobs and the animals present at the start, each once, and none born during the phase. A trace of worlds leads from w to r, each step being the next entity's first phase. The invariant is kept. |
| Simulation.LivedEach | world.py:77-83 | A trace is exactly a sequence of worlds in which each one is the previous one after the next entity's first phase. |
| Simulation.LivedConcat | world.py:79-83 | A trace followed by a trace from its last world is a trace of both lists, from the first start to the last end. |
| Simulation.RegistryBounded | world.py:86 | The registry is never longer than the number of identities handed out, which bounds the second phase. |
| Simulation.GroupDay | world.py:86-87 | The new world is the old one after the group's day, as Herds.LiveDay states it for a herd and Prides.LiveDay for a pride. Only a pride's day can fail. The invariant, the grid's size and the identity counter are kept. |
| Simulation.SecondPhase | world.py:85-87 | A trace of group days leads from w to r. The k-th group that lives is the one at position k of the registry when its turn comes, and each step is that group's day. Without a failure the walk stops only when the registry has no entry at the next position. Otherwise it stops at a pride whose fight failed. The invariant is kept. |
| Simulation.DaysEach | world.py:86-87 | A trace of days is exactly a sequence of group days, the k-th taken by the group at position k of the world it found, with only the last one possibly failed. |
| Simulation.DaysStep | world.py:86-87 | The day of the group at the next position extends a trace of days. |
| Simulation.LiveDay | world.py:77-87 | The first phase as FirstPhase states it, leading from w to a settled world, then the second phase as SecondPhase states it, from the settled world to r. The invariant is kept. |

## Left out

- Objects and aliasing. Python objects that point at each other are modelled as one world value, with entities named by identity. Object identity and in-place mutation are therefore not modelled.
- `Entity.name`, `Group.name`, `__str__`, `__int__`, `Cell.available_cell_types`, `Cell.assign_to_world` and `World.__init__`'s defaults. These are naming and printing helpers, and the world is passed explicitly. Grid dimensions are free parameters.
- `World.print_population_data` and `visualization.py` are output only, and are not part of this model. Neither is the abstract `Entity.live_first_phase_of_a_day` / `Group.live_day`: every group is a herd or a pride.
- Randomness. The cell types drawn for the grid are a parameter of `Simulation.Generate` (`terrain`). The other random draws are nondeterministic choices, stated in each contract as the range they can take:
  - animal energy, lifetime and social attitude;
  - the spawned species;
  - the fight's winner.
  The probability distributions are not modelled.
- Floating point. Energies, densities, appeals and attitudes are exact reals; rounding is not modelled.
- Python runtime faults. These include `remove` of an absent element, `max` of an empty set, division by an empty pride, and a group whose set iteration lists no member. They become preconditions, and every caller in the model meets them.
- The `deleted` test at the start of a group's day is not branched on. A registered group is never deleted (the invariant), and the second phase only visits registered groups.
- Prides.InitiateFight: `random.choices` with a total weight of zero or less raises an error in Python. Here that is the `failed` outcome, which ends the day's second phase. A winner is any pride of positive weight, not one drawn in proportion to weight.
- Herds.Grazing: a member whose vegetebob has positive density below the herd's size may or may not be fed. Which case applies depends on the order in which members share a vegetebob, so the contract leaves it open. Whichever members are fed, each vegetebob loses exactly one unit per member fed from it.
- Groups.Movement: its "nothing but caches" for a failed vote is up to the filled neighbour caches. After a move, the appeal of the cells is not stated: the source re-evaluates it in each cell a member leaves or enters, but the contract leaves every cell's appeal open. Herds.LiveDay, Prides.LiveDay, Simulation.GroupDay, Simulation.SecondPhase and Simulation.LiveDay inherit this gap through their move case.
- FirstPhase: states that each entity present at the start lives once, with each step traced, but not the row-major order of the cells in its own contract. That order is stated step by step, by FirstPhaseCell and FirstPhaseRow: after each cell the entities traced are exactly those of the cells before the next one.
- Simulation.Generate: builds a fresh world of the given size. It does not model the source regenerating into a world object that already holds entities.
