# Model of arstotzka

arstotzka keeps track of which services of a data ecosystem are active. Three services share the
work. `registry` holds namespaces, a forest of services, who blocks whom, and the history of rotations
of each service. `locky` hands out expiring locks on services. `actiony` stores the actions that
services carry out. A client reserves access (locky locks the services it blocks and polls them for
activity), creates its action, and then removes the lock.

The project models the three services, the namespace seeder and the client session, and proves what
they guarantee together.

| file | what it holds |
|---|---|
| `Common`, `Actions`, `ActionRuns`, `CreationRaces` | actiony: action table, repository, guards; what holds over every run of requests, and with validation and insertion apart |
| `Locks` | locky: lock table, `lock`, `unlock`, `reserve` taken without interruption |
| `Registry`, `RegistryServices` | registry: forest, rotation histories, subtree bump, `detail`, `rotate` |
| `Integrity`, `Subtrees`, `Seeding`, `Seeded`, `Modifying`, `Modified`, `ModifyOutcome`, `ModifySuccess`, `NamespaceSeeder`, `RegistryRuns` | the seeder, what it achieves, and every sequence of registry operations |
| `Protocol`, `ProtocolSafety`, `Lifetimes` | the three services as one transition system, its invariant, how long a lock lasts |
| `Exclusion`, `SideBySide`, `Race`, `Barrier`, `Gaps`, `Residue`, `Stamps` | what the protocol guarantees in every interleaving, and where it does not |
| `Polling`, `Uninterrupted`, `Requests` | runs of polls in any order; what the methods promise, uninterrupted, is what runs and steps of the protocol do |
| `StatefulMediator`, `Client` | the client session, and how it drives the protocol |

Conventions. Classes whose methods change tables are Dafny classes over `seq` and `map` fields; each
method is proved against a function of the old state, and the theorems are about those functions. In
`Protocol` one event is one request to actiony, one access to a lock or registry table, or time
passing; a reservation or rotation is several events, polls come in any order, and anything may happen
in between. A run starts with empty lock and action tables and any consistent registry. Times of
checks, inserts and creations are event numbers, kept only to state the theorems. A client is
compliant when it creates its action while its reserve lock is live; events `CreateOutside` are
clients that do not reserve, and a theorem that needs to exclude one of their actions says which.
Answers from outside (other services' urls, registry or actiony out of reach during a reservation or
a rotation) are parameters.

Where the code and its documentation differ, the model follows the code:

- `README.md:17` presents locks as preventing the race between reservation and creation. Check and
  insert are separate awaits. Exclusion is lost only if the two windows from check to insert overlap
  (`Exclusion.MutualExclusion`), and whenever they do it can be lost (`SideBySide.OverlapLosesExclusion`).
- Validation and insertion of an action are separate awaits too. A REPLACEABLE service keeps its bound
  regardless (`CreationRaces.ReplaceableAlwaysKeepsBound`); a SINGLE service keeps it exactly when no
  insertion finds an action that became active since its validation
  (`CreationRaces.BoundHoldsExactly`, `CreationRaces.OverlappingCreationsBreakBound`).
- `README.md:105` asks for ancestors first. The create action accepts any order
  (`Seeded.SeedingIgnoresOrder`); the modify action does need it, because it looks parents up among
  the rows saved so far.
- `README.md:108` says a duplicated service name is ignored. That holds for modify; a create action
  with a duplicated name never ends (`Seeding.RepeatedNameNeverStops`).
- The `map` in the modify action is never filled, so parents always come from the table.
- A modify action without a service list throws.

## Model

| member | source | states |
|---|---|---|
| `Exclusion.MutualExclusion` | packages/locky/src/lock/models/lockManager.ts:52-109 | In every interleaving of requests: when two clients that followed the protocol have active actions on services that block each other, each had checked its own locks before the other inserted its lock, i.e. the two windows from check to insert overlapped. |
| `Exclusion.NeverBothActive` | README.md:29-37 | When check and insert are one step, two services that block each other are never active together in any reachable state, unless an active action of one of these two was made without a reservation. |
| `SideBySide.OverlapLosesExclusion` | packages/locky/src/lock/models/lockManager.ts:55-108 | The converse of `MutualExclusion`: in any reachable state in which two reservations for services that block each other have both checked and neither has inserted, with idle blockees, the two going on in the code's own order, with polls answered in any order, make both services active. |
| `Race.ExclusionCanFail` | packages/locky/src/lock/models/lockManager.ts:55-77 | From any initial state with a positive reserve lock expiration, any two services known to registry that block each other are both active after some run in which every client is compliant. |
| `Race.TwoRootsCanRace` | packages/locky/src/lock/models/lockManager.ts:55-77 | The hypotheses of `ExclusionCanFail` can be met: two roots that block each other. |
| `Gaps.OverlapLosesDisjointness` | packages/locky/src/lock/models/lockManager.ts:20-35 | The converse of `LockDiscipline`: two lock requests that share a service and have both checked get live locks that overlap. |
| `Gaps.PendingBreaksBarrier` | packages/registry/src/service/models/serviceManager.ts:63-99 | The hypothesis of `RotationBarrier` is needed: whenever a client already has the permission to create on a descendant as a rotation inserts its lock, all polls can come back idle and the client create afterwards, so the rows are about to be written under a live lock while the descendant is active. |
| `Exclusion.LockDiscipline` | packages/locky/src/lock/models/lockManager.ts:20-35 | If two live locks overlap and the later was made by `lock` (directly or for a rotation), the earlier one was inserted between its check and its insert. |
| `Exclusion.LocksAreDisjoint` | packages/locky/src/lock/models/lockManager.ts:20-35 | With check and insert as one step, live locks made by `lock` are pairwise disjoint and, of two overlapping live locks, the later is a reservation's. |
| `Exclusion.WindowsStaySeparate` | packages/locky/src/lock/models/lockManager.ts:55-77 | In every run whose requests go from check to insert at once, no two windows overlap and nobody stands between check and insert. |
| `Exclusion.RunWholeIsRun` | packages/locky/src/lock/models/lockManager.ts:55-77 | Runs with check and insert at once are runs of the interleaved protocol, so every theorem about the latter applies to them. |
| `ProtocolSafety.RunIsSafe` | README.md:29-37 | Every state reachable from empty lock and action tables satisfies the whole invariant: lock rows match requests, polls cover what was locked, later checks saw live locks, idle polls saw earlier actions, histories stay aligned. |
| `ProtocolSafety.StepKeepsSafe` | README.md:29-37 | Each of the fourteen kinds of event keeps that invariant. |
| `ProtocolSafety.StepKeepsChecks` | packages/locky/src/lock/models/lockManager.ts:55-60 | Each event keeps: if a request checked services under another's lock after that lock was inserted and passed, the lock is dead and whatever was created under it was created before the check. |
| `ProtocolSafety.StepKeepsSight` | packages/locky/src/lock/models/lockManager.ts:79-98 | Each event keeps: an action that is still active on a service another request polled as idle was created after that request inserted its lock; rests on closed actions never reopening. |
| `ProtocolSafety.LiveLockIsSeen` | packages/locky/src/lock/DAL/typeorm/lockRepository.ts:11-19 | A check of any service covered by a live lock finds that lock. |
| `ProtocolSafety.TablesEvolve` | packages/actiony/src/action/models/actionManager.ts:69-85 | Whatever the event, action rows stay, keep their service and never become active again; time, ids and clock never go back; tree and blocks stay. |
| `Uninterrupted.ReserveIsARun` | packages/locky/src/lock/models/lockManager.ts:52-109 | An uninterrupted reservation, played event by event in the protocol with its polls in any order, is granted exactly when `LockManager.Reserve` succeeds, with the same lock row; otherwise the lock table is as before. |
| `Uninterrupted.RotateIsARun` | packages/registry/src/service/models/serviceManager.ts:42-114 | An uninterrupted rotation, played event by event with its polls in any order, succeeds exactly when `ServiceManager.Rotate` does, bumps the same subtree and leaves the lock table as before. |
| `Requests.LockIsARun` | packages/locky/src/lock/models/lockManager.ts:20-35 | An uninterrupted lock request, played in the protocol, is granted exactly when no unexpired row has one of its services; then one row is added that lasts as long as asked, and the others stay. |
| `Requests.UnlockIsAStep` | packages/locky/src/lock/models/lockManager.ts:37-50 | Giving a lock up takes that row away and no other. |
| `Requests.CreationIsAStep` | packages/actiony/src/action/models/actionManager.ts:35-67 | A creation in the protocol, under a reservation or without one, does to the rows of the table what the request does: nothing for an unknown service or one whose parallelism forbids it, else the new row, with the replaced row canceled. |
| `Requests.PatchIsAStep` | packages/actiony/src/action/models/actionManager.ts:69-85 | A patch in the protocol changes an existing active row as the request does, and nothing else. |
| `Barrier.NoCheckPasses` | packages/registry/src/service/models/serviceManager.ts:56-67 | While a rotation's lock is live, an own-lock check that covers any descendant is refused. |
| `Barrier.ActionStraddlesLock` | packages/registry/src/service/models/serviceManager.ts:56-99 | While a rotation's lock is live, any action of a compliant client on the subtree, active or not, comes from a reservation that had checked before the lock; if it is active on a service polled as idle, it was created after the lock. |
| `Barrier.ActivityWasPending` | packages/registry/src/service/models/serviceManager.ts:56-99 | A service that is active although a rotation with a live lock polled it as idle was made so by a client that stood between check and creation when the lock was inserted. |
| `Barrier.RotationBarrier` | packages/registry/src/service/models/serviceManager.ts:56-99 | If no reservation is pending on a descendant when the rotation inserts its lock, and, after any interleaving, all polls came back idle and the lock is still live, then the descendant is inactive when the rotation rows are written, unless somebody activated it without a reservation. |
| `Lifetimes.LockLifetime` | packages/locky/src/lock/DAL/typeorm/lockRepository.ts:11-36 | In every run, whatever others do: the lock a request inserts is live exactly as long as the request has not given it up and less time than its expiration has passed since; reservations and rotations use the configured expirations. |
| `Lifetimes.RunKeepsRow` | packages/locky/src/lock/DAL/typeorm/lockRepository.ts:20-39 | Over any run the lock row a request inserted is never rewritten, and disappears only when that request gives it up. |
| `Residue.NoLockIsLeft` | packages/locky/src/lock/models/lockManager.ts:79-106 | In every reachable state each lock row belongs to exactly one request that still holds it; a request that was refused or released has no lock left. |
| `Residue.RowsComeFromRotations` | packages/registry/src/service/models/serviceManager.ts:69-113 | Every rotation row added since the start was written by exactly one successful rotation, which wrote exactly one row per descendant; other requests wrote none. |
| `Stamps.StampsNeverFall` | packages/actiony/src/action/models/actionManager.ts:38-53 | The actions of a service in creation order carry nondecreasing (parent, service) rotation stamps, each a row of the service's history. |
| `Stamps.StampMatchesParent` | packages/registry/src/service/models/util.ts:20 | A created action's parent stamp is the parent's current service rotation at that moment, and null exactly under no parent. |
| `RegistryRuns.ParentAlignmentEverywhere` | packages/registry/src/service/DAL/typeorm/serviceRepository.ts:57-79 | After any sequence of seedings, modifications, deletions and rotations: a service's current parent rotation is its parent's current rotation, null exactly for roots, and all three current-rotation queries agree on the last row. |
| `RegistryRuns.ReachableIsConsistent` | packages/registry/db/seeds/namespaceSeeder.ts:259-293 | Every state reachable from empty tables is consistent (forest, histories, alignment, unique names, blocks between existing rows). |
| `RegistryRuns.CommitKeepsConsistent` | packages/registry/db/seeds/namespaceSeeder.ts:259-293 | Each committed operation keeps the tables consistent. |
| `RegistryRuns.CommittedExactly` | packages/registry/db/seeds/namespaceSeeder.ts:72-293 | What each operation commits, for all of them: a create exactly on seedable lists with listed blockees, and then the services, parents, rotations and blocks of the list; a modify exactly when it succeeds, and then its outcome; a delete everything outside the namespaces of the name; a rotation one row more per descendant; otherwise the tables as they were. |
| `Registry.RotationsClosedForm` | packages/registry/src/service/DAL/typeorm/serviceRepository.ts:60-79 | After any number of rotations a service's rotation is its initial value plus the rotations aimed at it or an ancestor, and its parent rotation the initial value plus those aimed at proper ancestors. |
| `Registry.RotationRunKeeps` | packages/registry/src/service/DAL/typeorm/serviceRepository.ts:60-79 | Any sequence of rotations keeps the tree and every alignment. |
| `Registry.RotateKeepsAlignment` | packages/registry/src/service/DAL/typeorm/serviceRepository.ts:66-79 | One rotation of any service keeps the forest, makes every history a longer or equal chain and keeps every edge aligned. |
| `Registry.RotatedCurrent` | packages/registry/src/service/DAL/typeorm/serviceRepository.ts:66-79 | After a rotation the row inserted for a descendant is the current one, and other services keep theirs. |
| `Registry.RotatedRows` | packages/registry/src/service/DAL/typeorm/serviceRepository.ts:66-79 | A rotation appends to the history of each descendant that has one a row one up from its current row, in both columns but for the target's parent rotation, and changes nothing else. |
| `Registry.BumpExtendsChain` | packages/registry/src/service/DAL/typeorm/serviceRepository.ts:67-79 | The inserted row is strictly above all earlier rows in both orders, so it becomes current. |
| `Registry.ChainQueriesAgree` | packages/registry/src/service/DAL/typeorm/rotation.ts:10-11 | On a chain neither partial unique index is violated and the detail, bulk and seeder queries all pick the last row. |
| `Registry.CurrentIsFirst` | packages/registry/src/service/DAL/typeorm/serviceRepository.ts:26-28 | The current row is a row of the history with no other row above it in the nulls-last order. |
| `Registry.CurrentIsUnique` | packages/registry/src/service/DAL/typeorm/serviceRepository.ts:37-40 | The row with none above it is the current one: LIMIT 1 and DISTINCT ON cannot pick differently. |
| `Registry.CurrentIsCurrentRow` | packages/registry/src/service/DAL/typeorm/serviceRepository.ts:26-28 | The current row has the greatest parent rotation, nulls last, and among those the greatest service rotation. |
| `Registry.TopIsLargest` | packages/registry/db/seeds/namespaceSeeder.ts:185-186 | The row the seeder reads has the largest service rotation. |
| `Registry.UnderThroughChild` | packages/registry/src/service/DAL/typeorm/service.ts:42-52 | Every proper descendant is reached through a child. |
| `RegistryServices.ServiceRepository.FindDetailedServiceById` | packages/registry/src/service/DAL/typeorm/serviceRepository.ts:19-30 | Answers the service's current row in the order of the query, or nothing exactly when there is no row. |
| `RegistryServices.ServiceRepository.FindCurrentRotations` | packages/registry/src/service/DAL/typeorm/serviceRepository.ts:31-42 | The bulk query answers for the given ids exactly what the single query would. |
| `RegistryServices.ServiceRepository.FindBlocks` | packages/registry/src/service/DAL/typeorm/serviceRepository.ts:50-56 | Answers exactly the services the given one blocks. |
| `RegistryServices.ServiceRepository.CreateServiceRotation` | packages/registry/src/service/DAL/typeorm/serviceRepository.ts:57-93 | Appends one row to each descendant that has one, one up from its current row, and to nothing else, and answers with those rows. |
| `RegistryServices.ServiceManager.Detail` | packages/registry/src/service/models/serviceManager.ts:22-40 | Answers namespace, parallelism and parent of the service's row, its current rotation, the services that name it as parent and those it blocks; not found exactly when it or its rotations are missing. |
| `Registry.DetailedExactly` | packages/registry/src/service/models/util.ts:3-34 | The same for the answer that the protocol gives to locky and actiony. |
| `RegistryServices.ServiceManager.Rotate` | packages/registry/src/service/models/serviceManager.ts:42-114 | Succeeds exactly when the service exists, no live lock covers its subtree and every poll is idle; registry changes exactly then, the lock table ends as it began. A live lock gives ServiceAlreadyLocked, ServiceIsActive comes only with an active descendant and RemoteFailure only with a failed poll. |
| `Integrity.SaveKeepsConsistent` | packages/registry/db/seeds/namespaceSeeder.ts:105-123 | Saving a row under a fresh key keeps the tables consistent when its rotation records its parent's current one. |
| `Integrity.WithoutKeepsConsistent` | packages/registry/db/migrations/1683814007672-cascadeDeletion.ts:23-38 | Deleting any set closed under children, with its rotations and touching blocks, keeps the rest consistent and aligned. |
| `Integrity.SubtreeIsClosed` | packages/registry/db/seeds/namespaceSeeder.ts:52-70 | A subtree is closed under children, so no remaining row names a deleted parent. |
| `Integrity.ReattributeKeepsConsistent` | packages/registry/db/seeds/namespaceSeeder.ts:215-219 | Changing parallelism and type keeps the tables consistent. |
| `Integrity.RotateKeepsConsistent` | packages/registry/src/service/DAL/typeorm/serviceRepository.ts:57-93 | A rotation keeps the tables consistent. |
| `Seeding.SeedingStopsExactlyWhenSeedable` | packages/registry/db/seeds/namespaceSeeder.ts:100-130 | The `while (remaining > 0)` loop ends if and only if names are distinct and every parent chain stays in the list and reaches a parentless entry, and then within as many passes as services. |
| `Seeding.RepeatedNameNeverStops` | packages/registry/db/seeds/namespaceSeeder.ts:100-104 | A list with the same entry twice never ends the loop, although the documentation says the second copy is ignored. |
| `Seeding.PassMakesProgress` | packages/registry/db/seeds/namespaceSeeder.ts:101-129 | On such a list each pass that has something left saves at least one service. |
| `Seeding.NothingRemains` | packages/registry/db/seeds/namespaceSeeder.ts:83 | `remaining` never becomes negative and is zero exactly when names are distinct and all are saved. |
| `Seeded.CreationMeetsTheList` | packages/registry/db/seeds/namespaceSeeder.ts:81-149 | Creation fails exactly when a blockee is not listed; otherwise old rows and blocks stay, the tables are consistent and the namespace holds exactly the services, parents, rotations and blocks the list describes. |
| `Seeded.IdsNameTheRows` | packages/registry/db/seeds/namespaceSeeder.ts:124-148 | The map a create action answers with leads from each listed name to the row of that name in the new namespace. |
| `Seeded.SeedingIgnoresOrder` | packages/registry/db/seeds/namespaceSeeder.ts:99-146 | Any permutation of a well-formed list is refused in the same cases and otherwise yields the same forest, rotations, attributes and blocks up to generated ids. |
| `Seeded.PermutationKeepsSeedable` | packages/registry/db/seeds/namespaceSeeder.ts:100-130 | Whether the loop ends does not depend on the order of the list. |
| `Seeded.VisitKeepsSeeding` | packages/registry/db/seeds/namespaceSeeder.ts:101-129 | Each turn keeps: every saved name has one fresh row as its entry says, saved after its parent and aligned with it. |
| `Modifying.ModifyKeepsConsistent` | packages/registry/db/seeds/namespaceSeeder.ts:151-247 | Whatever a modify action deletes, creates or changes, the tables stay consistent and aligned. |
| `ModifyOutcome.ModifyAchieves` | packages/registry/db/seeds/namespaceSeeder.ts:151-247 | A successful modify action, in terms of the entries of its list: a service is gone exactly when it is, or hangs under, one that a delete entry names; every other row is as it was but for the attributes given to its name, the last entry winning; every name of a create entry is present, each new row as a create entry says and under the parent it names; the blocks are exactly those between survivors and those that create and modify entries ask for. |
| `ModifySuccess.ModifySucceedsExactly` | packages/registry/db/seeds/namespaceSeeder.ts:151-247 | A modify action on an existing namespace succeeds if and only if each delete entry names a service that no earlier one took away; each create entry has no parent, a name that exists already, or a parent among what stays and what earlier entries create; and whatever is given attributes, blocks or is blocked exists after the creations. |
| `ModifySuccess.DeletionsSucceed` | packages/registry/db/seeds/namespaceSeeder.ts:161-165 | The deletions fail exactly when an entry names a service that is not there or went with an earlier one. |
| `ModifySuccess.CreationsSucceed` | packages/registry/db/seeds/namespaceSeeder.ts:167-207 | The creations fail exactly when an entry with a new name has a parent that neither exists nor was created by an earlier entry. |
| `ModifySuccess.ModifyStage` | packages/registry/db/seeds/namespaceSeeder.ts:209-222 | The modifications fail exactly when attributes are given to a name that is unknown by then. |
| `ModifySuccess.BlockStage` | packages/registry/db/seeds/namespaceSeeder.ts:225-244 | The blocks fail exactly when a blocking or a blocked name is unknown by then. |
| `Modifying.ListsHave` | packages/registry/db/seeds/namespaceSeeder.ts:161-209 | Each stage takes from the list exactly the entries of its kind. |
| `Modifying.DeletionsJoin` | packages/registry/db/seeds/namespaceSeeder.ts:161-165 | The deletions of two lists joined are those of the first, then those of the second: their order is that of the list. |
| `Modifying.CreationsJoin` | packages/registry/db/seeds/namespaceSeeder.ts:167 | The same for creations. |
| `Modifying.ModificationsJoin` | packages/registry/db/seeds/namespaceSeeder.ts:209 | The same for modifications. |
| `Modifying.BlockersAre` | packages/registry/db/seeds/namespaceSeeder.ts:225 | Blocks are handled for the created services first, then for the modified ones, each in the order of the list with its own blockees. |
| `Modifying.BlockersHave` | packages/registry/db/seeds/namespaceSeeder.ts:225 | A name is given blockees exactly when a create or modify entry gives them. |
| `Modified.DeletionsAchieve` | packages/registry/db/seeds/namespaceSeeder.ts:161-165 | The deletions take away exactly the subtrees of the named services, whatever their order and overlap. |
| `Modified.CreationsAchieve` | packages/registry/db/seeds/namespaceSeeder.ts:167-207 | The creations leave old rows alone, add only rows that an entry describes, and leave every name present. |
| `Modified.ModificationsAchieve` | packages/registry/db/seeds/namespaceSeeder.ts:209-222 | The modifications overwrite exactly the attributes they give, the last one winning. |
| `Modified.BlockingsAchieve` | packages/registry/db/seeds/namespaceSeeder.ts:225-244 | The blocks asked for are added and none is taken away. |
| `Modifying.CreationKeepsConsistent` | packages/registry/db/seeds/namespaceSeeder.ts:167-207 | A service added to an existing namespace starts with its parent's current rotation, read by the seeder's own query. |
| `Modifying.DeleteNamespaceKeepsConsistent` | packages/registry/db/seeds/namespaceSeeder.ts:72-79 | Deleting a namespace with its services leaves the rest consistent. |
| `Subtrees.SubtreeByChildren` | packages/registry/db/seeds/namespaceSeeder.ts:52-70 | A subtree is the service and, apart from it, the subtrees of its children. |
| `Subtrees.NextSubtree` | packages/registry/db/seeds/namespaceSeeder.ts:61-63 | After the subtrees of some children are gone, deleting the next child's subtree removes exactly what it held at the start, and the counts add up. |
| `Subtrees.ChildrenGone` | packages/registry/db/seeds/namespaceSeeder.ts:61-65 | Once all child subtrees are gone the row has no children, and deleting it completes the subtree. |
| `Subtrees.NextTop` | packages/registry/db/seeds/namespaceSeeder.ts:162-165 | Deleting a further named subtree, overlapping with earlier ones or not, leaves what deleting all of them at once would. |
| `NamespaceSeeder.LoopOutcome` | packages/registry/db/seeds/namespaceSeeder.ts:100-130 | When the counter reaches zero after any number of passes the list is seedable, all names are saved, and the state is that after as many passes as services. |
| `NamespaceSeeder.SameEnd` | packages/registry/db/seeds/namespaceSeeder.ts:100-130 | However many passes the loop takes, it ends in the same state. |
| `NamespaceSeeder.Seeder.DeleteRow` | packages/registry/db/seeds/namespaceSeeder.ts:65 | Deletes one row that no row names as parent; the foreign key demands the latter. |
| `NamespaceSeeder.Seeder.DeleteService` | packages/registry/db/seeds/namespaceSeeder.ts:52-70 | Terminates on every forest, children first, and removes exactly the subtree with its rotations and touching blocks; the counter falls by its size. |
| `NamespaceSeeder.Seeder.DeleteChildren` | packages/registry/db/seeds/namespaceSeeder.ts:61-63 | The loop over the children, in any order, removes exactly their subtrees. |
| `NamespaceSeeder.Seeder.DeleteChild` | packages/registry/db/seeds/namespaceSeeder.ts:62 | One turn of that loop: the child's subtree goes, as it was before the loop began. |
| `NamespaceSeeder.Seeder.FindNamed` | packages/registry/db/seeds/namespaceSeeder.ts:163 | Finds the service of the namespace with the name, or that there is none. |
| `NamespaceSeeder.Seeder.Consider` | packages/registry/db/seeds/namespaceSeeder.ts:102-126 | One turn of the inner loop saves the row and its rotation or skips; the counter follows the saved names. |
| `NamespaceSeeder.Seeder.Pass` | packages/registry/db/seeds/namespaceSeeder.ts:101-129 | The inner loop performs one pass. |
| `NamespaceSeeder.Seeder.CreateServices` | packages/registry/db/seeds/namespaceSeeder.ts:99-130 | The nested loops, watched for a number of passes on any list: they end exactly on seedable lists once the number suffices, with every listed name saved, in the state the passes describe; otherwise the counter was positive after every pass. |
| `NamespaceSeeder.Seeder.CreateBlocks` | packages/registry/db/seeds/namespaceSeeder.ts:133-146 | Adds exactly the listed blocks, or throws at a blockee outside the list. |
| `NamespaceSeeder.Seeder.CreateNamespace` | packages/registry/db/seeds/namespaceSeeder.ts:81-149 | On any list the create action ends only if the list is seedable; it then succeeds exactly when all blockees are listed, in the state `CreationMeetsTheList` is about, and answers with the rows of the listed names. |
| `NamespaceSeeder.Seeder.DeleteNamed` | packages/registry/db/seeds/namespaceSeeder.ts:162-165 | Deletes the named subtree or fails when there is no such service. |
| `NamespaceSeeder.Seeder.CreateNamed` | packages/registry/db/seeds/namespaceSeeder.ts:168-206 | Skips an existing name, fails on an unknown parent, else saves the row under its parent with that parent's current rotation. |
| `NamespaceSeeder.Seeder.ModifyNamed` | packages/registry/db/seeds/namespaceSeeder.ts:210-221 | Overwrites the given attributes of the named service, keeps the others, or fails when it is unknown. |
| `NamespaceSeeder.Seeder.BlockNamed` | packages/registry/db/seeds/namespaceSeeder.ts:225-243 | Adds the missing blocks of one service; an unknown name fails. |
| `NamespaceSeeder.Seeder.DeleteAll` | packages/registry/db/seeds/namespaceSeeder.ts:161-165 | All deletions in order; the first failure ends them. |
| `NamespaceSeeder.Seeder.CreateAll` | packages/registry/db/seeds/namespaceSeeder.ts:167-207 | All creations in order, each seeing the rows saved before it. |
| `NamespaceSeeder.Seeder.ModifyAll` | packages/registry/db/seeds/namespaceSeeder.ts:209-222 | All modifications in order. |
| `NamespaceSeeder.Seeder.BlockAll` | packages/registry/db/seeds/namespaceSeeder.ts:225-244 | All blocks of created, then of modified services. |
| `NamespaceSeeder.Seeder.ModifyNamespace` | packages/registry/db/seeds/namespaceSeeder.ts:151-247 | The four stages in order on the found namespace; an unknown namespace or a missing service list fails. It succeeds exactly under the condition of `ModifySucceedsExactly` and then leaves what `ModifyAchieves` says. |
| `NamespaceSeeder.Seeder.DeleteNamespace` | packages/registry/db/seeds/namespaceSeeder.ts:72-79 | No namespace of that name is left; the services of such namespaces are gone, all others unchanged; the blocks left are exactly those between remaining services; the tables stay consistent. |
| `NamespaceSeeder.Seeder.Run` | packages/registry/db/seeds/namespaceSeeder.ts:259-293 | One seed file of any action in one transaction: it commits consistent tables, or leaves them as they were when it fails or, for a create action on exactly the lists that are not seedable, never ends. A delete always succeeds, a create exactly when all blockees are listed, a modify exactly when the namespace and the list are there and each stage finds its services. |
| `ActionRuns.ParallelismBound` | packages/actiony/src/action/models/actionManager.ts:42-62 | Over any run of requests a SINGLE or REPLACEABLE service has at most max(1, the count when it became so) active actions; from empty tables at most one. |
| `ActionRuns.ServeKeepsBound` | packages/actiony/src/action/models/actionManager.ts:87-100 | Each request keeps that bound, and only creations of the service itself can raise its count. |
| `ActionRuns.ServedExactly` | packages/actiony/src/action/models/actionManager.ts:35-85 | What each request of a run does to the rows: a creation exactly when its parallelism permits, a patch exactly on an existing active row, and otherwise nothing. |
| `CreationRaces.InsertionKeepsBoundExactly` | packages/actiony/src/action/models/actionManager.ts:42-62 | With validation and insertion apart, whatever happened between them: the insertion leaves at most one active action if and only if the validation would still pass on the table it finds. |
| `CreationRaces.InsertionCounts` | packages/actiony/src/action/DAL/typeorm/actionRepository.ts:70-82 | What an insertion makes of the active count of every service: one more, or max(1, count) for a replaceable one. |
| `CreationRaces.BoundHoldsExactly` | packages/actiony/src/action/models/actionManager.ts:42-62 | In any interleaving of validations, insertions and patches, the bound of a SINGLE or REPLACEABLE service holds throughout if and only if every one of its insertions finds a table on which its validation would still pass. |
| `CreationRaces.ReplaceableAlwaysKeepsBound` | packages/actiony/src/action/DAL/typeorm/actionRepository.ts:70-82 | A REPLACEABLE service keeps its bound in every interleaving, however its creations overlap. |
| `CreationRaces.ReplaceableEndsAlone` | packages/actiony/src/action/DAL/typeorm/actionRepository.ts:70-82 | After any such interleaving, a REPLACEABLE creation leaves exactly one active action. |
| `CreationRaces.OverlappingCreationsBreakBound` | packages/actiony/src/action/models/actionManager.ts:42-62 | From any table without an active action of a SINGLE service, two creations that both validate before either inserts end with two active actions. |
| `CreationRaces.UninterruptedIsOneRequest` | packages/actiony/src/action/models/actionManager.ts:35-67 | With nothing between, validation and insertion are the single request of the other theorems. |
| `CreationRaces.StepsAreExact` | packages/actiony/src/action/models/actionManager.ts:42-62 | With the two apart: a validation passes exactly when the parallelism permits on the table it reads, and an insertion adds the new row and cancels the newest active one whatever the table it finds. |
| `ActionRuns.ReplacementLeavesOneActive` | packages/actiony/src/action/DAL/typeorm/actionRepository.ts:70-82 | A replaceable creation cancels the newest active row of the service only and leaves the new action as the only active one. |
| `ActionRuns.ClosedIsFinal` | packages/actiony/src/action/models/actionManager.ts:77-80 | Over any run a closed row never changes in any field, and a closing time is recorded exactly on closed rows. |
| `ActionRuns.MetadataIsMergeOfContributions` | packages/actiony/src/action/models/actionManager.ts:84 | At any point metadata is the later-wins merge, in order, of creation metadata, accepted patches and the cancellation reason; no key is lost. |
| `Actions.PollFindsActivity` | packages/actiony/src/action/DAL/typeorm/actionRepository.ts:33-36 | The limited poll comes back empty exactly when the service has no active action. |
| `Actions.NewestIsLastSelected` | packages/actiony/src/action/DAL/typeorm/actionRepository.ts:72-74 | The newest-first query with limit one names the last active row. |
| `Actions.SelectIsFilter` | packages/actiony/src/action/DAL/typeorm/actionRepository.ts:33-36 | A query selects exactly the rows that match its filter. |
| `Actions.FoundIsExact` | packages/actiony/src/action/DAL/typeorm/actionRepository.ts:33-36 | A query answers matching rows only, oldest first or newest first as asked, each once and as many as there are or the limit allows; a matching row is left out only when the limit is reached by rows before it. |
| `Actions.SelectCounts` | packages/actiony/src/action/DAL/typeorm/actionRepository.ts:37-40 | As many rows are selected as there are positions of matching rows. |
| `Actions.NewestActive` | packages/actiony/src/action/DAL/typeorm/actionRepository.ts:72 | The last active row of the service: none after it is active, and none exists when it answers none. |
| `Actions.FilterToOptions` | packages/actiony/src/action/DAL/typeorm/actionRepository.ts:9-28 | The options are satisfied by exactly the rows that have each service, rotation, parent rotation and one of the statuses given; what is not given does not restrict. |
| `Actions.ActionRepository.FindActions` | packages/actiony/src/action/DAL/typeorm/actionRepository.ts:33-36 | Answers what `FoundIsExact` is about: the matching rows in the requested order, cut at the limit. |
| `Actions.ActionRepository.CountActions` | packages/actiony/src/action/DAL/typeorm/actionRepository.ts:37-40 | Counts the positions of matching rows, whatever limit and order were given. |
| `Actions.ActionRepository.FindOneActionById` | packages/actiony/src/action/DAL/typeorm/actionRepository.ts:41-44 | Answers the row with that id, or nothing. |
| `Actions.ActionRepository.CreateAction` | packages/actiony/src/action/DAL/typeorm/actionRepository.ts:45-55 | Appends one active row with the next id, the service's namespace and rotations, the given state and metadata, both stamps now and no closing time; nothing else changes. |
| `Actions.ActionRepository.UpdateOneAction` | packages/actiony/src/action/DAL/typeorm/actionRepository.ts:56-69 | For an existing id: the status is the given one or as before, the closing time is now exactly when a closed status is given, the metadata is replaced, and everything else and every other row stays; no such id, no change. Closing times stay consistent exactly when it does not reopen a closed row. |
| `Actions.ActionRepository.UpdateLastAndCreate` | packages/actiony/src/action/DAL/typeorm/actionRepository.ts:70-82 | Gives the newest active row of the service, if any, the status and merged metadata of the update and the closing time, leaves all others, and appends the new row. |
| `Actions.ActionManager.ValidateParallelism` | packages/actiony/src/action/models/actionManager.ts:87-100 | Allows MULTIPLE always, SINGLE exactly when no row of the service is active, REPLACEABLE exactly when no two rows of it are. |
| `Actions.AcceptedExactly` | packages/actiony/src/action/models/util.ts:3-12 | The limit on the active count means these conditions on the rows of the table. |
| `Actions.CreatedExactly` | packages/actiony/src/action/models/actionManager.ts:35-67 | A creation is accepted exactly under these conditions and then leaves the new row last and, for a replaceable service, the newest active row canceled with its reason; all other rows stay. |
| `Actions.UpdatedExactly` | packages/actiony/src/action/models/actionManager.ts:69-85 | A patch succeeds exactly on an existing active row, which gets the requested status if any, the closing time if that is a closed one, and every key of the patch over its old metadata; every other field and row stays. |
| `Actions.ActionManager.CreateAction` | packages/actiony/src/action/models/actionManager.ts:35-67 | Fails as registry does, or on the parallelism exactly when `ValidateParallelism` refuses, and then changes nothing; else adds the new row and, for a replaceable service, cancels the newest active row only. |
| `Actions.ActionManager.UpdateAction` | packages/actiony/src/action/models/actionManager.ts:69-85 | Succeeds exactly on an existing active row; fails on unknown and on closed actions and then changes nothing. The row gets the requested status, the closing time exactly when that is a closed one, and the merged metadata; every other field and row stays. |
| `Locks.PollAll` | packages/locky/src/lock/models/lockManager.ts:79-98 | Succeeds exactly when every service is idle, in whatever order they are polled: an external one by its own answer, any other when actiony can be asked and has no active action of it. Reports activity when nothing was out of reach, and a failed poll when nothing was active. |
| `Locks.PollAnswerMeans` | packages/locky/src/lock/models/lockManager.ts:79-98 | A service with its own url is believed; another that can be asked is busy exactly when one of its rows is active; one that cannot be asked is out of reach. |
| `Locks.LockRepository.FindNonexpiredLocks` | packages/locky/src/lock/DAL/typeorm/lockRepository.ts:11-19 | Answers exactly the locks that share a service and have not expired. |
| `Locks.LockRepository.CreateLock` | packages/locky/src/lock/DAL/typeorm/lockRepository.ts:20-36 | Adds one row under a fresh id: at any time a request finds it exactly when it shares one of the services and the expiration, if any, has not passed since. The other rows stay as they are. |
| `Locks.LockRepository.DeleteLock` | packages/locky/src/lock/DAL/typeorm/lockRepository.ts:37-39 | Removes that row only. |
| `Locks.LockManager.Lock` | packages/locky/src/lock/models/lockManager.ts:20-35 | Succeeds exactly when no live lock overlaps, adding one row that covers exactly these services for exactly this long; a refusal changes nothing. |
| `Locks.LockManager.Unlock` | packages/locky/src/lock/models/lockManager.ts:37-50 | Removes the lock, or reports that it does not exist. |
| `Locks.LockManager.Reserve` | packages/locky/src/lock/models/lockManager.ts:52-109 | Succeeds exactly when the service is unlocked, known, and all blockees idle; locks exactly the blockees for the reserve lock expiration, or nothing when there are none; a failure, also after locking, leaves the lock table as it was. A live lock gives ServiceAlreadyLocked, a failed fetch its error, ActiveBlockingActions only if some blockee is active, RemoteFailure only if some poll failed. |
| `StatefulMediator.RequestsNameLatest` | packages/mediator/src/mediator/statefulMediator.ts:19-45 | For any call sequence: a removal sends a delete exactly for the lock of the latest reservation not removed since, and nothing without one; a patch goes exactly to the latest created action, with the parameters of the call; reservations and creations are always sent, for the session's own service. |
| `StatefulMediator.NoSecondDelete` | packages/mediator/src/mediator/statefulMediator.ts:24-32 | If reserved lock ids are distinct, no delete is sent for a lock already removed successfully. |
| `StatefulMediator.SessionRemembersLatest` | packages/mediator/src/mediator/statefulMediator.ts:19-45 | For any call sequence: the session remembers a lock if and only if it is that of the latest successful reservation and no removal succeeded since, and an action if and only if it is the latest created. |
| `StatefulMediator.StatefulMediator.ReserveAccess` | packages/mediator/src/mediator/statefulMediator.ts:19-22 | Asks for its own service and then holds exactly the lock the answer names, or none; a failure keeps what it held. |
| `StatefulMediator.StatefulMediator.RemoveLock` | packages/mediator/src/mediator/statefulMediator.ts:24-32 | Sends nothing without a lock; forgets the lock only after a successful delete. |
| `StatefulMediator.StatefulMediator.CreateAction` | packages/mediator/src/mediator/statefulMediator.ts:34-37 | Creates for its own service and remembers the action. |
| `StatefulMediator.StatefulMediator.UpdateAction` | packages/mediator/src/mediator/statefulMediator.ts:39-45 | Sends nothing without an action; else patches the remembered one. |
| `Client.ProtectionIsHandedOver` | README.md:33-35 | Protection passes from lock to action without a gap: while the reserve lock is live, up to and including the state that already has the action, every check of a blockee is refused; from then on, whatever else happens while the action is active, every request that polls its service is turned down. |
| `Client.JointRunHolds` | packages/mediator/src/mediator/statefulMediator.ts:19-45 | Any sequence of calls of a session, with answers from the protocol that arrive late, fail or are lost, and with others active in between, is a run of the protocol whose remembered lock is that of the latest granted reservation. |
| `Client.SessionKeepsUp` | packages/mediator/src/mediator/statefulMediator.ts:19-45 | In such a run, hearing that a reservation was granted makes the session remember exactly its lock, or none when nothing was locked. |
| `Client.CreationIsHeard` | packages/mediator/src/mediator/statefulMediator.ts:34-37 | In such a run, a creation whose answer arrives makes the session remember exactly the active row it added for its service; when none was added the call fails and the session is as before. |
| `Client.UpdateIsHeard` | packages/mediator/src/mediator/statefulMediator.ts:39-45 | A patch whose answer arrives succeeds exactly when the remembered action was still active. |
| `Client.EventsAreRequests` | packages/mediator/src/mediator/statefulMediator.ts:19-45 | In such a run every event of a call is the request the session sends, and a delete that finds a lock row is a release by the session's own request. |
| `Client.NoSecondDeleteEver` | packages/mediator/src/mediator/statefulMediator.ts:24-32 | In such a run reserved lock ids are distinct, so no delete is sent for a lock already removed successfully. |
| `Client.RememberedLockIsHeld` | packages/mediator/src/mediator/statefulMediator.ts:19-45 | In such a run, while no answer was lost, the remembered lock is held by the session's own reservation and a delete removes that row alone; if the lock is live and nothing was created since, a creation sent now is a compliant one under it. |
| `Client.ReserveCreateRemoveComplies` | README.md:29-37 | Reserve, create, remove after any earlier calls: if the lock is live at creation, the remembered action is active and made under that reservation, the lock stays held through whatever others do until the session deletes it, and then that row alone goes. |

## Left out

- NamespaceSeeder.Seeder.CreateServices: the source's loop is unbounded; the method watches it for `patience` passes, a number the source does not have, and says whether it has ended.
- Concurrent patches of one action between its read and its write are not modelled.
- ActionRuns.ParallelismBound: takes one actiony request as one step; `CreationRaces` takes its awaits apart.
- Exclusion.MutualExclusion: services whose actions live behind their own url, and blocks listed on one side only, are excluded, since the protocol promises nothing for them.
- Barrier.RotationBarrier: excludes services behind their own url.
- Client.RememberedLockIsHeld: says nothing once an answer was lost; the code then keeps a lock id that may be gone.
- Protocol: tree and blocks change only by rotations during a run, and only the holder of a lock deletes it; a failing delete in an undo path (marked as a TODO in the code) is not modelled. Inserting rotation rows together with reading the current ones is one step.
- Generated uuids are counters, so a fresh key is larger than earlier ones; the forest is stated with them.
- TypeORM and Postgres internals: closure table (descendants are reachability over `parent`), isolation levels, SQL; the `parentServiceId` values the seeder passes beside `parent`.
- Actions are kept in creation order and ids are positions; ties in `createdAt` are not modelled. Metadata values are kept as text.
- HTTP transport, retries, status mapping, OpenAPI validation, reading the seed file, and the seeder's printed output and returned map for modify and delete.
- Names of namespaces in flattened services, service types there, creation times, reasons and descriptions: no decision depends on them.
- 32-bit overflow of rotations and counters, configuration, dependency injection, tracing, health checks, deployment.
