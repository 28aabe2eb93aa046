# NPC battle simulation — a Dafny model

This project models the deterministic core of a small battle simulation. Dragons, princesses and knights
wander a 40 by 20 map. A movement thread moves every living NPC and queues a fight task for each pair
that can fight. A resolver thread takes those tasks in FIFO order, rolls two dice and kills the defender
when the attack roll is higher. Meanwhile the main thread prints map snapshots, and at the end it shuts
down and lists the survivors.

The model runs the same logic on one thread, and every random draw is passed in as a parameter.

- **`NpcBase`** (`npc.dfy`): the NPC base class of `objects/npc/npc.hpp`, as a Dafny `class Npc`. It has
  the 32-bit coordinates, the squared-distance test `is_close`, the observer list with `subscribe` and
  `fight_notify`, and the text record that `save` writes and the stream constructor reads back.
- **`Dragon`, `Princess`, `Knight`**: the three concrete classes. Each has its constructors, its `save`
  with the kind's tag, and its three `visit` overloads.
- **`Dispatch`**: the `accept`/`visit` double dispatch, proved to agree with the kill table `can_kill`.
- **`Rules`**: the lookup tables of `main.cpp`: the map size, `type_label`, `symbol_for_type`, the kill
  distance of `get_attributes`, and `can_kill`.
- **`Battle`**: the world as values, with one specification function per step:
  - `NPCState` and `FightTask` records;
  - `find_state` (`IndexOf`);
  - the movement pass (`Moved`);
  - the candidate scan (`CandidatePairs`);
  - one resolver step (`Resolve`) and a whole drain of the queue (`DrainAll`);
  - the map grid (`CellAt`) and the survivors (`Living`).
- **`Engine`**: the imperative code of `main.cpp`:
  - `factory`, `find_state` and the start-up loop;
  - a `class Simulation` holding the world, the fight queue and the running flag.

  Its methods mirror the source's loops: moving, scanning, enqueueing, popping, resolving, draining,
  building the map, and collecting survivors. Moving, scanning, resolving, draining, the map and the
  survivors are proved against the functions of `Battle`. The queue operations and the shutdown state
  their new queue or running flag directly.

NPC identity, which the source compares through `shared_ptr` equality, is object identity of `Npc`. An
observer is known only by an id (`TextObserver` is 0, `FileObserver` is 1). `fight_notify` returns the
list of calls it makes.

## Model

| member | source | states |
|---|---|---|
| NpcBase.TypeTag | objects/npc/npc.hpp:18-23 | the enumerator values lie in 0..3 and only `Unknown` is 0 |
| NpcBase.TypeTagInjective | objects/npc/npc.hpp:18-23 | distinct enumerators have distinct integer values, so a tag identifies its kind |
| NpcBase.Wrap64 | objects/npc/npc.hpp:79-80 | the `long` arithmetic wraps: the result is the value of the 64-bit range congruent to the exact one modulo 2^64, so in-range values are unchanged |
| NpcBase.WithinAsProducts | objects/npc/npc.hpp:76-82 | the exact closeness test is dx*dx + dy*dy <= d*d |
| NpcBase.IsCloseAsWritten | objects/npc/npc.hpp:76-82 | the 64-bit computation as written, with the modular cast of the radius; wherever nothing overflows (`NoWrap`: the two differences are not both -2^31 and the radius is at most 3037000499) it equals the exact test |
| NpcBase.LongArithmeticExact | objects/npc/npc.hpp:79-80 | wherever nothing overflows (`NoWrap`), the `long` sum of squares, the cast radius and the squared radius are exact |
| NpcBase.SumOfSquaresFits | objects/npc/npc.hpp:77-79 | two `int` differences that are not both -2^31 have a sum of squares that fits in a `long` |
| NpcBase.NoWrapExactly | objects/npc/npc.hpp:77-80 | `NoWrap` holds exactly when the sum of squares, the cast radius and the squared radius all lie in the range of `long` |
| NpcBase.AsWrittenOverflows | objects/npc/npc.hpp:77-81 | with both differences equal to -2^31 the sum of squares wraps: the code says "close" at radius 0 for NPCs far apart |
| NpcBase.AsWrittenRadiusOverflows | objects/npc/npc.hpp:80 | at radius 3037000500 the squared radius wraps negative: the code says "not close" for two NPCs on the same cell, which it calls close at radius 0 |
| NpcBase.WithinSymmetric | objects/npc/npc.hpp:76-82 | closeness does not depend on which of the two NPCs asks |
| NpcBase.WithinMonotone | objects/npc/npc.hpp:76-82 | close at radius d implies close at every radius e >= d |
| NpcBase.WithinSamePosition | objects/npc/npc.hpp:76-82 | two NPCs on the same cell are close at every radius, 0 included |
| NpcBase.WithinBoundaryExample | objects/npc/npc.hpp:76-82 | the bound is inclusive: (0,0) and (3,4) are close at 5 but not at 4 |
| NpcBase.RecordText | objects/npc/npc.hpp:84-86 | the record starts with the name, which is followed by a newline and the first character of x; it ends with a newline; its length is that of the name, the two numbers and three newlines |
| NpcBase.NatText | objects/npc/npc.hpp:85 | `<<` of a natural number writes at least one character, all decimal digits |
| NpcBase.IntText | objects/npc/npc.hpp:85 | `<<` of an `int` writes a non-empty text that starts with no white space |
| NpcBase.DigitsValueOfNatText | objects/npc/npc.hpp:85 | the digits written for n have the value n |
| NpcBase.ReadWord | objects/npc/npc.hpp:63 | `is >> name` on a good stream yields a non-empty word without white space; when the stream fails, the name keeps its old value |
| NpcBase.ReadInt | objects/npc/npc.hpp:63 | `is >> x` on a failed stream changes nothing |
| NpcBase.FitInt | objects/npc/npc.hpp:63 | a value read outside `int` fails the stream, and a value inside is stored exactly |
| NpcBase.ReadRecord | objects/npc/npc.hpp:62-64 | a record read without failure has a non-empty name, from a stream that was good |
| NpcBase.ScanIntText | objects/npc/npc.hpp:62-64 | the sign and digits `<<` writes for v are scanned back as v, with the stream left good just after them |
| NpcBase.ReadIntText | objects/npc/npc.hpp:62-64 | `>>` reads back, behind any white space, the `int` that `<<` wrote |
| NpcBase.ReadWordText | objects/npc/npc.hpp:62-64 | `>>` reads back a word without white space that `<<` wrote |
| NpcBase.RecordRoundTrip | objects/npc/npc.hpp:84-86 | reading a record from the text `save` wrote gives back the same name, x and y and leaves the stream good; the name must be a non-empty word |
| NpcBase.TaggedRoundTrip | objects/npc/npc.hpp:84-86 | a tag line followed by the record reads back as the tag and then the same name, x and y |
| NpcBase.Notifications | objects/npc/npc.hpp:70-74 | one call per observer, in subscription order, each with (attacker, defender, win) |
| NpcBase.Npc.constructor | objects/npc/npc.hpp:59-60 | kind, name, x and y are stored unchanged, and the observer list starts empty |
| NpcBase.Npc.Load | objects/npc/npc.hpp:62-64 | name, x and y are those `is >> name >> x >> y` reads; the kind is the one given |
| NpcBase.Npc.Subscribe | objects/npc/npc.hpp:66-68 | the observer is appended at the end of the list |
| NpcBase.Npc.FightNotify | objects/npc/npc.hpp:70-74 | every observer is called exactly once, in order, with (this, defender, win) |
| NpcBase.Npc.IsClose | objects/npc/npc.hpp:76-82 | the exact squared-distance test; it equals the 64-bit computation of the source on every input of `NoWrap`, which `NoWrapExactly` shows are exactly the inputs where that computation does not overflow |
| NpcBase.Npc.SaveText | objects/npc/npc.hpp:84-86 | the record this NPC saves reads back as the same name, x and y, with the stream left good before the final newline, whenever the name is a word |
| Dragon.New | objects/dragon/dragon.hpp:22-23 | a fresh NPC of kind DragonType holding the given name, x and y |
| Dragon.Load | objects/dragon/dragon.hpp:25 | a fresh dragon whose name, x and y are read from the stream |
| Dragon.Save | objects/dragon/dragon.hpp:31-34 | the text is the tag 1 on its own line, followed by the base record of the same name, x and y |
| Dragon.SaveLoad | objects/dragon/dragon.hpp:31-34 | what `save` writes reads back as the tag 1, then the same name, x and y |
| Dragon.VisitDragon | objects/dragon/dragon.hpp:36-39 | a dragon does not kill a dragon |
| Dragon.VisitPrincess | objects/dragon/dragon.hpp:41-44 | a dragon kills a princess and notifies each of its observers once with win = true |
| Dragon.VisitKnight | objects/dragon/dragon.hpp:46-49 | a dragon does not kill a knight |
| Princess.New | objects/princess/princess.hpp:22-23 | a fresh NPC of kind PrincessType holding the given name, x and y |
| Princess.Load | objects/princess/princess.hpp:25 | a fresh princess whose name, x and y are read from the stream |
| Princess.Save | objects/princess/princess.hpp:31-34 | the text is the tag 2 on its own line, followed by the base record of the same name, x and y |
| Princess.SaveLoad | objects/princess/princess.hpp:31-34 | what `save` writes reads back as the tag 2, then the same name, x and y |
| Princess.VisitDragon | objects/princess/princess.hpp:36-39 | a princess does not kill a dragon |
| Princess.VisitPrincess | objects/princess/princess.hpp:41-44 | a princess does not kill a princess |
| Princess.VisitKnight | objects/princess/princess.hpp:46-49 | a princess does not kill a knight |
| Knight.New | objects/knight/knight.hpp:22-23 | a fresh NPC of kind KnightType holding the given name, x and y |
| Knight.Load | objects/knight/knight.hpp:25 | a fresh knight whose name, x and y are read from the stream |
| Knight.Save | objects/knight/knight.hpp:31-34 | the text is the tag 3 on its own line, followed by the base record of the same name, x and y |
| Knight.SaveLoad | objects/knight/knight.hpp:31-34 | what `save` writes reads back as the tag 3, then the same name, x and y |
| Knight.VisitDragon | objects/knight/knight.hpp:36-39 | a knight kills a dragon and notifies each of its observers once with win = true |
| Knight.VisitPrincess | objects/knight/knight.hpp:41-44 | a knight does not kill a princess |
| Knight.VisitKnight | objects/knight/knight.hpp:46-49 | a knight does not kill a knight |
| Dispatch.VisitDragon | objects/npc/npc.hpp:45 | the virtual `visit(Dragon)` kills exactly when `can_kill(attacker, Dragon)`, and notifies only then |
| Dispatch.VisitPrincess | objects/npc/npc.hpp:46 | the virtual `visit(Princess)` kills exactly when `can_kill(attacker, Princess)`, and notifies only then |
| Dispatch.VisitKnight | objects/npc/npc.hpp:47 | the virtual `visit(Knight)` kills exactly when `can_kill(attacker, Knight)`, and notifies only then |
| Dispatch.DragonAccept | objects/dragon/dragon.hpp:51-53 | a dragon is killed exactly by a knight |
| Dispatch.PrincessAccept | objects/princess/princess.hpp:51-53 | a princess is killed exactly by a dragon |
| Dispatch.KnightAccept | objects/knight/knight.hpp:51-53 | a knight is never killed, and no one is notified |
| Dispatch.Accept | objects/npc/npc.hpp:49 | the double dispatch agrees with `can_kill` for every pair of kinds, and notifies the attacker's observers exactly on a kill |
| Rules.TypeLabel | main.cpp:101-108 | every label is one non-empty word, so it can start an NPC name |
| Rules.SymbolForType | main.cpp:110-117 | no kind's symbol is the empty-cell filler '.' |
| Rules.LabelsAndSymbolsDistinct | main.cpp:101-117 | different kinds have different labels and different symbols |
| Rules.KillDistance | main.cpp:124-131 | the kill distance is positive exactly for the three concrete kinds, and at most 30 |
| Rules.CanKill | main.cpp:133-136 | a kill pairs two different concrete kinds, and the attacker has a positive kill distance |
| Rules.CanKillAsymmetric | main.cpp:133-136 | no two kinds can kill each other, and a princess kills nobody |
| Battle.IndexOf | main.cpp:148-161 | the index of the first record holding the target, or none exactly when no record holds it |
| Battle.IndexOfSameNpcs | main.cpp:148-161 | the lookup depends only on the records' NPCs, not on their alive flags |
| Battle.Resolve | main.cpp:288-316 | one resolver step: a task with a missing or dead record is discarded; attack <= defense changes nothing; otherwise only the defender's flag goes from alive to dead |
| Battle.DrainAll | main.cpp:272-317 | the record count is kept; no more kills than queued tasks |
| Battle.DrainAllFrame | main.cpp:272-317 | draining keeps every record's NPC, never revives a record, and reports only queued tasks as kills |
| Battle.DrainAllKilled | main.cpp:303-313 | every reported kill turned a defender that was alive before the drain dead |
| Battle.DrainAllKillsOnce | main.cpp:303-313 | no defender is killed twice: the reported kills name distinct defenders |
| Battle.OnMapNoWrap | main.cpp:237-248 | two positions on the 40 by 20 map, at any kind's kill distance, never reach the inputs on which the 64-bit `is_close` overflows |
| Battle.Clamp | main.cpp:222-225 | `std::clamp`: the result lies in [lo, hi], equals v inside, and equals the nearer bound outside |
| Battle.Step | main.cpp:214-226 | a living NPC ends on the map, exactly at its target when that is on the map; a dead one is untouched; kind and flag never change |
| Battle.Moved | main.cpp:214-226 | after a movement pass with any displacements, every living NPC is on the map; dead ones, all flags and all kinds are unchanged |
| Battle.Eligible | main.cpp:240-248 | a princess never attacks, and the defender of a pair that may fight could not attack its attacker |
| Battle.RowSound | main.cpp:240-251 | every pair the inner scan loop emits is (i, j) with i allowed to fight j |
| Battle.RowComplete | main.cpp:240-251 | every j that i may fight is emitted by the inner scan loop |
| Battle.RowOrdered | main.cpp:240-251 | the inner loop emits its defenders in increasing order |
| Battle.RowEmpty | main.cpp:240-251 | an attacker that may fight none of the defenders emits nothing |
| Battle.PairsBeforeSound | main.cpp:233-252 | each emitted pair comes from its own attacker's row |
| Battle.PairsBeforeComplete | main.cpp:233-252 | each pair allowed to fight is emitted by the outer loop |
| Battle.PairsBeforeOrdered | main.cpp:233-252 | the outer loop emits pairs attacker-major, then by defender |
| Battle.CandidatePairs | main.cpp:229-253 | every emitted pair indexes two records, and the pairs come attacker-major, then by defender, so none twice |
| Battle.CandidatePairsExactly | main.cpp:231-253 | the scan emits (i, j) exactly when: i != j, both are alive, i has a positive kill distance, `can_kill` holds and j is within reach |
| Battle.TasksOfRowStep | main.cpp:240-251 | one more inner iteration adds the task (i, j) exactly when i may fight j |
| Battle.TasksOfPairsStep | main.cpp:233-252 | one more outer iteration appends the tasks of attacker i's row |
| Battle.CellAt | main.cpp:163-175 | a cell that is not '.' shows the symbol of some living on-map NPC standing on it |
| Battle.CellAtLastWins | main.cpp:163-175 | a cell is '.' exactly when no living on-map NPC stands there; otherwise it shows the symbol of the last such NPC in world order |
| Battle.Living | main.cpp:334-340 | there are no more survivors than records, and none when every record is dead |
| Battle.LivingSound | main.cpp:334-340 | every survivor is the NPC of a living record |
| Battle.LivingComplete | main.cpp:334-340 | every living record's NPC is a survivor |
| Battle.LivingExactly | main.cpp:334-340 | the survivors are exactly the NPCs of the living records |
| Battle.LivingConcat | main.cpp:334-340 | survivors keep world order: the survivors of a concatenation are the concatenation of the survivors |
| Engine.Factory | main.cpp:79-99 | an NPC of the requested kind and data with observers [text, file]; no NPC exactly for `Unknown` |
| Engine.FindState | main.cpp:148-161 | the linear search returns the first record holding the target, or none |
| Engine.KillNotifications | main.cpp:315-316 | every observer call of the kills reports a win, for an attacker and defender that form one of the kills |
| Engine.KillNotificationsAppend | main.cpp:315-316 | each kill appends its attacker's observer calls at the end of the log |
| Engine.Populate | main.cpp:193-199 | one fresh, distinct, subscribed NPC per drawn kind and position, named `<label>_<i>`, alive |
| Engine.Simulation.constructor | main.cpp:183-205 | the start-up state: the world of `Populate`, an empty queue, running, and the invariant established |
| Engine.Simulation.Move | main.cpp:211-227 | the new kinds, positions and flags are the movement pass of the old ones; names, observers, records and queue are untouched; the invariant is kept |
| Engine.Simulation.NothingToScan | main.cpp:235-239 | a dead attacker, or one with zero kill distance, may fight no one |
| Engine.Simulation.Engages | main.cpp:240-248 | the inner loop's tests say exactly whether i may fight j, and agree with the tests as written, 64-bit `is_close` included |
| Engine.Simulation.ScanRow | main.cpp:234-252 | the inner loop's output is the tasks of attacker i's row |
| Engine.Simulation.ScanCandidates | main.cpp:229-253 | the scan's output is the tasks of `CandidatePairs` of the current world, each pairing kinds that can kill |
| Engine.Simulation.CandidatesCanKill | main.cpp:246-250 | every candidate task pairs an attacker with a defender its kind can kill |
| Engine.Simulation.EnqueueBatch | main.cpp:255-262 | the batch is appended to the back of the queue, in order |
| Engine.Simulation.MoverTick | main.cpp:211-265 | one mover iteration: move, then queue the scan of the moved world at the back; the records, names and observers are untouched |
| Engine.Simulation.PopFront | main.cpp:279-285 | the front task is taken and the rest stays in order; an empty queue yields nothing |
| Engine.Simulation.ResolveStep | main.cpp:288-316 | the new world and outcome are `Resolve` of the old world; observers are notified once each exactly on a kill |
| Engine.Simulation.Shutdown | main.cpp:329 | the running flag is cleared |
| Engine.Simulation.DrainOne | main.cpp:272-316 | one consumer turn pops the front task; the drain of the old queue is this turn's kill followed by the drain of the rest |
| Engine.Simulation.ResolverLoop | main.cpp:272-317 | after shutdown the loop empties the queue, its result is `DrainAll` of the old world and queue, and the observer log is that of the kills |
| Engine.Simulation.Drain | main.cpp:269-318 | every kill pairs kinds that can kill, turned a living defender dead, and names a defender no other kill names |
| Engine.Simulation.PrintMap | main.cpp:163-175 | a 20 by 40 grid whose every cell is `CellAt` of the world |
| Engine.Simulation.Survivors | main.cpp:334-340 | the survivor list is `Living` of the world |
| Engine.Simulation.Finish | main.cpp:329-340 | shutdown, then a full drain of the queue with the observer calls of its kills, then the survivors of the drained world |

## Left out

- Threads, the reader/writer lock, the queue mutex, the condition variable, the atomic flag, the sleeps and the timed print loop (main.cpp:201-332) are not modelled. The model runs the mover tick, the resolver step and the drain on one thread.
- Engine.Simulation.ResolveStep: the second validation, under the write lock, always succeeds in a single-threaded model. Its failure branch is modelled but cannot be reached.
- Engine.Simulation.ResolverLoop: it runs only after shutdown, when it never blocks. The blocking wait while `running` is set is not modelled.
- Random draws are parameters: initial kinds and positions, the per-NPC displacements, and the dice. The floating-point angle and length, and `MovementAttributes.step`, are not modelled. The dice values are any integers, not only 1 to 6.
- Engine.Simulation.constructor: it takes the drawn kinds and positions as parameters, so the fixed count of 50 and the distribution that never draws `Unknown` are not modelled.
- Engine.Simulation.Move: `x + dx` is computed on unbounded integers. A 32-bit overflow of the sum before clamping is not modelled, because displacements in the source are at most the step length.
- NpcBase.Npc.IsClose: it requires the `int` differences x - other.x and y - other.y to fit in an `int`. Outside that range the source's subtraction itself overflows.
- NpcBase.Wrap64: `long` is taken to be 64 bits wide, as on LP64 platforms. Where `long` has 32 bits (LLP64), the sums and squares of `is_close` overflow at far smaller differences and radii, and neither that case nor its findings are modelled.
- The bodies of `TextObserver` and `FileObserver` (main.cpp:36-77) are console and file output and are not modelled. Observers are ids, and `fight_notify` returns the calls it would make.
- The `print` methods and `operator<<` of every class, the console output of `print_map` and the survivor report are formatting. `print_map` returns its grid instead of printing it.
- `shared_ptr` ownership, `enable_shared_from_this` and `dynamic_pointer_cast` are replaced by object identity. The overload a defender's `accept` picks is selected by its kind.
- The stream constructor is modelled on characters. The six ASCII white-space characters are the only ones skipped; locales and stream exceptions are not modelled.
- Saving or loading a whole list of records with a count prefix is not in the modelled files; only the per-NPC record is modelled.

## Findings

| source | as written | input that shows it | evidently intended | confidence | as-written member | corrected member |
|---|---|---|---|---|---|---|
| objects/npc/npc.hpp:77-81 | the squares of the `int` differences are summed in a 64-bit `long` | x = -2147483648, other.x = 0, y = -2147483648, other.y = 0, distance 0: the sum 2^63 overflows `long`; signed overflow is undefined behaviour in C++, and the usual result, modelled here, wraps it to -2^63, so `is_close` answers true | the exact test dx² + dy² <= d², which answers false here | not executed; unreachable inside the 40 by 20 map (Battle.OnMapNoWrap) | NpcBase.AsWrittenOverflows | NpcBase.Npc.IsClose |
| objects/npc/npc.hpp:80 | the `size_t` radius is cast to `long` and squared in `long` | two NPCs on the same cell, distance 3037000500: the square 9223372037000250000 exceeds the largest `long` and, wrapped as usual for this undefined behaviour, is negative, so `is_close` answers false though it answers true at distance 0 | the exact test, which is monotone in the radius (`NpcBase.WithinMonotone`) and answers true here | not executed; the kill distances are at most 30 (Battle.OnMapNoWrap) | NpcBase.AsWrittenRadiusOverflows | NpcBase.Npc.IsClose |
