/**
 * The world of main.cpp as values: the records, the fight tasks, and the
 * functions that say what one movement pass, one candidate scan, one
 * resolver step, a whole drain of the fight queue, the map snapshot and the
 * survivor list compute. The imperative code in module Engine is proved
 * against these functions.
 */
module Battle {
  import opened Wrappers
  import opened NpcBase
  import opened Rules

  /** `NPCState`: an NPC and whether it is alive. */
  datatype NpcState = NpcState(npc: Npc, alive: bool)

  /** `FightTask`: who attacks whom. */
  datatype FightTask = FightTask(attacker: Npc, defender: Npc)

  /** The two dice of one fight, drawn after the first validation. */
  datatype Roll = Roll(attack: int, defense: int)

  // ---------------------------------------------------------------------
  // find_state
  // ---------------------------------------------------------------------

  /** The index of the first record holding `target`, if any. */
  function IndexOf(world: seq<NpcState>, target: Npc): (r: Option<nat>)
    ensures r.Some? ==> r.value < |world| && world[r.value].npc == target
    ensures r.Some? ==> forall k :: 0 <= k < r.value ==> world[k].npc != target
    ensures r.None? ==> forall k :: 0 <= k < |world| ==> world[k].npc != target
  {
    if world == [] then None
    else if world[0].npc == target then Some(0)
    else match IndexOf(world[1..], target)
      case None => None
      case Some(i) => Some(i + 1)
  }

  /** The lookup depends on the NPCs of the records only, not on their flags. */
  lemma IndexOfSameNpcs(w1: seq<NpcState>, w2: seq<NpcState>, target: Npc)
    requires |w1| == |w2| && forall k :: 0 <= k < |w1| ==> w1[k].npc == w2[k].npc
    ensures IndexOf(w1, target) == IndexOf(w2, target)
  {
    var r1, r2 := IndexOf(w1, target), IndexOf(w2, target);
    if r1.Some? && r2.Some? {
      assert !(r1.value < r2.value) && !(r2.value < r1.value);
    }
  }

  // ---------------------------------------------------------------------
  // Resolver step
  // ---------------------------------------------------------------------

  /** Both records are found and both are alive: the resolver's validation. */
  predicate Fightable(world: seq<NpcState>, task: FightTask)
  {
    var a := IndexOf(world, task.attacker);
    var d := IndexOf(world, task.defender);
    a.Some? && d.Some? && world[a.value].alive && world[d.value].alive
  }

  /** Discarded: no dice drawn. Defended: dice drawn, no kill. Killed: the defender died. */
  datatype Outcome = Discarded | Defended | Killed

  datatype Resolution = Resolution(world: seq<NpcState>, outcome: Outcome)

  /**
   * One resolver step on one task and one pair of dice. A task whose records
   * are missing or dead is discarded; a roll with attack <= defense changes
   * nothing; otherwise exactly the defender's record turns dead.
   */
  function Resolve(world: seq<NpcState>, task: FightTask, roll: Roll): (r: Resolution)
    ensures |r.world| == |world|
    ensures forall k :: 0 <= k < |world| ==> r.world[k].npc == world[k].npc
    ensures r.outcome == Discarded <==> !Fightable(world, task)
    ensures r.outcome == Killed <==> Fightable(world, task) && roll.attack > roll.defense
    ensures forall k :: 0 <= k < |world| ==>
              r.world[k].alive == (world[k].alive && !(r.outcome == Killed && IndexOf(world, task.defender) == Some(k)))
  {
    if !Fightable(world, task) then Resolution(world, Discarded)
    else if roll.attack <= roll.defense then Resolution(world, Defended)
    else
      var d := IndexOf(world, task.defender).value;
      Resolution(world[d := world[d].(alive := false)], Killed)
  }

  // ---------------------------------------------------------------------
  // Draining the fight queue
  // ---------------------------------------------------------------------

  datatype Drained = Drained(world: seq<NpcState>, kills: seq<FightTask>)

  /**
   * The consumer loop run until the queue is empty: tasks in FIFO order, a
   * pair of dice taken from `rolls` for every task that passes validation,
   * and the tasks that killed, in order.
   */
  function DrainAll(world: seq<NpcState>, queue: seq<FightTask>, rolls: seq<Roll>): (r: Drained)
    requires |rolls| >= |queue|
    ensures |r.world| == |world| && |r.kills| <= |queue|
    decreases |queue|
  {
    if queue == [] then Drained(world, [])
    else if !Fightable(world, queue[0]) then DrainAll(world, queue[1..], rolls)
    else
      var r := Resolve(world, queue[0], rolls[0]);
      var rest := DrainAll(r.world, queue[1..], rolls[1..]);
      Drained(rest.world, (if r.outcome == Killed then [queue[0]] else []) + rest.kills)
  }

  /** The record of `defender` was alive in `before` and is dead in `after`. */
  predicate KilledBetween(before: seq<NpcState>, after: seq<NpcState>, defender: Npc)
  {
    var d := IndexOf(before, defender);
    d.Some? && d.value < |after| && before[d.value].alive && !after[d.value].alive
  }

  /**
   * Draining keeps every record's NPC, never revives a record, and every
   * task it reports as a kill came from the queue.
   */
  lemma {:induction false} DrainAllFrame(world: seq<NpcState>, queue: seq<FightTask>, rolls: seq<Roll>)
    requires |rolls| >= |queue|
    ensures var r := DrainAll(world, queue, rolls);
            |r.world| == |world|
            && (forall k :: 0 <= k < |world| ==> r.world[k].npc == world[k].npc)
            && (forall k :: 0 <= k < |world| ==> r.world[k].alive ==> world[k].alive)
            && (forall t :: t in r.kills ==> t in queue)
    decreases |queue|
  {
    if queue != [] {
      if !Fightable(world, queue[0]) {
        DrainAllFrame(world, queue[1..], rolls);
      } else {
        var r := Resolve(world, queue[0], rolls[0]);
        DrainAllFrame(r.world, queue[1..], rolls[1..]);
      }
    }
  }

  /** A kill seen from a later state is a kill from any earlier state with the same NPCs and no fewer living records. */
  lemma KilledFromEarlier(w0: seq<NpcState>, w1: seq<NpcState>, w2: seq<NpcState>, defender: Npc)
    requires |w1| == |w0| && forall k :: 0 <= k < |w0| ==> w1[k].npc == w0[k].npc
    requires forall k :: 0 <= k < |w0| ==> w1[k].alive ==> w0[k].alive
    requires KilledBetween(w1, w2, defender)
    ensures KilledBetween(w0, w2, defender)
  {
    IndexOfSameNpcs(w0, w1, defender);
  }

  /** Every task a drain reports as a kill turned a living defender dead. */
  lemma {:induction false} DrainAllKilled(world: seq<NpcState>, queue: seq<FightTask>, rolls: seq<Roll>)
    requires |rolls| >= |queue|
    ensures var r := DrainAll(world, queue, rolls);
            forall t :: t in r.kills ==> KilledBetween(world, r.world, t.defender)
    decreases |queue|
  {
    if queue != [] {
      if !Fightable(world, queue[0]) {
        DrainAllKilled(world, queue[1..], rolls);
      } else {
        var task := queue[0];
        var r := Resolve(world, task, rolls[0]);
        var rest := DrainAll(r.world, queue[1..], rolls[1..]);
        DrainAllKilled(r.world, queue[1..], rolls[1..]);
        DrainAllFrame(r.world, queue[1..], rolls[1..]);
        forall t | t in rest.kills
          ensures KilledBetween(world, rest.world, t.defender)
        {
          KilledFromEarlier(world, r.world, rest.world, t.defender);
        }
        if r.outcome == Killed {
          IndexOfSameNpcs(world, r.world, task.defender);
          assert KilledBetween(world, rest.world, task.defender);
        }
      }
    }
  }

  /** No defender appears in two of `kills`. */
  predicate DistinctDefenders(kills: seq<FightTask>)
  {
    forall i, j :: 0 <= i < j < |kills| ==> kills[i].defender != kills[j].defender
  }

  /** At most one kill per defender: no defender appears in two reported kills. */
  lemma {:induction false} DrainAllKillsOnce(world: seq<NpcState>, queue: seq<FightTask>, rolls: seq<Roll>)
    requires |rolls| >= |queue|
    ensures DistinctDefenders(DrainAll(world, queue, rolls).kills)
    decreases |queue|
  {
    if queue != [] {
      if !Fightable(world, queue[0]) {
        assert DrainAll(world, queue, rolls) == DrainAll(world, queue[1..], rolls);
        DrainAllKillsOnce(world, queue[1..], rolls);
      } else {
        var task := queue[0];
        var r := Resolve(world, task, rolls[0]);
        var rest := DrainAll(r.world, queue[1..], rolls[1..]);
        assert DrainAll(world, queue, rolls).kills == (if r.outcome == Killed then [task] else []) + rest.kills;
        DrainAllKillsOnce(r.world, queue[1..], rolls[1..]);
        if r.outcome == Killed {
          DrainAllKilled(r.world, queue[1..], rolls[1..]);
          forall t | t in rest.kills
            ensures t.defender != task.defender
          {
            IndexOfSameNpcs(world, r.world, task.defender);
          }
          DistinctDefendersCons(task, rest.kills);
        } else {
          assert [] + rest.kills == rest.kills;
        }
      }
    }
  }

  lemma DistinctDefendersCons(task: FightTask, rest: seq<FightTask>)
    requires DistinctDefenders(rest)
    requires forall t :: t in rest ==> t.defender != task.defender
    ensures DistinctDefenders([task] + rest)
  {
    var all := [task] + rest;
    forall i, j | 0 <= i < j < |all|
      ensures all[i].defender != all[j].defender
    {
      if i == 0 {
        assert all[j] in rest;
      } else {
        assert all[i] == rest[i - 1] && all[j] == rest[j - 1];
      }
    }
  }

  // ---------------------------------------------------------------------
  // Snapshots of the agents
  // ---------------------------------------------------------------------

  /** What the world logic reads of one record: kind, position and flag. */
  datatype Agent = Agent(kind: Kind, x: int, y: int, alive: bool)

  function NpcsOf(world: seq<NpcState>): set<Npc>
  {
    set s | s in world :: s.npc
  }

  function AgentOf(s: NpcState): Agent
    reads s.npc
  {
    Agent(s.npc.kind, s.npc.x, s.npc.y, s.alive)
  }

  /** The agent view of every record, in world order. */
  function AgentsOf(world: seq<NpcState>): (agents: seq<Agent>)
    reads NpcsOf(world)
    ensures |agents| == |world|
    ensures forall k :: 0 <= k < |world| ==> agents[k] == AgentOf(world[k])
  {
    if world == [] then []
    else
      assert NpcsOf(world[..|world| - 1]) <= NpcsOf(world);
      AgentsOf(world[..|world| - 1]) + [AgentOf(world[|world| - 1])]
  }

  predicate OnMap(x: int, y: int)
  {
    0 <= x < MapWidth && 0 <= y < MapHeight
  }

  /**
   * Two positions on the map at any kind's kill distance lie far inside the
   * range where the 64-bit computation of `is_close` is exact.
   */
  lemma OnMapNoWrap(x1: int, y1: int, x2: int, y2: int, t: NpcType)
    requires OnMap(x1, y1) && OnMap(x2, y2)
    ensures NoWrap(x1, y1, x2, y2, KillDistance(t))
  {
  }

  // ---------------------------------------------------------------------
  // Movement pass
  // ---------------------------------------------------------------------

  /** `std::clamp(v, lo, hi)`. */
  function Clamp(v: int, lo: int, hi: int): (r: int)
    requires lo <= hi
    ensures lo <= r <= hi
    ensures lo <= v <= hi ==> r == v
    ensures v < lo ==> r == lo
    ensures v > hi ==> r == hi
  {
    if v < lo then lo else if hi < v then hi else v
  }

  /**
   * One agent's move: a living agent is displaced and clamped to the map,
   * landing exactly on the target cell when that is on the map; a dead one
   * stays where it is.
   */
  function Step(a: Agent, dx: int, dy: int): (b: Agent)
    ensures b.kind == a.kind && b.alive == a.alive
    ensures a.alive ==> OnMap(b.x, b.y)
    ensures a.alive && OnMap(a.x + dx, a.y + dy) ==> b.x == a.x + dx && b.y == a.y + dy
    ensures !a.alive ==> b == a
  {
    if a.alive then a.(x := Clamp(a.x + dx, 0, MapWidth - 1), y := Clamp(a.y + dy, 0, MapHeight - 1))
    else a
  }

  /**
   * The movement pass over all agents, `dx[k]`, `dy[k]` being the k-th
   * record's displacement: afterwards every living agent is on the map, dead
   * agents are untouched, and no flag and no kind changes.
   */
  function Moved(agents: seq<Agent>, dx: seq<int>, dy: seq<int>): (r: seq<Agent>)
    requires |dx| == |agents| && |dy| == |agents|
    ensures |r| == |agents|
    ensures forall k :: 0 <= k < |agents| ==> r[k] == Step(agents[k], dx[k], dy[k])
    ensures forall k :: 0 <= k < |r| && r[k].alive ==> OnMap(r[k].x, r[k].y)
    ensures forall k :: 0 <= k < |r| && !agents[k].alive ==> r[k] == agents[k]
    ensures forall k :: 0 <= k < |r| ==> r[k].alive == agents[k].alive && r[k].kind == agents[k].kind
  {
    seq(|agents|, k requires 0 <= k < |agents| => Step(agents[k], dx[k], dy[k]))
  }

  // ---------------------------------------------------------------------
  // Candidate scan
  // ---------------------------------------------------------------------

  /**
   * Attacker i may fight defender j. A princess never attacks, and the
   * defender of an eligible pair could not have attacked its attacker.
   */
  function Eligible(agents: seq<Agent>, i: nat, j: nat): (r: bool)
    requires i < |agents| && j < |agents|
    ensures r ==> agents[i].kind != PrincessType && !CanKill(agents[j].kind, agents[i].kind)
  {
    var a, d := agents[i], agents[j];
    CanKillAsymmetric(a.kind, d.kind);
    i != j && a.alive && d.alive && KillDistance(a.kind) > 0 && CanKill(a.kind, d.kind)
    && Within(a.x, a.y, d.x, d.y, KillDistance(a.kind))
  }

  /** The pairs (i, j') with j' < j that attacker i may fight, in order: the inner loop of the scan. */
  function Row(agents: seq<Agent>, i: nat, j: nat): (r: seq<(nat, nat)>)
    requires i < |agents| && j <= |agents|
    ensures forall k :: 0 <= k < |r| ==> r[k].0 == i && r[k].1 < j
  {
    if j == 0 then []
    else Row(agents, i, j - 1) + (if Eligible(agents, i, j - 1) then [(i, j - 1)] else [])
  }

  /** The pairs the scan emits for the attackers before i, in order. */
  function PairsBefore(agents: seq<Agent>, i: nat): (r: seq<(nat, nat)>)
    requires i <= |agents|
    ensures forall k :: 0 <= k < |r| ==> r[k].0 < i && r[k].1 < |agents|
  {
    if i == 0 then [] else PairsBefore(agents, i - 1) + Row(agents, i - 1, |agents|)
  }

  /** Every pair the candidate scan emits, in attacker-major, then defender, order. */
  function CandidatePairs(agents: seq<Agent>): (r: seq<(nat, nat)>)
    ensures forall k :: 0 <= k < |r| ==> r[k].0 < |agents| && r[k].1 < |agents|
    ensures Ordered(r)
  {
    PairsBeforeOrdered(agents, |agents|);
    PairsBefore(agents, |agents|)
  }

  /** Pair p comes before pair q in attacker-major, then defender, order. */
  predicate Before(p: (nat, nat), q: (nat, nat))
  {
    p.0 < q.0 || (p.0 == q.0 && p.1 < q.1)
  }

  predicate Ordered(ps: seq<(nat, nat)>)
  {
    forall a, b :: 0 <= a < b < |ps| ==> Before(ps[a], ps[b])
  }

  /** Two ordered lists, every element of the first before every element of the second, join into an ordered list. */
  lemma OrderedAppend(a: seq<(nat, nat)>, b: seq<(nat, nat)>)
    requires Ordered(a) && Ordered(b)
    requires forall m, n :: 0 <= m < |a| && 0 <= n < |b| ==> Before(a[m], b[n])
    ensures Ordered(a + b)
  {
    forall m, n | 0 <= m < n < |a + b|
      ensures Before((a + b)[m], (a + b)[n])
    {
      if n < |a| {
        assert (a + b)[m] == a[m] && (a + b)[n] == a[n];
      } else if m >= |a| {
        assert (a + b)[m] == b[m - |a|] && (a + b)[n] == b[n - |a|];
      } else {
        assert (a + b)[m] == a[m] && (a + b)[n] == b[n - |a|];
      }
    }
  }

  lemma {:induction false} RowSound(agents: seq<Agent>, i: nat, j: nat, p: (nat, nat))
    requires i < |agents| && j <= |agents|
    requires p in Row(agents, i, j)
    ensures p.0 == i && p.1 < j && Eligible(agents, p.0, p.1)
  {
    if p !in Row(agents, i, j - 1) {
      assert p == (i, j - 1);
    } else {
      RowSound(agents, i, j - 1, p);
    }
  }

  lemma {:induction false} RowComplete(agents: seq<Agent>, i: nat, j: nat, k: nat)
    requires i < |agents| && k < j <= |agents|
    requires Eligible(agents, i, k)
    ensures (i, k) in Row(agents, i, j)
  {
    if k < j - 1 {
      RowComplete(agents, i, j - 1, k);
    }
  }

  lemma {:induction false} RowOrdered(agents: seq<Agent>, i: nat, j: nat)
    requires i < |agents| && j <= |agents|
    ensures Ordered(Row(agents, i, j))
  {
    if j > 0 {
      RowOrdered(agents, i, j - 1);
      var tail: seq<(nat, nat)> := if Eligible(agents, i, j - 1) then [(i, j - 1)] else [];
      OrderedAppend(Row(agents, i, j - 1), tail);
    }
  }

  /** An attacker that may fight none of the first j agents emits nothing for them. */
  lemma {:induction false} RowEmpty(agents: seq<Agent>, i: nat, j: nat)
    requires i < |agents| && j <= |agents|
    requires forall k :: 0 <= k < j ==> !Eligible(agents, i, k)
    ensures Row(agents, i, j) == []
  {
    if j > 0 {
      RowEmpty(agents, i, j - 1);
    }
  }

  /** A pair emitted for the attackers before i comes from the row of its own attacker. */
  lemma {:induction false} PairsBeforeSound(agents: seq<Agent>, i: nat, p: (nat, nat))
    requires i <= |agents|
    requires p in PairsBefore(agents, i)
    ensures p.0 < i && p in Row(agents, p.0, |agents|)
  {
    var a, b := PairsBefore(agents, i - 1), Row(agents, i - 1, |agents|);
    assert PairsBefore(agents, i) == a + b;
    if p in a {
      PairsBeforeSound(agents, i - 1, p);
    } else {
      assert p in b;
      assert p.0 == i - 1;
    }
  }

  lemma {:induction false} PairsBeforeComplete(agents: seq<Agent>, i: nat, p: (nat, nat))
    requires p.0 < i <= |agents| && p.1 < |agents|
    requires Eligible(agents, p.0, p.1)
    ensures p in PairsBefore(agents, i)
  {
    if p.0 < i - 1 {
      PairsBeforeComplete(agents, i - 1, p);
    } else {
      RowComplete(agents, i - 1, |agents|, p.1);
    }
  }

  lemma {:induction false} PairsBeforeOrdered(agents: seq<Agent>, i: nat)
    requires i <= |agents|
    ensures Ordered(PairsBefore(agents, i))
  {
    if i > 0 {
      var a, b := PairsBefore(agents, i - 1), Row(agents, i - 1, |agents|);
      assert PairsBefore(agents, i) == a + b;
      PairsBeforeOrdered(agents, i - 1);
      RowOrdered(agents, i - 1, |agents|);
      forall x, y | 0 <= x < |a| && 0 <= y < |b| ensures Before(a[x], b[y]) {
        assert a[x].0 < i - 1 && b[y].0 == i - 1;
      }
      OrderedAppend(a, b);
    }
  }

  /**
   * The candidate scan emits (i, j) exactly when i and j are different
   * living agents, i has a positive kill distance, i's kind can kill j's and
   * j is within that distance. With the order CandidatePairs states, no
   * pair comes twice.
   */
  lemma CandidatePairsExactly(agents: seq<Agent>)
    ensures forall p :: p in CandidatePairs(agents) <==>
              p.0 < |agents| && p.1 < |agents| && Eligible(agents, p.0, p.1)
  {
    forall p | p in CandidatePairs(agents)
      ensures p.0 < |agents| && p.1 < |agents| && Eligible(agents, p.0, p.1)
    {
      PairsBeforeSound(agents, |agents|, p);
      RowSound(agents, p.0, |agents|, p);
    }
    forall p: (nat, nat) | p.0 < |agents| && p.1 < |agents| && Eligible(agents, p.0, p.1)
      ensures p in CandidatePairs(agents)
    {
      PairsBeforeComplete(agents, |agents|, p);
    }
  }

  /** The tasks built from index pairs over the world's records. */
  function TasksOf(world: seq<NpcState>, pairs: seq<(nat, nat)>): (tasks: seq<FightTask>)
    requires forall k :: 0 <= k < |pairs| ==> pairs[k].0 < |world| && pairs[k].1 < |world|
    ensures |tasks| == |pairs|
    ensures forall k :: 0 <= k < |pairs| ==>
              tasks[k] == FightTask(world[pairs[k].0].npc, world[pairs[k].1].npc)
  {
    seq(|pairs|, k requires 0 <= k < |pairs| => FightTask(world[pairs[k].0].npc, world[pairs[k].1].npc))
  }

  /** The tasks of two lists of pairs, one after the other. */
  lemma TasksOfConcat(world: seq<NpcState>, a: seq<(nat, nat)>, b: seq<(nat, nat)>)
    requires forall k :: 0 <= k < |a| ==> a[k].0 < |world| && a[k].1 < |world|
    requires forall k :: 0 <= k < |b| ==> b[k].0 < |world| && b[k].1 < |world|
    ensures TasksOf(world, a + b) == TasksOf(world, a) + TasksOf(world, b)
  {
    var ab := a + b;
    assert forall k :: 0 <= k < |ab| ==> ab[k] == if k < |a| then a[k] else b[k - |a|];
  }

  /** One more defender j adds attacker i's task against j exactly when i may fight j. */
  lemma TasksOfRowStep(world: seq<NpcState>, agents: seq<Agent>, i: nat, j: nat)
    requires |agents| == |world| && i < |world| && j < |world|
    ensures TasksOf(world, Row(agents, i, j + 1))
            == TasksOf(world, Row(agents, i, j))
               + if Eligible(agents, i, j) then [FightTask(world[i].npc, world[j].npc)] else []
  {
    var tail: seq<(nat, nat)> := if Eligible(agents, i, j) then [(i, j)] else [];
    TasksOfConcat(world, Row(agents, i, j), tail);
  }

  /** One more attacker i adds the tasks of its row. */
  lemma TasksOfPairsStep(world: seq<NpcState>, agents: seq<Agent>, i: nat)
    requires |agents| == |world| && i < |world|
    ensures TasksOf(world, PairsBefore(agents, i + 1))
            == TasksOf(world, PairsBefore(agents, i)) + TasksOf(world, Row(agents, i, |agents|))
  {
    TasksOfConcat(world, PairsBefore(agents, i), Row(agents, i, |agents|));
  }

  // ---------------------------------------------------------------------
  // Map snapshot and survivors
  // ---------------------------------------------------------------------

  /** A living, on-map agent stands on cell (row, col). */
  predicate Occupies(a: Agent, row: int, col: int)
  {
    a.alive && OnMap(a.x, a.y) && a.y == row && a.x == col
  }

  /** The character `print_map` leaves in a cell after painting the agents in order. */
  function CellAt(agents: seq<Agent>, row: int, col: int): (c: char)
    ensures c != EmptyCell ==>
              exists k :: 0 <= k < |agents| && Occupies(agents[k], row, col) && c == SymbolForType(agents[k].kind)
  {
    if agents == [] then EmptyCell
    else if Occupies(agents[|agents| - 1], row, col) then SymbolForType(agents[|agents| - 1].kind)
    else CellAt(agents[..|agents| - 1], row, col)
  }

  /**
   * A cell shows the symbol of the last living agent standing on it, in
   * world order, and is empty exactly when no living agent stands on it.
   */
  lemma {:induction false} CellAtLastWins(agents: seq<Agent>, row: int, col: int)
    ensures CellAt(agents, row, col) == EmptyCell <==>
              forall k :: 0 <= k < |agents| ==> !Occupies(agents[k], row, col)
    ensures forall k :: 0 <= k < |agents| && Occupies(agents[k], row, col)
              && (forall m :: k < m < |agents| ==> !Occupies(agents[m], row, col))
              ==> CellAt(agents, row, col) == SymbolForType(agents[k].kind)
  {
    if agents != [] {
      var n := |agents| - 1;
      var prefix := agents[..n];
      CellAtLastWins(prefix, row, col);
      forall k | 0 <= k < n && Occupies(agents[k], row, col)
        && (forall m :: k < m < |agents| ==> !Occupies(agents[m], row, col))
        ensures CellAt(agents, row, col) == SymbolForType(agents[k].kind)
      {
        assert !Occupies(agents[n], row, col);
        assert prefix[k] == agents[k];
        forall m | k < m < n ensures !Occupies(prefix[m], row, col) {
          assert prefix[m] == agents[m];
        }
      }
    }
  }

  /** The NPCs of the living records, in world order. */
  function Living(world: seq<NpcState>): (r: seq<Npc>)
    ensures |r| <= |world|
    ensures (forall k :: 0 <= k < |world| ==> !world[k].alive) ==> r == []
  {
    if world == [] then []
    else Living(world[..|world| - 1]) + (if world[|world| - 1].alive then [world[|world| - 1].npc] else [])
  }

  lemma {:induction false} LivingSound(world: seq<NpcState>, n: Npc)
    requires n in Living(world)
    ensures exists k :: 0 <= k < |world| && world[k].alive && world[k].npc == n
  {
    var m := |world| - 1;
    var prefix := world[..m];
    if n in Living(prefix) {
      LivingSound(prefix, n);
      var k :| 0 <= k < |prefix| && prefix[k].alive && prefix[k].npc == n;
      assert world[k] == prefix[k];
    } else {
      assert world[m].alive && world[m].npc == n;
    }
  }

  lemma {:induction false} LivingComplete(world: seq<NpcState>, k: nat)
    requires k < |world| && world[k].alive
    ensures world[k].npc in Living(world)
  {
    var m := |world| - 1;
    var prefix := world[..m];
    if k < m {
      assert prefix[k] == world[k];
      LivingComplete(prefix, k);
    }
  }

  /** An NPC survives exactly when some living record holds it. */
  lemma LivingExactly(world: seq<NpcState>)
    ensures forall n :: n in Living(world) <==> exists k :: 0 <= k < |world| && world[k].alive && world[k].npc == n
  {
    forall n | n in Living(world)
      ensures exists k :: 0 <= k < |world| && world[k].alive && world[k].npc == n
    {
      LivingSound(world, n);
    }
    forall k | 0 <= k < |world| && world[k].alive
      ensures world[k].npc in Living(world)
    {
      LivingComplete(world, k);
    }
  }

  /** Survivors keep world order: the list of a concatenation is the concatenation of the lists. */
  lemma {:induction false} LivingConcat(w1: seq<NpcState>, w2: seq<NpcState>)
    ensures Living(w1 + w2) == Living(w1) + Living(w2)
    decreases |w2|
  {
    if w2 == [] {
      assert w1 + w2 == w1;
    } else {
      var m := |w2| - 1;
      assert (w1 + w2)[..|w1 + w2| - 1] == w1 + w2[..m];
      LivingConcat(w1, w2[..m]);
    }
  }
}
