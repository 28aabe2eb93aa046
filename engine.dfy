/**
 * The simulation of main.cpp as one object: the world, the fight queue and
 * the running flag, with the factory, the movement thread's tick, the
 * resolver's loop, the map snapshot and the survivor list as methods. The
 * movement, scanning, resolving, draining, map and survivor methods are
 * proved against the functions of module Battle; the queue operations and
 * the shutdown state their new queue or flag directly.
 */
module Engine {
  import opened Wrappers
  import opened NpcBase
  import opened Rules
  import opened Battle
  import Dragon
  import Princess
  import Knight

  /** `TextObserver::get()`: prints every fight to the console. */
  const TextObserver: ObserverId := 0
  /** `FileObserver::get()`: appends every murder to the log file. */
  const FileObserver: ObserverId := 1

  /**
   * `factory`: a fresh NPC of the given type with both shared observers
   * subscribed, text first; no NPC for an unknown type.
   */
  method Factory(t: NpcType, name: string, x: Int32, y: Int32) returns (r: Option<Npc>)
    ensures r.None? <==> t == Unknown
    ensures r.Some? ==> fresh(r.value) && r.value.kind == t && r.value.name == name
                        && r.value.x == x && r.value.y == y
                        && r.value.observers == [TextObserver, FileObserver]
  {
    match t {
      case DragonType =>
        var d := Dragon.New(name, x, y);
        r := Some(d);
      case PrincessType =>
        var p := Princess.New(name, x, y);
        r := Some(p);
      case KnightType =>
        var k := Knight.New(name, x, y);
        r := Some(k);
      case Unknown =>
        r := None;
    }
    if r.Some? {
      r.value.Subscribe(TextObserver);
      r.value.Subscribe(FileObserver);
    }
  }

  /** `find_state`: the first record holding `target`, by a linear search. */
  method FindState(world: seq<NpcState>, target: Npc) returns (r: Option<nat>)
    ensures r == IndexOf(world, target)
  {
    var k := 0;
    while k < |world|
      invariant 0 <= k <= |world|
      invariant forall m :: 0 <= m < k ==> world[m].npc != target
    {
      if world[k].npc == target {
        return Some(k);
      }
      k := k + 1;
    }
    return None;
  }

  /**
   * The observer calls of the murders in `kills`, in order: each reports a
   * win, for an attacker and defender that form one of the kills.
   */
  function KillNotifications(kills: seq<FightTask>): (calls: seq<Notification>)
    reads set t | t in kills :: t.attacker
    ensures forall k :: 0 <= k < |calls| ==>
              calls[k].win && FightTask(calls[k].attacker, calls[k].defender) in kills
  {
    if kills == [] then []
    else
      var last := kills[|kills| - 1];
      assert (set t | t in kills[..|kills| - 1] :: t.attacker) <= (set t | t in kills :: t.attacker);
      KillNotifications(kills[..|kills| - 1]) + Notifications(last.attacker.observers, last.attacker, last.defender, true)
  }

  lemma KillsRegroup(done: seq<FightTask>, step: seq<FightTask>, rest: seq<FightTask>)
    ensures done + (step + rest) == (done + step) + rest
  {
  }

  /** One more murder adds its attacker's observer calls at the end. */
  lemma KillNotificationsAppend(kills: seq<FightTask>, kill: seq<FightTask>)
    requires |kill| <= 1
    ensures KillNotifications(kills + kill)
            == KillNotifications(kills)
               + if kill == [] then [] else Notifications(kill[0].attacker.observers, kill[0].attacker, kill[0].defender, true)
  {
    if kill == [] {
      assert kills + kill == kills;
    } else {
      assert (kills + kill)[..|kills|] == kills;
    }
  }

  /** Record `st` is NPC number `index` as the start-up loop creates it. */
  ghost predicate Spawned(st: NpcState, t: Kind, index: nat, x: int, y: int)
    reads st.npc
  {
    st.alive && st.npc.kind == t && st.npc.name == TypeLabel(t) + "_" + NatText(index)
    && st.npc.x == x && st.npc.y == y && st.npc.observers == [TextObserver, FileObserver]
  }

  /** The start-up loop of `main`: one fresh, distinct, subscribed NPC per drawn kind and position. */
  method Populate(kinds: seq<Kind>, xs: seq<int>, ys: seq<int>) returns (w: seq<NpcState>)
    requires |xs| == |kinds| && |ys| == |kinds|
    requires forall k :: 0 <= k < |kinds| ==> OnMap(xs[k], ys[k])
    ensures |w| == |kinds|
    ensures forall k :: 0 <= k < |w| ==> fresh(w[k].npc) && Spawned(w[k], kinds[k], k, xs[k], ys[k])
    ensures forall a, b :: 0 <= a < b < |w| ==> w[a].npc != w[b].npc
  {
    w := [];
    var i := 0;
    while i < |kinds|
      invariant 0 <= i <= |kinds| && |w| == i
      invariant forall k :: 0 <= k < i ==> fresh(w[k].npc) && Spawned(w[k], kinds[k], k, xs[k], ys[k])
      invariant forall a, b :: 0 <= a < b < i ==> w[a].npc != w[b].npc
    {
      var name := TypeLabel(kinds[i]) + "_" + NatText(i);
      var npc := Factory(kinds[i], name, xs[i], ys[i]);
      if npc.Some? {
        w := w + [NpcState(npc.value, true)];
      }
      i := i + 1;
    }
  }

  class Simulation {
    /** `world`: every NPC created at start-up, with its alive flag. */
    var world: seq<NpcState>
    /** `fight_queue`: tasks waiting for the resolver, oldest first. */
    var fightQueue: seq<FightTask>
    /** `running`: cleared once, at shutdown. */
    var running: bool

    function Npcs(): set<Npc>
      reads this`world
    {
      NpcsOf(world)
    }

    /**
     * Every record holds its own NPC, every NPC stands on the map, and
     * every queued task pairs an attacker with a defender its kind can kill.
     */
    ghost predicate Valid()
      reads this, Npcs()
    {
      (forall i, j :: 0 <= i < j < |world| ==> world[i].npc != world[j].npc)
      && (forall k :: 0 <= k < |world| ==> OnMap(world[k].npc.x, world[k].npc.y))
      && (forall t :: t in fightQueue ==> CanKill(t.attacker.kind, t.defender.kind))
    }

    /** Kind, position and flag of every record, in world order. */
    function Snapshot(): seq<Agent>
      reads this`world, Npcs()
    {
      AgentsOf(world)
    }

    /**
     * The start-up loop: record i is a fresh NPC of kind `kinds[i]` named
     * after its kind and index, at (`xs[i]`, `ys[i]`), alive; the queue is
     * empty and the simulation is running.
     */
    constructor (kinds: seq<Kind>, xs: seq<int>, ys: seq<int>)
      requires |xs| == |kinds| && |ys| == |kinds|
      requires forall k :: 0 <= k < |kinds| ==> OnMap(xs[k], ys[k])
      ensures Valid() && fresh(Npcs())
      ensures fightQueue == [] && running
      ensures |world| == |kinds|
      ensures forall k :: 0 <= k < |world| ==> Spawned(world[k], kinds[k], k, xs[k], ys[k])
    {
      var w := Populate(kinds, xs, ys);
      world := w;
      fightQueue := [];
      running := true;
      new;
      assert forall n :: n in Npcs() ==> exists k :: 0 <= k < |w| && w[k].npc == n;
    }

    /**
     * The movement pass: every living NPC is displaced by its own
     * (`dx[k]`, `dy[k]`) and clamped to the map; records, names, observers
     * and the queue are untouched.
     */
    method Move(dx: seq<int>, dy: seq<int>)
      requires Valid() && |dx| == |world| && |dy| == |world|
      modifies Npcs()
      ensures Valid() && world == old(world) && fightQueue == old(fightQueue)
      ensures Snapshot() == Moved(old(Snapshot()), dx, dy)
      ensures forall k :: 0 <= k < |world| ==>
                world[k].npc.name == old(world[k].npc.name) && world[k].npc.observers == old(world[k].npc.observers)
    {
      ghost var before := Snapshot();
      var k := 0;
      while k < |world|
        invariant 0 <= k <= |world|
        invariant forall m :: 0 <= m < |world| ==>
                    AgentOf(world[m]) == if m < k then Step(before[m], dx[m], dy[m]) else before[m]
        invariant forall m :: 0 <= m < |world| ==>
                    world[m].npc.name == old(world[m].npc.name) && world[m].npc.observers == old(world[m].npc.observers)
      {
        var state := world[k];
        if state.alive {
          state.npc.x := Clamp(state.npc.x + dx[k], 0, MapWidth - 1);
          state.npc.y := Clamp(state.npc.y + dy[k], 0, MapHeight - 1);
        }
        k := k + 1;
      }
      assert Snapshot() == Moved(before, dx, dy);
    }

    /**
     * The inner loop of the candidate scan for attacker i: one task per
     * defender j that i may fight, in index order.
     */
    method ScanRow(i: nat) returns (row: seq<FightTask>)
      requires Valid() && i < |world|
      ensures row == TasksOf(world, Row(Snapshot(), i, |world|))
    {
      ghost var s := Snapshot();
      var count := |world|;
      var attacker := world[i];
      var kd := KillDistance(attacker.npc.kind);
      row := [];
      if !attacker.alive || kd == 0 {
        NothingToScan(i);
        RowEmpty(s, i, count);
        assert row == TasksOf(world, Row(s, i, count));
        return;
      }
      var j := 0;
      while j < count
        invariant 0 <= j <= count
        invariant row == TasksOf(world, Row(s, i, j))
      {
        var found := Engages(i, j, kd);
        TasksOfRowStep(world, s, i, j);
        if found {
          row := row + [FightTask(attacker.npc, world[j].npc)];
        }
        j := j + 1;
      }
      assert s == Snapshot();
    }

    /** A dead attacker, or one with no reach, may fight no one. */
    lemma NothingToScan(i: nat)
      requires i < |world|
      requires !world[i].alive || KillDistance(world[i].npc.kind) == 0
      ensures forall j :: 0 <= j < |world| ==> !Eligible(Snapshot(), i, j)
    {
    }

    /**
     * The tests of the inner loop of the candidate scan, for a living
     * attacker i with reach `kd`: j is another record, alive, of a kind i
     * can kill, and within reach. On the map, the exact closeness test
     * answers as the 64-bit computation of the source does.
     */
    method Engages(i: nat, j: nat, kd: nat) returns (found: bool)
      requires Valid() && i < |world| && j < |world|
      requires world[i].alive && kd == KillDistance(world[i].npc.kind)
      ensures found == Eligible(Snapshot(), i, j)
      ensures found == (i != j && world[j].alive && CanKill(world[i].npc.kind, world[j].npc.kind)
                        && IsCloseAsWritten(world[i].npc.x, world[i].npc.y, world[j].npc.x, world[j].npc.y, kd))
    {
      var attacker, defender := world[i], world[j];
      OnMapNoWrap(attacker.npc.x, attacker.npc.y, defender.npc.x, defender.npc.y, attacker.npc.kind);
      found := i != j && defender.alive && CanKill(attacker.npc.kind, defender.npc.kind)
               && attacker.npc.IsClose(defender.npc, kd);
    }

    /**
     * The candidate scan: one task per eligible (attacker, defender) pair of
     * records, attacker-major, each one of a kind that can kill the other.
     */
    method ScanCandidates() returns (candidates: seq<FightTask>)
      requires Valid()
      ensures candidates == TasksOf(world, CandidatePairs(Snapshot()))
      ensures forall t :: t in candidates ==> CanKill(t.attacker.kind, t.defender.kind)
    {
      ghost var s := Snapshot();
      candidates := [];
      var count := |world|;
      var i := 0;
      while i < count
        invariant 0 <= i <= count
        invariant candidates == TasksOf(world, PairsBefore(s, i))
      {
        var row := ScanRow(i);
        assert s == Snapshot();
        TasksOfPairsStep(world, s, i);
        candidates := candidates + row;
        i := i + 1;
      }
      CandidatesCanKill(s);
    }

    /** Tasks of candidate pairs pair kinds that can kill. */
    lemma CandidatesCanKill(s: seq<Agent>)
      requires s == Snapshot()
      ensures forall t :: t in TasksOf(world, CandidatePairs(s)) ==> CanKill(t.attacker.kind, t.defender.kind)
    {
      CandidatePairsExactly(s);
      var ps := CandidatePairs(s);
      forall t | t in TasksOf(world, ps)
        ensures CanKill(t.attacker.kind, t.defender.kind)
      {
        var n :| 0 <= n < |ps| && TasksOf(world, ps)[n] == t;
        assert ps[n] in ps;
      }
    }

    /** Appending a batch of candidates to the back of the fight queue. */
    method EnqueueBatch(batch: seq<FightTask>)
      requires Valid()
      requires forall t :: t in batch ==> CanKill(t.attacker.kind, t.defender.kind)
      modifies this`fightQueue
      ensures Valid()
      ensures fightQueue == old(fightQueue) + batch
    {
      fightQueue := fightQueue + batch;
    }

    /**
     * One iteration of the movement thread: move, scan, and queue the
     * candidates when there are any.
     */
    method MoverTick(dx: seq<int>, dy: seq<int>) returns (candidates: seq<FightTask>)
      requires Valid() && |dx| == |world| && |dy| == |world|
      modifies this`fightQueue, Npcs()
      ensures Valid() && world == old(world)
      ensures Snapshot() == Moved(old(Snapshot()), dx, dy)
      ensures forall k :: 0 <= k < |world| ==>
                world[k].npc.name == old(world[k].npc.name) && world[k].npc.observers == old(world[k].npc.observers)
      ensures candidates == TasksOf(world, CandidatePairs(Snapshot()))
      ensures fightQueue == old(fightQueue) + candidates
    {
      Move(dx, dy);
      candidates := ScanCandidates();
      if candidates != [] {
        EnqueueBatch(candidates);
      }
    }

    /** Taking the oldest task, when there is one. */
    method PopFront() returns (task: Option<FightTask>)
      requires Valid()
      modifies this`fightQueue
      ensures Valid()
      ensures old(fightQueue) == [] ==> task == None && fightQueue == []
      ensures old(fightQueue) != [] ==> task == Some(old(fightQueue)[0]) && fightQueue == old(fightQueue)[1..]
    {
      if fightQueue == [] {
        task := None;
      } else {
        task := Some(fightQueue[0]);
        fightQueue := fightQueue[1..];
      }
    }

    /**
     * The resolver's handling of one task with one pair of dice: the
     * validation, the roll, the re-validation and the kill, then the
     * attacker's observers told of the murder.
     */
    method ResolveStep(task: FightTask, roll: Roll) returns (outcome: Outcome, calls: seq<Notification>)
      requires Valid()
      modifies this`world
      ensures Valid()
      ensures Resolution(world, outcome) == Resolve(old(world), task, roll)
      ensures calls == if outcome == Killed then Notifications(task.attacker.observers, task.attacker, task.defender, true) else []
    {
      var a := FindState(world, task.attacker);
      var d := FindState(world, task.defender);
      if a.None? || d.None? || !world[a.value].alive || !world[d.value].alive {
        return Discarded, [];
      }
      if roll.attack <= roll.defense {
        return Defended, [];
      }
      var killed := false;
      var a2 := FindState(world, task.attacker);
      var d2 := FindState(world, task.defender);
      if a2.Some? && d2.Some? && world[a2.value].alive && world[d2.value].alive {
        world := world[d2.value := world[d2.value].(alive := false)];
        killed := true;
      }
      if killed {
        outcome := Killed;
        calls := task.attacker.FightNotify(task.defender, true);
      } else {
        outcome := Defended;
        calls := [];
      }
    }

    /** `running = false`. */
    method Shutdown()
      modifies this`running
      ensures !running
    {
      running := false;
    }

    /**
     * One turn of the resolver loop with a non-empty queue: pop the oldest
     * task and resolve it, using the next pair of dice when it passes
     * validation. The drain of the old queue is this turn's kill followed by
     * the drain of the rest.
     */
    method DrainOne(rolls: seq<Roll>, used: nat) returns (next: nat, kill: seq<FightTask>, calls: seq<Notification>)
      requires Valid() && fightQueue != [] && used <= |rolls| && |rolls| - used >= |fightQueue|
      modifies this`world, this`fightQueue
      ensures Valid() && fightQueue == old(fightQueue)[1..]
      ensures used <= next <= |rolls| && |rolls| - next >= |fightQueue|
      ensures kill == [] || kill == [old(fightQueue)[0]]
      ensures DrainAll(old(world), old(fightQueue), rolls[used..])
              == var rest := DrainAll(world, fightQueue, rolls[next..]); Drained(rest.world, kill + rest.kills)
      ensures calls == if kill == [] then [] else Notifications(kill[0].attacker.observers, kill[0].attacker, kill[0].defender, true)
    {
      var task := PopFront();
      var outcome;
      outcome, calls := ResolveStep(task.value, rolls[used]);
      next := if outcome == Discarded then used else used + 1;
      kill := if outcome == Killed then [task.value] else [];
      assert rolls[used..][1..] == rolls[used + 1..];
    }

    /**
     * The resolver loop after shutdown: it runs until the queue is empty,
     * taking one pair of dice per task that passes validation; the result is
     * the drain of the old queue over the old world, and the observer calls
     * are those of the kills, in order.
     */
    method ResolverLoop(rolls: seq<Roll>) returns (kills: seq<FightTask>, calls: seq<Notification>)
      requires Valid() && !running && |rolls| >= |fightQueue|
      modifies this`world, this`fightQueue
      ensures Valid() && fightQueue == []
      ensures Drained(world, kills) == DrainAll(old(world), old(fightQueue), rolls)
      ensures calls == KillNotifications(kills)
    {
      ghost var w0, q0 := world, fightQueue;
      kills, calls := [], [];
      var used := 0;
      assert rolls[0..] == rolls;
      while running || fightQueue != []
        invariant Valid() && !running
        invariant used <= |rolls| && |rolls| - used >= |fightQueue|
        invariant DrainAll(w0, q0, rolls)
                  == var rest := DrainAll(world, fightQueue, rolls[used..]); Drained(rest.world, kills + rest.kills)
        invariant calls == KillNotifications(kills)
        decreases |fightQueue|
      {
        var kill, stepCalls;
        ghost var before := KillNotifications(kills);
        label step:
        used, kill, stepCalls := DrainOne(rolls, used);
        assert forall t :: t in kills ==> unchanged@step(t.attacker);
        assert KillNotifications(kills) == before;
        KillsRegroup(kills, kill, DrainAll(world, fightQueue, rolls[used..]).kills);
        KillNotificationsAppend(kills, kill);
        kills := kills + kill;
        calls := calls + stepCalls;
      }
    }

    /**
     * Draining the queue after shutdown: every kill pairs kinds that can
     * kill, turned a living defender dead, and names a defender no other
     * kill names.
     */
    method Drain(rolls: seq<Roll>) returns (kills: seq<FightTask>, calls: seq<Notification>)
      requires Valid() && !running && |rolls| >= |fightQueue|
      modifies this`world, this`fightQueue
      ensures Valid() && fightQueue == []
      ensures Drained(world, kills) == DrainAll(old(world), old(fightQueue), rolls)
      ensures forall t :: t in kills ==> CanKill(t.attacker.kind, t.defender.kind)
      ensures forall t :: t in kills ==> KilledBetween(old(world), world, t.defender)
      ensures DistinctDefenders(kills)
      ensures calls == KillNotifications(kills)
    {
      ghost var w0, q0 := world, fightQueue;
      kills, calls := ResolverLoop(rolls);
      DrainAllFrame(w0, q0, rolls);
      DrainAllKilled(w0, q0, rolls);
      DrainAllKillsOnce(w0, q0, rolls);
    }

    /** `print_map`: the 20 by 40 grid, each cell showing the last living NPC on it. */
    method PrintMap() returns (grid: seq<string>)
      ensures |grid| == MapHeight
      ensures forall r :: 0 <= r < MapHeight ==> |grid[r]| == MapWidth
      ensures forall r, c :: 0 <= r < MapHeight && 0 <= c < MapWidth ==> grid[r][c] == CellAt(Snapshot(), r, c)
    {
      ghost var s := Snapshot();
      grid := seq(MapHeight, _ => seq(MapWidth, _ => EmptyCell));
      var k := 0;
      while k < |world|
        invariant 0 <= k <= |world|
        invariant |grid| == MapHeight
        invariant forall r :: 0 <= r < MapHeight ==> |grid[r]| == MapWidth
        invariant forall r, c :: 0 <= r < MapHeight && 0 <= c < MapWidth ==> grid[r][c] == CellAt(s[..k], r, c)
      {
        var state := world[k];
        assert s[..k + 1][..k] == s[..k];
        if state.alive && 0 <= state.npc.x < MapWidth && 0 <= state.npc.y < MapHeight {
          var x, y := state.npc.x, state.npc.y;
          grid := grid[y := grid[y][x := SymbolForType(state.npc.kind)]];
        }
        k := k + 1;
      }
      assert s[..|world|] == s;
    }

    /** The survivors: the NPCs of the living records, in world order. */
    method Survivors() returns (survivors: seq<Npc>)
      ensures survivors == Living(world)
    {
      survivors := [];
      var k := 0;
      while k < |world|
        invariant 0 <= k <= |world|
        invariant survivors == Living(world[..k])
      {
        assert world[..k + 1][..k] == world[..k];
        if world[k].alive {
          survivors := survivors + [world[k].npc];
        }
        k := k + 1;
      }
      assert world[..|world|] == world;
    }

    /**
     * The end of `main`: shut down, let the resolver empty the queue,
     * making the observer calls of its kills, and collect the survivors, so
     * every task queued before shutdown is resolved before they are listed.
     */
    method Finish(rolls: seq<Roll>) returns (kills: seq<FightTask>, calls: seq<Notification>, survivors: seq<Npc>)
      requires Valid() && |rolls| >= |fightQueue|
      modifies this`running, this`world, this`fightQueue
      ensures Valid() && !running && fightQueue == []
      ensures Drained(world, kills) == DrainAll(old(world), old(fightQueue), rolls)
      ensures calls == KillNotifications(kills)
      ensures survivors == Living(world)
    {
      Shutdown();
      kills, calls := Drain(rolls);
      survivors := Survivors();
    }
  }
}
