/**
 * The double dispatch of the NPC classes: `defender->accept(attacker)` calls
 * `attacker->visit(defender)`, with the overload chosen by the defender's
 * class and the body chosen by the attacker's class. The result is whether
 * the attacker kills the defender; on a kill the attacker's observers are
 * notified.
 */
module Dispatch {
  import opened NpcBase
  import opened Rules
  import Dragon
  import Princess
  import Knight

  /** The virtual call `attacker->visit(std::shared_ptr<Dragon>)`. */
  method VisitDragon(attacker: Npc, other: Npc) returns (killed: bool, calls: seq<Notification>)
    requires other.kind == DragonType
    ensures killed == CanKill(attacker.kind, DragonType)
    ensures calls == if killed then Notifications(attacker.observers, attacker, other, true) else []
  {
    if attacker.kind == DragonType {
      killed, calls := Dragon.VisitDragon(attacker, other), [];
    } else if attacker.kind == PrincessType {
      killed, calls := Princess.VisitDragon(attacker, other), [];
    } else {
      killed, calls := Knight.VisitDragon(attacker, other);
    }
  }

  /** The virtual call `attacker->visit(std::shared_ptr<Princess>)`. */
  method VisitPrincess(attacker: Npc, other: Npc) returns (killed: bool, calls: seq<Notification>)
    requires other.kind == PrincessType
    ensures killed == CanKill(attacker.kind, PrincessType)
    ensures calls == if killed then Notifications(attacker.observers, attacker, other, true) else []
  {
    if attacker.kind == DragonType {
      killed, calls := Dragon.VisitPrincess(attacker, other);
    } else if attacker.kind == PrincessType {
      killed, calls := Princess.VisitPrincess(attacker, other), [];
    } else {
      killed, calls := Knight.VisitPrincess(attacker, other), [];
    }
  }

  /** The virtual call `attacker->visit(std::shared_ptr<Knight>)`. */
  method VisitKnight(attacker: Npc, other: Npc) returns (killed: bool, calls: seq<Notification>)
    requires other.kind == KnightType
    ensures killed == CanKill(attacker.kind, KnightType)
    ensures calls == if killed then Notifications(attacker.observers, attacker, other, true) else []
  {
    if attacker.kind == DragonType {
      killed, calls := Dragon.VisitKnight(attacker, other), [];
    } else if attacker.kind == PrincessType {
      killed, calls := Princess.VisitKnight(attacker, other), [];
    } else {
      killed, calls := Knight.VisitKnight(attacker, other), [];
    }
  }

  /** `Dragon::accept(attacker)`: only a knight kills a dragon. */
  method DragonAccept(self: Npc, attacker: Npc) returns (killed: bool, calls: seq<Notification>)
    requires self.kind == DragonType
    ensures killed <==> attacker.kind == KnightType
    ensures calls == if killed then Notifications(attacker.observers, attacker, self, true) else []
  {
    killed, calls := VisitDragon(attacker, self);
  }

  /** `Princess::accept(attacker)`: only a dragon kills a princess. */
  method PrincessAccept(self: Npc, attacker: Npc) returns (killed: bool, calls: seq<Notification>)
    requires self.kind == PrincessType
    ensures killed <==> attacker.kind == DragonType
    ensures calls == if killed then Notifications(attacker.observers, attacker, self, true) else []
  {
    killed, calls := VisitPrincess(attacker, self);
  }

  /** `Knight::accept(attacker)`: nobody kills a knight, and no one is notified. */
  method KnightAccept(self: Npc, attacker: Npc) returns (killed: bool, calls: seq<Notification>)
    requires self.kind == KnightType
    ensures !killed && calls == []
  {
    killed, calls := VisitKnight(attacker, self);
  }

  /**
   * The virtual call `defender->accept(attacker)`: the routing through both
   * classes agrees with the kill table `can_kill` for every pair of kinds.
   */
  method Accept(defender: Npc, attacker: Npc) returns (killed: bool, calls: seq<Notification>)
    ensures killed == CanKill(attacker.kind, defender.kind)
    ensures calls == if killed then Notifications(attacker.observers, attacker, defender, true) else []
  {
    if defender.kind == DragonType {
      killed, calls := DragonAccept(defender, attacker);
    } else if defender.kind == PrincessType {
      killed, calls := PrincessAccept(defender, attacker);
    } else {
      killed, calls := KnightAccept(defender, attacker);
    }
  }
}
