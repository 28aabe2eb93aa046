/** The Dragon class of objects/dragon/dragon.hpp. */
module Dragon {
  import opened NpcBase

  /** `Dragon(name, x, y)`: an NPC of kind DragonType holding the arguments. */
  method New(name: string, x: Int32, y: Int32) returns (d: Npc)
    ensures fresh(d)
    ensures d.kind == DragonType && d.name == name && d.x == x && d.y == y && d.observers == []
  {
    d := new Npc(DragonType, name, x, y);
  }

  /** `Dragon(is)`: a dragon whose name, x and y are read from the stream. */
  method Load(input: Input) returns (d: Npc)
    ensures fresh(d) && d.kind == DragonType && d.observers == []
    ensures var r := ReadRecord(input); d.name == r.name && d.x == r.x && d.y == r.y
  {
    d := new Npc.Load(DragonType, input);
  }

  /** `Dragon::save`: the tag of DragonType on its own line, then the base record. */
  function Save(d: Npc): (text: string)
    reads d
    requires d.kind == DragonType
    ensures text == "1\n" + RecordText(d.name, d.x, d.y)
  {
    IntText(TypeTag(DragonType)) + "\n" + d.SaveText()
  }

  /** What `save` wrote reads back as the tag 1 followed by the same name, x and y. */
  lemma {:induction false} SaveLoad(d: Npc, rest: string)
    requires d.kind == DragonType && IsWord(d.name)
    ensures var tag := ReadInt(Input(Save(d) + rest, false), 0);
            tag.value == 1 && !tag.input.failed
            && ReadRecord(tag.input) == RecordRead(d.name, d.x, d.y, Input("\n" + rest, false))
  {
    TaggedRoundTrip(DragonType, d.name, d.x, d.y, rest);
  }

  /** `Dragon::visit(Dragon)`: a dragon does not kill a dragon. */
  function VisitDragon(self: Npc, other: Npc): (killed: bool)
    requires self.kind == DragonType && other.kind == DragonType
    ensures !killed
  {
    false
  }

  /** `Dragon::visit(Princess)`: the dragon kills and notifies its observers once each. */
  method VisitPrincess(self: Npc, other: Npc) returns (killed: bool, calls: seq<Notification>)
    requires self.kind == DragonType && other.kind == PrincessType
    ensures killed
    ensures calls == Notifications(self.observers, self, other, true)
  {
    calls := self.FightNotify(other, true);
    killed := true;
  }

  /** `Dragon::visit(Knight)`: a dragon does not kill a knight. */
  function VisitKnight(self: Npc, other: Npc): (killed: bool)
    requires self.kind == DragonType && other.kind == KnightType
    ensures !killed
  {
    false
  }
}
