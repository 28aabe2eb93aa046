/** The Knight class of objects/knight/knight.hpp. */
module Knight {
  import opened NpcBase

  /** `Knight(name, x, y)`: an NPC of kind KnightType holding the arguments. */
  method New(name: string, x: Int32, y: Int32) returns (k: Npc)
    ensures fresh(k)
    ensures k.kind == KnightType && k.name == name && k.x == x && k.y == y && k.observers == []
  {
    k := new Npc(KnightType, name, x, y);
  }

  /** `Knight(is)`: a knight whose name, x and y are read from the stream. */
  method Load(input: Input) returns (k: Npc)
    ensures fresh(k) && k.kind == KnightType && k.observers == []
    ensures var r := ReadRecord(input); k.name == r.name && k.x == r.x && k.y == r.y
  {
    k := new Npc.Load(KnightType, input);
  }

  /** `Knight::save`: the tag of KnightType on its own line, then the base record. */
  function Save(k: Npc): (text: string)
    reads k
    requires k.kind == KnightType
    ensures text == "3\n" + RecordText(k.name, k.x, k.y)
  {
    IntText(TypeTag(KnightType)) + "\n" + k.SaveText()
  }

  /** What `save` wrote reads back as the tag 3 followed by the same name, x and y. */
  lemma {:induction false} SaveLoad(k: Npc, rest: string)
    requires k.kind == KnightType && IsWord(k.name)
    ensures var tag := ReadInt(Input(Save(k) + rest, false), 0);
            tag.value == 3 && !tag.input.failed
            && ReadRecord(tag.input) == RecordRead(k.name, k.x, k.y, Input("\n" + rest, false))
  {
    TaggedRoundTrip(KnightType, k.name, k.x, k.y, rest);
  }

  /** `Knight::visit(Dragon)`: the knight kills and notifies its observers once each. */
  method VisitDragon(self: Npc, other: Npc) returns (killed: bool, calls: seq<Notification>)
    requires self.kind == KnightType && other.kind == DragonType
    ensures killed
    ensures calls == Notifications(self.observers, self, other, true)
  {
    calls := self.FightNotify(other, true);
    killed := true;
  }

  /** `Knight::visit(Princess)`: a knight does not kill a princess. */
  function VisitPrincess(self: Npc, other: Npc): (killed: bool)
    requires self.kind == KnightType && other.kind == PrincessType
    ensures !killed
  {
    false
  }

  /** `Knight::visit(Knight)`: a knight does not kill a knight. */
  function VisitKnight(self: Npc, other: Npc): (killed: bool)
    requires self.kind == KnightType && other.kind == KnightType
    ensures !killed
  {
    false
  }
}
