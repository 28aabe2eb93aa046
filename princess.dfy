/** The Princess class of objects/princess/princess.hpp. */
module Princess {
  import opened NpcBase

  /** `Princess(name, x, y)`: an NPC of kind PrincessType holding the arguments. */
  method New(name: string, x: Int32, y: Int32) returns (p: Npc)
    ensures fresh(p)
    ensures p.kind == PrincessType && p.name == name && p.x == x && p.y == y && p.observers == []
  {
    p := new Npc(PrincessType, name, x, y);
  }

  /** `Princess(is)`: a princess whose name, x and y are read from the stream. */
  method Load(input: Input) returns (p: Npc)
    ensures fresh(p) && p.kind == PrincessType && p.observers == []
    ensures var r := ReadRecord(input); p.name == r.name && p.x == r.x && p.y == r.y
  {
    p := new Npc.Load(PrincessType, input);
  }

  /** `Princess::save`: the tag of PrincessType on its own line, then the base record. */
  function Save(p: Npc): (text: string)
    reads p
    requires p.kind == PrincessType
    ensures text == "2\n" + RecordText(p.name, p.x, p.y)
  {
    IntText(TypeTag(PrincessType)) + "\n" + p.SaveText()
  }

  /** What `save` wrote reads back as the tag 2 followed by the same name, x and y. */
  lemma {:induction false} SaveLoad(p: Npc, rest: string)
    requires p.kind == PrincessType && IsWord(p.name)
    ensures var tag := ReadInt(Input(Save(p) + rest, false), 0);
            tag.value == 2 && !tag.input.failed
            && ReadRecord(tag.input) == RecordRead(p.name, p.x, p.y, Input("\n" + rest, false))
  {
    TaggedRoundTrip(PrincessType, p.name, p.x, p.y, rest);
  }

  // A princess kills nobody: every `visit` overload answers false and notifies no one.

  /** `Princess::visit(Dragon)`. */
  function VisitDragon(self: Npc, other: Npc): (killed: bool)
    requires self.kind == PrincessType && other.kind == DragonType
    ensures !killed
  {
    false
  }

  /** `Princess::visit(Princess)`. */
  function VisitPrincess(self: Npc, other: Npc): (killed: bool)
    requires self.kind == PrincessType && other.kind == PrincessType
    ensures !killed
  {
    false
  }

  /** `Princess::visit(Knight)`. */
  function VisitKnight(self: Npc, other: Npc): (killed: bool)
    requires self.kind == PrincessType && other.kind == KnightType
    ensures !killed
  {
    false
  }
}
