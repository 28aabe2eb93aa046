/**
 * The fixed lookup tables of main.cpp: the map size, the label and map
 * symbol of each kind, the kill distance of each kind and the kill rule.
 */
module Rules {
  import opened NpcBase

  const MapWidth: int := 40
  const MapHeight: int := 20

  /** The character of an empty map cell. */
  const EmptyCell: char := '.'

  /** `type_label`: a one-word name per kind, "Unknown" otherwise. */
  function TypeLabel(t: NpcType): (name: string)
    ensures IsWord(name)
  {
    match t
    case DragonType => "Dragon"
    case PrincessType => "Princess"
    case KnightType => "Knight"
    case Unknown => "Unknown"
  }

  /** `symbol_for_type`: the map symbol of a kind, never the empty-cell filler. */
  function SymbolForType(t: NpcType): (c: char)
    ensures c != EmptyCell
  {
    match t
    case DragonType => 'D'
    case PrincessType => 'P'
    case KnightType => 'K'
    case Unknown => '?'
  }

  /** Different kinds have different labels and different map symbols. */
  lemma LabelsAndSymbolsDistinct(s: NpcType, t: NpcType)
    ensures s != t ==> TypeLabel(s) != TypeLabel(t) && SymbolForType(s) != SymbolForType(t)
  {
  }

  /** The kill distance of `get_attributes`: positive exactly for the three concrete kinds. */
  function KillDistance(t: NpcType): (d: nat)
    ensures d > 0 <==> t != Unknown
    ensures d <= 30
  {
    match t
    case DragonType => 30
    case KnightType => 10
    case PrincessType => 1
    case Unknown => 0
  }

  /** `can_kill`: a dragon kills a princess, a knight kills a dragon, nothing else. */
  function CanKill(attacker: NpcType, defender: NpcType): (r: bool)
    ensures r ==> attacker != defender && attacker != Unknown && defender != Unknown
    ensures r ==> KillDistance(attacker) > 0
  {
    (attacker == DragonType && defender == PrincessType)
    || (attacker == KnightType && defender == DragonType)
  }

  /** No two kinds can kill each other, and a princess kills nobody. */
  lemma CanKillAsymmetric(a: NpcType, d: NpcType)
    ensures CanKill(a, d) ==> !CanKill(d, a)
    ensures !CanKill(PrincessType, d)
  {
  }
}
