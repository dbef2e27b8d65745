/** The cell keys as the pages write them: different cells have different texts. */
module UiKeys {
  import opened Common
  import Text
  import opened PaperChecklist

  function GroupOf(s: Slot): Group {
    if Position(s) < 8 then Mechanical else if Position(s) < 13 then Fluids
    else if Position(s) < 18 then Safety else if Position(s) < 25 then Operational else Documentation
  }

  function GroupText(g: Group): string {
    match g
    case Mechanical => "Mechanical & Exterior" case Fluids => "Fluids & Electrical"
    case Safety => "Safety & Emergency" case Operational => "Operational Controls"
    case Documentation => "Documentation & Tools"
  }

  function KeyText(s: Slot): string {
    match s
    case Body => "body" case Steering => "steering" case Mirrors => "mirrors" case Wipers => "wipers"
    case Indicators => "indicators" case Tyres => "tyres" case Load => "load" case Reverse => "reverse"
    case Battery => "battery" case Oil => "oil" case Water => "water" case Fuel => "fuel" case Fuse => "fuse"
    case FirstAid => "first-aid" case Extinguisher => "extinguisher" case Seatbelt => "seatbelt"
    case Horn => "horn" case Brakes => "brakes"
    case Speed => "speed" case Measure => "measure" case TyrePressure => "tyre-pressure" case HighFlag => "high-flag"
    case PlateVisible => "plate-visible" case Radio => "radio" case Controls => "controls"
    case Registration => "registration" case Toolbox => "toolbox" case Tools => "tools" case Jack => "jack"
    case Ras => "ras" case Lock => "lock" case Aircon => "aircon"
  }

  function UiText(k: UiKey): string {
    match k
    case SlotKey(s) => GroupText(GroupOf(s)) + [':'] + KeyText(s)
    case ExtraKey(code) => "extra" + [':'] + code
  }

  // The length of a key and one of its letters: the third of fuel and fuse, else the first.
  function Shape(s: Slot): (nat, char) {
    match s
    case Body => (4, 'b') case Steering => (8, 's') case Mirrors => (7, 'm') case Wipers => (6, 'w')
    case Indicators => (10, 'i') case Tyres => (5, 't') case Load => (4, 'l') case Reverse => (7, 'r')
    case Battery => (7, 'b') case Oil => (3, 'o') case Water => (5, 'w') case Fuel => (4, 'e') case Fuse => (4, 's')
    case FirstAid => (9, 'f') case Extinguisher => (12, 'e') case Seatbelt => (8, 's')
    case Horn => (4, 'h') case Brakes => (6, 'b')
    case Speed => (5, 's') case Measure => (7, 'm') case TyrePressure => (13, 't') case HighFlag => (9, 'h')
    case PlateVisible => (13, 'p') case Radio => (5, 'r') case Controls => (8, 'c')
    case Registration => (12, 'r') case Toolbox => (7, 't') case Tools => (5, 't') case Jack => (4, 'j')
    case Ras => (3, 'r') case Lock => (4, 'l') case Aircon => (6, 'a')
  }

  lemma KeyShape(s: Slot)
    ensures |KeyText(s)| == Shape(s).0
    ensures Shape(s).0 > 2 && Shape(s).1 == KeyText(s)[if GroupOf(s).Fluids? && |KeyText(s)| == 4 then 2 else 0]
  {}

  lemma KeysOfGroup(s: Slot, t: Slot)
    requires GroupOf(s) == GroupOf(t) && KeyText(s) == KeyText(t)
    ensures s == t
  {
    KeyShape(s);
    KeyShape(t);
    if GroupOf(s).Mechanical? || GroupOf(s).Safety? {
      FirstShapesDiffer(s, t);
    } else {
      LastShapesDiffer(s, t);
    }
  }

  lemma FirstShapesDiffer(s: Slot, t: Slot)
    requires GroupOf(s) == GroupOf(t) && (GroupOf(s).Mechanical? || GroupOf(s).Safety?) && Shape(s) == Shape(t)
    ensures s == t
  {}

  lemma LastShapesDiffer(s: Slot, t: Slot)
    requires GroupOf(s) == GroupOf(t) && !GroupOf(s).Mechanical? && !GroupOf(s).Safety? && Shape(s) == Shape(t)
    ensures s == t
  {}

  function Front(k: UiKey): string { if k.SlotKey? then GroupText(GroupOf(k.slot)) else "extra" }

  function Back(k: UiKey): string { if k.SlotKey? then KeyText(k.slot) else k.itemCode }

  function Initial(g: Group): char {
    match g case Mechanical => 'M' case Fluids => 'F' case Safety => 'S' case Operational => 'O' case Documentation => 'D'
  }

  predicate Shaped(text: string, initial: char) { ':' !in text && text != [] && text[0] == initial }

  lemma GroupTextShape(g: Group)
    ensures Shaped(GroupText(g), Initial(g))
  {
    if g.Mechanical? || g.Fluids? {
      FirstTexts(g);
    } else {
      LastTexts(g);
    }
  }

  lemma FirstTexts(g: Group)
    requires g.Mechanical? || g.Fluids?
    ensures Shaped(GroupText(g), Initial(g))
  {}

  lemma LastTexts(g: Group)
    requires g.Safety? || g.Operational? || g.Documentation?
    ensures Shaped(GroupText(g), Initial(g))
  {}

  lemma FrontShape(k: UiKey)
    ensures ':' !in Front(k) && Front(k) != []
    ensures Front(k)[0] == if k.SlotKey? then Initial(GroupOf(k.slot)) else 'e'
  {
    if k.SlotKey? {
      GroupTextShape(GroupOf(k.slot));
    }
  }

  /** The page's text determines the cell. */
  lemma UiTextInjective(j: UiKey, k: UiKey)
    requires UiText(j) == UiText(k)
    ensures j == k
  {
    FrontShape(j);
    FrontShape(k);
    assert UiText(j) == Front(j) + [':'] + Back(j) && UiText(k) == Front(k) + [':'] + Back(k);
    Text.SplitFirst(Front(j), Back(j), Front(k), Back(k), ':');
    if j.SlotKey? && k.SlotKey? {
      KeysOfGroup(j.slot, k.slot);
    }
  }
}
