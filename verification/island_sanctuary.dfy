/** The Island Sanctuary compass: which game objects it detects, what kind
    of objective each becomes, which marker icon it draws, and the lookup
    tables it builds from the island's gathering-object and animal sheets.

    Game objects are records of the three fields the compass reads; the
    sheets are sequences of rows in sheet order; the name sheet is an
    optional lookup; text sanitising is a parameter. */
module IslandSanctuary {
  import opened Basics
  import ZoneWatcher

  // ---------------------------------------------------------------------
  // Game objects and objective kinds

  /** The object kinds the compass tells apart; every other kind keeps its code. */
  datatype ObjectKind = MjiObject | BattleNpc | OtherKind(code: Byte)

  /** A game object as the compass sees it: its kind, its name id and its base id. */
  datatype GameObject = GameObject(kind: ObjectKind, nameId: UInt, baseId: UInt)

  /** The objective type; `Unclassified` is the type value 0 the source gives
      to objects that are neither animals nor gathering points. */
  datatype IslandObjectType = Unclassified | Animal | Gathering {
    function Code(): (c: Byte)
      ensures c == 0 <==> this == Unclassified
    {
      match this
      case Unclassified => 0
      case Animal => 1
      case Gathering => 2
    }
  }

  /** Gathering categories, told apart by the map icon. */
  datatype IslandGatherType = NoGatherType | Crops | Trees | Rocks | Sands | Sea {
    function Code(): (c: Byte)
      ensures c <= 5
      ensures c == 0 <==> this == NoGatherType
    {
      match this
      case NoGatherType => 0
      case Crops => 1
      case Trees => 2
      case Rocks => 3
      case Sands => 4
      case Sea => 5
    }
  }

  /** The objective made from a game object: its type, the id used to find
      its gathering data (the object's name id) and the id used to find its
      animal data (the object's base id).  An absent object gives an
      unclassified objective with both ids 0. */
  datatype IslandObjective = IslandObjective(objType: IslandObjectType, npcId: UInt, dataId: UInt)

  /** A UI3D object-info record, which may or may not point at a game object. */
  datatype ObjectInfo = ObjectInfo(gameObject: Option<GameObject>)

  // ---------------------------------------------------------------------
  // Sheet rows and the data built from them

  /** An MJIGatheringObject row: its id, the raw EObjName link and the map icon. */
  datatype GatherRow = GatherRow(rowId: UInt, nameLink: UInt, mapIcon: UInt)

  /** An MJIAnimals row: its id, the raw BNpcBase link and the icon. */
  datatype AnimalRow = AnimalRow(rowId: UInt, bnpcBaseLink: UInt, icon: UInt)

  datatype IslandGatheringObjectData = IslandGatheringObjectData(
    sheetRowId: UInt, npcId: UInt, iconId: UInt, gatherType: IslandGatherType, name: string)

  datatype IslandAnimalData = IslandAnimalData(sheetRowId: UInt, dataId: UInt, iconId: UInt)

  /** The user's settings for this compass.  The two masks hold one bit per
      sheet row, taken modulo 32. */
  datatype IslandConfig = IslandConfig(
    detectGathering: bool,
    detectAnimals: bool,
    gatheringObjectsToShow: bv32,
    animalsToShow: bv32,
    useAnimalSpecificIcons: bool)

  /** The tables the compass keeps: each dictionary by its key, each list in sheet order. */
  datatype IslandTables = IslandTables(
    gatherDict: map<UInt, IslandGatheringObjectData>,
    gatherList: seq<IslandGatheringObjectData>,
    animalDict: map<UInt, IslandAnimalData>,
    animalList: seq<IslandAnimalData>)

  // ---------------------------------------------------------------------
  // Territory

  /** TerritoryIntendedUse row of the Island Sanctuary. */
  const IslandSanctuaryIntendedUse: UInt := 49

  /** The compass runs only where the current territory's intended use
      resolves to the Island Sanctuary row. */
  function IsEnabledInCurrentTerritory(sheets: ZoneWatcher.Sheets, s: ZoneWatcher.ZoneState): (r: bool)
    ensures r <==> && s.territory.Some?
                   && s.territory.value.intendedUseLink == IslandSanctuaryIntendedUse
                   && IslandSanctuaryIntendedUse in sheets.intendedUses
  {
    ZoneWatcher.IntendedUseId(sheets, s.territory) == Some(IslandSanctuaryIntendedUse)
  }

  /** The island is never a chocobo race course, so an island zone that is
      not PvP and not a battalion zone is a compass work zone. */
  lemma IslandZoneIsWorkZone(sheets: ZoneWatcher.Sheets, s: ZoneWatcher.ZoneState)
    requires IsEnabledInCurrentTerritory(sheets, s)
    requires !s.territory.value.isPvpZone && s.territory.value.battalionMode <= 1
    ensures ZoneWatcher.IsCompassWorkZone(sheets, s.territory)
  {
  }

  /** After a zone change the compass is enabled exactly when the new
      territory exists and its intended use is the (resolving) island row;
      there, outside PvP and battalion zones, it is also a work zone. */
  lemma IslandEnabledAfterZoneChange(sheets: ZoneWatcher.Sheets, s: ZoneWatcher.ZoneState, territoryId: UInt, altMapId: UInt)
    ensures var s' := ZoneWatcher.OnZoneChange(sheets, s, territoryId, altMapId);
            IsEnabledInCurrentTerritory(sheets, s') <==>
              && territoryId != 0
              && territoryId in sheets.territoryTypes
              && sheets.territoryTypes[territoryId].intendedUseLink == IslandSanctuaryIntendedUse
              && IslandSanctuaryIntendedUse in sheets.intendedUses
    ensures var s' := ZoneWatcher.OnZoneChange(sheets, s, territoryId, altMapId);
            (IsEnabledInCurrentTerritory(sheets, s') && !s'.territory.value.isPvpZone && s'.territory.value.battalionMode <= 1) ==>
              s'.isInCompassWorkZone
  {
    var s' := ZoneWatcher.OnZoneChange(sheets, s, territoryId, altMapId);
    ZoneWatcher.ZoneChangeMakesFlagsCurrent(sheets, s, territoryId, altMapId);
    if IsEnabledInCurrentTerritory(sheets, s') && !s'.territory.value.isPvpZone && s'.territory.value.battalionMode <= 1 {
      IslandZoneIsWorkZone(sheets, s');
    }
  }

  // ---------------------------------------------------------------------
  // Detection

  /** A 32-bit one shifted left by `i`. */
  function Bit(i: bv5): bv32 {
    (1 as bv32) << i
  }

  /** Distinct shifts give distinct, non-overlapping bits. */
  lemma BitsDisjoint(i: bv5, j: bv5)
    ensures Bit(i) != 0
    ensures i != j ==> Bit(i) & Bit(j) == 0
  {
  }

  /** The mask bit of a sheet row: the row id is the shift count, taken
      modulo 32 as C# does for shifts of a 32-bit value. */
  function FilterBit(rowId: UInt): (b: bv32)
    ensures b != 0 && b & (b - 1) == 0
    ensures (b >> ((rowId % 32) as bv5)) & 1 == 1
  {
    Bit((rowId % 32) as bv5)
  }

  /** The mask selects the row. */
  predicate Selected(mask: bv32, rowId: UInt) {
    mask & FilterBit(rowId) != 0
  }

  /** Whether a game object is something this compass tracks: a gathering
      point whose name id has gathering data and whose row is selected, or an
      animal whose base id has animal data and whose row is selected, each
      only while its detection is on. */
  function IsObjective(o: Option<GameObject>, cfg: IslandConfig, t: IslandTables): (r: bool)
    ensures o.None? ==> !r
    ensures o.Some? && o.value.kind == MjiObject && cfg.detectGathering ==>
              (r <==> o.value.nameId in t.gatherDict
                      && Selected(cfg.gatheringObjectsToShow, t.gatherDict[o.value.nameId].sheetRowId))
    ensures o.Some? && o.value.kind == BattleNpc && cfg.detectAnimals ==>
              (r <==> o.value.baseId in t.animalDict
                      && Selected(cfg.animalsToShow, t.animalDict[o.value.baseId].sheetRowId))
    ensures r ==> o.Some? && ((o.value.kind == MjiObject && cfg.detectGathering)
                              || (o.value.kind == BattleNpc && cfg.detectAnimals))
  {
    if o.None? then false
    else if cfg.detectGathering && o.value.kind == MjiObject then
      var data := Lookup(t.gatherDict, o.value.nameId);
      data.Some? && Selected(cfg.gatheringObjectsToShow, data.value.sheetRowId)
    else if cfg.detectAnimals && o.value.kind == BattleNpc then
      var data := Lookup(t.animalDict, o.value.baseId);
      data.Some? && Selected(cfg.animalsToShow, data.value.sheetRowId)
    else false
  }

  /** The objective type follows the object kind: gathering points and
      animals are classified, everything else (and no object) is type 0. */
  function CreateCompassObjective(o: Option<GameObject>): (r: IslandObjective)
    ensures o.None? ==> r == IslandObjective(Unclassified, 0, 0)
    ensures o.Some? ==> r.npcId == o.value.nameId && r.dataId == o.value.baseId
    ensures r.objType == Gathering <==> o.Some? && o.value.kind == MjiObject
    ensures r.objType == Animal <==> o.Some? && o.value.kind == BattleNpc
  {
    match o
    case None => IslandObjective(Unclassified, 0, 0)
    case Some(obj) =>
      var ty := match obj.kind
        case MjiObject => Gathering
        case BattleNpc => Animal
        case OtherKind(_) => Unclassified;
      IslandObjective(ty, obj.nameId, obj.baseId)
  }

  /** The object-info overload: a missing info record stands for no object. */
  function CreateCompassObjectiveFromInfo(info: Option<ObjectInfo>): (r: IslandObjective)
    ensures info.None? ==> r.objType == Unclassified
    ensures info.None? ==> r == CreateCompassObjective(None)
    ensures info.Some? ==> r == CreateCompassObjective(info.value.gameObject)
  {
    CreateCompassObjective(if info.Some? then info.value.gameObject else None)
  }

  /** Every detected object becomes a classified objective whose type
      matches the table that let it through. */
  lemma DetectedObjectsAreClassified(o: Option<GameObject>, cfg: IslandConfig, t: IslandTables)
    requires IsObjective(o, cfg, t)
    ensures CreateCompassObjective(o).objType != Unclassified
    ensures CreateCompassObjective(o).objType == Gathering ==> o.value.nameId in t.gatherDict
    ensures CreateCompassObjective(o).objType == Animal ==> o.value.baseId in t.animalDict
  {
  }

  /** Rows whose ids agree modulo 32 share one mask bit, and only those do. */
  lemma FilterBitAliases(a: UInt, b: UInt)
    ensures FilterBit(a) == FilterBit(b) <==> a % 32 == b % 32
    ensures a % 32 != b % 32 ==> FilterBit(a) & FilterBit(b) == 0
  {
    var i, j := (a % 32) as bv5, (b % 32) as bv5;
    ShiftCountRoundTrip(a % 32);
    ShiftCountRoundTrip(b % 32);
    assert i == j <==> a % 32 == b % 32;
    BitsDisjoint(i, j);
  }

  /** A shift count below 32 survives the conversion to five bits. */
  lemma ShiftCountRoundTrip(n: int)
    requires 0 <= n < 32
    ensures (n as bv5) as int == n
  {
  }

  /** "Select all" makes every row with data a detected object, and
      "unselect all" detects nothing, as long as detection is on. */
  lemma SelectAllAndUnselectAll(o: GameObject, cfg: IslandConfig, t: IslandTables)
    ensures var all := cfg.(gatheringObjectsToShow := 0xFFFF_FFFF, animalsToShow := 0xFFFF_FFFF);
            && (o.kind == MjiObject && cfg.detectGathering ==> (IsObjective(Some(o), all, t) <==> o.nameId in t.gatherDict))
            && (o.kind == BattleNpc && cfg.detectAnimals ==> (IsObjective(Some(o), all, t) <==> o.baseId in t.animalDict))
    ensures !IsObjective(Some(o), cfg.(gatheringObjectsToShow := 0, animalsToShow := 0), t)
  {
    if o.kind == MjiObject && o.nameId in t.gatherDict {
      FilterBitNonZero(t.gatherDict[o.nameId].sheetRowId);
    }
    if o.kind == BattleNpc && o.baseId in t.animalDict {
      FilterBitNonZero(t.animalDict[o.baseId].sheetRowId);
    }
  }

  lemma FilterBitNonZero(rowId: UInt)
    ensures FilterBit(rowId) != 0
    ensures 0xFFFF_FFFF & FilterBit(rowId) != 0
  {
    BitsDisjoint((rowId % 32) as bv5, (rowId % 32) as bv5);
  }

  /** Ticking or clearing a row's checkbox, as the settings window does. */
  function SetSelected(mask: bv32, rowId: UInt, on: bool): (m: bv32) {
    if on then mask | FilterBit(rowId) else mask & !FilterBit(rowId)
  }

  /** Setting or clearing a non-zero bit decides that bit and leaves bits outside it alone. */
  lemma SetBitAlgebra(mask: bv32, b: bv32, c: bv32, on: bool)
    requires b != 0
    ensures ((if on then mask | b else mask & !b) & b != 0) == on
    ensures b & c == 0 ==> (if on then mask | b else mask & !b) & c == mask & c
  {
    if on {
      OrSetsBits(mask, b, c);
    } else {
      AndNotClearsBits(mask, b, c);
    }
  }

  lemma OrSetsBits(mask: bv32, b: bv32, c: bv32)
    ensures (mask | b) & b == b
    ensures b & c == 0 ==> (mask | b) & c == mask & c
  {
  }

  lemma AndNotClearsBits(mask: bv32, b: bv32, c: bv32)
    ensures (mask & !b) & b == 0
    ensures b & c == 0 ==> (mask & !b) & c == mask & c
  {
  }

  /** Setting or clearing a row's bit decides that row. */
  lemma SetSelectedDecidesRow(mask: bv32, rowId: UInt, on: bool)
    ensures Selected(SetSelected(mask, rowId, on), rowId) == on
  {
    FilterBitNonZero(rowId);
    SetBitAlgebra(mask, FilterBit(rowId), FilterBit(rowId), on);
  }

  /** Setting or clearing a row's bit leaves every row with a different bit alone. */
  lemma SetSelectedKeepsOtherRows(mask: bv32, rowId: UInt, other: UInt, on: bool)
    ensures other % 32 != rowId % 32 ==> Selected(SetSelected(mask, rowId, on), other) == Selected(mask, other)
  {
    FilterBitNonZero(rowId);
    FilterBitAliases(rowId, other);
    SetBitAlgebra(mask, FilterBit(rowId), FilterBit(other), on);
  }

  /** The bit the settings window's checkbox at list position `i` toggles:
      the position, not the row id, is the shift count (modulo 32). */
  function CheckboxFlag(i: UInt): (b: bv32)
    ensures b != 0 && b & (b - 1) == 0
    ensures (b >> ((i % 32) as bv5)) & 1 == 1
  {
    FilterBit(i)
  }

  /** A checkbox click: set the checkbox's bits when ticked, clear them otherwise. */
  function ClickCheckbox(mask: bv32, i: UInt, on: bool): bv32 {
    if on then mask | CheckboxFlag(i) else mask & !CheckboxFlag(i)
  }

  /** The checkbox at list position `i` carries the filter bit of a row
      exactly when the row id agrees with `i` modulo 32, as it does for the
      row listed at `i` in a sheet numbered from 0 without gaps. */
  lemma CheckboxFlagIsRowBit(i: UInt, rowId: UInt)
    ensures CheckboxFlag(i) == FilterBit(rowId) <==> i % 32 == rowId % 32
  {
    FilterBitAliases(i, rowId);
  }

  /** A click on the checkbox at list position `i` decides every row whose
      id agrees with `i` modulo 32. */
  lemma CheckboxDecidesMatchingRows(mask: bv32, i: UInt, rowId: UInt, on: bool)
    ensures i % 32 == rowId % 32 ==> Selected(ClickCheckbox(mask, i, on), rowId) == on
  {
    FilterBitAliases(i, rowId);
    SetSelectedDecidesRow(mask, i, on);
  }

  /** A click on the checkbox at list position `i` leaves every row whose id
      differs from `i` modulo 32 alone. */
  lemma CheckboxKeepsOtherRows(mask: bv32, i: UInt, rowId: UInt, on: bool)
    ensures i % 32 != rowId % 32 ==> Selected(ClickCheckbox(mask, i, on), rowId) == Selected(mask, rowId)
  {
    assert ClickCheckbox(mask, i, on) == SetSelected(mask, i, on);
    SetSelectedKeepsOtherRows(mask, i, rowId, on);
  }

  // ---------------------------------------------------------------------
  // Gather types and marker icons

  /** The first gathering map icon; the five categories use consecutive icons. */
  const CropsIcon: UInt := 63963

  /** The icon animals get when animal-specific icons are off. */
  const AnimalDefaultMarkerIconId: UInt := 63956

  /** The gathering category shown by a map icon; unknown icons give none. */
  function GetIslandGatherType(iconId: UInt): (r: IslandGatherType)
    ensures r == NoGatherType <==> !(CropsIcon <= iconId <= CropsIcon + 4)
    ensures r != NoGatherType ==> r.Code() as int == iconId - CropsIcon + 1
  {
    if iconId == 63963 then Crops
    else if iconId == 63964 then Trees
    else if iconId == 63965 then Rocks
    else if iconId == 63966 then Sands
    else if iconId == 63967 then Sea
    else NoGatherType
  }

  /** The map icon of a gathering category. */
  function GatherTypeIcon(g: IslandGatherType): (icon: UInt)
    requires g != NoGatherType
  {
    CropsIcon + g.Code() - 1
  }

  /** Icon and category determine each other on the five gathering icons. */
  lemma GatherTypeIconRoundTrip(g: IslandGatherType, iconId: UInt)
    ensures g != NoGatherType ==> GetIslandGatherType(GatherTypeIcon(g)) == g
    ensures GetIslandGatherType(iconId) != NoGatherType ==> GatherTypeIcon(GetIslandGatherType(iconId)) == iconId
  {
  }

  /** The gathering category of an objective, found through its name id. */
  function ObjectiveGatherType(obj: IslandObjective, t: IslandTables): (r: IslandGatherType)
    ensures obj.npcId !in t.gatherDict ==> r == NoGatherType
    ensures obj.npcId in t.gatherDict ==> r == t.gatherDict[obj.npcId].gatherType
  {
    match Lookup(t.gatherDict, obj.npcId)
    case Some(data) => data.gatherType
    case None => NoGatherType
  }

  function GetIslandGatherIconId(obj: IslandObjective, t: IslandTables): (r: UInt)
    ensures obj.npcId !in t.gatherDict ==> r == 0
    ensures obj.npcId in t.gatherDict ==> r == t.gatherDict[obj.npcId].iconId
  {
    match Lookup(t.gatherDict, obj.npcId)
    case Some(data) => data.iconId
    case None => 0
  }

  function GetIslandAnimalIconId(obj: IslandObjective, t: IslandTables): (r: UInt)
    ensures obj.dataId !in t.animalDict ==> r == 0
    ensures obj.dataId in t.animalDict ==> r == t.animalDict[obj.dataId].iconId
  {
    match Lookup(t.animalDict, obj.dataId)
    case Some(data) => data.iconId
    case None => 0
  }

  /** The marker icon: the gathering point's own icon, the animal's own icon
      or the shared animal icon depending on the setting, and 0 otherwise. */
  function GetMarkerIconId(obj: IslandObjective, cfg: IslandConfig, t: IslandTables): (r: UInt)
    ensures obj.objType == Gathering ==> r == GetIslandGatherIconId(obj, t)
    ensures obj.objType == Animal && cfg.useAnimalSpecificIcons ==> r == GetIslandAnimalIconId(obj, t)
    ensures obj.objType == Animal && !cfg.useAnimalSpecificIcons ==> r == AnimalDefaultMarkerIconId
    ensures obj.objType == Unclassified ==> r == 0
  {
    match obj.objType
    case Gathering => GetIslandGatherIconId(obj, t)
    case Animal => if cfg.useAnimalSpecificIcons then GetIslandAnimalIconId(obj, t) else AnimalDefaultMarkerIconId
    case Unclassified => 0
  }

  /** A gathering marker's icon names a gathering category exactly when the
      objective's gather type is one. */
  lemma GatherMarkerShowsGatherType(obj: IslandObjective, cfg: IslandConfig, t: IslandTables)
    requires obj.objType == Gathering
    requires forall k :: k in t.gatherDict ==> t.gatherDict[k].gatherType == GetIslandGatherType(t.gatherDict[k].iconId)
    ensures GetIslandGatherType(GetMarkerIconId(obj, cfg, t)) == ObjectiveGatherType(obj, t)
  {
  }

  // ---------------------------------------------------------------------
  // Building the tables

  /** No two items share a key. */
  predicate DistinctKeys<T>(items: seq<T>, key: T -> UInt) {
    forall i, j :: 0 <= i < j < |items| ==> key(items[i]) != key(items[j])
  }

  /** A dictionary filled by `Add` in order and the list of items alongside
      it.  `Add` throws on a key already present: the build then fails with
      the first key met twice. */
  method BuildTable<T>(items: seq<T>, key: T -> UInt) returns (r: Result<(map<UInt, T>, seq<T>), UInt>)
    ensures r.Success? <==> DistinctKeys(items, key)
    ensures r.Success? ==> r.value.1 == items
    ensures r.Success? ==> r.value.0.Keys == set i | 0 <= i < |items| :: key(items[i])
    ensures r.Success? ==> forall i :: 0 <= i < |items| ==> r.value.0[key(items[i])] == items[i]
    ensures r.Failure? ==> exists i, j :: 0 <= i < j < |items| && key(items[i]) == r.error == key(items[j])
                                          && DistinctKeys(items[..j], key)
  {
    var dict: map<UInt, T> := map[];
    var list: seq<T> := [];
    var n := 0;
    while n < |items|
      invariant 0 <= n <= |items|
      invariant list == items[..n]
      invariant DistinctKeys(items[..n], key)
      invariant dict.Keys == set i | 0 <= i < n :: key(items[i])
      invariant forall i :: 0 <= i < n ==> dict[key(items[i])] == items[i]
    {
      var k := key(items[n]);
      if k in dict {
        var i :| 0 <= i < n && key(items[i]) == k;
        assert !DistinctKeys(items, key) by {
          assert key(items[i]) == key(items[n]);
        }
        return Failure(k);
      }
      dict := dict[k := items[n]];
      list := list + [items[n]];
      n := n + 1;
      assert items[..n] == items[..n - 1] + [items[n - 1]];
    }
    assert items[..n] == items;
    return Success((dict, list));
  }

  /** The name sheet row asked for when a gathering row's name link does not resolve. */
  const MissingNameRow: UInt := 2000000

  /** The gathering data of one row: keyed by the raw name link, named by the
      linked EObjName row (or the fallback row when the link does not
      resolve; an absent row gives the empty name), classified by its icon. */
  function GatherData(row: GatherRow, eObjNames: map<UInt, string>, sanitize: string -> string): (d: IslandGatheringObjectData)
    ensures d.sheetRowId == row.rowId && d.npcId == row.nameLink && d.iconId == row.mapIcon
    ensures d.gatherType == GetIslandGatherType(row.mapIcon)
    ensures row.nameLink in eObjNames ==> d.name == sanitize(eObjNames[row.nameLink])
    ensures row.nameLink !in eObjNames && MissingNameRow in eObjNames ==> d.name == sanitize(eObjNames[MissingNameRow])
    ensures row.nameLink !in eObjNames && MissingNameRow !in eObjNames ==> d.name == sanitize("")
  {
    var nameRow := if row.nameLink in eObjNames then row.nameLink else MissingNameRow;
    var name := sanitize(Lookup(eObjNames, nameRow).GetOr(""));
    IslandGatheringObjectData(row.rowId, row.nameLink, row.mapIcon, GetIslandGatherType(row.mapIcon), name)
  }

  /** The animal data of one row: keyed by the raw BNpcBase link. */
  function AnimalData(row: AnimalRow): (d: IslandAnimalData)
    ensures d.sheetRowId == row.rowId && d.dataId == row.bnpcBaseLink && d.iconId == row.icon
  {
    IslandAnimalData(row.rowId, row.bnpcBaseLink, row.icon)
  }

  function GatherKey(d: IslandGatheringObjectData): UInt { d.npcId }

  function AnimalKey(d: IslandAnimalData): UInt { d.dataId }

  /** The gathering table from the MJIGatheringObject rows: keyed by name
      link, listed in sheet order; two rows with one name link fail. */
  method BuildIslandGatherDict(rows: seq<GatherRow>, eObjNames: map<UInt, string>, sanitize: string -> string)
    returns (r: Result<(map<UInt, IslandGatheringObjectData>, seq<IslandGatheringObjectData>), UInt>)
    ensures r.Success? <==> forall i, j :: 0 <= i < j < |rows| ==> rows[i].nameLink != rows[j].nameLink
    ensures r.Success? ==> |r.value.1| == |rows|
    ensures r.Success? ==> forall i :: 0 <= i < |rows| ==>
              r.value.1[i] == GatherData(rows[i], eObjNames, sanitize)
              && rows[i].nameLink in r.value.0 && r.value.0[rows[i].nameLink] == r.value.1[i]
    ensures r.Success? ==> forall k :: k in r.value.0 ==> exists i :: 0 <= i < |rows| && rows[i].nameLink == k
    ensures r.Failure? ==> exists i, j :: 0 <= i < j < |rows| && rows[i].nameLink == r.error == rows[j].nameLink
  {
    var items := seq(|rows|, i requires 0 <= i < |rows| => GatherData(rows[i], eObjNames, sanitize));
    r := BuildTable(items, GatherKey);
    assert forall i :: 0 <= i < |rows| ==> GatherKey(items[i]) == rows[i].nameLink;
    if r.Success? {
      forall k | k in r.value.0
        ensures exists i :: 0 <= i < |rows| && rows[i].nameLink == k
      {
        var i :| 0 <= i < |items| && GatherKey(items[i]) == k;
        assert rows[i].nameLink == k;
      }
    } else {
      assert !DistinctKeys(items, GatherKey);
    }
  }

  /** The animal table from the MJIAnimals rows: keyed by BNpcBase link,
      listed in sheet order; two rows with one link fail. */
  method BuildIslandAnimalDict(rows: seq<AnimalRow>)
    returns (r: Result<(map<UInt, IslandAnimalData>, seq<IslandAnimalData>), UInt>)
    ensures r.Success? <==> forall i, j :: 0 <= i < j < |rows| ==> rows[i].bnpcBaseLink != rows[j].bnpcBaseLink
    ensures r.Success? ==> |r.value.1| == |rows|
    ensures r.Success? ==> forall i :: 0 <= i < |rows| ==>
              r.value.1[i] == AnimalData(rows[i])
              && rows[i].bnpcBaseLink in r.value.0 && r.value.0[rows[i].bnpcBaseLink] == r.value.1[i]
    ensures r.Success? ==> forall k :: k in r.value.0 ==> exists i :: 0 <= i < |rows| && rows[i].bnpcBaseLink == k
    ensures r.Failure? ==> exists i, j :: 0 <= i < j < |rows| && rows[i].bnpcBaseLink == r.error == rows[j].bnpcBaseLink
  {
    var items := seq(|rows|, i requires 0 <= i < |rows| => AnimalData(rows[i]));
    r := BuildTable(items, AnimalKey);
    assert forall i :: 0 <= i < |rows| ==> AnimalKey(items[i]) == rows[i].bnpcBaseLink;
    if r.Success? {
      forall k | k in r.value.0
        ensures exists i :: 0 <= i < |rows| && rows[i].bnpcBaseLink == k
      {
        var i :| 0 <= i < |items| && AnimalKey(items[i]) == k;
        assert rows[i].bnpcBaseLink == k;
      }
    } else {
      assert !DistinctKeys(items, AnimalKey);
    }
  }

  /** With the gathering table built from the sheet, a gathering point is
      detected exactly when detection is on and the row it is named by is
      selected. */
  lemma GatherRowDetection(rows: seq<GatherRow>, k: nat, o: GameObject, cfg: IslandConfig, t: IslandTables,
                           eObjNames: map<UInt, string>, sanitize: string -> string)
    requires k < |rows|
    requires forall i :: 0 <= i < |rows| ==>
               rows[i].nameLink in t.gatherDict && t.gatherDict[rows[i].nameLink] == GatherData(rows[i], eObjNames, sanitize)
    requires o.kind == MjiObject && o.nameId == rows[k].nameLink
    ensures IsObjective(Some(o), cfg, t) <==> cfg.detectGathering && Selected(cfg.gatheringObjectsToShow, rows[k].rowId)
  {
  }
}
