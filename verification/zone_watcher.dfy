/** The zone tracker: which territory the player is in, which map is shown,
    a lazily refreshed copy of that map's row, and two zone classifications
    recomputed on every zone change.

    The C# class keeps this in static properties; here it is an immutable
    `ZoneState` that each operation takes and returns.  The game's data sheets
    are a `Sheets` value of optional lookups, and the alternate map id that
    the game may set on top of the territory's own map is a parameter. */
module ZoneWatcher {
  import opened Basics

  /** A TerritoryType row, reduced to the columns the tracker reads.  Links
      into other sheets are raw row ids; a link resolves only when the target
      row exists. */
  datatype TerritoryType = TerritoryType(
    mapLink: UInt,
    isPvpZone: bool,
    battalionMode: Byte,
    intendedUseLink: UInt,
    exclusiveType: Byte)

  /** A TerritoryTypeTransient row: the altitude baseline of the territory. */
  datatype TerritoryTypeTransient = TerritoryTypeTransient(offsetZ: Short)

  /** A Map row: its own id, its scale in percent and its coordinate offsets. */
  datatype MapRow = MapRow(rowId: UInt, sizeFactor: UShort, offsetX: Short, offsetY: Short)

  /** The sheets the tracker reads, each as an optional lookup by row id. */
  datatype Sheets = Sheets(
    territoryTypes: map<UInt, TerritoryType>,
    transients: map<UInt, TerritoryTypeTransient>,
    maps: map<UInt, MapRow>,
    intendedUses: set<UInt>)

  /** Every Map row is stored under its own row id. */
  predicate WellFormed(sheets: Sheets) {
    forall id :: id in sheets.maps ==> sheets.maps[id].rowId == id
  }

  datatype ZoneState = ZoneState(
    territory: Option<TerritoryType>,
    transient: Option<TerritoryTypeTransient>,
    cachedMap: Option<MapRow>,
    isInCompassWorkZone: bool,
    isInDetailWindowHideZone: bool)

  /** TerritoryIntendedUse row of the chocobo race courses. */
  const ChocoboRaceIntendedUse: UInt := 20

  /** The row id behind the territory's intended-use link, when that link resolves. */
  function IntendedUseId(sheets: Sheets, territory: Option<TerritoryType>): (r: Option<UInt>)
    ensures r.Some? <==> territory.Some? && territory.value.intendedUseLink in sheets.intendedUses
    ensures r.Some? ==> r.value == territory.value.intendedUseLink
  {
    if territory.Some? && territory.value.intendedUseLink in sheets.intendedUses
    then Some(territory.value.intendedUseLink)
    else None
  }

  /** The territory's own map id: the linked Map row's id, or 0 when there is
      no territory or the link does not resolve. */
  function TerritoryMapId(sheets: Sheets, territory: Option<TerritoryType>): (id: UInt)
    ensures id != 0 ==> territory.Some? && id == territory.value.mapLink && id in sheets.maps
    ensures territory.Some? && territory.value.mapLink in sheets.maps ==> id == territory.value.mapLink
  {
    if territory.Some? && territory.value.mapLink in sheets.maps then territory.value.mapLink else 0
  }

  /** The id of the map currently shown: a positive alternate map id wins over
      the territory's own map. */
  function CurrentMapId(sheets: Sheets, s: ZoneState, altMapId: UInt): (id: UInt)
    ensures altMapId > 0 ==> id == altMapId
    ensures altMapId == 0 ==> id == TerritoryMapId(sheets, s.territory)
  {
    if altMapId > 0 then altMapId else TerritoryMapId(sheets, s.territory)
  }

  /** A fresh lookup of the current map's row. */
  function GetMap(sheets: Sheets, s: ZoneState, altMapId: UInt): (r: Option<MapRow>)
    ensures r.Some? <==> CurrentMapId(sheets, s, altMapId) in sheets.maps
    ensures r.Some? ==> r.value == sheets.maps[CurrentMapId(sheets, s, altMapId)]
    ensures WellFormed(sheets) && r.Some? ==> r.value.rowId == CurrentMapId(sheets, s, altMapId)
  {
    Lookup(sheets.maps, CurrentMapId(sheets, s, altMapId))
  }

  /** The cache holds a row and that row has the current map id. */
  predicate CacheHit(sheets: Sheets, s: ZoneState, altMapId: UInt) {
    s.cachedMap.Some? && s.cachedMap.value.rowId == CurrentMapId(sheets, s, altMapId)
  }

  /** Reads the current map through the cache: the cached row is kept when it
      is present and has the current map id; otherwise the cache is refilled
      by a fresh lookup (which may find nothing). */
  function CurrentMap(sheets: Sheets, s: ZoneState, altMapId: UInt): (r: (Option<MapRow>, ZoneState))
    ensures r.1 == s.(cachedMap := r.0)
    ensures CacheHit(sheets, s, altMapId) ==> r.0 == s.cachedMap
    ensures !CacheHit(sheets, s, altMapId) ==> r.0 == Lookup(sheets.maps, CurrentMapId(sheets, s, altMapId))
    ensures WellFormed(sheets) && r.0.Some? ==> r.0.value.rowId == CurrentMapId(sheets, s, altMapId)
  {
    if s.cachedMap.None? || CurrentMapId(sheets, s, altMapId) != s.cachedMap.value.rowId then
      var m := GetMap(sheets, s, altMapId);
      (m, s.(cachedMap := m))
    else
      (s.cachedMap, s)
  }

  /** Normal gameplay zone: a known territory that is not PvP, whose battalion
      mode is at most 1 and whose intended use is not the chocobo race. */
  function IsCompassWorkZone(sheets: Sheets, territory: Option<TerritoryType>): (r: bool)
    ensures r <==> && territory.Some?
                   && !territory.value.isPvpZone
                   && territory.value.battalionMode <= 1
                   && !(territory.value.intendedUseLink in sheets.intendedUses
                        && territory.value.intendedUseLink == ChocoboRaceIntendedUse)
  {
    && territory.Some?
    && !territory.value.isPvpZone
    && territory.value.battalionMode <= 1
    && IntendedUseId(sheets, territory) != Some(ChocoboRaceIntendedUse)
  }

  /** Zones where the detail window is hidden: unknown, or instanced content. */
  function IsDetailWindowHideZone(territory: Option<TerritoryType>): (r: bool)
    ensures !r <==> territory.Some? && territory.value.exclusiveType == 0
  {
    territory.None? || territory.value.exclusiveType > 0
  }

  /** The cached map row, when there is one, is the row the sheet holds under its id. */
  predicate CacheCoherent(sheets: Sheets, s: ZoneState) {
    s.cachedMap.Some? ==>
      s.cachedMap.value.rowId in sheets.maps && sheets.maps[s.cachedMap.value.rowId] == s.cachedMap.value
  }

  /** Both zone flags agree with the current territory. */
  predicate FlagsCurrent(sheets: Sheets, s: ZoneState) {
    && s.isInCompassWorkZone == IsCompassWorkZone(sheets, s.territory)
    && s.isInDetailWindowHideZone == IsDetailWindowHideZone(s.territory)
  }

  predicate Valid(sheets: Sheets, s: ZoneState) {
    CacheCoherent(sheets, s) && FlagsCurrent(sheets, s)
  }

  /** The zone-change hook: looks up the new territory (none for id 0),
      refills the map cache for it and recomputes both zone flags.  The
      previous state `s` is overwritten in every field. */
  function OnZoneChange(sheets: Sheets, s: ZoneState, territoryId: UInt, altMapId: UInt): (s': ZoneState)
    ensures territoryId == 0 ==> s'.territory.None? && s'.transient.None?
    ensures territoryId != 0 ==> s'.territory == Lookup(sheets.territoryTypes, territoryId)
    ensures territoryId != 0 ==> s'.transient == Lookup(sheets.transients, territoryId)
    ensures s'.cachedMap == GetMap(sheets, s', altMapId)
    ensures s'.isInCompassWorkZone <==>
              && s'.territory.Some?
              && !s'.territory.value.isPvpZone
              && s'.territory.value.battalionMode <= 1
              && !(s'.territory.value.intendedUseLink in sheets.intendedUses
                   && s'.territory.value.intendedUseLink == ChocoboRaceIntendedUse)
    ensures s'.isInDetailWindowHideZone <==> s'.territory.None? || s'.territory.value.exclusiveType > 0
    ensures WellFormed(sheets) ==> Valid(sheets, s')
  {
    var territory := if territoryId == 0 then None else Lookup(sheets.territoryTypes, territoryId);
    var transient := if territoryId == 0 then None else Lookup(sheets.transients, territoryId);
    var t := ZoneState(territory, transient, None, false, false);
    var cached := GetMap(sheets, t, altMapId);
    ZoneState(territory, transient, cached,
              IsCompassWorkZone(sheets, territory), IsDetailWindowHideZone(territory))
  }

  /** Nothing of the zone that was left survives a zone change. */
  lemma OnZoneChangeForgetsPreviousZone(sheets: Sheets, s1: ZoneState, s2: ZoneState, territoryId: UInt, altMapId: UInt)
    ensures OnZoneChange(sheets, s1, territoryId, altMapId) == OnZoneChange(sheets, s2, territoryId, altMapId)
  {
  }

  /** The tracker before its first zone change: nothing known, nothing
      cached, both flags at their default `false`. */
  const InitialState: ZoneState := ZoneState(None, None, None, false, false)

  /** The start state is the one exception to the flag rules: its territory
      is unknown, yet the detail window is not hidden there. */
  lemma InitialStateFlagsNotCurrent(sheets: Sheets)
    ensures InitialState.territory.None? && !InitialState.isInDetailWindowHideZone
    ensures !FlagsCurrent(sheets, InitialState)
  {
  }

  /** Every zone change leaves the flags in agreement with the new territory,
      whatever state it starts from (the start state included). */
  lemma ZoneChangeMakesFlagsCurrent(sheets: Sheets, s: ZoneState, territoryId: UInt, altMapId: UInt)
    ensures FlagsCurrent(sheets, OnZoneChange(sheets, s, territoryId, altMapId))
  {
  }

  /** An unknown territory is never a work zone and always a hide zone, once
      the flags are current (after any zone change). */
  lemma UnknownZoneFailsClosed(sheets: Sheets, s: ZoneState)
    requires FlagsCurrent(sheets, s)
    requires s.territory.None?
    ensures !s.isInCompassWorkZone && s.isInDetailWindowHideZone
  {
  }

  /** Without an alternate map id, the current map id is 0 or names a map row that exists. */
  lemma CurrentMapIdResolves(sheets: Sheets, s: ZoneState)
    ensures CurrentMapId(sheets, s, 0) == 0 || CurrentMapId(sheets, s, 0) in sheets.maps
    ensures s.territory.None? ==> CurrentMapId(sheets, s, 0) == 0
  {
  }

  /** The lazy cache is invisible: on a coherent state, reading through the
      cache gives exactly what a fresh lookup would, and keeps the state valid. */
  lemma CurrentMapIsFreshLookup(sheets: Sheets, s: ZoneState, altMapId: UInt)
    requires WellFormed(sheets)
    requires Valid(sheets, s)
    ensures CurrentMap(sheets, s, altMapId).0 == GetMap(sheets, s, altMapId)
    ensures Valid(sheets, CurrentMap(sheets, s, altMapId).1)
  {
    var id := CurrentMapId(sheets, s, altMapId);
    if s.cachedMap.Some? && s.cachedMap.value.rowId == id {
      assert sheets.maps[id] == s.cachedMap.value;
    }
  }

  /** A second read straight after a first returns the same row and changes nothing. */
  lemma CurrentMapIdempotent(sheets: Sheets, s: ZoneState, altMapId: UInt)
    requires WellFormed(sheets)
    ensures var (m1, s1) := CurrentMap(sheets, s, altMapId);
            CurrentMap(sheets, s1, altMapId) == (m1, s1)
  {
  }
}
