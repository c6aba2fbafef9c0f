/** Geometry helpers of the compass: conversion between world positions and
    the game's map coordinates, the compass-direction flags, the altitude
    description and the current zone's altitude axis.

    Single-precision floats are modelled as `real`.  The map conversions can
    divide by a zero map scale, which in the source yields an infinity, and
    the current-map conversions return an all-NaN vector when no map is
    known; `Float` keeps those non-finite outcomes apart from real numbers
    without telling NaN and the infinities apart. */
module CompassUtil {
  import opened Basics
  import ZoneWatcher

  datatype Float = Finite(value: real) | NonFinite

  /** A position in the world: X and Z span the ground plane, Y is altitude. */
  datatype WorldPos = WorldPos(x: real, y: real, z: real)

  /** A three-component float vector; map coordinates have X and Y on the
      ground plane and Z for altitude. */
  datatype Vec = Vec(x: Float, y: Float, z: Float)

  const NaNVec := Vec(NonFinite, NonFinite, NonFinite)

  // ---------------------------------------------------------------------
  // Map coordinates

  /** Truncation toward zero (MathF.Truncate on finite values), as a whole number. */
  function TruncateToInt(v: real): (n: int)
    ensures 0.0 <= v ==> 0 <= n && n as real <= v < n as real + 1.0
    ensures v < 0.0 ==> n <= 0 && n as real - 1.0 < v <= n as real
  {
    if v >= 0.0 then v.Floor else -((-v).Floor)
  }

  /** Truncation toward zero: the whole number next to `v` on the side of zero. */
  function Truncate(v: real): (r: real)
    ensures r == r.Floor as real
    ensures 0.0 <= v ==> 0.0 <= r <= v && v - r < 1.0
    ensures v < 0.0 ==> v <= r <= 0.0 && r - v < 1.0
  {
    TruncateToInt(v) as real
  }

  /** One horizontal world axis to the map axis.  The map scale is a percentage.
      In closed form: 41/2048 map units per world unit, shifted by a term
      that shrinks as the scale grows, plus the map's origin 1. */
  function WorldPositionToMapCoord(v: real, scale: UShort, offset: Short): (r: Float)
    ensures r.Finite? <==> scale > 0
    ensures scale > 0 ==> r.value == (Truncate(v) + offset as real) * 41.0 / 2048.0
                                     + 41.0 * 1023.0 / 2048.0 / (scale as real / 100.0) + 1.0
  {
    if scale == 0 then NonFinite
    else
      var k := scale as real / 100.0;
      Finite(41.0 * ((Truncate(v) + offset as real) * k + 1024.0 - 1.0) / 2048.0 / k + 1.0)
  }

  /** World altitude to the map's Z axis: one map unit per 100 world units above the baseline. */
  function WorldPositionToMapCoordZ(worldY: real, offset: Short): (r: Float)
    ensures r.Finite?
    ensures r.value * 100.0 + offset as real == worldY
  {
    Finite((worldY - offset as real) / 100.0)
  }

  /** One map axis back to the horizontal world axis: 2048/41 world units per
      map unit, counted from the map's origin 1, less the scale-dependent
      shift and the map's offset. */
  function MapCoordToWorldPosition(v: Float, scale: UShort, offset: Short): (r: Float)
    ensures r.Finite? <==> v.Finite? && scale > 0
    ensures r.Finite? ==> r.value == (v.value - 1.0) * 2048.0 / 41.0
                                     - 1023.0 / (scale as real / 100.0) - offset as real
  {
    if v.NonFinite? || scale == 0 then NonFinite
    else
      var k := scale as real / 100.0;
      Finite(((v.value - 1.0) * k * 2048.0 / 41.0 + 1.0 - 1024.0) / k - offset as real)
  }

  /** The map's Z axis back to world altitude. */
  function MapCoordToWorldPositionY(coordZ: Float, offset: Short): (r: Float)
    ensures r.Finite? <==> coordZ.Finite?
    ensures r.Finite? ==> (r.value - offset as real) / 100.0 == coordZ.value
  {
    if coordZ.NonFinite? then NonFinite else Finite(coordZ.value * 100.0 + offset as real)
  }

  /** World position to map coordinate: world X to map X, world Z to map Y,
      world Y (altitude) to map Z, each component then passed through the
      one-decimal truncation `truncate1`, whose definition lies outside this model. */
  function GetMapCoord(worldPos: WorldPos, scale: UShort, offsetX: Short, offsetY: Short, offsetZ: Short,
                       truncate1: Float -> Float): (r: Vec)
    ensures r.x == truncate1(WorldPositionToMapCoord(worldPos.x, scale, offsetX))
    ensures r.y == truncate1(WorldPositionToMapCoord(worldPos.z, scale, offsetY))
    ensures r.z == truncate1(WorldPositionToMapCoordZ(worldPos.y, offsetZ))
  {
    Vec(truncate1(WorldPositionToMapCoord(worldPos.x, scale, offsetX)),
        truncate1(WorldPositionToMapCoord(worldPos.z, scale, offsetY)),
        truncate1(WorldPositionToMapCoordZ(worldPos.y, offsetZ)))
  }

  /** Map coordinate to world position, undoing the axis swap of `GetMapCoord`. */
  function GetWorldPosition(mapCoord: Vec, scale: UShort, offsetX: Short, offsetY: Short, offsetZ: Short): (r: Vec)
    ensures r.x == MapCoordToWorldPosition(mapCoord.x, scale, offsetX)
    ensures r.y == MapCoordToWorldPositionY(mapCoord.z, offsetZ)
    ensures r.z == MapCoordToWorldPosition(mapCoord.y, scale, offsetY)
  {
    Vec(MapCoordToWorldPosition(mapCoord.x, scale, offsetX),
        MapCoordToWorldPositionY(mapCoord.z, offsetZ),
        MapCoordToWorldPosition(mapCoord.y, scale, offsetY))
  }

  function Identity(v: Float): Float { v }

  /** The altitude scale: the Z offset sits at map height 0, and 100 world
      units make one map unit, in both directions. */
  lemma AltitudeSlopeAndAnchor(worldY: real, coordZ: real, offset: Short)
    ensures WorldPositionToMapCoordZ(offset as real, offset) == Finite(0.0)
    ensures WorldPositionToMapCoordZ(worldY + 100.0, offset).value == WorldPositionToMapCoordZ(worldY, offset).value + 1.0
    ensures MapCoordToWorldPositionY(Finite(0.0), offset) == Finite(offset as real)
    ensures MapCoordToWorldPositionY(Finite(coordZ + 1.0), offset).value
            == MapCoordToWorldPositionY(Finite(coordZ), offset).value + 100.0
  {
  }

  /** The horizontal axis round trip gives back the world value truncated
      toward zero; a zero scale gives a non-finite value. */
  lemma MapAxisRoundTrip(v: real, scale: UShort, offset: Short)
    ensures MapCoordToWorldPosition(WorldPositionToMapCoord(v, scale, offset), scale, offset)
            == (if scale == 0 then NonFinite else Finite(Truncate(v)))
  {
    if scale > 0 {
      var k := scale as real / 100.0;
      var t := Truncate(v) + offset as real;
      var u := t * k + 1024.0 - 1.0;
      var m := 41.0 * u / 2048.0 / k + 1.0;
      assert WorldPositionToMapCoord(v, scale, offset) == Finite(m);
      assert (m - 1.0) * k == 41.0 * u / 2048.0;
      assert (m - 1.0) * k * 2048.0 / 41.0 == u;
      assert (u + 1.0 - 1024.0) / k == t;
    }
  }

  /** The altitude axis round trip is exact. */
  lemma AltitudeAxisRoundTrip(y: real, offset: Short)
    ensures MapCoordToWorldPositionY(WorldPositionToMapCoordZ(y, offset), offset) == Finite(y)
  {
  }

  /** Map to world is affine with slope 2048/41 whatever the scale: the map
      scale moves the origin, not the step. */
  lemma MapToWorldSlope(a: real, b: real, scale: UShort, offset: Short)
    requires scale > 0
    ensures MapCoordToWorldPosition(Finite(a), scale, offset).value
            - MapCoordToWorldPosition(Finite(b), scale, offset).value == (a - b) * 2048.0 / 41.0
  {
    var k := scale as real / 100.0;
    var wa := ((a - 1.0) * k * 2048.0 / 41.0 + 1.0 - 1024.0) / k;
    var wb := ((b - 1.0) * k * 2048.0 / 41.0 + 1.0 - 1024.0) / k;
    assert wa == (a - 1.0) * 2048.0 / 41.0 - 1023.0 / k;
    assert wb == (b - 1.0) * 2048.0 / 41.0 - 1023.0 / k;
  }

  /** Going from a map value to the world and back gives the map value again
      exactly when the world value is a whole number (the forward conversion
      truncates it). */
  lemma MapAxisInverseRoundTrip(m: real, scale: UShort, offset: Short)
    requires scale > 0
    ensures var w := MapCoordToWorldPosition(Finite(m), scale, offset).value;
            WorldPositionToMapCoord(w, scale, offset) == Finite(m) <==> Truncate(w) == w
  {
    var w := MapCoordToWorldPosition(Finite(m), scale, offset).value;
    var back := WorldPositionToMapCoord(w, scale, offset);
    MapAxisRoundTrip(w, scale, offset);
    if back == Finite(m) {
      assert MapCoordToWorldPosition(back, scale, offset) == Finite(w);
    }
    if Truncate(w) == w {
      MapToWorldSlope(back.value, m, scale, offset);
    }
  }

  /** Whole-vector round trip: with the one-decimal truncation left out,
      converting to map coordinates and back restores world X and Z truncated
      toward zero and world Y exactly, so each axis lands where it came from. */
  lemma WorldPositionRoundTrip(p: WorldPos, scale: UShort, offsetX: Short, offsetY: Short, offsetZ: Short)
    ensures GetWorldPosition(GetMapCoord(p, scale, offsetX, offsetY, offsetZ, Identity), scale, offsetX, offsetY, offsetZ)
            == if scale == 0 then Vec(NonFinite, Finite(p.y), NonFinite)
               else Vec(Finite(Truncate(p.x)), Finite(p.y), Finite(Truncate(p.z)))
  {
    MapAxisRoundTrip(p.x, scale, offsetX);
    MapAxisRoundTrip(p.z, scale, offsetY);
    AltitudeAxisRoundTrip(p.y, offsetZ);
  }

  /** How far the round trip can land from the start on a horizontal axis
      when the map value is disturbed by `e`, with |e| at most `d` (as the
      one-decimal truncation does, with d = 0.1): under one world unit from
      truncating the world value, plus 2048/41 world units per map unit. */
  lemma MapAxisRoundTripError(v: real, e: real, d: real, scale: UShort, offset: Short)
    requires scale > 0
    requires Abs(e) <= d
    ensures var m' := WorldPositionToMapCoord(v, scale, offset).value + e;
            Abs(MapCoordToWorldPosition(Finite(m'), scale, offset).value - v) < 1.0 + d * 2048.0 / 41.0
  {
    var m := WorldPositionToMapCoord(v, scale, offset).value;
    var m' := m + e;
    MapAxisRoundTrip(v, scale, offset);
    MapToWorldSlope(m', m, scale, offset);
    assert Abs(MapCoordToWorldPosition(Finite(m'), scale, offset).value - Truncate(v))
           == Abs(e) * 2048.0 / 41.0;
  }

  // ---------------------------------------------------------------------
  // The current zone

  /** Altitude baseline of the current territory, 0 when its transient row is missing. */
  function GetCurrentTerritoryZOffset(s: ZoneWatcher.ZoneState): (r: Short)
    ensures s.transient.None? ==> r == 0
    ensures s.transient.Some? ==> r == s.transient.value.offsetZ
  {
    if s.transient.Some? then s.transient.value.offsetZ else 0
  }

  /** The Z offset maps without an altitude axis carry. */
  const NoZCoordOffset: int := -10000

  /** The current zone has an altitude axis unless its Z offset is the
      sentinel (or below); an unknown zone counts as having one. */
  function CurrentHasZCoord(s: ZoneWatcher.ZoneState): (r: bool)
    ensures r <==> s.transient.None? || s.transient.value.offsetZ > NoZCoordOffset
  {
    GetCurrentTerritoryZOffset(s) > NoZCoordOffset
  }

  /** After a zone change the altitude axis is decided by the new territory's
      transient row alone: it is missing (so the axis counts as present) or
      its offset is above the sentinel. */
  lemma ZCoordAfterZoneChange(sheets: ZoneWatcher.Sheets, s: ZoneWatcher.ZoneState, territoryId: UInt, altMapId: UInt)
    ensures CurrentHasZCoord(ZoneWatcher.OnZoneChange(sheets, s, territoryId, altMapId)) <==>
              || territoryId == 0
              || territoryId !in sheets.transients
              || sheets.transients[territoryId].offsetZ > NoZCoordOffset
  {
  }

  /** Map coordinate of a world position in the current map, read through the
      zone tracker's map cache; all NaN when no map is known. */
  function GetMapCoordInCurrentMap(sheets: ZoneWatcher.Sheets, s: ZoneWatcher.ZoneState, altMapId: UInt,
                                   worldPos: WorldPos, truncate1: Float -> Float): (r: (Vec, ZoneWatcher.ZoneState))
    ensures var (m, s') := ZoneWatcher.CurrentMap(sheets, s, altMapId);
            && r.1 == s'
            && (m.None? ==> r.0 == NaNVec)
            && (m.Some? ==> r.0 == GetMapCoord(worldPos, m.value.sizeFactor, m.value.offsetX, m.value.offsetY,
                                                GetCurrentTerritoryZOffset(s), truncate1))
  {
    var (m, s') := ZoneWatcher.CurrentMap(sheets, s, altMapId);
    if m.None? then (NaNVec, s')
    else (GetMapCoord(worldPos, m.value.sizeFactor, m.value.offsetX, m.value.offsetY,
                      GetCurrentTerritoryZOffset(s'), truncate1), s')
  }

  /** World position of a map coordinate in the current map; all NaN when no map is known. */
  function GetWorldPositionFromMapCoordInCurrentMap(sheets: ZoneWatcher.Sheets, s: ZoneWatcher.ZoneState,
                                                    altMapId: UInt, mapCoord: Vec): (r: (Vec, ZoneWatcher.ZoneState))
    ensures var (m, s') := ZoneWatcher.CurrentMap(sheets, s, altMapId);
            && r.1 == s'
            && (m.None? ==> r.0 == NaNVec)
            && (m.Some? ==> r.0 == GetWorldPosition(mapCoord, m.value.sizeFactor, m.value.offsetX, m.value.offsetY,
                                                     GetCurrentTerritoryZOffset(s)))
  {
    var (m, s') := ZoneWatcher.CurrentMap(sheets, s, altMapId);
    if m.None? then (NaNVec, s')
    else (GetWorldPosition(mapCoord, m.value.sizeFactor, m.value.offsetX, m.value.offsetY,
                           GetCurrentTerritoryZOffset(s')), s')
  }

  /** In the current map, world to map and back again (truncation left out)
      restores the position up to truncation of X and Z, and the second
      conversion finds the map already cached. */
  lemma CurrentMapRoundTrip(sheets: ZoneWatcher.Sheets, s: ZoneWatcher.ZoneState, altMapId: UInt, p: WorldPos)
    requires ZoneWatcher.WellFormed(sheets)
    requires ZoneWatcher.Valid(sheets, s)
    requires ZoneWatcher.GetMap(sheets, s, altMapId).Some?
    requires ZoneWatcher.GetMap(sheets, s, altMapId).value.sizeFactor > 0
    ensures var (coord, s1) := GetMapCoordInCurrentMap(sheets, s, altMapId, p, Identity);
            var (back, s2) := GetWorldPositionFromMapCoordInCurrentMap(sheets, s1, altMapId, coord);
            && s2 == s1
            && back == Vec(Finite(Truncate(p.x)), Finite(p.y), Finite(Truncate(p.z)))
  {
    var (m1, s1) := ZoneWatcher.CurrentMap(sheets, s, altMapId);
    var id := ZoneWatcher.CurrentMapId(sheets, s, altMapId);
    ZoneWatcher.CurrentMapIsFreshLookup(sheets, s, altMapId);
    assert m1.Some? && m1.value.rowId == id;
    var (m2, s2) := ZoneWatcher.CurrentMap(sheets, s1, altMapId);
    assert ZoneWatcher.CacheHit(sheets, s1, altMapId);
    assert m2 == m1 && s2 == s1;
    var row := m1.value;
    var oz := GetCurrentTerritoryZOffset(s);
    assert GetCurrentTerritoryZOffset(s1) == oz;
    var coord := GetMapCoord(p, row.sizeFactor, row.offsetX, row.offsetY, oz, Identity);
    assert GetMapCoordInCurrentMap(sheets, s, altMapId, p, Identity) == (coord, s1);
    assert GetWorldPositionFromMapCoordInCurrentMap(sheets, s1, altMapId, coord)
           == (GetWorldPosition(coord, row.sizeFactor, row.offsetX, row.offsetY, oz), s1);
    WorldPositionRoundTrip(p, row.sizeFactor, row.offsetX, row.offsetY, oz);
  }

  // ---------------------------------------------------------------------
  // Compass direction

  /** The four direction flags; two may be set at once for an intercardinal
      direction.  No flag at all is the NaN direction. */
  datatype CompassDirection = CompassDirection(north: bool, south: bool, east: bool, west: bool) {
    predicate IsNaN() { !north && !south && !east && !west }
  }

  const NaNDirection := CompassDirection(false, false, false, false)

  /** The source's span is sin(3*pi/8); the model only needs it strictly
      between 0 and 1 and wider than the diagonal, 2*span^2 > 1. */
  predicate ValidSpan(span: real) {
    0.0 < span < 1.0 && 2.0 * (span * span) > 1.0
  }

  /** A normalised ground-plane heading (x toward east, y toward south), or
      NaN, which is what normalising the zero vector gives. */
  datatype Heading = Heading(x: real, y: real) | NaNHeading {
    predicate IsUnit() { Heading? && x * x + y * y == 1.0 }
  }

  /** The flags for a heading: North or South when |x| < span (South when
      y > 0), East or West when |y| < span (East when x > 0).  Every
      comparison with NaN is false, so a NaN heading raises no flag. */
  function ClassifyHeading(h: Heading, span: real): (d: CompassDirection)
    ensures !(d.north && d.south) && !(d.east && d.west)
    ensures h.NaNHeading? ==> d.IsNaN()
    ensures h.Heading? ==> ((d.north || d.south) <==> Abs(h.x) < span)
    ensures h.Heading? ==> ((d.east || d.west) <==> Abs(h.y) < span)
    ensures h.Heading? ==> (d.south <==> Abs(h.x) < span && h.y > 0.0)
    ensures h.Heading? ==> (d.north <==> Abs(h.x) < span && !(h.y > 0.0))
    ensures h.Heading? ==> (d.east <==> Abs(h.y) < span && h.x > 0.0)
    ensures h.Heading? ==> (d.west <==> Abs(h.y) < span && !(h.x > 0.0))
  {
    match h
    case NaNHeading => NaNDirection
    case Heading(x, y) =>
      var ns := Abs(x) < span;
      var ew := Abs(y) < span;
      CompassDirection(ns && !(y > 0.0), ns && y > 0.0, ew && x > 0.0, ew && !(x > 0.0))
  }

  /** Direction of a world position as seen from the player: the ground-plane
      offset is normalised by `normalize` (vector normalisation of the float
      library, outside this model) and classified.  NaN without a player. */
  function GetDirectionFromPlayer(target: WorldPos, player: Option<WorldPos>, span: real,
                                  normalize: (real, real) -> Heading): (d: CompassDirection)
    ensures player.None? ==> d == NaNDirection
    ensures !(d.north && d.south) && !(d.east && d.west)
    ensures player.Some? ==> d == ClassifyHeading(normalize(target.x - player.value.x, target.z - player.value.z), span)
  {
    if player.None? then NaNDirection
    else ClassifyHeading(normalize(target.x - player.value.x, target.z - player.value.z), span)
  }

  /** The game-object overload: no object gives the NaN direction, otherwise
      the direction of the object's position. */
  function GetDirectionFromObject(o: Option<WorldPos>, player: Option<WorldPos>, span: real,
                                  normalize: (real, real) -> Heading): (d: CompassDirection)
    ensures o.None? ==> d == NaNDirection
    ensures o.Some? ==> d == GetDirectionFromPlayer(o.value, player, span, normalize)
  {
    if o.None? then NaNDirection else GetDirectionFromPlayer(o.value, player, span, normalize)
  }

  lemma MulMonoLe(a: real, b: real, c: real)
    requires 0.0 <= c && a <= b
    ensures a * c <= b * c
  {
  }

  lemma MulMonoLt(a: real, b: real, c: real)
    requires 0.0 < c && a < b
    ensures a * c < b * c
  {
  }

  /** Squaring preserves the order of absolute values. */
  lemma AbsLessIffSquareLess(a: real, b: real)
    requires 0.0 < b
    ensures Abs(a) < b <==> a * a < b * b
  {
    var x := Abs(a);
    assert x * x == a * a;
    if x < b {
      calc {
        x * x;
        <= { MulMonoLe(x, b, x); }
        b * x;
        < { MulMonoLt(x, b, b); }
        b * b;
      }
    } else {
      calc {
        b * b;
        <= { MulMonoLe(b, x, b); }
        x * b;
        <= { MulMonoLe(b, x, x); }
        x * x;
      }
    }
  }

  /** A unit vector cannot have both components at or beyond a valid span:
      that would make its squared length at least 2*span^2 > 1. */
  lemma UnitVectorNearAnAxis(x: real, y: real, span: real)
    requires x * x + y * y == 1.0
    requires ValidSpan(span)
    ensures Abs(x) < span || Abs(y) < span
  {
    AbsLessIffSquareLess(x, span);
    AbsLessIffSquareLess(y, span);
    if x * x >= span * span && y * y >= span * span {
      assert false;
    }
  }

  /** With a valid span, a unit heading raises at least one flag. */
  lemma UnitHeadingHasAFlag(h: Heading, span: real)
    requires h.IsUnit()
    requires ValidSpan(span)
    ensures !ClassifyHeading(h, span).IsNaN()
  {
    UnitVectorNearAnAxis(h.x, h.y, span);
  }

  /** Two flags (an intercardinal direction) are raised exactly when neither
      component of the heading reaches the span; for a unit heading both
      components then lie strictly inside the span on either side. */
  lemma TwoFlagsOnlyNearDiagonal(h: Heading, span: real)
    requires h.IsUnit()
    requires ValidSpan(span)
    ensures var d := ClassifyHeading(h, span);
            (d.north || d.south) && (d.east || d.west) <==> Abs(h.x) < span && Abs(h.y) < span
    ensures var d := ClassifyHeading(h, span);
            (d.north || d.south) && (d.east || d.west) ==> 1.0 - span * span < h.x * h.x < span * span
  {
    var d := ClassifyHeading(h, span);
    if (d.north || d.south) && (d.east || d.west) {
      AbsLessIffSquareLess(h.x, span);
      AbsLessIffSquareLess(h.y, span);
    }
  }

  /** With a player and a valid span, a target whose offset normalises to a
      unit heading gets at least one flag. */
  lemma DirectionHasAFlag(target: WorldPos, player: WorldPos, span: real, normalize: (real, real) -> Heading)
    requires ValidSpan(span)
    requires normalize(target.x - player.x, target.z - player.z).IsUnit()
    ensures !GetDirectionFromPlayer(target, Some(player), span, normalize).IsNaN()
  {
    UnitHeadingHasAFlag(normalize(target.x - player.x, target.z - player.z), span);
  }

  /** Due north (heading (0, -1)) is exactly North. */
  lemma DueNorthIsNorth(span: real)
    requires ValidSpan(span)
    ensures ClassifyHeading(Heading(0.0, -1.0), span) == CompassDirection(true, false, false, false)
  {
  }

  /** The north-east diagonal (x = -y > 0, so x^2 = 1/2) raises North and East. */
  lemma NorthEastRaisesTwoFlags(x: real, span: real)
    requires ValidSpan(span)
    requires x > 0.0 && 2.0 * (x * x) == 1.0
    ensures ClassifyHeading(Heading(x, -x), span) == CompassDirection(true, false, true, false)
  {
    AbsLessIffSquareLess(x, span);
    AbsLessIffSquareLess(-x, span);
  }

  /** Zero offset: normalising the zero vector gives NaN, so no flag is raised
      even though the player is known. */
  lemma ZeroOffsetHasNoFlag(p: WorldPos, span: real, normalize: (real, real) -> Heading)
    requires normalize(0.0, 0.0) == NaNHeading
    ensures GetDirectionFromPlayer(p, Some(p), span, normalize).IsNaN()
  {
    assert p.x - p.x == 0.0 && p.z - p.z == 0.0;
  }

  // ---------------------------------------------------------------------
  // Descriptive text

  /** The number formatting and the unit string are outside this model:
      `number(value, integer)` renders a value rounded to a whole number or
      to one decimal place, and `unit` is the distance unit's name. */
  datatype DistanceFormat = DistanceFormat(number: (real, bool) -> string, unit: string)

  function DistanceToDescriptiveString(dist: real, integer: bool, fmt: DistanceFormat): (r: string)
    ensures EndsWith(r, fmt.unit)
    ensures r[..|r| - |fmt.unit|] == fmt.number(dist, integer)
  {
    fmt.number(dist, integer) + fmt.unit
  }

  const SameAltitude := "At same altitude"
  const HigherSuffix := " higher than you"
  const LowerSuffix := " lower than you"

  /** An altitude difference in words: the same-altitude sentence for a
      difference under one unit, otherwise the whole-number magnitude followed
      by "higher than you" or "lower than you". */
  function AltitudeDiffToDescriptiveString(diff: real, fmt: DistanceFormat): (r: string)
    ensures Abs(diff) < 1.0 ==> r == SameAltitude
    ensures diff >= 1.0 ==> r == DistanceToDescriptiveString(diff, true, fmt) + HigherSuffix
    ensures diff <= -1.0 ==> r == DistanceToDescriptiveString(-diff, true, fmt) + LowerSuffix
  {
    var diffAbs := Abs(diff);
    if diffAbs < 1.0 then SameAltitude
    else
      var s := DistanceToDescriptiveString(diffAbs, true, fmt);
      if diff > 0.0 then s + HigherSuffix else s + LowerSuffix
  }

  /** The three outcomes of the altitude description never collide: the
      same-altitude sentence appears exactly for differences under one unit,
      and the suffix tells above from below. */
  lemma AltitudeDescriptionCases(diff: real, fmt: DistanceFormat)
    ensures AltitudeDiffToDescriptiveString(diff, fmt) == SameAltitude <==> Abs(diff) < 1.0
    ensures EndsWith(AltitudeDiffToDescriptiveString(diff, fmt), HigherSuffix) <==> diff >= 1.0
    ensures EndsWith(AltitudeDiffToDescriptiveString(diff, fmt), LowerSuffix) <==> diff <= -1.0
  {
    var r := AltitudeDiffToDescriptiveString(diff, fmt);
    var s := DistanceToDescriptiveString(Abs(diff), true, fmt);
    assert !EndsWith(SameAltitude, HigherSuffix) by {
      assert SameAltitude[|SameAltitude| - |HigherSuffix|..] != HigherSuffix;
    }
    assert !EndsWith(SameAltitude, LowerSuffix) by {
      assert SameAltitude[|SameAltitude| - |LowerSuffix|..][0] != LowerSuffix[0];
    }
    if diff >= 1.0 {
      assert r == s + HigherSuffix;
      assert r[|r| - |HigherSuffix|..] == HigherSuffix;
      assert r[|r| - |LowerSuffix|..] != LowerSuffix by {
        assert r[|r| - 12] == HigherSuffix[|HigherSuffix| - 12] == 'h';
        assert LowerSuffix[|LowerSuffix| - 12] == 'w';
      }
      assert r != SameAltitude by { assert EndsWith(r, HigherSuffix); }
    } else if diff <= -1.0 {
      assert r == s + LowerSuffix;
      assert r[|r| - |LowerSuffix|..] == LowerSuffix;
      if |r| >= |HigherSuffix| {
        assert r[|r| - |HigherSuffix|..] != HigherSuffix by {
          assert r[|r| - 12] == LowerSuffix[|LowerSuffix| - 12] == 'w';
          assert HigherSuffix[|HigherSuffix| - 12] == 'h';
        }
      }
      assert r != SameAltitude by { assert EndsWith(r, LowerSuffix); }
    }
  }

  /** Flipping the sign of a difference of at least one unit keeps the
      magnitude text and swaps "higher" for "lower". */
  lemma AltitudeDescriptionSignSymmetry(diff: real, fmt: DistanceFormat)
    requires diff >= 1.0
    ensures var m := DistanceToDescriptiveString(diff, true, fmt);
            && AltitudeDiffToDescriptiveString(diff, fmt) == m + HigherSuffix
            && AltitudeDiffToDescriptiveString(-diff, fmt) == m + LowerSuffix
  {
  }
}
