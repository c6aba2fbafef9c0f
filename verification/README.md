# AetherCompass core, modelled in Dafny

AetherCompass is a game plugin that points the player at nearby objects: it
detects objects of interest around the player and shows each with its map
coordinate, its compass direction, its distance and the altitude difference.
This project models the plugin's core in Dafny and proves properties of it:

- `zone_watcher.dfy` (`ZoneWatcher`): the zone tracker. It keeps the current
  territory and its transient row, the current map id (an alternate map id
  overrides the territory's own map), and a lazily refreshed copy of the
  current map row. It also keeps two zone flags: "compass works here" and
  "hide the detail window here".
- `compass_util.dfy` (`CompassUtil`): world position to map coordinate and
  back, the current territory's altitude axis, the compass-direction flags
  and the altitude description.
- `island_sanctuary.dfy` (`IslandSanctuary`): the Island Sanctuary compass.
  It covers which game objects it detects, the objective made from each,
  the marker icon it uses, the gathering and animal tables it builds from
  the island's sheets, and the bit-mask filters behind its settings window.
- `quests.dfy` (`Quests`): the game's 30-slot quest list, the quest lookups
  and the per-quest flag readers.
- `plugin_util.dfy` (`PluginUtil`): comparison of plugin version strings.
- `basics.dfy` (`Basics`): `Option`, `Result`, the integer widths of the
  game's data, and optional map lookup.

Modelling choices:

- The C# statics are passed in and returned as immutable values. The
  tracker's state is a `ZoneState`, and the game's data sheets are a
  `Sheets` value of optional lookups.
- A sheet link resolves only when the target row exists.
- Single-precision floats are `real`. The map conversions can divide by a
  zero map scale, and a missing map gives an all-NaN vector. The datatype
  `Float = Finite(real) | NonFinite` keeps those non-finite results apart
  from real numbers.
- Some operations are outside the model and become function parameters:
  - `truncate1`: truncation to one decimal place;
  - `normalize`: vector normalisation;
  - `DistanceFormat`: number formatting and the unit name;
  - `sanitize`: text sanitising;
  - `altMapId`: the game's alternate map id.
- Unsigned 32-bit masks are `bv32`. A shift of a 32-bit value by a row id
  uses the id modulo 32, as C# does.
- Dictionary `Add` throws on a duplicate key. The table builders therefore
  return a `Result`, and a failure carries the first duplicated key.

## Model

| member | source | states |
|---|---|---|
| ZoneWatcher.IntendedUseId | Game/ZoneWatcher.cs:61 | the intended-use id is known exactly when there is a territory and its link resolves, and it is then the link |
| ZoneWatcher.TerritoryMapId | Game/ZoneWatcher.cs:20 | the territory's own map id is the linked map's id when the link resolves, and 0 otherwise |
| ZoneWatcher.CurrentMapId | Game/ZoneWatcher.cs:14-22 | a positive alternate map id wins; otherwise the current map id is the territory's own map id |
| ZoneWatcher.CurrentMapIdResolves | Game/ZoneWatcher.cs:14-22 | without an alternate id, the current map id is 0 or names an existing map row, and it is 0 when no territory is known |
| ZoneWatcher.GetMap | Game/ZoneWatcher.cs:52-53 | a row is found exactly when the current map id names one, and it is the sheet's row under that id; on well-formed sheets the row carries that id |
| ZoneWatcher.CurrentMap | Game/ZoneWatcher.cs:26-33 | a cached row with the current id is reused; otherwise the cache is refilled by a fresh lookup; only the cache changes; on well-formed sheets, a returned row has the current map id |
| ZoneWatcher.CurrentMapIsFreshLookup | Game/ZoneWatcher.cs:26-33 | on a coherent state, reading through the cache gives exactly what a fresh lookup gives, and the state stays coherent |
| ZoneWatcher.CurrentMapIdempotent | Game/ZoneWatcher.cs:26-33 | a second read straight after a first returns the same row and leaves the state unchanged |
| ZoneWatcher.IsCompassWorkZone | Game/ZoneWatcher.cs:56-63 | a work zone is exactly a known territory that is not PvP, has battalion mode at most 1, and whose intended-use link does not resolve to the chocobo race row 20 |
| ZoneWatcher.IsDetailWindowHideZone | Game/ZoneWatcher.cs:65-70 | the detail window is shown exactly in a known territory whose exclusive type is 0 |
| ZoneWatcher.OnZoneChange | Game/ZoneWatcher.cs:38-50 | territory 0 clears the territory and its transient row; otherwise both are looked up by id; the cache holds a fresh map lookup; the work-zone flag is "known, not PvP, battalion mode at most 1, and not the chocobo race use 20"; the hide flag is "unknown or instanced"; the result is coherent |
| ZoneWatcher.OnZoneChangeForgetsPreviousZone | Game/ZoneWatcher.cs:38-50 | the state after a zone change does not depend on the state before it |
| ZoneWatcher.InitialStateFlagsNotCurrent | Game/ZoneWatcher.cs:11-36 | before the first zone change the territory is unknown but the detail window is not hidden, so the flag rules do not yet hold |
| ZoneWatcher.ZoneChangeMakesFlagsCurrent | Game/ZoneWatcher.cs:38-50 | after any zone change, from any state including the start state, both flags agree with the new territory |
| ZoneWatcher.UnknownZoneFailsClosed | Game/ZoneWatcher.cs:56-70 | after any zone change (whenever the flags are current), with no known territory the compass does not work and the detail window is hidden |
| CompassUtil.TruncateToInt | Common/CompassUtil.cs:154 | truncation toward zero: the whole number within 1 of the value, on the zero side |
| CompassUtil.Truncate | Common/CompassUtil.cs:154 | truncation toward zero as a real: a whole number, within 1 of the value and never farther from zero |
| CompassUtil.WorldPositionToMapCoord | Common/CompassUtil.cs:152-155 | a horizontal world value maps to a finite map value exactly when the map scale is non-zero, and then to (truncated value + offset)·41/2048 + 41·1023/2048/(scale/100) + 1 |
| CompassUtil.WorldPositionToMapCoordZ | Common/CompassUtil.cs:157-161 | the altitude conversion is always finite, and the map Z value times 100 plus the offset gives back the world altitude |
| CompassUtil.MapCoordToWorldPosition | Common/CompassUtil.cs:203-204 | a map value maps back to a finite world value exactly when it is finite and the scale is non-zero, and then to (v - 1)·2048/41 - 1023/(scale/100) - offset |
| CompassUtil.MapCoordToWorldPositionY | Common/CompassUtil.cs:206-207 | the altitude is finite exactly when the map Z value is, and the altitude less the offset, divided by 100, gives back the map Z value |
| CompassUtil.AltitudeSlopeAndAnchor | Common/CompassUtil.cs:157-161 | the Z offset sits at map height 0, and 100 world units make one map unit, in both directions |
| CompassUtil.MapAxisRoundTrip | Common/CompassUtil.cs:153-155 | a horizontal axis, to the map and back, gives the world value truncated toward zero; with a zero scale the result is non-finite |
| CompassUtil.AltitudeAxisRoundTrip | Common/CompassUtil.cs:206-207 | the altitude axis, to the map and back, gives the altitude exactly |
| CompassUtil.MapToWorldSlope | Common/CompassUtil.cs:203-204 | map to world is affine with slope 2048/41 at every scale |
| CompassUtil.MapAxisInverseRoundTrip | Common/CompassUtil.cs:153-155 | a map value, to the world and back, returns unchanged exactly when its world value is a whole number |
| CompassUtil.WorldPositionRoundTrip | Common/CompassUtil.cs:190-201 | a whole position, to map coordinates and back (without one-decimal truncation), restores X and Z truncated toward zero and Y exactly, undoing the Y/Z axis swap |
| CompassUtil.MapAxisRoundTripError | Common/CompassUtil.cs:145-148 | if the map value is disturbed by e with abs(e) <= d, the round trip lands within 1 + d·2048/41 world units of the start |
| CompassUtil.GetMapCoord | Common/CompassUtil.cs:133-150 | map X comes from world X, map Y from world Z and map Z from the world altitude Y, each converted with its own offset and then truncated to one decimal |
| CompassUtil.GetWorldPosition | Common/CompassUtil.cs:190-201 | the reverse routing: world X from map X, world altitude Y from map Z, world Z from map Y, each with its own offset |
| CompassUtil.ZCoordAfterZoneChange | Common/CompassUtil.cs:177-178 | after a zone change, the altitude axis exists exactly when the new territory id is 0, has no transient row, or has an offset above -10000 |
| CompassUtil.GetCurrentTerritoryZOffset | Common/CompassUtil.cs:122-123 | the altitude offset is the transient row's offset, or 0 without one |
| CompassUtil.CurrentHasZCoord | Common/CompassUtil.cs:177-178 | the zone has an altitude axis exactly when its offset is above -10000, or when no transient row is known |
| CompassUtil.GetMapCoordInCurrentMap | Common/CompassUtil.cs:163-175 | reads the map through the tracker's cache; gives the all-NaN vector without a map, and otherwise the conversion with that map's scale and offsets and the zone's altitude offset |
| CompassUtil.GetWorldPositionFromMapCoordInCurrentMap | Common/CompassUtil.cs:209-221 | the reverse conversion in the current map, with the same NaN case |
| CompassUtil.CurrentMapRoundTrip | Common/CompassUtil.cs:209-221 | on a coherent state with a scaled map, converting to the current map and back restores the position up to truncation of X and Z, and the second read finds the map already cached |
| CompassUtil.ClassifyHeading | Common/CompassUtil.cs:114-119 | North or South is raised exactly when abs(x) < span, East or West exactly when abs(y) < span; South exactly when abs(x) < span and y > 0, North exactly when abs(x) < span and not y > 0, East exactly when abs(y) < span and x > 0, West exactly when abs(y) < span and not x > 0; never two opposite flags; a NaN heading raises none |
| CompassUtil.GetDirectionFromPlayer | Common/CompassUtil.cs:106-120 | the NaN direction without a player; otherwise the classified normalised ground-plane offset from the player |
| CompassUtil.GetDirectionFromObject | Common/CompassUtil.cs:103-104 | no game object gives the NaN direction; an object gives the direction of its position |
| CompassUtil.UnitVectorNearAnAxis | Common/CompassUtil.cs:101 | with span = sin(3π/8), whose square exceeds 1/2, a unit vector has a component of magnitude below the span |
| CompassUtil.UnitHeadingHasAFlag | Common/CompassUtil.cs:114-119 | every unit heading raises at least one flag |
| CompassUtil.TwoFlagsOnlyNearDiagonal | Common/CompassUtil.cs:114-119 | two flags are raised exactly when both components are below the span, which for a unit heading means near a diagonal |
| CompassUtil.DirectionHasAFlag | Common/CompassUtil.cs:106-120 | with a player, a target whose offset normalises to a unit vector gets a direction |
| CompassUtil.DueNorthIsNorth | Common/CompassUtil.cs:115-116 | heading (0, -1) is exactly North |
| CompassUtil.NorthEastRaisesTwoFlags | Common/CompassUtil.cs:114-119 | the north-east diagonal raises North and East together |
| CompassUtil.ZeroOffsetHasNoFlag | Common/CompassUtil.cs:111-113 | a target at the player's own ground position gets no flag, because normalising the zero vector gives NaN |
| CompassUtil.DistanceToDescriptiveString | Common/CompassUtil.cs:55-56 | the rendered number followed by the unit name |
| CompassUtil.AltitudeDiffToDescriptiveString | Common/CompassUtil.cs:72-82 | below one unit, "At same altitude"; otherwise the magnitude in whole units followed by "higher than you" for positive differences or "lower than you" for negative ones |
| CompassUtil.AltitudeDescriptionCases | Common/CompassUtil.cs:72-82 | the three outcomes are told apart by the text: the same-altitude sentence exactly below one unit, the "higher" suffix exactly for diff >= 1, the "lower" suffix exactly for diff <= -1 |
| CompassUtil.AltitudeDescriptionSignSymmetry | Common/CompassUtil.cs:77-81 | negating a difference keeps the magnitude text and swaps "higher" for "lower" |
| IslandSanctuary.IsEnabledInCurrentTerritory | Compasses/IslandSanctuaryCompass.cs:43-45 | enabled exactly when the current territory's intended use resolves to row 49 |
| IslandSanctuary.IslandZoneIsWorkZone | Compasses/IslandSanctuaryCompass.cs:44-45 | an island territory that is not PvP and has battalion mode at most 1 is a compass work zone |
| IslandSanctuary.IslandEnabledAfterZoneChange | Compasses/IslandSanctuaryCompass.cs:43-45 | after a zone change the compass is enabled exactly when the new territory exists and its intended-use link is the resolving row 49; such a zone outside PvP and battalion mode is a work zone |
| IslandSanctuary.IsObjective | Compasses/IslandSanctuaryCompass.cs:47-58 | a gathering object counts exactly when gathering detection is on, its name id has gathering data, and that row's filter bit is set; likewise an animal by base id with the animal filter; nothing else counts |
| IslandSanctuary.CreateCompassObjective | Compasses/IslandSanctuaryCompass.cs:60-70 | gathering objects become Gathering objectives, battle NPCs become Animal objectives, and anything else (or no object) becomes type 0; the objective keeps the object's name id and base id |
| IslandSanctuary.CreateCompassObjectiveFromInfo | Compasses/IslandSanctuaryCompass.cs:72-74 | a missing info record gives exactly the no-object objective (type 0); otherwise the record's object is used |
| IslandSanctuary.DetectedObjectsAreClassified | Compasses/IslandSanctuaryCompass.cs:47-70 | every detected object becomes a classified objective whose id is in the table that let it through |
| IslandSanctuary.FilterBit | Compasses/IslandSanctuaryCompass.cs:53 | a row's filter bit is a single set bit, at position row id modulo 32 |
| IslandSanctuary.FilterBitAliases | Compasses/IslandSanctuaryCompass.cs:53 | two rows share a filter bit exactly when their ids agree modulo 32; otherwise their bits do not overlap |
| IslandSanctuary.FilterBitNonZero | Compasses/IslandSanctuaryCompass.cs:53 | every row's filter bit is non-zero and lies inside the all-ones mask |
| IslandSanctuary.SelectAllAndUnselectAll | Compasses/IslandSanctuaryCompass.cs:181-185 | with detection on, the all-ones mask detects exactly the objects with table data; the zero mask detects nothing |
| IslandSanctuary.SetSelectedDecidesRow | Compasses/IslandSanctuaryCompass.cs:193-198 | setting or clearing a row's bit decides that row |
| IslandSanctuary.SetSelectedKeepsOtherRows | Compasses/IslandSanctuaryCompass.cs:193-198 | setting or clearing a row's bit leaves every row with a different bit unchanged |
| IslandSanctuary.CheckboxFlag | Compasses/IslandSanctuaryCompass.cs:193 | the checkbox at list position i toggles a single bit, at position i modulo 32 |
| IslandSanctuary.CheckboxFlagIsRowBit | Compasses/IslandSanctuaryCompass.cs:188-198 | the checkbox at list position i carries a row's filter bit exactly when the row id agrees with i modulo 32 |
| IslandSanctuary.CheckboxDecidesMatchingRows | Compasses/IslandSanctuaryCompass.cs:242-265 | a click on checkbox i decides every row whose id agrees with i modulo 32 |
| IslandSanctuary.CheckboxKeepsOtherRows | Compasses/IslandSanctuaryCompass.cs:242-265 | a click on checkbox i leaves every row whose id differs from i modulo 32 unchanged |
| IslandSanctuary.GetIslandGatherType | Compasses/IslandSanctuaryCompass.cs:386-395 | the icons 63963..63967 give the categories 1..5 in order, and every other icon gives none |
| IslandSanctuary.GatherTypeIconRoundTrip | Compasses/IslandSanctuaryCompass.cs:404-412 | category to icon and back gives the category; on the five gathering icons, icon to category and back gives the icon |
| IslandSanctuary.ObjectiveGatherType | Compasses/IslandSanctuaryCompass.cs:316-317 | the gather type of the objective's name id in the table, or none when the id is not there |
| IslandSanctuary.GetIslandGatherIconId | Compasses/IslandSanctuaryCompass.cs:319-320 | the gathering table's icon for the objective's name id, or 0 when the id is not there |
| IslandSanctuary.GetIslandAnimalIconId | Compasses/IslandSanctuaryCompass.cs:335-336 | the animal table's icon for the objective's base id, or 0 when the id is not there |
| IslandSanctuary.GetMarkerIconId | Compasses/IslandSanctuaryCompass.cs:338-346 | gathering objectives use their gathering icon; animals use their own icon or the shared icon 63956, by the setting; type 0 uses icon 0 |
| IslandSanctuary.GatherMarkerShowsGatherType | Compasses/IslandSanctuaryCompass.cs:377-382 | when each table entry's type comes from its icon, a gathering marker's icon shows the objective's gather type |
| IslandSanctuary.BuildTable | Compasses/IslandSanctuaryCompass.cs:303-313 | filling a dictionary by Add and a list alongside it succeeds exactly when the keys are distinct; the list is then the items in order, and the dictionary maps each item's key to that item and holds nothing else; on failure the error is a repeated key, met first at its second occurrence |
| IslandSanctuary.GatherData | Compasses/IslandSanctuaryCompass.cs:305-310 | a gathering row's data keeps the row id, name link and icon, is classified by its icon, and is named by the sanitised EObjName row when the link resolves, and otherwise by the sanitised fallback row 2000000 |
| IslandSanctuary.AnimalData | Compasses/IslandSanctuaryCompass.cs:328-329 | an animal row's data keeps the row id, the BNpcBase link as data id, and the icon |
| IslandSanctuary.BuildIslandGatherDict | Compasses/IslandSanctuaryCompass.cs:298-314 | building succeeds exactly when no two rows share a name link; the list then holds each row's data in sheet order, and the dictionary holds exactly the name links, each mapping to its row's data; on failure the error is a shared link |
| IslandSanctuary.BuildIslandAnimalDict | Compasses/IslandSanctuaryCompass.cs:322-333 | the same for animal rows, keyed by BNpcBase link |
| IslandSanctuary.GatherRowDetection | Compasses/IslandSanctuaryCompass.cs:51-53 | with the table built from the sheet, a gathering object named by a row is detected exactly when gathering detection is on and that row is selected |
| Quests.HasQuest | Game/SeFunctions/Quests.cs:15-26 | true exactly when the id is non-zero, the list exists and some slot holds the id |
| Quests.TryGetQuest | Game/SeFunctions/Quests.cs:28-45 | finds the quest exactly when HasQuest does; it returns the first slot holding the id, and otherwise the all-zero quest |
| Quests.FirstSlotUnique | Game/SeFunctions/Quests.cs:36-43 | the first slot holding an id is unique |
| Quests.EmptySlotIsNoQuest | Game/SeFunctions/Quests.cs:17-18 | id 0 is never a held quest, so empty slots never match |
| Quests.Quest.IsHidden | Game/SeFunctions/Quests.cs:80 | a quest is hidden exactly when bit 3 (value 0x8) of its flag byte is set |
| Quests.Quest.IsPriority | Game/SeFunctions/Quests.cs:81 | a quest has priority exactly when bit 0 (value 0x1) of its flag byte is set |
| Quests.Quest.IsObjectiveInteracted | Game/SeFunctions/Quests.cs:83-87 | only indexes 0..7 can read true, and index i reads bit 7 - i of the interacted byte |
| Quests.UnpackInteracted | Game/SeFunctions/Quests.cs:73-76 | objective i of 0..7 is bit 7 - i of the interacted byte, so a smaller index reads a more significant bit; it agrees with the reader for each objective |
| Quests.InteractedReadsPacked | Game/SeFunctions/Quests.cs:74-87 | in a byte packed with objective 0 in the most significant bit, reading objective i gives flag i; indexes outside 0..7 read false |
| Quests.PackUnpackRoundTrip | Game/SeFunctions/Quests.cs:84-87 | packing what the reader reports gives back the stored byte, so the reader loses no bit |
| Quests.HiddenAndPriorityIndependent | Game/SeFunctions/Quests.cs:80-81 | setting or clearing the Hidden bit (8) decides IsHidden and leaves IsPriority alone, and the same holds for the Priority bit (1) the other way round |
| PluginUtil.Split | PluginUtil.cs:24 | a split has at least one piece; the pieces themselves are pinned by JoinSplit (they join back to the string) and SplitPiecesHaveNoSeparator (none holds a '.') |
| PluginUtil.JoinSplit | PluginUtil.cs:24 | joining the pieces of a split with '.' gives back the string |
| PluginUtil.SplitPiecesHaveNoSeparator | PluginUtil.cs:24 | no piece of a split holds a '.' |
| PluginUtil.SplitJoin | PluginUtil.cs:24 | splitting a join of dot-free pieces gives the pieces back |
| PluginUtil.SplitAppend | PluginUtil.cs:24 | the pieces of a + "." + t are the pieces of a followed by the pieces of t |
| PluginUtil.Trim | PluginUtil.cs:24 | a trimmed piece is the slice of the original after its leading white space, followed in the original only by white space, and has no white space at either end |
| PluginUtil.TrimDropsOnlyWhiteSpace | PluginUtil.cs:24 | trimming keeps a slice and drops only white space around it; the result is empty exactly for all-white pieces |
| PluginUtil.TrimOfTrimmed | PluginUtil.cs:24 | a piece without white space at its ends is its own trim, so trimming is idempotent |
| PluginUtil.ParseInt | PluginUtil.cs:29-30 | a piece parses exactly when it is an optional '+' or '-' followed by one or more digits whose signed decimal value lies in the 32-bit range, and the result is that signed value |
| PluginUtil.ParseIntRoundTrip | PluginUtil.cs:29-30 | every 32-bit number parses back from its decimal text |
| PluginUtil.ComponentValue | PluginUtil.cs:29-30 | every component value is a 32-bit number |
| PluginUtil.ComponentValueOfDecimal | PluginUtil.cs:29-30 | a piece that is an in-range decimal, with or without a '+' or '-' sign, counts as its signed value; a piece that is not a signed decimal, the empty piece and an unsigned decimal above the 32-bit range count as 0 |
| PluginUtil.CompareInt | PluginUtil.cs:33 | -1, 0 or 1 exactly as the first argument is below, equal to or above the second |
| PluginUtil.FirstDifferenceDecides | PluginUtil.cs:31-33 | the first differing component within the shorter length decides the comparison |
| PluginUtil.CompareZeroIffNoDifference | PluginUtil.cs:26-35 | the comparison is 0 exactly when the components agree over the shorter length |
| PluginUtil.ComparePieces | PluginUtil.cs:26-35 | the loop returns 0 exactly when the components agree over the shorter length, and otherwise the comparison at the first difference |
| PluginUtil.ComparePluginVersion | PluginUtil.cs:22-36 | the result is the component-wise comparison of the trimmed, parsed pieces of both versions |
| PluginUtil.VersionCompareReflexive | PluginUtil.cs:22-36 | every version compares equal to itself |
| PluginUtil.VersionCompareAntisymmetric | PluginUtil.cs:22-36 | swapping the versions negates the result |
| PluginUtil.VersionEqualsItsExtensions | PluginUtil.cs:26 | a version compares equal to any extension of it by more components |
| PluginUtil.AppendComponent | PluginUtil.cs:24-30 | appending "." and a plain piece appends that piece's value to the components |
| PluginUtil.NonNumericCountsAsZero | PluginUtil.cs:29-30 | a last piece that does not parse compares equal to a last piece "0" |
| PluginUtil.EqualityIsNotTransitive | PluginUtil.cs:26-35 | v.b and v.c both compare equal to v, yet v.b < v.c when b's value is below c's, so "equal" is not transitive |

## Left out

- Reading game memory, raw addresses and object handles: `GetName`,
  `IsCharacter`, character level, alive and hostile checks, and the quest
  manager's static initialiser. The quest list is a parameter that may be
  absent.
- Float distances and rotation (`Get3DDistanceFromPlayer`,
  `Get2DDistanceFromPlayer`, `GetAltitudeDiffFromPlayer`,
  `GetRotationFromPlayer`). These are square roots, powers and atan2 on
  single-precision floats.
- `ToTitleCase`, `GetPlaceNameToString` and `MapCoordToFormattedString`:
  text formatting by the .NET culture library.
- `Get...Descriptive` wrappers: each composes a float distance that is not
  modelled with a modelled description.
- CompassUtil.GetMapCoord: the one-decimal truncation is the parameter
  `truncate1`, whose definition is not part of this model.
  `MapAxisRoundTripError` bounds its effect for any disturbance of at most
  d map units.
- CompassUtil.GetDirectionFromPlayer: vector normalisation is the
  parameter `normalize`. The span is any value strictly between 1/√2 and 1
  rather than the float value of sin(3π/8).
- ZoneWatcher.InitialState: the start state breaks the flag rules: with
  no territory known, the detail window is not hidden until the first zone
  change. `UnknownZoneFailsClosed` is promised only once the flags are
  current, which every zone change makes them.
- CompassUtil.AltitudeDiffToDescriptiveString: a NaN difference is not
  modelled. In the source it fails both comparisons and reads as "lower
  than you".
- CompassUtil.Float: NaN and the two infinities are one value, so their
  differences are not modelled. Float rounding is not modelled.
- The plugin's logging helpers and `GetPluginVersion`, which read the
  running assembly.
- PluginUtil.ParseInt: culture-specific sign symbols and the trailing NUL
  characters that `int.TryParse` accepts are not modelled. Only ASCII signs
  and digits are modelled.
- The Island Sanctuary compass's drawing code (`CreateDrawDetailsAction`,
  `CreateMarkScreenAction`, the ImGui settings window). The settings
  window's effect on the filter masks is modelled through
  `SelectAllAndUnselectAll`, `CheckboxFlagIsRowBit`,
  `CheckboxDecidesMatchingRows` and `CheckboxKeepsOtherRows`.
- `IslandCachedCompassObjective` is not part of this model. The objective
  is assumed to take its `NpcId` from the object's name id and its `DataId`
  from the object's base id.
- PluginUtil.Split: its own contract states only that there is at least
  one piece. The pieces are stated by `JoinSplit`,
  `SplitPiecesHaveNoSeparator` and `SplitJoin`.
- PluginUtil.ComponentValue: its own contract states only the 32-bit
  range; the value of each kind of piece is stated by
  `ComponentValueOfDecimal`, which keeps these facts out of the comparison
  loop's proof.
- ZoneWatcher.OnZoneChange: a TerritoryType, TerritoryTypeTransient or
  Map row missing for a non-zero id is read as absent. In the source,
  `GetRow` returns a non-nullable row and a missing row makes it throw, so
  the zone change stops part way. The fields are assigned in order: the
  territory, then the transient row, then the map cache, then the two
  flags. A missing TerritoryType row leaves the whole previous state in
  place. A missing TerritoryTypeTransient row leaves the new territory with
  the previous transient row, map cache and flags. A missing Map row leaves
  the new territory and transient row with the previous map cache and
  flags. In the last two cases the flags no longer match the territory. The
  model's unknown-territory results (`UnknownZoneFailsClosed`,
  `OnZoneChangeForgetsPreviousZone` and `ZCoordAfterZoneChange` for a
  non-zero id without a row) describe that absent reading. In the source,
  only id 0 leads to no territory.
- ZoneWatcher.GetMap: a missing Map row is read as absent, for the same
  reason.
- IslandSanctuary.GatherData: an EObjName row that does not exist gives
  the empty name. In the source, `GetRow` on a missing row may throw.
- IslandSanctuary.BuildTable: after a failure, the list the source has
  already filled is not modelled.
- The notifier and the screen projection, which are not part of this
  model.

## Notes on the code's behaviour

- The map coordinate round trip is not accurate to 0.05 world units.
  The forward conversion truncates the world value to a whole number, so
  the round trip without one-decimal truncation is off by less than one
  unit (`MapAxisRoundTrip`). One-decimal truncation of the map value adds
  up to about 5 world units (`MapAxisRoundTripError` with d = 0.1).
- A target at the player's own ground position gets no direction flag,
  even though a player is known. Normalising the zero vector gives NaN,
  and every comparison with NaN fails (`ZeroOffsetHasNoFlag`).
- In the Island Sanctuary settings window, a checkbox toggles the bit of
  its list position. Detection tests the bit of the row's sheet id. The two
  agree exactly when the row id equals the list position modulo 32
  (`CheckboxFlagIsRowBit`).
