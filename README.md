# OSMTraffic OSM importer, modelled in Dafny

This project models the OpenStreetMap XML importer of OSMTraffic.
It covers two parts of that importer:

- the stream walker `TrImportOsmStream`;
- the relation resolver `TrImportOsmRel` / `Relation` that the walker calls for each `<relation>`.

The walker reads a document one token at a time and keeps one open element.
- `<tag>` entries go into a tag map; the first value of a key wins.
- For a node, `</node>` classifies it and stores it.
- For a way, it collects the positive `<nd ref>` ids; `</way>` classifies it, interns its name, computes lanes, width and parking, and stores it.
- In both cases a record whose key is already present is not overwritten.
- A `<relation>` is read by a sub-parser over the same token stream.
- For a multipolygon, the sub-parser retypes the member ways in place.
- The walker keeps the relation only when it has more than one outer ring, and then clears the area flag of those rings.
- `</osm>` copies the way and node maps into the world's arrays in ascending key order.

The modules follow the program's structure:

| module | models |
|---|---|
| `Header` | the header constants, as a record of symbolic bit words plus layout predicates |
| `Text`, `Xml` | `QString::split`/`startsWith`, `toULongLong`, and `QXmlStreamReader` as a cursor over a token sequence |
| `OsmTypes` | `Point_t`, `Way_t`, `RelMember_t`, `Rel_t`, `name_set`, `readTag`, and the shared way map |
| `BarrierTable` … `RailWayTable` | the static lookup tables of `TrImportOsmRel` |
| `RoadClass`, `Direction`, `Lanes`, `Parking` | `getClass`, `getDir`, `getLanes`, and the parking decoder |
| `OsmRel` | `Relation` and `TrImportOsmRel`: reading, closing and retagging |
| `Classify` | the classification chains of `closeWay` and `closeNode` |
| `OsmWorld` | `World_t` and the name interning it carries |
| `OsmStream` | `TrImportOsmStream` itself |

In these places the code does something a reader might not expect. The model follows the code:

- **Parking keys.** `getParking` matches the prefix `parking`, without the colon. So `parkingfoo:left` is decoded like `parking:left`.
- **Inner rings of a natural multipolygon.** They keep the low byte of the relation's new classification word. This is the way's word after it is overwritten, not the class the way had before (`tr_import_osm_rel.cpp:305-312`). When that low byte is 0 they get class 3.
- **Pedestrian multipolygons.** The building bits are already ORed into the relation flags before the `highway=pedestrian` check ends the retagging (`tr_import_osm_rel.cpp:264-273`).
- **The token after a relation.** When a `<relation>` returns, the walker still checks the current token against `tag` and `nd`, and then against the end-element branch. That token is the relation's closing tag. If the stream ended inside the relation, it is the end-of-document token, or the `Invalid` token of a syntax error; neither matches any branch (`tr_import_osm_stream.cpp:99-153`).

## Model

| member | source | states |
|---|---|---|
| Text.Split | osm/tr_import_osm_stream.cpp:816 | `split(':')` yields at least one part, and no part contains the separator |
| Text.JoinSplit | osm/tr_import_osm_stream.cpp:816 | joining the parts of a split with the separator gives back the original key |
| Text.SplitJoin | osm/tr_import_osm_stream.cpp:816 | splitting separator-free parts after joining them gives back those parts |
| Text.SplitKeepsPrefix | osm/tr_import_osm_stream.cpp:814-816 | a key that starts with a separator-free prefix keeps that prefix in its first segment |
| Text.ParseULong | osm/tr_import_osm_stream.cpp:205 | `toULongLong` succeeds only on a non-empty string, with a value below 2^64 |
| Text.TrimBoundsSpaces | osm/tr_import_osm_stream.cpp:205 | the number is read between the leading and the trailing white space: all outside is white space, and the text inside neither starts nor ends with it |
| Text.ParseRejects | osm/tr_import_osm_stream.cpp:205 | any character that is not a digit, white space or `+` (a `-` sign, say) makes the conversion fail |
| Text.ParseULongOrZero | osm/tr_import_osm_stream.cpp:123 | the value `toULongLong` returns is below 2^64, and 0 when conversion fails |
| Text.DecimalValueOfDecimal | osm/tr_import_osm_stream.cpp:205 | reading the decimal rendering of n gives n back |
| Text.TrimPadded | osm/tr_import_osm_stream.cpp:205 | trimming removes exactly the white space around a text that starts and ends with something else |
| Text.ParseDecimal | osm/tr_import_osm_stream.cpp:205 | every id below 2^64, written in decimal, with or without a leading `+` and with any white space around it, converts back to itself |
| Xml.Value | osm/tr_import_osm_stream.cpp:188 | `attributes.value(key)` of an absent key is the empty string |
| Xml.Reader.constructor | osm/tr_import_osm_stream.cpp:72-74 | a reader is positioned before the first token of its document |
| Xml.Reader.ReadNext | osm/tr_import_osm_stream.cpp:76-78 | `readNext` advances exactly one token, and never past the end; the token it returns is the next one; at the end the current token is the end-of-document token, or `Invalid` when the document is broken |
| OsmTypes.AddTag | osm/tr_import_osm_stream.cpp:186-198 | `readTag` adds key `k`; existing keys keep their first value; a new key gets `v` |
| OsmTypes.OnlyTypesChangedKeepsValid | osm/tr_import_osm_rel.cpp:72-85 | an edit that changes only classification words keeps every way keyed by its own id, with a positive reference list of the stored length |
| OsmTypes.RetypeOne | osm/tr_import_osm_rel.cpp:82 | assigning one way's `type` changes nothing but that word |
| OsmTypes.OnlyTypesChangedTrans | osm/tr_import_osm_rel.cpp:259-318 | two type-only edits in a row are a type-only edit |
| OsmTypes.WayList.constructor | osm/tr_import_osm_stream.cpp:49-53 | the way map starts empty |
| BarrierTable.GetBarrierClass | osm/tr_import_osm_rel.cpp:328-341 | the code is non-zero exactly for guard_rail, gate, bollard and entrance |
| BuildingTable.BuildingSubclass | osm/tr_import_osm_rel.cpp:343-456 | an unlisted building value falls back to subclass 7 |
| BuildingTable.GetBuildingClass | osm/tr_import_osm_rel.cpp:343-456 | every building code carries the area flag; an unlisted value gives `7 \| FLAG_FEATURE_AERA` |
| BuildingTable.BuildingNeverZero | osm/tr_import_osm_rel.cpp:343-456 | with a non-zero area flag, no building value gives 0 |
| HighwayPointTable.GetHighwayPointClass | osm/tr_import_osm_rel.cpp:462-477 | the code is non-zero exactly for the six listed highway point values |
| RailwayPointTable.GetRailwayPointClass | osm/tr_import_osm_rel.cpp:479-506 | the code is non-zero exactly for the railway markers and stops |
| RailwayPointTable.RailwayMarkersPlain | osm/tr_import_osm_rel.cpp:481-496 | each railway marker value gives the plain code 1 |
| AmenityTable.GetAmenityClass | osm/tr_import_osm_rel.cpp:516-572 | the code is non-zero exactly for street furniture and the listed amenity features |
| AmenityTable.StreetFurniturePlain | osm/tr_import_osm_rel.cpp:516-528 | street furniture gives the plain code 1 |
| ShopTable.GetShopClass | osm/tr_import_osm_rel.cpp:574-610 | the code is non-zero exactly for the fifteen listed shop values |
| LanduseTable.GetLanduseClass | osm/tr_import_osm_rel.cpp:612-633 | an unlisted landuse value gives 0 |
| NaturalTable.GetNaturalClass | osm/tr_import_osm_rel.cpp:635-653 | a natural value that is neither a listed area nor `tree` gives 0 |
| NaturalTable.NaturalTree | osm/tr_import_osm_rel.cpp:635-653 | `tree` gives a non-zero node feature of the natural type |
| WaterWayTable.GetWaterWayClass | osm/tr_import_osm_rel.cpp:655-662 | only river and stream give a code |
| WaterWayTable.WaterWayAreas | osm/tr_import_osm_rel.cpp:655-662 | river and stream carry the area flag |
| RailWayTable.GetRailWayClass | osm/tr_import_osm_rel.cpp:664-676 | rail 0x80, subway 0x90, light_rail and tram 0xA0, narrow_gauge 0xB0 (each an if-and-only-if); any other value gives 0; no bit outside 0xF0 |
| RoadClass.GetClass | osm/tr_import_osm_stream.cpp:599-656 | the minor road codes 9 to 0xF per listed value; 0 for a value that is neither minor nor ranked |
| RoadClass.RankOrdinal | osm/tr_import_osm_stream.cpp:631-653 | the rank is at most 8, and non-zero exactly when the value has one of the eight ranked prefixes |
| RoadClass.RankOrdinals | osm/tr_import_osm_stream.cpp:631-653 | each rank means exactly its prefix: 1 motorway, 2 trunk, 3 primary, 4 secondary, 5 tertiary, 6 unclassified, 7 residential, 8 living_street (each an if-and-only-if) |
| RoadClass.RankedBits | osm/tr_import_osm_stream.cpp:627-653 | the low nibble of a ranked word is the rank; the ramp bit is set exactly for a ranked link |
| RoadClass.NibbleWithoutRamp | osm/tr_import_osm_stream.cpp:603-625 | a minor road code never carries the ramp flag |
| RoadClass.RampOnlyOnLinks | osm/tr_import_osm_stream.cpp:599-656 | the ramp flag is set exactly for a ranked, non-minor value ending in `_link` |
| RoadClass.ClassNibble | osm/tr_import_osm_stream.cpp:627-655 | for a value that is not minor, the low nibble is its rank, and an unranked value gives 0 |
| Direction.GetDir | osm/tr_import_osm_stream.cpp:658-680 | 1 exactly for 1, true, yes, roundabout and mini_roundabout; 2 exactly for -1; 0 otherwise |
| Direction.SetDirection | osm/tr_import_osm_stream.cpp:417-423 | `ApplyDir`, which models OR-ing `dir << 32` into the word, sets a clear direction field to dir and keeps every other bit |
| Direction.DirectionKept | osm/tr_import_osm_stream.cpp:420-421 | a set direction field blocks any later direction |
| Direction.OnewayBeforeJunction | osm/tr_import_osm_stream.cpp:417-430 | after `ApplyDir` for `oneway` then for `junction`, the field holds the oneway code if non-zero, else the junction code; no other bit changes |
| Lanes.LaneTag | osm/tr_import_osm_stream.cpp:688-705 | an absent or unparsable lane tag contributes nothing |
| Lanes.LaneFields | osm/tr_import_osm_stream.cpp:682-716 | `LaneWord`, from which `GetLanes` builds `getLanes()`, puts total lanes in bits 0-2, forward lanes from bit 16, backward lanes from bit 24, each as the source ORs them |
| Lanes.LaneRoundTrip | osm/tr_import_osm_stream.cpp:682-716 | for in-range counts, each of the three lane counts can be read back from the word |
| Lanes.StoredLanes | osm/tr_import_osm_stream.cpp:483-485 | the stored lane word is never 0, and is `GetLanes` (`getLanes()`) whenever that is non-zero |
| Parking.Mirror | osm/tr_import_osm_stream.cpp:774-800 | mirroring a parking bit swaps left and right and keeps its kind (no parking, parallel, diagonal, perpendicular or marking) |
| Parking.MirrorTwice | osm/tr_import_osm_stream.cpp:774-800 | mirroring twice gives the bit back |
| Parking.ModeWord | osm/tr_import_osm_stream.cpp:718-738 | the mode word has bit 0 for the right side and bit 32 for the left side |
| Parking.ModeWords | osm/tr_import_osm_stream.cpp:721-735 | `both` gives 0x100000001, `left` 0x100000000, `right` 0x1 |
| Parking.ParkingMode | osm/tr_import_osm_stream.cpp:718-738 | only both, left and right are sides; both selects both sides, left only the left, right only the right |
| Parking.Sides | osm/tr_import_osm_stream.cpp:745-748 | a per-side pair of bits is set exactly on the selected sides |
| Parking.ParkingRes | osm/tr_import_osm_stream.cpp:740-765 | no, no_parking and no_stopping set the no-parking bit of each selected side, and nothing else is set |
| Parking.Orientations | osm/tr_import_osm_stream.cpp:774-794 | parallel, diagonal and perpendicular set an orientation bit on exactly the selected sides, symmetrically for both; every bit set is of the value's own kind (parallel sets `V_PARK_PARALLEL_*`, diagonal `V_PARK_DIAGONAL_*`, perpendicular `V_PARK_PERPENDI_*`) |
| Parking.ParkingTest | osm/tr_import_osm_stream.cpp:767-802 | a part other than orientation gives nothing; each orientation bit is of the value's own kind; a side's marking flag is set exactly when an orientation bit of that side is |
| Parking.SegmentBits | osm/tr_import_osm_stream.cpp:817-840 | without a third segment, a value starting with `no` sets the no-parking bits of the selected sides and nothing else |
| Parking.SegmentKinds | osm/tr_import_osm_stream.cpp:822-829 | with a third segment, a no-parking bit is set exactly for `restriction` with no, no_parking or no_stopping on a selected side; orientation bits come only from `orientation`, each of the value's own kind |
| Parking.RightDiagonal | osm/tr_import_osm_stream.cpp:806-850 | `parking:right:orientation=diagonal` gives exactly the right-hand diagonal constant and the right-hand marking flag |
| Parking.TagSides | osm/tr_import_osm_stream.cpp:814-840 | `TagBits`, one pass of the `getParking` loop, sets only bits of the sides its key selects, and nothing when the key selects no side |
| Parking.BothSidesAlike | osm/tr_import_osm_stream.cpp:721-725 | a `both` key sets each bit together with its mirror |
| Parking.TagMarking | osm/tr_import_osm_stream.cpp:795-800 | a tag sets a side's marking flag exactly when it sets an orientation of that side |
| Parking.TwoSegmentNo | osm/tr_import_osm_stream.cpp:830-839 | for `parking:<side>`, a value starting with `no` sets that side's no-parking bit, and only no-parking bits are set |
| Parking.AllBits | osm/tr_import_osm_stream.cpp:806-850 | the result contains the `TagBits` of every tag |
| Parking.GetParking | osm/tr_import_osm_stream.cpp:806-850 | the scan over the tag map yields exactly `AllBits`, the union of the bits of all tags; the returned word is `Word` of that set, the OR of the constants it names |
| Parking.UnionSides | osm/tr_import_osm_stream.cpp:806-850 | every bit in the result comes from a tag whose key selects that bit's side |
| Parking.UnionMarking | osm/tr_import_osm_stream.cpp:806-850 | in the whole result, a side's marking flag is present exactly when one of its orientations is |
| Parking.NoParkingTags | osm/tr_import_osm_stream.cpp:806-850 | with no key starting with `parking`, the result and its word are 0 |
| OsmRel.RoleFlags | osm/tr_import_osm_rel.cpp:209-213 | outer gives the outer role bit, inner the inner role bit, any other role 0 |
| OsmRel.MemberOf | osm/tr_import_osm_rel.cpp:191-217 | a member is kept exactly when its type is `way` and its ref parses; it then has that id and the flags of its role |
| OsmRel.StopAt | osm/tr_import_osm_rel.cpp:106-167 | the sub-parser stops at a position between where it started and the end of the document |
| OsmRel.StopStep | osm/tr_import_osm_rel.cpp:155-159 | after one more event the sub-parser stops right behind it if it is `</relation>`, and otherwise where it would have stopped anyway |
| OsmRel.StopToken | osm/tr_import_osm_rel.cpp:106-167 | where the sub-parser stops, the reader stands on `</relation>` or on the end-of-stream token |
| OsmRel.StopAtFirstClose | osm/tr_import_osm_rel.cpp:155-159 | the read ends on a `</relation>` exactly when one follows, and on the first such token; otherwise it ends at the end of the document |
| OsmRel.TagsOfKeepsFirst | osm/tr_import_osm_rel.cpp:219-231 | `TagsOf`, the tag map `readTag` builds from the tokens read: reading more tokens never drops or changes a tag already read |
| OsmRel.MembersOf | osm/tr_import_osm_rel.cpp:132-136 | there are no more members than tokens read |
| OsmRel.MembersAreWays | osm/tr_import_osm_rel.cpp:132-136 | every recorded member comes from a `<member>` token that `readMember` accepts |
| OsmRel.ReadStep | osm/tr_import_osm_rel.cpp:127-136 | reading one more token is one `readTag` or `readMember` step on what the earlier tokens gave |
| OsmRel.MembersOfPrefix | osm/tr_import_osm_rel.cpp:132-136 | reading more tokens never drops or reorders a member: the earlier members are a prefix |
| OsmRel.MembersRecorded | osm/tr_import_osm_rel.cpp:132-136 | conversely, every `<member>` token that `readMember` accepts is recorded, right after the members of the tokens before it |
| OsmRel.TypeFlags | osm/tr_import_osm_rel.cpp:235-243 | type multipolygon gives the multipolygon flag, type route the route flag, anything else 0 |
| OsmRel.PolyFlags | osm/tr_import_osm_rel.cpp:259-283 | the multipolygon is retagged exactly when it is not a `highway=pedestrian` one |
| OsmRel.ClosedKeepsShape | osm/tr_import_osm_rel.cpp:233-257 | `ClosedWays`, the way map `closeRelation` leaves, differs from the old map at most in classification words |
| OsmRel.OnlyPolygonsRetag | osm/tr_import_osm_rel.cpp:235-252 | a relation whose type is not multipolygon keeps only its type flags and leaves every way as it was |
| OsmRel.BuildingInnerBits | osm/tr_import_osm_rel.cpp:293-297 | a building inner ring gets low nibble 5 and keeps every other bit of the relation word |
| OsmRel.NaturalInnerBits | osm/tr_import_osm_rel.cpp:306-313 | a natural inner ring keeps the relation word when its low byte is non-zero, else gets class 3 |
| OsmRel.RetagKeepsShape | osm/tr_import_osm_rel.cpp:285-316 | `RetagWays`, the retagging loop as a function, changes only classification words |
| OsmRel.RetagSkipsNonMembers | osm/tr_import_osm_rel.cpp:285-316 | a way that is not a member is left as it was |
| OsmRel.RetagNeedsCategory | osm/tr_import_osm_rel.cpp:287-300 | without the building or the natural bit, the loop changes nothing |
| OsmRel.RetagLastMemberWins | osm/tr_import_osm_rel.cpp:285-316 | a member way ends with the relation word (or its inner variant) chosen by its last occurrence; its old word does not matter |
| OsmRel.NewTypeIgnoresOld | osm/tr_import_osm_rel.cpp:292-312 | `NewType`, the building and natural blocks of the loop: with a category bit set, the new word does not depend on the way's old word |
| OsmRel.OuterCount | osm/tr_import_osm_rel.cpp:63-67 | the outer count is at most the member count, and 0 exactly when no member has the outer role |
| OsmRel.ClearKeepsShape | osm/tr_import_osm_rel.cpp:72-85 | `resetPolyRing` changes only classification words |
| OsmRel.ClearOuterEffect | osm/tr_import_osm_rel.cpp:77-84 | `ClearOuter`, the map `resetPolyRing` leaves: a way loses the area flag exactly when it is an outer member; every other way is unchanged |
| OsmRel.ClearTwice | osm/tr_import_osm_rel.cpp:82 | clearing the area flag is idempotent |
| OsmRel.Relation.constructor | osm/tr_import_osm_rel.cpp:45-48 | a relation starts with no flags and no members |
| OsmRel.Relation.IsMultiPolyRing | osm/tr_import_osm_rel.cpp:58-70 | the count is the number of outer members for a multipolygon, and 0 otherwise |
| OsmRel.Relation.ResetPolyRing | osm/tr_import_osm_rel.cpp:72-85 | for a multipolygon, the way map becomes the one with the area flag cleared on outer members; otherwise it is unchanged |
| OsmRel.RelationReader.constructor | osm/tr_import_osm_rel.cpp:87-90 | the sub-parser starts with id 0 and no tags |
| OsmRel.RelationReader.ReadRelation | osm/tr_import_osm_rel.cpp:177-188 | members and tags are cleared; the id is replaced only when it parses |
| OsmRel.RelationReader.ReadMember | osm/tr_import_osm_rel.cpp:191-217 | the member list grows by the accepted member, or stays as it was |
| OsmRel.RelationReader.ReadTag | osm/tr_import_osm_rel.cpp:219-231 | the tag map grows as `readTag` does, first value wins |
| OsmRel.RelationReader.HandleMultiPoly | osm/tr_import_osm_rel.cpp:259-318 | the flags and the result are those of the relation's tags; the way map is retagged only when the result is true |
| OsmRel.RelationReader.RetagMembers | osm/tr_import_osm_rel.cpp:285-316 | the loop leaves the way map retagged along the member list |
| OsmRel.RelationReader.CloseRelation | osm/tr_import_osm_rel.cpp:233-257 | the tags are cleared; the flags are the type flags, with the category flags of `handleMultiPoly` for a multipolygon; the way map is retagged along the members for a multipolygon that is not a pedestrian area, else unchanged |
| OsmRel.RelationReader.OsmRelationRead | osm/tr_import_osm_rel.cpp:96-175 | stops at the first `</relation>` or at the end; true exactly on a close; the members are those of the tokens read; on a close the flags and the way map are those `closeRelation` gives the tokens' tags; otherwise flags 0 and the way map unchanged |
| OsmRel.RelationReader.ReadBody | osm/tr_import_osm_rel.cpp:106-167 | the loop stops at the first close or at the end, holding the tags and members of the tokens read |
| OsmRel.RelationReader.ReadOne | osm/tr_import_osm_rel.cpp:108-166 | one pass reads one token and folds it into the tags and members |
| OsmRel.RelationReader.ReadElement | osm/tr_import_osm_rel.cpp:127-136 | a `tag` start goes to `readTag`, a `member` start to `readMember`; other tokens change nothing |
| Classify.WayClassLastWins | osm/tr_import_osm_stream.cpp:354-410 | `WayClass`, the class chain of `closeWay`, is the last non-zero candidate in the order highway, railway, barrier, building, landuse, natural, and 0 when none is |
| Classify.BuildingOverrides | osm/tr_import_osm_stream.cpp:384-410 | a building tag overrides highway, railway and barrier; only landuse and natural come after it |
| Classify.UnclassifiedWay | osm/tr_import_osm_stream.cpp:340-410 | a way without a classifying tag has class 0 |
| Classify.DirCode | osm/tr_import_osm_stream.cpp:417-430 | a direction code is at most 2, and 0 for an absent tag |
| Classify.WayDirection | osm/tr_import_osm_stream.cpp:417-430 | in `WayType`, the whole word of `closeWay`: on a class whose direction bits are clear, the stored direction is the oneway code if non-zero, else the junction code; the rest of the class is kept |
| Classify.PointClassLastWins | osm/tr_import_osm_stream.cpp:225-267 | `PointClass`, the classification of `closeNode`, is the last non-zero code in the order highway, railway, natural, amenity, shop, and 0 when none is |
| OsmWorld.InternKeepsValid | osm/tr_import_osm_stream.cpp:444-462 | interning keeps ids distinct and smaller than the next id, and counts at least 1; the name gets its first id; old names keep theirs; a name is new exactly when its id is fresh |
| OsmWorld.InternAllCounts | osm/tr_import_osm_stream.cpp:280-299 | after interning a run of names from scratch, exactly those names are present, each with its number of occurrences |
| OsmWorld.SortedKeys | osm/tr_import_osm_stream.cpp:532 | the `QMap` iteration order: each key once, strictly ascending |
| OsmWorld.SortedKeysCover | osm/tr_import_osm_stream.cpp:532 | the iteration visits every key |
| OsmWorld.WayTable | osm/tr_import_osm_stream.cpp:523-545 | the way array has one entry per way |
| OsmWorld.WayTableOrdered | osm/tr_import_osm_stream.cpp:531-545 | the way array is strictly ascending by id |
| OsmWorld.WayTableComplete | osm/tr_import_osm_stream.cpp:531-545 | every stored way appears in the way array |
| OsmWorld.NodeTable | osm/tr_import_osm_stream.cpp:554-569 | the node array has one entry per node |
| OsmWorld.NodeTableComplete | osm/tr_import_osm_stream.cpp:561-569 | every node appears with its id and coordinates, and zero type and data |
| OsmWorld.WithNodeIds | osm/tr_import_osm_stream.cpp:574-582 | `setNodeIds` keeps the array length |
| OsmWorld.NodeIdsRestored | osm/tr_import_osm_stream.cpp:574-582 | after `setNodeIds` on the node array, the ids are the node keys in ascending order, each with that node's coordinates |
| OsmWorld.CopyOut | osm/tr_import_osm_stream.cpp:487-493 | malloc, memset and the copy loop give a fresh array that holds the list |
| OsmWorld.World.Intern | osm/tr_import_osm_stream.cpp:444-462 | a name is new exactly when absent; it gets the next id and count 1; a known name keeps its id and its count grows |
| OsmStream.InsertFirst | osm/tr_import_osm_stream.cpp:497-507 | a record is added only under a positive key; an existing record is never replaced |
| OsmStream.CloseKeepsNames | osm/tr_import_osm_stream.cpp:280-299 | closing an element keeps the name table valid and gives the element the id of its name, or the fallback when it has none |
| OsmStream.ShiftedIsShift | osm/tr_import_osm_stream.cpp:477-482 | `if(park_code) parking = park_code >> 20` is the plain shift |
| OsmStream.StoredParking | osm/tr_import_osm_stream.cpp:476-482 | the stored parking word is the decoded word shifted down by 20, and 0 when no key starts with `parking` |
| OsmStream.WayRecordValid | osm/tr_import_osm_stream.cpp:483-507 | storing a closed way keeps the way map invariant; a new way holds its reference list and a non-zero lane word |
| OsmStream.WaysKeptTrans | osm/tr_import_osm_stream.cpp:76-154 | keeping ways across two steps keeps them across both |
| OsmStream.NodesKeptTrans | osm/tr_import_osm_stream.cpp:76-154 | keeping nodes across two steps keeps them across both |
| OsmStream.Importer.constructor | osm/tr_import_osm_stream.cpp:49-53 | the walker starts with no open element and empty maps |
| OsmStream.Importer.ReadTag | osm/tr_import_osm_stream.cpp:186-198 | the tag map grows as `readTag` does |
| OsmStream.Importer.ReadNodePoint | osm/tr_import_osm_stream.cpp:200-214 | the node id is the parsed id, or 0; the coordinates are the converted lon and lat |
| OsmStream.Importer.ReadWay | osm/tr_import_osm_stream.cpp:322-331 | the reference list is cleared and the way id is the parsed id, or 0 |
| OsmStream.Importer.ReadNd | osm/tr_import_osm_stream.cpp:119-126 | a positive ref is appended; anything else is dropped |
| OsmStream.Importer.CloseNode | osm/tr_import_osm_stream.cpp:216-320 | the node is stored under its id unless the id is 0 or taken, as the record `PointRecord`: the name id as point id and its class; a new name is also recorded in the point name map; the open node is reset |
| OsmStream.Importer.CloseWay | osm/tr_import_osm_stream.cpp:333-511 | the way is stored under its id unless the id is 0 or taken, with its class, references, lanes, width, name and parking; names are interned; the open way is reset |
| OsmStream.Importer.BuildWay | osm/tr_import_osm_stream.cpp:335-493 | the record is `ClosedWay`, built from the open way's tags and references: class `WayType`, copied references, lanes, width, name id and parking |
| OsmStream.Importer.CloseOsm | osm/tr_import_osm_stream.cpp:513-572 | the world gets fresh arrays with the way and node counts, holding the ways and the nodes in ascending key order |
| OsmStream.Importer.FillWays | osm/tr_import_osm_stream.cpp:531-545 | the copy loop fills the array with the ways in key order |
| OsmStream.Importer.FillNodes | osm/tr_import_osm_stream.cpp:561-569 | the copy loop fills the array with the id and coordinates of each node in key order |
| OsmStream.Importer.SetNodeIds | osm/tr_import_osm_stream.cpp:574-582 | the first entries of the node array take the node keys in ascending order; nothing else changes |
| OsmStream.Importer.AddRelation | osm/tr_import_osm_stream.cpp:584-597 | one relation with id 0 is appended, holding the flags, the member list and its length |
| OsmStream.RelationOutcome | osm/tr_import_osm_stream.cpp:99-113 | reading, then keeping or dropping, gives exactly the relations and the way map of the relation branch |
| OsmStream.RelationWaysShape | osm/tr_import_osm_stream.cpp:99-113 | the relation branch changes ways only in type, and every relation it keeps has id 0, its member count, the multipolygon flag and more than one outer ring |
| OsmStream.Importer.HandleRelation | osm/tr_import_osm_stream.cpp:99-113 | the reader stops where the sub-parser stops, on `</relation>` or on the end-of-stream token; the relation list grows by the closed relation exactly when it was read up to `</relation>` and counts more than one outer ring; the way map is the closed one, with the area flag of the outer rings cleared for a kept relation |
| OsmStream.Importer.KeepRelation | osm/tr_import_osm_stream.cpp:104-111 | a relation read to its end with more than one outer ring has its outer rings' area flag cleared and is appended; otherwise nothing changes |
| OsmStream.Importer.ReadRelation | osm/tr_import_osm_stream.cpp:101-103 | a fresh sub-parser reads the relation; true exactly on a close; the members are those read; on a close the flags and way map are those of `closeRelation`, otherwise flags 0 and the way map unchanged; the reader stands on `</relation>` or the end-of-stream token |
| OsmStream.Importer.StartElement | osm/tr_import_osm_stream.cpp:79-127 | `<osm>` resets the name counter to 1; `<node>` sets id and coordinates; `<way>` clears the references and sets the id; `<tag>` adds the tag; `<nd>` appends a positive ref; only `<relation>` moves the reader or touches relations and ways; the walker invariant holds |
| OsmStream.Importer.StartOwn | osm/tr_import_osm_stream.cpp:81-112 | the `osm`, `node`, `way` and `relation` tests, each with the state it sets; after a relation the current token is `</relation>` or a token without a name |
| OsmStream.Importer.EndElement | osm/tr_import_osm_stream.cpp:128-153 | an end token keeps the walker invariant; nodes and ways kept, relations unchanged |
| OsmStream.Importer.OsmRead | osm/tr_import_osm_stream.cpp:63-163 | the walk reads to the end; true exactly when the reader reports no error; the invariant holds, nodes and ways are kept, relations only appended |

## Left out

- Reading the file (`QFile`, lines 65-70 of the stream importer) is the token sequence the reader is built from. So the file-open failure path is not modelled, and the reader's error flag is fixed when it is built.
- Logging (`TR_WRN`, `TR_ERR`, `TR_INF`), `errorString`, and the debug `operator<<` of `Relation` are not modelled.
- A `malloc` that fails is not modelled: in `closeWay`, `closeOsm` and `addRelation`, allocation succeeds.
- The `TESTX` variant of `closeOsm` is not modelled; the model follows the `#else` branch, `way_count` / `node_count`.
- `init` and `setSurroundingRect` return `false` and do nothing; `getNodeMap` and `getRelationList` are the `nodes` and `rels` fields.
- The header file is not part of this model. The constants are the symbolic fields of `Header.Consts`, and the lemmas that need a layout fact (for example a ramp flag outside the low nibble) require it as a predicate.
- OsmStream.Importer.ReadNodePoint: the `toDouble`, `TR_COOR_FACTOR`, `* 100.0` and `int32_t` steps are one function `Conv.coord` of the attribute text. Floating point, truncation and failed conversions are not modelled.
- OsmStream.Importer.CloseWay: the width `static_cast<uint32_t>(width * 1000)` is `Conv.width`, which fails when `toDouble` fails. Floating point and truncation are not modelled.
- Ids, counts and `act_name_idx` are unbounded naturals; parsed ids stay below 2^64. The `int64_t` in `readRelation` and the `-1` member id of a failed `readMember` are not modelled, since neither value is stored.
- The tag accumulator is a `map` and is scanned in whatever order the map gives. `getParking` ORs the bits, so the order of the scan does not matter.
- Parking.Word: the parking word is the OR of the header constants chosen by a set of named bits. The facts about sides, markings and mirroring are proved at the level of that set. That the bit words of the two sides are disjoint is not proved.
- Parking.ParkingTest: `if(!ret) return ret` is treated as "no orientation bit was chosen", which holds because the model chooses bits as a set rather than ORing constants that might be 0.
- The barrier lookup in `closeNode` sets nothing in the source, and the model ignores it. So do the `waterway`, `name:en` and `power` checks of `closeWay`, which also do nothing.
- OsmWorld.InternKeepsValid: the invariant that name ids are distinct is not kept across a second `<osm>` start, because `act_name_idx` goes back to 1 while the name map is not cleared. The model resets `nextName` exactly as the source does, and `OsmRead` promises nothing about names.
- OsmStream.Importer.CloseNode: the point name map gets an entry only for a new name, as in the source. A node with a known name gets that name's id but no map entry.
- OsmStream.Importer.OsmRead: states the invariants of the walk and that nodes and ways are never lost, not the final maps as a function of the whole token sequence.
- OsmStream.Importer.EndElement: states the invariant and what is kept; each branch's new state is in the contract of `CloseOsm`, `CloseNode` or `CloseWay`.
- Text.ParseULong: white space is the ASCII white space (space, tab, line feed, vertical tab, form feed, carriage return). The other Unicode spaces that `QChar::isSpace` accepts around a number are not modelled.
- LanduseTable.GetLanduseClass: states that unlisted values give 0, not the code of each listed value.
- NaturalTable.GetNaturalClass: states that unlisted values give 0, not the code of each listed value.
- HighwayPointTable.GetHighwayPointClass: states which values are recognised, not the code each one gives.
- AmenityTable.GetAmenityClass: states which values are recognised, not the code each one gives, apart from the street-furniture lemma.
- ShopTable.GetShopClass: states which values are recognised, not the code each one gives.
- OsmRel.RelationReader.OsmRelationRead: the source's single loop with an early return is split into `ReadBody`, `ReadOne` and `ReadElement`. Its two `return false` paths, after an error and at the end, are both "not found".
- OsmRel.RelationReader.HandleMultiPoly: the building and natural blocks of the retagging loop are one function, `NewType`. The natural block runs after the building block and overwrites it, as in the source.
- The route flag is set but nothing is done with it, as in the source.
