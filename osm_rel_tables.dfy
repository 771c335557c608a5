// The string-to-code classifier tables of `TrImportOsmRel` (`get*Class`),
// one module per table. Each is an exact-string lookup; a value the table
// does not list yields zero ("no classification from this tag"), except for
// buildings, which fall back to a generic building area. Which values a
// table lists, and what it returns for the rest, is each function's
// contract.

/** The bit fact the classifier tables' contracts rest on. */
module TableBits {

  /** `a | n` keeps every bit of `n`. */
  lemma OrKeeps(a: bv64, n: bv64)
    ensures (a | n) & n == n
  {
  }
}

/** `TrImportOsmRel::getBarrierClass`. */
module BarrierTable {
  import opened Header

  predicate IsBarrierValue(value: string) {
    value == "guard_rail" || value == "gate" || value == "bollard" ||
    value == "entrance"
  }

  /** `getBarrierClass`: zero exactly for an unlisted value. */
  function GetBarrierClass(h: Consts, value: string): (r: bv64)
    ensures r != 0 <==> IsBarrierValue(value)
  {
    if value == "guard_rail" then 1
    else if value == "gate" then h.flags.FLAG_FEATURE_NODE | 2
    else if value == "bollard" then h.flags.FLAG_FEATURE_NODE | 3
    else if value == "entrance" then h.flags.FLAG_FEATURE_NODE | 2
    else 0
  }
}

/** `TrImportOsmRel::getBuildingClass`: total, with a generic fallback. */
module BuildingTable {
  import opened Header
  import opened TableBits

  /** The `building` values the table lists. */
  predicate IsBuildingValue(value: string) {
    value == "yes" || value == "house" || value == "bungalow" ||
    value == "terrace" || value == "detached" ||
    value == "semidetached_house" || value == "residential" ||
    value == "apartments" || value == "dormitory" || value == "retail" ||
    value == "office" || value == "commercial" || value == "warehouse" ||
    value == "roof" || value == "bridge" || value == "kiosk" ||
    value == "church" || value == "chapel" || value == "public" ||
    value == "civic" || value == "school" || value == "hospital" ||
    value == "fire_station" || value == "kindergarten" ||
    value == "industrial" || value == "farm" || value == "farm_auxiliary" ||
    value == "barn" || value == "cowshed" || value == "stable" ||
    value == "allotment_house" || value == "hut" || value == "sports_centre" ||
    value == "greenhouse" || value == "garage" || value == "garages" ||
    value == "carport" || value == "parking" || value == "hotel" ||
    value == "government" || value == "museum" || value == "university" ||
    value == "ruins" || value == "shed" || value == "guardhouse" ||
    value == "service" || value == "chalet" || value == "sports_hall" ||
    value == "clinic" || value == "water_tower"
  }

  /** The subclass half of `getBuildingClass`, in the table's own order;
      every branch of the table adds `FLAG_FEATURE_AERA` to it, and a value
      the table does not list is the generic class 7. */
  function BuildingSubclass(h: Consts, value: string): (r: bv64)
    ensures !IsBuildingValue(value) ==> r == 0x0007
  {
    if value == "yes" then h.building.BUILDING_HOUSE
    else if value == "house" then h.building.BUILDING_HOUSE
    else if value == "bungalow" then h.building.BUILDING_HOUSE
    else if value == "terrace" then h.building.BUILDING_HOUSE
    else if value == "detached" then h.building.BUILDING_HOUSE
    else if value == "semidetached_house" then h.building.BUILDING_HOUSE
    else if value == "residential" then h.building.BUILDING_APAR
    else if value == "apartments" then h.building.BUILDING_APAR
    else if value == "dormitory" then h.building.BUILDING_APAR
    else if value == "retail" then h.building.BUILDING_PUBLIC
    else if value == "office" then h.building.BUILDING_PUBLIC
    else if value == "commercial" then h.building.BUILDING_PUBLIC
    else if value == "warehouse" then h.building.BUILDING_PUBLIC
    else if value == "roof" then h.building.BUILDING_PUBLIC
    else if value == "bridge" then h.building.BUILDING_SERVICE
    else if value == "kiosk" then h.building.BUILDING_PUBLIC
    else if value == "church" then h.building.BUILDING_REL
    else if value == "chapel" then h.building.BUILDING_REL
    else if value == "public" then h.building.BUILDING_PUBLIC
    else if value == "civic" then h.building.BUILDING_PUBLIC
    else if value == "school" then h.building.BUILDING_LEARN
    else if value == "hospital" then h.building.BUILDING_MEDI
    else if value == "fire_station" then h.building.BUILDING_SERVICE
    else if value == "kindergarten" then h.building.BUILDING_LEARN
    else if value == "industrial" then h.building.BUILDING_INDUST
    else if value == "farm" then h.building.BUILDING_HOUSE
    else if value == "farm_auxiliary" then h.building.BUILDING_HOUSE
    else if value == "barn" then h.building.BUILDING_HOUSE
    else if value == "cowshed" then h.building.BUILDING_HOUSE
    else if value == "stable" then h.building.BUILDING_HOUSE
    else if value == "allotment_house" then h.building.BUILDING_HOUSE
    else if value == "hut" then h.building.BUILDING_HOUSE
    else if value == "sports_centre" then h.building.BUILDING_SERVICE
    else if value == "greenhouse" then h.building.BUILDING_INDUST
    else if value == "garage" then h.building.BUILDING_CAR
    else if value == "garages" then h.building.BUILDING_CAR
    else if value == "carport" then h.building.BUILDING_CAR
    else if value == "parking" then h.building.BUILDING_CAR
    else if value == "hotel" then h.building.BUILDING_PUBLIC
    else if value == "government" then h.building.BUILDING_PUBLIC
    else if value == "museum" then h.building.BUILDING_PUBLIC
    else if value == "university" then h.building.BUILDING_LEARN
    else if value == "ruins" then h.building.BUILDING_RUINS
    else if value == "shed" then h.building.BUILDING_HOUSE
    else if value == "guardhouse" then h.building.BUILDING_SERVICE
    else if value == "service" then h.building.BUILDING_SERVICE
    else if value == "chalet" then h.building.BUILDING_HOUSE
    else if value == "sports_hall" then h.building.BUILDING_PUBLIC
    else if value == "clinic" then h.building.BUILDING_PUBLIC
    else if value == "water_tower" then h.building.BUILDING_SERVICE
    else 0x0007
  }

  /** `getBuildingClass`: every result carries the area flag, and a value
      outside the table is the generic building area. */
  function GetBuildingClass(h: Consts, value: string): (r: bv64)
    ensures r & h.flags.FLAG_FEATURE_AERA == h.flags.FLAG_FEATURE_AERA
    ensures !IsBuildingValue(value) ==> r == 0x0007 | h.flags.FLAG_FEATURE_AERA
  {
    OrKeeps(BuildingSubclass(h, value), h.flags.FLAG_FEATURE_AERA);
    BuildingSubclass(h, value) | h.flags.FLAG_FEATURE_AERA
  }

  /** With a real area bit, no tag value leaves a building unclassified. */
  lemma BuildingNeverZero(h: Consts, value: string)
    requires AreaFlagSet(h)
    ensures GetBuildingClass(h, value) != 0
  {
  }
}

/** `TrImportOsmRel::getHighwayPointClass`. */
module HighwayPointTable {
  import opened Header

  predicate IsHighwayPointValue(value: string) {
    value == "level_crossing" || value == "crossing" ||
    value == "street_lamp" || value == "traffic_signals" ||
    value == "bus_stop" || value == "turning_circle"
  }

  /** `getHighwayPointClass`: zero exactly for an unlisted value. */
  function GetHighwayPointClass(h: Consts, value: string): (r: bv64)
    ensures r != 0 <==> IsHighwayPointValue(value)
  {
    if value == "level_crossing" then 1 | h.flags.FLAG_FEATURE_NODE | h.types.TYPE_ROAD
    else if value == "crossing" then 1 | h.flags.FLAG_FEATURE_NODE | h.types.TYPE_ROAD
    else if value == "street_lamp" then 2
    else if value == "traffic_signals" then 7 | h.flags.FLAG_FEATURE_NODE | h.types.TYPE_ROAD
    else if value == "bus_stop" then 8 | h.flags.FLAG_FEATURE_NODE | h.types.TYPE_ROAD
    else if value == "turning_circle" then 6 | h.flags.FLAG_FEATURE_NODE | h.types.TYPE_ROAD
    else 0
  }
}

/** `TrImportOsmRel::getRailwayPointClass`. */
module RailwayPointTable {
  import opened Header

  /** The track markers, which classify as the plain code 1. */
  predicate IsRailwayMarker(value: string) {
    value == "milestone" || value == "switch" || value == "level_crossing" ||
    value == "crossing" || value == "railway_crossing" ||
    value == "tram_crossing" || value == "tram_level_crossing" ||
    value == "buffer_stop"
  }

  /** The stops, stations and signals. */
  predicate IsRailwayStop(value: string) {
    value == "stop" || value == "tram_stop" || value == "station" ||
    value == "signal"
  }

  /** `getRailwayPointClass`: zero exactly for an unlisted value. */
  function GetRailwayPointClass(h: Consts, value: string): (r: bv64)
    ensures r != 0 <==> IsRailwayMarker(value) || IsRailwayStop(value)
  {
    if value == "milestone" then 1
    else if value == "switch" then 1
    else if value == "level_crossing" then 1
    else if value == "crossing" then 1
    else if value == "railway_crossing" then 1
    else if value == "tram_crossing" then 1
    else if value == "tram_level_crossing" then 1
    else if value == "buffer_stop" then 1
    else if value == "stop" then 8 | h.flags.FLAG_FEATURE_NODE | h.types.TYPE_RAIL
    else if value == "tram_stop" then 8 | h.flags.FLAG_FEATURE_NODE | h.types.TYPE_RAIL
    else if value == "station" then 8 | h.flags.FLAG_FEATURE_NODE | h.types.TYPE_RAIL
    else if value == "signal" then 7 | h.flags.FLAG_FEATURE_NODE | h.types.TYPE_RAIL
    else 0
  }

  lemma RailwayMarkersPlain(h: Consts, value: string)
    requires IsRailwayMarker(value)
    ensures GetRailwayPointClass(h, value) == 1
  {
  }
}

/** `TrImportOsmRel::getAmenityClass`. */
module AmenityTable {
  import opened Header

  /** Street furniture, which classifies as the plain code 1. */
  predicate IsStreetFurniture(value: string) {
    value == "bench" || value == "waste_basket" || value == "recycling" ||
    value == "fountain" || value == "hunting_stand"
  }

  /** The amenities that are point features. */
  predicate IsAmenityFeature(value: string) {
    value == "parking" || value == "bicycle_parking" ||
    value == "parking_entrance" || value == "vending_machine" ||
    value == "restaurant" || value == "cafe" || value == "bar" ||
    value == "pub" || value == "fast_food" || value == "canteen" ||
    value == "doctors" || value == "veterinary" || value == "dentist" ||
    value == "pharmacy" || value == "post_box" || value == "kindergarten" ||
    value == "place_of_worship" || value == "shelter" || value == "fuel" ||
    value == "charging_station" || value == "taxi"
  }

  /** `getAmenityClass`: zero exactly for an unlisted value. */
  function GetAmenityClass(h: Consts, value: string): (r: bv64)
    ensures r != 0 <==> IsStreetFurniture(value) || IsAmenityFeature(value)
  {
    if value == "bench" then 1
    else if value == "waste_basket" then 1
    else if value == "recycling" then 1
    else if value == "fountain" then 1
    else if value == "hunting_stand" then 1
    else if value == "parking" then 2 | h.flags.FLAG_FEATURE_NODE | h.types.TYPE_ROAD
    else if value == "bicycle_parking" then 2 | h.flags.FLAG_FEATURE_NODE | h.types.TYPE_ROAD
    else if value == "parking_entrance" then 2 | h.flags.FLAG_FEATURE_NODE | h.types.TYPE_ROAD
    else if value == "vending_machine" then 2 | h.flags.FLAG_FEATURE_NODE | h.types.TYPE_ROAD
    else if value == "restaurant" then 1 | h.flags.FLAG_FEATURE_NODE | h.types.TYPE_PUBLIC
    else if value == "cafe" then 1 | h.flags.FLAG_FEATURE_NODE | h.types.TYPE_PUBLIC
    else if value == "bar" then 1 | h.flags.FLAG_FEATURE_NODE | h.types.TYPE_PUBLIC
    else if value == "pub" then 1 | h.flags.FLAG_FEATURE_NODE | h.types.TYPE_PUBLIC
    else if value == "fast_food" then 1 | h.flags.FLAG_FEATURE_NODE | h.types.TYPE_PUBLIC
    else if value == "canteen" then 1 | h.flags.FLAG_FEATURE_NODE | h.types.TYPE_PUBLIC
    else if value == "doctors" then 5 | h.flags.FLAG_FEATURE_NODE | h.types.TYPE_PUBLIC
    else if value == "veterinary" then 5 | h.flags.FLAG_FEATURE_NODE | h.types.TYPE_PUBLIC
    else if value == "dentist" then 5 | h.flags.FLAG_FEATURE_NODE | h.types.TYPE_PUBLIC
    else if value == "pharmacy" then 5 | h.flags.FLAG_FEATURE_NODE | h.types.TYPE_PUBLIC
    else if value == "post_box" then 6 | h.flags.FLAG_FEATURE_NODE | h.types.TYPE_PUBLIC
    else if value == "kindergarten" then 6 | h.flags.FLAG_FEATURE_NODE | h.types.TYPE_PUBLIC
    else if value == "place_of_worship" then 3 | h.flags.FLAG_FEATURE_NODE | h.types.TYPE_PUBLIC
    else if value == "shelter" then 4 | h.flags.FLAG_FEATURE_NODE | h.types.TYPE_ROAD
    else if value == "fuel" then 5 | h.flags.FLAG_FEATURE_NODE | h.types.TYPE_ROAD
    else if value == "charging_station" then 6 | h.flags.FLAG_FEATURE_NODE | h.types.TYPE_ROAD
    else if value == "taxi" then 5 | h.flags.FLAG_FEATURE_NODE | h.types.TYPE_ROAD
    else 0
  }

  lemma StreetFurniturePlain(h: Consts, value: string)
    requires IsStreetFurniture(value)
    ensures GetAmenityClass(h, value) == 1
  {
  }
}

/** `TrImportOsmRel::getShopClass`. */
module ShopTable {
  import opened Header

  predicate IsShopValue(value: string) {
    value == "vacant" || value == "kiosk" || value == "supermarket" ||
    value == "convenience" || value == "beverages" || value == "wine" ||
    value == "bakery" || value == "butcher" || value == "florist" ||
    value == "beauty" || value == "laundry" || value == "hairdresser" ||
    value == "electronics" || value == "clothes" || value == "car_repair"
  }

  /** `getShopClass`: zero exactly for an unlisted value. */
  function GetShopClass(h: Consts, value: string): (r: bv64)
    ensures r != 0 <==> IsShopValue(value)
  {
    if value == "vacant" then 1
    else if value == "kiosk" then 1 | h.flags.FLAG_FEATURE_NODE | h.types.TYPE_PUBLIC
    else if value == "supermarket" then 2 | h.flags.FLAG_FEATURE_NODE | h.types.TYPE_PUBLIC
    else if value == "convenience" then 2 | h.flags.FLAG_FEATURE_NODE | h.types.TYPE_PUBLIC
    else if value == "beverages" then 2 | h.flags.FLAG_FEATURE_NODE | h.types.TYPE_PUBLIC
    else if value == "wine" then 2 | h.flags.FLAG_FEATURE_NODE | h.types.TYPE_PUBLIC
    else if value == "bakery" then 2 | h.flags.FLAG_FEATURE_NODE | h.types.TYPE_PUBLIC
    else if value == "butcher" then 2 | h.flags.FLAG_FEATURE_NODE | h.types.TYPE_PUBLIC
    else if value == "florist" then 1 | h.flags.FLAG_FEATURE_NODE | h.types.TYPE_PUBLIC
    else if value == "beauty" then 3 | h.flags.FLAG_FEATURE_NODE | h.types.TYPE_PUBLIC
    else if value == "laundry" then 3 | h.flags.FLAG_FEATURE_NODE | h.types.TYPE_PUBLIC
    else if value == "hairdresser" then 3 | h.flags.FLAG_FEATURE_NODE | h.types.TYPE_PUBLIC
    else if value == "electronics" then 4 | h.flags.FLAG_FEATURE_NODE | h.types.TYPE_PUBLIC
    else if value == "clothes" then 2 | h.flags.FLAG_FEATURE_NODE | h.types.TYPE_PUBLIC
    else if value == "car_repair" then 5 | h.flags.FLAG_FEATURE_NODE | h.types.TYPE_ROAD
    else 0
  }
}

/** `TrImportOsmRel::getLanduseClass`. */
module LanduseTable {
  import opened Header

  predicate IsLanduseValue(value: string) {
    value == "forest" || value == "grass" || value == "recreation_ground" ||
    value == "meadow" || value == "village_green" || value == "farmland" ||
    value == "commercial" || value == "residential" || value == "construction"
  }

  /** `getLanduseClass`: an unlisted value is zero. */
  function GetLanduseClass(h: Consts, value: string): (r: bv64)
    ensures !IsLanduseValue(value) ==> r == 0
  {
    if value == "forest" then h.cover.LANDUSE_WOOD | h.flags.FLAG_FEATURE_AERA
    else if value == "grass" then h.cover.LANDUSE_GRASS | h.flags.FLAG_FEATURE_AERA
    else if value == "recreation_ground" then h.cover.LANDUSE_GRASS | h.flags.FLAG_FEATURE_AERA
    else if value == "meadow" then h.cover.LANDUSE_GRASS | h.flags.FLAG_FEATURE_AERA
    else if value == "village_green" then h.cover.LANDUSE_BUSHES | h.flags.FLAG_FEATURE_AERA
    else if value == "farmland" then h.cover.LANDUSE_BUSHES | h.flags.FLAG_FEATURE_AERA
    else if value == "commercial" then h.cover.LANDUSE_MIXED | h.flags.FLAG_FEATURE_AERA
    else if value == "residential" then h.cover.LANDUSE_RESIDENTIAL | h.flags.FLAG_FEATURE_AERA
    else if value == "construction" then h.cover.LANDUSE_INDUSTRIAL | h.flags.FLAG_FEATURE_AERA
    else 0
  }
}

/** `TrImportOsmRel::getNaturalClass`. */
module NaturalTable {
  import opened Header

  predicate IsNaturalArea(value: string) {
    value == "wood" || value == "grassland" || value == "water" ||
    value == "shingle"
  }

  /** `getNaturalClass`: a value that is neither a listed area nor a tree
      is zero. */
  function GetNaturalClass(h: Consts, value: string): (r: bv64)
    ensures !IsNaturalArea(value) && value != "tree" ==> r == 0
  {
    if value == "wood" then h.cover.LANDUSE_WOOD | h.flags.FLAG_FEATURE_AERA
    else if value == "grassland" then h.cover.LANDUSE_GRASS | h.flags.FLAG_FEATURE_AERA
    else if value == "water" then h.cover.NATURAL_WATER | h.flags.FLAG_FEATURE_AERA
    else if value == "shingle" then h.cover.NATURAL_WET | h.flags.FLAG_FEATURE_AERA
    else if value == "tree" then 8 | h.flags.FLAG_FEATURE_NODE | h.types.TYPE_POI_N_TREE | h.types.TYPE_NATURAL
    else 0
  }

  /** A tree is a natural point feature, never zero. */
  lemma NaturalTree(h: Consts)
    ensures GetNaturalClass(h, "tree") != 0
    ensures GetNaturalClass(h, "tree") & (h.flags.FLAG_FEATURE_NODE | h.types.TYPE_NATURAL) ==
            h.flags.FLAG_FEATURE_NODE | h.types.TYPE_NATURAL
  {
  }
}

/** `TrImportOsmRel::getWaterWayClass`. */
module WaterWayTable {
  import opened Header
  import opened TableBits

  /** `getWaterWayClass`: anything but a river or a stream is zero. */
  function GetWaterWayClass(h: Consts, value: string): (r: bv64)
    ensures value != "river" && value != "stream" ==> r == 0
  {
    if value == "river" then h.cover.WATER_RIVER | h.flags.FLAG_FEATURE_AERA
    else if value == "stream" then h.cover.WATER_STREAM | h.flags.FLAG_FEATURE_AERA
    else 0
  }

  /** Both listed waterways are areas. */
  lemma WaterWayAreas(h: Consts, value: string)
    requires value == "river" || value == "stream"
    ensures GetWaterWayClass(h, value) & h.flags.FLAG_FEATURE_AERA == h.flags.FLAG_FEATURE_AERA
  {
    if value == "river" {
      OrKeeps(h.cover.WATER_RIVER, h.flags.FLAG_FEATURE_AERA);
    } else {
      OrKeeps(h.cover.WATER_STREAM, h.flags.FLAG_FEATURE_AERA);
    }
  }
}

/** `TrImportOsmRel::getRailWayClass`, the class of a railway line. */
module RailWayTable {

  /** `getRailWayClass`: the rail class lives in bits 4-7, one code per
      kind of track, light rail and tram sharing theirs; anything else is
      zero. */
  function GetRailWayClass(value: string): (r: bv64)
    ensures r == 0x80 <==> value == "rail"
    ensures r == 0x90 <==> value == "subway"
    ensures r == 0xA0 <==> value == "light_rail" || value == "tram"
    ensures r == 0xB0 <==> value == "narrow_gauge"
    ensures (value != "rail" && value != "subway" && value != "light_rail" &&
             value != "tram" && value != "narrow_gauge") ==> r == 0
    ensures r & !0xF0 == 0
  {
    if value == "rail" then 0x80
    else if value == "subway" then 0x90
    else if value == "light_rail" then 0xA0
    else if value == "tram" then 0xA0
    else if value == "narrow_gauge" then 0xB0
    else 0
  }
}
