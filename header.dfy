/** The classification constants the importer takes from its headers
    (`TYPE_*`, `FLAG_*`, `V_PARK_*`, `BUILDING_*`, `LANDUSE_*`, ...). Their
    values are not part of this model, so every member that needs one takes a
    `Consts` record, and each property that depends on how the bits are laid
    out names the layout predicate it assumes. The literal masks of the
    sources (`0x07`, `0xfffffffffffffff0`, the rail classes `0x80`-`0xB0`, the
    parking side bits) are written out where they are used. */
module Header {

  /** Category bits of a classification word. */
  datatype TypeBits = TypeBits(
    TYPE_ROAD: bv64, TYPE_RAIL: bv64, TYPE_BUILDING: bv64, TYPE_LANDUSE: bv64,
    TYPE_NATURAL: bv64, TYPE_PUBLIC: bv64, TYPE_POI_N_TREE: bv64)

  /** Modifier flags of a classification word and of a relation. */
  datatype FlagBits = FlagBits(
    FLAG_RAMP: bv64, FLAG_FEATURE_AERA: bv64, FLAG_FEATURE_NODE: bv64,
    FLAG_MULTI_POLY: bv64, FLAG_ROUTE: bv64)

  /** Relation member roles. */
  datatype RoleBits = RoleBits(REL_MEM_ROLE_OUT: bv64, REL_MEM_ROLE_IN: bv64)

  /** Parking restriction bits, before the shift by 20. */
  datatype ParkBits = ParkBits(
    V_PARK_NO_R: bv64, V_PARK_NO_L: bv64,
    V_PARK_PARALLEL_R: bv64, V_PARK_PARALLEL_L: bv64,
    V_PARK_DIAGONAL_R: bv64, V_PARK_DIAGONAL_L: bv64,
    V_PARK_PERPENDI_R: bv64, V_PARK_PERPENDI_L: bv64,
    FLAG_PARKING_R: bv64, FLAG_PARKING_L: bv64)

  /** Building subclasses. */
  datatype BuildingBits = BuildingBits(
    BUILDING_HOUSE: bv64, BUILDING_APAR: bv64, BUILDING_PUBLIC: bv64,
    BUILDING_SERVICE: bv64, BUILDING_REL: bv64, BUILDING_LEARN: bv64,
    BUILDING_MEDI: bv64, BUILDING_INDUST: bv64, BUILDING_CAR: bv64,
    BUILDING_RUINS: bv64)

  /** Landuse, natural and waterway subclasses. */
  datatype CoverBits = CoverBits(
    LANDUSE_WOOD: bv64, LANDUSE_GRASS: bv64, LANDUSE_BUSHES: bv64,
    LANDUSE_MIXED: bv64, LANDUSE_RESIDENTIAL: bv64, LANDUSE_INDUSTRIAL: bv64,
    NATURAL_WATER: bv64, NATURAL_WET: bv64,
    WATER_RIVER: bv64, WATER_STREAM: bv64)

  /** All header constants, grouped by what they classify. */
  datatype Consts = Consts(types: TypeBits, flags: FlagBits, roles: RoleBits,
                           park: ParkBits, building: BuildingBits, cover: CoverBits)

  /** The area flag is a real bit. */
  predicate AreaFlagSet(h: Consts) {
    h.flags.FLAG_FEATURE_AERA != 0
  }

  /** The ramp flag is a real bit outside the road-class nibble. */
  predicate RampOutsideNibble(h: Consts) {
    h.flags.FLAG_RAMP != 0 && h.flags.FLAG_RAMP & 0xF == 0
  }

  /** The multipolygon and route flags are two different real bits. */
  predicate RelationFlagsDistinct(h: Consts) {
    h.flags.FLAG_MULTI_POLY != 0 && h.flags.FLAG_ROUTE != 0 &&
    h.flags.FLAG_MULTI_POLY & h.flags.FLAG_ROUTE == 0
  }
}
