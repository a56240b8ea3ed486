/**
 * Normalisation of an already-parsed detail record into the display record
 * the cards and the overlay use: the type names in order, the background
 * colour of the first type, and four base stats read at fixed positions.
 */
module Detail {
  import opened Wrappers

  /** One entry of `data.types`: its `type.name`. */
  datatype TypeSlot = TypeSlot(typeName: string)

  /** One entry of `data.stats`: its `base_stat`. */
  datatype StatSlot = StatSlot(baseStat: int)

  /**
   * What `data.sprites.versions['generation-v']['black-white'].animated` gives:
   * nothing (a missing object on the way, which throws), or the object with
   * its possibly absent `front_default`.
   */
  datatype Sprites = PathMissing | Animated(frontDefault: Option<string>)

  /** The parsed detail response, as far as it is read. */
  datatype RawDetail = RawDetail(
    id: int,
    name: string,
    sprites: Sprites,
    types: seq<TypeSlot>,
    stats: seq<StatSlot>)

  /**
   * The display record. `image` and `backgroundColor` are None where the
   * source holds `undefined`.
   */
  datatype PokemonDetail = PokemonDetail(
    id: int,
    name: string,
    image: Option<string>,
    types: seq<string>,
    backgroundColor: Option<string>,
    atk: int,
    def: int,
    hp: int,
    spd: int)

  /** Positions of the base stats in `data.stats`. */
  const HP_INDEX: nat := 0
  const ATK_INDEX: nat := 1
  const DEF_INDEX: nat := 2
  const SPD_INDEX: nat := 5

  /** Background colour used when a record has no types. */
  const DEFAULT_COLOR: string := "#ffffff"

  /** The `typeColors` table: one colour per standard type. */
  const TYPE_COLORS: map<string, string> := map[
    "normal" := "#A8A878",
    "fire" := "#F08030",
    "water" := "#6890F0",
    "electric" := "#F8D030",
    "grass" := "#78C850",
    "ice" := "#98D8D8",
    "fighting" := "#C03028",
    "poison" := "#A040A0",
    "ground" := "#E0C068",
    "flying" := "#A890F0",
    "psychic" := "#F85888",
    "bug" := "#A8B820",
    "rock" := "#B8A038",
    "ghost" := "#705898",
    "dragon" := "#7038F8",
    "dark" := "#705848",
    "steel" := "#B8B8D0",
    "fairy" := "#EE99AC"
  ]

  /** The eighteen standard type names. */
  const STANDARD_TYPES: set<string> := {
    "normal", "fire", "water", "electric", "grass", "ice", "fighting", "poison", "ground",
    "flying", "psychic", "bug", "rock", "ghost", "dragon", "dark", "steel", "fairy"
  }

  /** The table has a colour for exactly the standard types. */
  lemma TypeColorsKeys()
    ensures TYPE_COLORS.Keys == STANDARD_TYPES
  {
  }

  /** `data.types.map(type => type.type.name)`. */
  function TypeNames(slots: seq<TypeSlot>): (names: seq<string>)
    ensures |names| == |slots|
    ensures forall i :: 0 <= i < |slots| ==> names[i] == slots[i].typeName
    decreases |slots|
  {
    if slots == [] then [] else [slots[0].typeName] + TypeNames(slots[1..])
  }

  /**
   * `types.length > 0 ? typeColors[types[0]] : '#ffffff'`: the first type's
   * colour, `undefined` for a first type the table lacks, white for no types.
   */
  function BackgroundColor(types: seq<string>): (color: Option<string>)
    ensures types == [] ==> color == Some(DEFAULT_COLOR)
    ensures types != [] && types[0] in TYPE_COLORS ==> color == Some(TYPE_COLORS[types[0]])
    ensures color.Some? <==> types == [] || types[0] in STANDARD_TYPES
  {
    TypeColorsKeys();
    if |types| > 0 then
      (if types[0] in TYPE_COLORS then Some(TYPE_COLORS[types[0]]) else None)
    else Some(DEFAULT_COLOR)
  }

  /**
   * The mapping in `fetchPokemonDetails`: None where the source throws (and
   * then returns `undefined`): the sprite path is missing or there are fewer
   * than six stats.
   */
  function Normalize(raw: RawDetail): (r: Option<PokemonDetail>)
  {
    match raw.sprites
    case PathMissing => None
    case Animated(front) =>
      if |raw.stats| <= SPD_INDEX then None
      else
        var types := TypeNames(raw.types);
        Some(PokemonDetail(
          id := raw.id,
          name := raw.name,
          image := front,
          types := types,
          backgroundColor := BackgroundColor(types),
          atk := raw.stats[ATK_INDEX].baseStat,
          def := raw.stats[DEF_INDEX].baseStat,
          hp := raw.stats[HP_INDEX].baseStat,
          spd := raw.stats[SPD_INDEX].baseStat))
  }

  /**
   * Normalisation succeeds exactly when the sprite object exists and six stats
   * are present; then it keeps id and name, takes the image from the animated
   * front sprite, keeps the type order, reads hp, atk, def and spd at positions
   * 0, 1, 2 and 5, and colours the background after the first type.
   */
  lemma NormalizeSpec(raw: RawDetail)
    ensures Normalize(raw).Some? <==> raw.sprites.Animated? && |raw.stats| >= 6
    ensures Normalize(raw).Some? ==>
      var d := Normalize(raw).value;
      && d.id == raw.id && d.name == raw.name
      && d.image == raw.sprites.frontDefault
      && |d.types| == |raw.types|
      && (forall i :: 0 <= i < |raw.types| ==> d.types[i] == raw.types[i].typeName)
      && d.hp == raw.stats[0].baseStat
      && d.atk == raw.stats[1].baseStat
      && d.def == raw.stats[2].baseStat
      && d.spd == raw.stats[5].baseStat
      && (raw.types == [] ==> d.backgroundColor == Some(DEFAULT_COLOR))
      && (raw.types != [] && raw.types[0].typeName in TYPE_COLORS ==>
            d.backgroundColor == Some(TYPE_COLORS[raw.types[0].typeName]))
      && (raw.types != [] && raw.types[0].typeName !in TYPE_COLORS ==> d.backgroundColor.None?)
  {
  }

  /**
   * The background colour is defined exactly when there are no types or the
   * first type is one of the eighteen standard types.
   */
  lemma ColorDefinedIffStandard(raw: RawDetail)
    requires Normalize(raw).Some?
    ensures Normalize(raw).value.backgroundColor.Some? <==>
      raw.types == [] || raw.types[0].typeName in STANDARD_TYPES
  {
    TypeColorsKeys();
  }
}
