/**
 * The records the detail endpoint returns, as plain values.
 * Kotlin's `Int` fields are kept as `int`; only `stats` takes part in any
 * computation of the view model.
 */
module PokemonEntities {

  import opened Wrappers

  datatype StatName = StatName(name: string)

  /** One entry of a creature's stat list: its base value and which stat it is. */
  datatype Stat = Stat(baseStat: int, stat: StatName)

  datatype Sprites = Sprites(frontShiny: Option<string>)

  datatype PokemonType = PokemonType(name: string)

  datatype TypeSlot = TypeSlot(kind: PokemonType)

  datatype PokemonDetail = PokemonDetail(
    sprites: Sprites,
    height: int,
    weight: int,
    types: seq<TypeSlot>,
    stats: seq<Stat>)

  /** An element of the view model's list: the creature's name paired with its detail. */
  type Entry = (string, PokemonDetail)
}
