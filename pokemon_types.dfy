/** The listing record of src/types/pokemon.ts. */
module PokemonTypes {
  /** One catalog entry as the list query returns it; `id` is an unpadded decimal string. */
  datatype Pokemon = Pokemon(id: string, name: string, image: string)
}
