/** The typed records the worker builds: one intermediate record per raw
    variant, one final record per card name. */
module Records {
  import opened Wrappers

  /** What `map_card_variant` returns for one raw variant. */
  datatype VariantEntry = VariantEntry(
    name: string,
    description: string,
    variantNumber: string,
    variantImage: string,
    cardType: string,
    superType: Option<string>,
    energy: int,
    power: int,
    might: int,
    colors: seq<string>,
    tags: seq<string>,
    releaseDate: string,
    setId: string)

  /** One published card: the grouped variants of one name. */
  datatype Card = Card(
    name: string,
    description: string,
    variantNumber: string,
    variants: seq<string>,
    variantImages: seq<string>,
    cardType: string,
    superType: Option<string>,
    energy: int,
    power: int,
    might: int,
    colors: seq<string>,
    tags: seq<string>,
    releaseDate: string)
}
