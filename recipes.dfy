/**
 * A recipe record of the catalog. The catalog flattens the ingredients into
 * twenty numbered (name, measure) field pairs; here they are one sequence of
 * twenty slots, slot k holding the fields numbered k + 1.
 */
module Recipes {
  import opened Wrappers

  /** Number of numbered ingredient/measure field pairs in a record. */
  const SlotCount: nat := 20

  /** One numbered field pair; either field may be null or missing. */
  datatype Slot = Slot(ingredient: Option<string>, measure: Option<string>)

  type Slots = s: seq<Slot> | |s| == SlotCount witness seq(SlotCount, _ => Slot(None, None))

  /**
   * A recipe. List queries return summaries that carry only the identifier,
   * the name and the thumbnail; every other field is then absent.
   */
  datatype Recipe = Recipe(
    id: string,
    name: string,
    thumbnail: string,
    category: Option<string>,
    area: Option<string>,
    instructions: Option<string>,
    tags: Option<string>,
    youtube: Option<string>,
    source: Option<string>,
    slots: Slots)
}
