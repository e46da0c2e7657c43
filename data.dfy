/** The lootbox catalog: rarity groups of URL items, each group with an
    integer draw weight. The catalog is loaded once and only ever read. */
module Data {

  /** One URL item of a rarity group. */
  datatype Item = Item(title: string, url: string)

  /** A rarity group: its display label (`label` in the service; `label`
      is a Dafny keyword), its relative draw weight (a `usize` in the
      service, so never negative) and the items it holds. */
  datatype Rarity = Rarity(name: string, probability: nat, items: seq<Item>)

  /** A lootbox. The order of `rarities` gives each group its rarity index. */
  datatype Lootbox = Lootbox(title: string, rarities: seq<Rarity>)

  /** The weight vector the weighted sampler is built from: one weight per
      rarity group, in catalog order, so that a sampled weight index is a
      rarity index. Taking a value, it cannot alter the lootbox. */
  function RarityWeights(lootbox: Lootbox): (weights: seq<nat>)
    ensures |weights| == |lootbox.rarities|
    ensures forall i :: 0 <= i < |weights| ==> weights[i] == lootbox.rarities[i].probability
  {
    Probabilities(lootbox.rarities)
  }

  /** The probabilities of a list of rarity groups, element by element. */
  function Probabilities(rarities: seq<Rarity>): (weights: seq<nat>)
    ensures |weights| == |rarities|
    ensures forall i :: 0 <= i < |weights| ==> weights[i] == rarities[i].probability
  {
    if rarities == [] then [] else [rarities[0].probability] + Probabilities(rarities[1..])
  }
}
