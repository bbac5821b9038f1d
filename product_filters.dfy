/**
 * The filter panel: the fixed category and material options, the price
 * slider, and the toggles that edit the selections the shop page owns.
 */
module ProductFilters {
  import opened Sequences

  const CategoryOptions: seq<string> := ["Rings", "Necklaces", "Earrings", "Bracelets", "Sets"]
  const MaterialOptions: seq<string> := ["Gold", "Silver", "Diamond", "Platinum", "Rose Gold"]

  const SliderMin := 0
  const SliderMax := 500000
  const SliderStep := 5000

  /** The inclusive price interval `[min, max]`. */
  datatype PriceRange = PriceRange(min: int, max: int)

  /** The selections the panel edits; the shop page holds them and passes them down. */
  datatype Filters = Filters(categories: seq<string>, materials: seq<string>, priceRange: PriceRange)

  /** Nothing selected and the whole slider span. */
  const DefaultFilters := Filters([], [], PriceRange(SliderMin, SliderMax))

  /** `s.filter(c => c !== item)`. */
  function Without(s: seq<string>, item: string): (r: seq<string>)
    ensures IsSubsequence(r, s)
    ensures item !in r
    ensures forall x :: x != item ==> (x in r <==> x in s)
    ensures |r| == |s| - multiset(s)[item]
  {
    if |s| == 0 then []
    else
      assert s == [s[0]] + s[1..];
      if s[0] != item then [s[0]] + Without(s[1..], item) else Without(s[1..], item)
  }

  /** The shared body of `toggleCategory` and `toggleMaterial`: remove when selected, else append. */
  function Toggle(selected: seq<string>, item: string): seq<string>
  {
    if item in selected then Without(selected, item) else selected + [item]
  }

  /** Toggling an unselected item appends it at the end. */
  lemma ToggleAbsent(selected: seq<string>, item: string)
    requires item !in selected
    ensures Toggle(selected, item) == selected + [item]
  {
  }

  /** Toggling a selected item drops every copy of it and keeps the others in order. */
  lemma TogglePresent(selected: seq<string>, item: string)
    requires item in selected
    ensures IsSubsequence(Toggle(selected, item), selected)
    ensures item !in Toggle(selected, item)
    ensures |Toggle(selected, item)| == |selected| - multiset(selected)[item]
  {
  }

  /** A toggle flips the item's membership and leaves every other item's alone. */
  lemma ToggleFlips(selected: seq<string>, item: string, other: string)
    requires other != item
    ensures item in Toggle(selected, item) <==> item !in selected
    ensures other in Toggle(selected, item) <==> other in selected
  {
  }

  /** Removing an item that was just appended to a selection without it restores the selection. */
  lemma {:induction false} WithoutAppended(selected: seq<string>, item: string)
    requires item !in selected
    ensures Without(selected + [item], item) == selected
    decreases |selected|
  {
    if |selected| == 0 {
      assert [] + [item] == [item];
    } else {
      assert (selected + [item])[1..] == selected[1..] + [item];
      WithoutAppended(selected[1..], item);
    }
  }

  /** Toggling an unselected item twice restores the selection exactly. */
  lemma ToggleTwiceAbsent(selected: seq<string>, item: string)
    requires item !in selected
    ensures Toggle(Toggle(selected, item), item) == selected
  {
    WithoutAppended(selected, item);
  }

  /**
   * Toggling a selected item twice restores which items are selected but
   * not their order: the item comes back at the end, once.
   */
  lemma ToggleTwiceSelected(selected: seq<string>, item: string)
    requires item in selected
    ensures Toggle(Toggle(selected, item), item) == Without(selected, item) + [item]
  {
    assert Toggle(selected, item) == Without(selected, item);
  }

  /** So a double toggle is not the identity: ["Rings", "Earrings"] becomes ["Earrings", "Rings"]. */
  lemma ToggleNotSelfInverse()
    ensures Toggle(Toggle(["Rings", "Earrings"], "Rings"), "Rings") == ["Earrings", "Rings"]
  {
    assert "Rings" != "Earrings";
    assert Without(["Rings", "Earrings"], "Rings") == ["Earrings"] by {
      assert ["Rings", "Earrings"][1..] == ["Earrings"];
      assert ["Earrings"][1..] == [];
    }
  }

  /** `toggleCategory`: edits the category selection only. */
  function ToggleCategory(f: Filters, category: string): (r: Filters)
    ensures r.categories == Toggle(f.categories, category)
    ensures r.materials == f.materials && r.priceRange == f.priceRange
  {
    f.(categories := Toggle(f.categories, category))
  }

  /** `toggleMaterial`: edits the material selection only. */
  function ToggleMaterial(f: Filters, material: string): (r: Filters)
    ensures r.materials == Toggle(f.materials, material)
    ensures r.categories == f.categories && r.priceRange == f.priceRange
  {
    f.(materials := Toggle(f.materials, material))
  }

  /** A position the price slider can take. */
  predicate SliderValue(v: int)
  {
    SliderMin <= v <= SliderMax && v % SliderStep == 0
  }

  /** The slider's `onValueChange`: a new range from two thumb positions, min thumb first. */
  function SlidePrice(f: Filters, lo: int, hi: int): (r: Filters)
    requires SliderValue(lo) && SliderValue(hi) && lo <= hi
    ensures r.priceRange == PriceRange(lo, hi)
    ensures r.categories == f.categories && r.materials == f.materials
  {
    f.(priceRange := PriceRange(lo, hi))
  }

  /** The option lists hold five distinct entries each; the slider spans 0..500000 in 101 steps. */
  lemma OptionLists()
    ensures |CategoryOptions| == 5 && |MaterialOptions| == 5
    ensures forall i, j :: 0 <= i < j < 5 ==> CategoryOptions[i] != CategoryOptions[j]
    ensures forall i, j :: 0 <= i < j < 5 ==> MaterialOptions[i] != MaterialOptions[j]
    ensures SliderValue(DefaultFilters.priceRange.min) && SliderValue(DefaultFilters.priceRange.max)
    ensures (SliderMax - SliderMin) / SliderStep + 1 == 101
  {
  }
}
