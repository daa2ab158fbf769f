/** The recipe records of the workshop screen and the pure list update that
    every tap performs: copy the list, overwrite one slot with a copy of a
    recipe that has one flag negated, and hand the new list back. */
module RecipeModel {

  /** A displayable recipe. `image` is the drawable resource handle, an opaque
      integer. The three flags are independent: all eight combinations are legal. */
  datatype Recipe = Recipe(
    title: string,
    description: string,
    image: int,
    isSelected: bool,
    isFavourite: bool,
    isExpanded: bool)

  /** One line of the (fixed) ingredient panel. */
  datatype Ingredient = Ingredient(item: string, quantity: string)

  /** The three flags a tap can negate. */
  datatype Flag = Selected | Favourite | Expanded

  /** The record constructor with the flags left at their default `false`. */
  function NewRecipe(title: string, description: string, image: int): Recipe
  {
    Recipe(title, description, image, false, false, false)
  }

  function FlagOf(r: Recipe, f: Flag): bool
  {
    match f
    case Selected => r.isSelected
    case Favourite => r.isFavourite
    case Expanded => r.isExpanded
  }

  /** True when the two recipes agree on title, description and image. */
  predicate SameContent(a: Recipe, b: Recipe)
  {
    a.title == b.title && a.description == b.description && a.image == b.image
  }

  /** `recipe.copy(flag = !recipe.flag)`: the one field named by `f` is negated,
      every other field is carried over. */
  function Flipped(r: Recipe, f: Flag): (r': Recipe)
    ensures FlagOf(r', f) == !FlagOf(r, f)
    ensures forall g :: g != f ==> FlagOf(r', g) == FlagOf(r, g)
    ensures SameContent(r', r)
  {
    match f
    case Selected => r.(isSelected := !r.isSelected)
    case Favourite => r.(isFavourite := !r.isFavourite)
    case Expanded => r.(isExpanded := !r.isExpanded)
  }

  /** Two recipes with the same content and the same three flags are equal:
      the record has no other fields. */
  lemma RecipeDeterminedByFlags(a: Recipe, b: Recipe)
    requires SameContent(a, b)
    requires forall g :: FlagOf(a, g) == FlagOf(b, g)
    ensures a == b
  {
    assert FlagOf(a, Selected) == FlagOf(b, Selected);
    assert FlagOf(a, Favourite) == FlagOf(b, Favourite);
    assert FlagOf(a, Expanded) == FlagOf(b, Expanded);
  }

  /** Negating the same flag twice gives the recipe back. */
  lemma FlippedTwice(r: Recipe, f: Flag)
    ensures Flipped(Flipped(r, f), f) == r
  {
  }

  /** Negations of two flags can be applied in either order. */
  lemma FlippedCommute(r: Recipe, f: Flag, g: Flag)
    ensures Flipped(Flipped(r, f), g) == Flipped(Flipped(r, g), f)
  {
  }

  /** No flag combination is illegal: from any recipe, negating each flag that
      differs from the wanted value (at most one tap per flag) reaches it. */
  lemma EveryFlagCombinationReachable(r: Recipe, sel: bool, fav: bool, exp: bool)
    ensures var r1 := if r.isSelected != sel then Flipped(r, Selected) else r;
            var r2 := if r1.isFavourite != fav then Flipped(r1, Favourite) else r1;
            var r3 := if r2.isExpanded != exp then Flipped(r2, Expanded) else r2;
            r3 == Recipe(r.title, r.description, r.image, sel, fav, exp)
  {
  }

  /** Number of recipes in the demonstration data. */
  const RecipeCount: nat := 6

  /** The decimal digit for 0 <= n < 10. */
  function Digit(n: nat): char
    requires n < 10
  {
    ('0' as int + n) as char
  }

  /** The six demonstration recipes, in order, all sharing one image. */
  function GetRecipes(image: int): (r: seq<Recipe>)
    ensures |r| == RecipeCount
    ensures forall i :: 0 <= i < |r| ==>
              r[i].title == "Recipe name " + [Digit(i + 1)] &&
              r[i].description == "Description " + [Digit(i + 1)] &&
              r[i].image == image
    ensures forall i :: 0 <= i < |r| ==>
              !r[i].isSelected && !r[i].isFavourite && !r[i].isExpanded
  {
    [ NewRecipe("Recipe name 1", "Description 1", image),
      NewRecipe("Recipe name 2", "Description 2", image),
      NewRecipe("Recipe name 3", "Description 3", image),
      NewRecipe("Recipe name 4", "Description 4", image),
      NewRecipe("Recipe name 5", "Description 5", image),
      NewRecipe("Recipe name 6", "Description 6", image) ]
  }

  /** One toggle closure: `list.toMutableList().also { it[index] = captured.copy(f = !captured.f) }`.
      The list is read at call time; `captured` is the recipe the closure was
      built with when the card was rendered. */
  function Toggle(list: seq<Recipe>, index: nat, captured: Recipe, f: Flag): (r: seq<Recipe>)
    requires index < |list|
    ensures |r| == |list|
    ensures r[index] == Flipped(captured, f)
    ensures forall j :: 0 <= j < |list| && j != index ==> r[j] == list[j]
  {
    list[index := Flipped(captured, f)]
  }

  /** When the closure's captured recipe is the current element, the toggle
      changes exactly one field of exactly one slot, so the list always changes. */
  lemma ToggleChangesOneField(list: seq<Recipe>, index: nat, f: Flag)
    requires index < |list|
    ensures var r := Toggle(list, index, list[index], f);
            SameContent(r[index], list[index]) &&
            FlagOf(r[index], f) != FlagOf(list[index], f) &&
            (forall g :: g != f ==> FlagOf(r[index], g) == FlagOf(list[index], g)) &&
            r != list
  {
  }

  /** Undo law: applying the same toggle twice, re-capturing the current
      element before the second call, restores the original list. */
  lemma ToggleTwiceRestores(list: seq<Recipe>, index: nat, f: Flag)
    requires index < |list|
    ensures var once := Toggle(list, index, list[index], f);
            Toggle(once, index, once[index], f) == list
  {
  }

  /** Toggles on fresh captures commute, whatever the slots and flags. */
  lemma FreshTogglesCommute(list: seq<Recipe>, i: nat, f: Flag, j: nat, g: Flag)
    requires i < |list| && j < |list|
    ensures var a := Toggle(list, i, list[i], f);
            var b := Toggle(list, j, list[j], g);
            Toggle(a, j, a[j], g) == Toggle(b, i, b[i], f)
  {
  }

  /** What lands in the slot depends on the captured recipe only, never on the
      slot's current value: a second toggle built from the same (stale)
      capture discards whatever the first toggle wrote there. */
  lemma StaleCaptureOverwritesSlot(list: seq<Recipe>, index: nat, captured: Recipe, f: Flag, g: Flag)
    requires index < |list|
    ensures Toggle(Toggle(list, index, captured, f), index, captured, g) == Toggle(list, index, captured, g)
  {
  }

  /** One invocation of a toggle closure: the slot it was bound to, the recipe
      it captured and the flag it negates. */
  datatype Tap = Tap(index: nat, captured: Recipe, flag: Flag)

  predicate InRange(taps: seq<Tap>, n: nat)
  {
    forall k :: 0 <= k < |taps| ==> taps[k].index < n
  }

  predicate Untouched(taps: seq<Tap>, j: nat)
  {
    forall k :: 0 <= k < |taps| ==> taps[k].index != j
  }

  /** The list after the taps are handled one at a time, in order. */
  function Replay(list: seq<Recipe>, taps: seq<Tap>): (r: seq<Recipe>)
    requires InRange(taps, |list|)
    ensures |r| == |list|
    ensures forall j: nat :: j < |list| && Untouched(taps, j) ==> r[j] == list[j]
    decreases |taps|
  {
    if taps == [] then list
    else
      var t := taps[|taps| - 1];
      Toggle(Replay(list, taps[..|taps| - 1]), t.index, t.captured, t.flag)
  }

  /** Every tap captured the element current when it fired, as happens when
      the screen re-renders between taps. */
  predicate FreshCaptures(list: seq<Recipe>, taps: seq<Tap>)
    requires InRange(taps, |list|)
    decreases |taps|
  {
    taps == [] ||
    (var prefix := taps[..|taps| - 1];
     var t := taps[|taps| - 1];
     FreshCaptures(list, prefix) && t.captured == Replay(list, prefix)[t.index])
  }

  /** How many of the taps negate flag `f` of slot `j`. */
  function Occurrences(taps: seq<Tap>, j: nat, f: Flag): nat
    decreases |taps|
  {
    if taps == [] then 0
    else
      var t := taps[|taps| - 1];
      Occurrences(taps[..|taps| - 1], j, f) + (if t.index == j && t.flag == f then 1 else 0)
  }

  /** With fresh captures, each flag of each slot ends up negated exactly when
      it was tapped an odd number of times, and no title, description or image
      changes. */
  lemma {:induction false} FreshReplayParity(list: seq<Recipe>, taps: seq<Tap>, j: nat, f: Flag)
    requires InRange(taps, |list|) && FreshCaptures(list, taps)
    requires j < |list|
    ensures FlagOf(Replay(list, taps)[j], f) == (FlagOf(list[j], f) != (Occurrences(taps, j, f) % 2 == 1))
    ensures SameContent(Replay(list, taps)[j], list[j])
    decreases |taps|
  {
    if taps != [] {
      var prefix := taps[..|taps| - 1];
      var t := taps[|taps| - 1];
      assert InRange(prefix, |list|);
      FreshReplayParity(list, prefix, j, f);
      var before := Replay(list, prefix);
      assert Replay(list, taps) == Toggle(before, t.index, t.captured, t.flag);
      assert Occurrences(taps, j, f) == Occurrences(prefix, j, f) + (if t.index == j && t.flag == f then 1 else 0);
      if t.index == j {
        assert t.captured == before[j];
      }
    }
  }
}
