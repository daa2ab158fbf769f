/** The flag-dependent parts of a recipe card: border, heart icon, ingredient
    panel, primary button, and which list update each tap target triggers. */
module RecipeViews {
  import opened RecipeModel

  datatype Color = Green | Red

  /** The card outline: a green stroke or none. */
  datatype Border = NoBorder | Stroke(color: Color)

  /** The heart over the image: the filled icon with a tint, or the outlined
      icon with the default tint. */
  datatype HeartIcon = FilledFavorite(tint: Color) | OutlinedFavoriteBorder

  /** The ingredient panel: absent, or shown with its text lines in order. */
  datatype Panel = Hidden | Shown(lines: seq<string>)

  /** The primary call-to-action button. */
  datatype PrimaryButton = PrimaryButton(text: string, background: Color)

  /** The flag-dependent content of one rendered card. */
  datatype CardView = CardView(border: Border, heart: HeartIcon, panel: Panel, button: PrimaryButton)

  const AddMeal: string := "Add meal"
  const RemoveMeal: string := "Remove meal"

  function CardBorder(isSelected: bool): Border
  {
    if isSelected then Stroke(Green) else NoBorder
  }

  function Heart(isFav: bool): HeartIcon
  {
    if isFav then FilledFavorite(Red) else OutlinedFavoriteBorder
  }

  function CallToAction(isSelected: bool): PrimaryButton
  {
    if isSelected then PrimaryButton(RemoveMeal, Green) else PrimaryButton(AddMeal, Red)
  }

  /** The hard-coded ingredients every expanded card shows. */
  function FixedIngredients(): seq<Ingredient>
  {
    [ Ingredient("Beef", "400 g"), Ingredient("Carrot", "1"),
      Ingredient("Onion", "3"), Ingredient("Potato", "4"),
      Ingredient("Tomato paste", "2 sp") ]
  }

  /** The text of one ingredient line: item, one space, quantity. */
  function IngredientLine(ing: Ingredient): string
  {
    ing.item + " " + ing.quantity
  }

  /** One text line per ingredient, in list order. */
  function IngredientLines(ings: seq<Ingredient>): (lines: seq<string>)
    ensures |lines| == |ings|
    ensures forall k :: 0 <= k < |ings| ==> lines[k] == IngredientLine(ings[k])
  {
    if ings == [] then [] else [IngredientLine(ings[0])] + IngredientLines(ings[1..])
  }

  function IngredientPanel(isExpanded: bool): Panel
  {
    if isExpanded then Shown(IngredientLines(FixedIngredients())) else Hidden
  }

  /** The flag-dependent content of the card for `r`. */
  function RecipeCard(r: Recipe): CardView
  {
    CardView(CardBorder(r.isSelected), Heart(r.isFavourite), IngredientPanel(r.isExpanded),
             CallToAction(r.isSelected))
  }

  /** The flags a user can read off a card: the button says "Remove meal", the
      heart is filled, the panel is open. */
  function ReadFlags(c: CardView): (bool, bool, bool)
  {
    (c.button.text == RemoveMeal, c.heart.FilledFavorite?, c.panel.Shown?)
  }

  /** Every flag is visible: reading the card gives back the recipe's three
      flags, so the eight flag combinations render as eight different cards. */
  lemma CardShowsFlags(r: Recipe)
    ensures ReadFlags(RecipeCard(r)) == (r.isSelected, r.isFavourite, r.isExpanded)
  {
  }

  /** Selected cards have a green border, a green "Remove meal" button;
      unselected ones no border and a red "Add meal" button. */
  lemma SelectionView(r: Recipe)
    ensures var c := RecipeCard(r);
            (r.isSelected <==> c.border == Stroke(Green)) &&
            (!r.isSelected <==> c.border == NoBorder) &&
            (r.isSelected ==> c.button == PrimaryButton("Remove meal", Green)) &&
            (!r.isSelected ==> c.button == PrimaryButton("Add meal", Red))
  {
  }

  /** The heart is filled and red exactly for favourites, outlined otherwise. */
  lemma HeartView(r: Recipe)
    ensures var c := RecipeCard(r);
            (r.isFavourite <==> c.heart == FilledFavorite(Red)) &&
            (!r.isFavourite <==> c.heart == OutlinedFavoriteBorder)
  {
  }

  /** The panel is shown exactly for expanded recipes, and then holds the five
      fixed lines in order. */
  lemma {:induction false} PanelView(r: Recipe)
    ensures var c := RecipeCard(r);
            (r.isExpanded <==> c.panel.Shown?) &&
            (r.isExpanded ==>
               c.panel.lines == ["Beef 400 g", "Carrot 1", "Onion 3", "Potato 4", "Tomato paste 2 sp"])
  {
    var lines := IngredientLines(FixedIngredients());
    assert |lines| == 5;
    assert lines[0] == "Beef 400 g";
    assert lines[1] == "Carrot 1";
    assert lines[2] == "Onion 3";
    assert lines[3] == "Potato 4";
    assert lines[4] == "Tomato paste 2 sp";
  }

  /** Negating one flag changes only the part of the card that shows it: the
      border and button for selection, the heart for favourite, the panel for
      expansion. */
  lemma FlipChangesOnlyItsWidget(r: Recipe, f: Flag)
    ensures var before := RecipeCard(r);
            var after := RecipeCard(Flipped(r, f));
            match f
            case Selected =>
              after == before.(border := CardBorder(!r.isSelected), button := CallToAction(!r.isSelected))
            case Favourite => after == before.(heart := Heart(!r.isFavourite))
            case Expanded => after == before.(panel := IngredientPanel(!r.isExpanded))
  {
  }

  /** The places a user can tap on a card. */
  datatype TapTarget = HeartButton | CardBody | PrimaryButtonTarget

  /** The three callbacks a card receives, by their parameter names. */
  datatype Callback = MealSelected | CardClicked | ToggleFav

  /** Which callback each tap target invokes. The primary button is handed
      `mealSelected`, although the button's own parameter is named `cardClicked`. */
  function CallbackFor(t: TapTarget): Callback
  {
    match t
    case HeartButton => ToggleFav
    case CardBody => CardClicked
    case PrimaryButtonTarget => MealSelected
  }

  /** The flag each toggle closure negates. */
  function FlagToggledBy(c: Callback): Flag
  {
    match c
    case MealSelected => Selected
    case CardClicked => Expanded
    case ToggleFav => Favourite
  }

  /** The wiring is one-to-one: heart toggles favourite, body toggles expansion,
      primary button toggles selection, and each flag has exactly one target. */
  lemma TapWiring(t: TapTarget, f: Flag)
    ensures FlagToggledBy(CallbackFor(HeartButton)) == Favourite
    ensures FlagToggledBy(CallbackFor(CardBody)) == Expanded
    ensures FlagToggledBy(CallbackFor(PrimaryButtonTarget)) == Selected
    ensures FlagToggledBy(CallbackFor(t)) == f <==>
              t == (match f case Favourite => HeartButton case Expanded => CardBody
                            case Selected => PrimaryButtonTarget)
  {
  }

  /** Tapping a target on the card at `index` (current capture) changes only
      the widget that target controls on that card, and no other card. */
  lemma TapChangesOnlyItsWidget(list: seq<Recipe>, index: nat, t: TapTarget)
    requires index < |list|
    ensures var f := FlagToggledBy(CallbackFor(t));
            var after := Toggle(list, index, list[index], f);
            var (s0, v0, e0) := ReadFlags(RecipeCard(list[index]));
            var (s1, v1, e1) := ReadFlags(RecipeCard(after[index]));
            (s1 != s0 <==> t == PrimaryButtonTarget) &&
            (v1 != v0 <==> t == HeartButton) &&
            (e1 != e0 <==> t == CardBody) &&
            (forall j :: 0 <= j < |list| && j != index ==> RecipeCard(after[j]) == RecipeCard(list[j]))
  {
  }

  /** Two unexpanded recipes; tapping the first card's body opens the first
      panel with the five ingredient lines and leaves the second closed. */
  lemma ExpandFirstOfTwo(a: Recipe, b: Recipe)
    requires !a.isExpanded && !b.isExpanded
    ensures var after := Toggle([a, b], 0, a, FlagToggledBy(CallbackFor(CardBody)));
            RecipeCard(after[0]).panel ==
              Shown(["Beef 400 g", "Carrot 1", "Onion 3", "Potato 4", "Tomato paste 2 sp"]) &&
            RecipeCard(after[1]).panel == Hidden
  {
    var after := Toggle([a, b], 0, a, Expanded);
    PanelView(after[0]);
  }

  /** The primary button of an unselected card reads "Add meal", then
      "Remove meal" after one tap on it, then "Add meal" again after a second. */
  lemma AddRemoveAdd(list: seq<Recipe>, index: nat)
    requires index < |list| && !list[index].isSelected
    ensures var f := FlagToggledBy(CallbackFor(PrimaryButtonTarget));
            var once := Toggle(list, index, list[index], f);
            var twice := Toggle(once, index, once[index], f);
            RecipeCard(list[index]).button.text == "Add meal" &&
            RecipeCard(once[index]).button.text == "Remove meal" &&
            RecipeCard(twice[index]).button.text == "Add meal"
  {
  }
}
