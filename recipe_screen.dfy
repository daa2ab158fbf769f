/** The recipe screen's state: one list of recipes, replaced by each of the
    three toggle closures bound to a card. */
module Screen {
  import opened RecipeModel

  class RecipeScreen {
    /** The screen's single source of truth, initially the demonstration data. */
    var recipesList: seq<Recipe>

    /** The list never changes length, so an index bound to a card when it was
        rendered stays a valid index. */
    ghost predicate Valid()
      reads this
    {
      |recipesList| == RecipeCount
    }

    constructor (image: int)
      ensures Valid()
      ensures recipesList == GetRecipes(image)
    {
      recipesList := GetRecipes(image);
    }

    /** `selectMeal` for the card at `index`, built with `recipe`. */
    method SelectMeal(index: nat, recipe: Recipe)
      requires Valid() && index < RecipeCount
      modifies this
      ensures Valid()
      ensures recipesList == Toggle(old(recipesList), index, recipe, Selected)
    {
      var recipeList := recipesList;
      recipeList := recipeList[index := recipe.(isSelected := !recipe.isSelected)];
      recipesList := recipeList;
    }

    /** `cardClicked` for the card at `index`, built with `recipe`. */
    method CardClicked(index: nat, recipe: Recipe)
      requires Valid() && index < RecipeCount
      modifies this
      ensures Valid()
      ensures recipesList == Toggle(old(recipesList), index, recipe, Expanded)
    {
      var recipeList := recipesList;
      recipeList := recipeList[index := recipe.(isExpanded := !recipe.isExpanded)];
      recipesList := recipeList;
    }

    /** `toggleFav` for the card at `index`, built with `recipe`. */
    method ToggleFav(index: nat, recipe: Recipe)
      requires Valid() && index < RecipeCount
      modifies this
      ensures Valid()
      ensures recipesList == Toggle(old(recipesList), index, recipe, Favourite)
    {
      var recipeList := recipesList;
      recipeList := recipeList[index := recipe.(isFavourite := !recipe.isFavourite)];
      recipesList := recipeList;
    }
  }

  /** A client: with the screen re-rendered between taps, selecting a meal
      twice and favouriting another leaves only the favourite set. */
  method SelectTwiceThenFavourite(image: int)
  {
    var screen := new RecipeScreen(image);
    screen.SelectMeal(2, screen.recipesList[2]);
    assert screen.recipesList[2].isSelected;
    screen.SelectMeal(2, screen.recipesList[2]);
    screen.ToggleFav(4, screen.recipesList[4]);
    assert screen.recipesList[4].isFavourite && screen.recipesList[4].title == "Recipe name 5";
    assert forall i :: 0 <= i < RecipeCount ==> !screen.recipesList[i].isSelected;
  }
}
