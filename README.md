# Recipe screen state model

A Dafny model of the one piece of logic in the Jetpack Compose workshop app
(`MainActivity.kt`): the recipe list held by `RecipeScreen`, the three toggle
closures that replace it, and the flag-dependent decisions that
`RecipeCard`, `RecipeImage`, `RecipeCTAs` and `IngredientList` take when a
card is drawn.

- `recipe_model.dfy` (module `RecipeModel`): the `Recipe` and `Ingredient`
  records, `GetRecipes` (six demonstration recipes), `Flipped` (the data-class
  `copy` that negates one flag) and `Toggle` (copy the list, overwrite one slot,
  return the new list). A toggle takes the list read when it is called, the
  index the card was bound to, and the recipe the closure captured when the
  card was rendered. `Replay` runs a session of taps in order. The lemmas cover
  the undo law, commutation, the stale-capture overwrite, and flag parity over
  a whole session.
- `recipe_views.dfy` (module `RecipeViews`): the green border, the heart icon,
  the primary button's text and colour, the ingredient panel with its five
  fixed lines, and which callback each tap target calls. `ReadFlags` reads the
  three flags back off a rendered card, and `CardShowsFlags` proves it recovers
  them.
- `recipe_screen.dfy` (module `Screen`): class `RecipeScreen` with the field
  `recipesList: seq<Recipe>` and the methods `SelectMeal`, `CardClicked` and
  `ToggleFav`. Each one copies the list, writes one slot and reassigns the
  field. Each method's postcondition ties the new list to `Toggle` on the old
  one.

The image resource `R.drawable.recipe_image` is an opaque handle, so it is
passed in as the integer parameter `image`.

The closures read `recipesList` when they run, but they write a copy of the
recipe captured at render time. So what lands in the slot depends only on
that capture (`StaleCaptureOverwritesSlot`). If two taps on the same card reach
the list without a re-render in between, the second one discards the first.
The undo law and the parity result therefore assume fresh captures, meaning
the screen re-rendered between taps. Whether that always happens is up to the
toolkit's scheduler, which is not part of this model.

The button inside `RecipeCTAs` takes a parameter named `cardClicked`, but
`RecipeCard` passes it `mealSelected`. So the primary button toggles
`isSelected`, not `isExpanded` (`TapWiring`).

## Model

| member | source | states |
|---|---|---|
| `RecipeModel.GetRecipes` | app/src/main/java/com/example/jetpackcomposeworkshop/MainActivity.kt:290-297 | exactly six recipes. Recipe i (1-based) is titled "Recipe name i" and described "Description i". All share the given image, and every flag is false |
| `RecipeModel.Flipped` | app/src/main/java/com/example/jetpackcomposeworkshop/MainActivity.kt:54-68 | `copy(flag = !flag)` negates the named flag. It keeps the other two flags, the title, the description and the image |
| `RecipeModel.FlippedTwice` | app/src/main/java/com/example/jetpackcomposeworkshop/MainActivity.kt:54-68 | negating the same flag twice gives the original recipe |
| `RecipeModel.FlippedCommute` | app/src/main/java/com/example/jetpackcomposeworkshop/MainActivity.kt:54-68 | two flag negations on one recipe commute |
| `RecipeModel.EveryFlagCombinationReachable` | app/src/main/java/com/example/jetpackcomposeworkshop/MainActivity.kt:281-288 | every combination of the three flags can be reached from any recipe with at most one negation per flag, and the content stays the same |
| `RecipeModel.Toggle` | app/src/main/java/com/example/jetpackcomposeworkshop/MainActivity.kt:54-68 | the list keeps its length. Slot `index` becomes the captured recipe with one flag negated. Every other slot is unchanged |
| `RecipeModel.ToggleChangesOneField` | app/src/main/java/com/example/jetpackcomposeworkshop/MainActivity.kt:54-68 | with a fresh capture, only the targeted flag of the targeted slot changes, so the new list always differs from the old one |
| `RecipeModel.ToggleTwiceRestores` | app/src/main/java/com/example/jetpackcomposeworkshop/MainActivity.kt:54-68 | the same toggle applied twice, re-capturing before the second call, gives back the original list |
| `RecipeModel.FreshTogglesCommute` | app/src/main/java/com/example/jetpackcomposeworkshop/MainActivity.kt:54-68 | two toggles with fresh captures give the same list in either order, for any slots and flags |
| `RecipeModel.StaleCaptureOverwritesSlot` | app/src/main/java/com/example/jetpackcomposeworkshop/MainActivity.kt:53-68 | a second toggle built from the same captured recipe discards whatever the first toggle wrote into that slot |
| `RecipeModel.Replay` | app/src/main/java/com/example/jetpackcomposeworkshop/MainActivity.kt:53-68 | a session of taps handled in order keeps the list's length and leaves every slot no tap targeted unchanged |
| `RecipeModel.FreshReplayParity` | app/src/main/java/com/example/jetpackcomposeworkshop/MainActivity.kt:53-68 | with fresh captures, a flag ends up negated exactly when it was tapped an odd number of times. Title, description and image never change |
| `RecipeViews.IngredientLines` | app/src/main/java/com/example/jetpackcomposeworkshop/MainActivity.kt:192-193 | one line per ingredient, in order, each formatted as item, one space, quantity |
| `RecipeViews.PanelView` | app/src/main/java/com/example/jetpackcomposeworkshop/MainActivity.kt:173-193 | the panel is shown iff `isExpanded`. When shown it holds exactly "Beef 400 g", "Carrot 1", "Onion 3", "Potato 4", "Tomato paste 2 sp" |
| `RecipeViews.SelectionView` | app/src/main/java/com/example/jetpackcomposeworkshop/MainActivity.kt:140-160 | green border iff selected. A selected card has a green "Remove meal" button; an unselected one has no border and a red "Add meal" button |
| `RecipeViews.HeartView` | app/src/main/java/com/example/jetpackcomposeworkshop/MainActivity.kt:109-120 | the heart is filled and tinted red iff `isFavourite`, outlined otherwise |
| `RecipeViews.CardShowsFlags` | app/src/main/java/com/example/jetpackcomposeworkshop/MainActivity.kt:153-176 | button text, heart shape and panel presence give back all three flags, so the eight flag states render as eight different cards |
| `RecipeViews.FlipChangesOnlyItsWidget` | app/src/main/java/com/example/jetpackcomposeworkshop/MainActivity.kt:160-176 | negating a flag changes only the widgets that show it. Selection drives the border and button, favourite the heart, expansion the panel |
| `RecipeViews.TapWiring` | app/src/main/java/com/example/jetpackcomposeworkshop/MainActivity.kt:153-176 | heart → `toggleFav` → favourite; card body → `cardClicked` → expansion; primary button → `mealSelected` → selection. Each flag has exactly one tap target |
| `RecipeViews.TapChangesOnlyItsWidget` | app/src/main/java/com/example/jetpackcomposeworkshop/MainActivity.kt:53-69 | tapping a target on a card (fresh capture) changes exactly the flag that target shows on that card. No other card's view changes |
| `RecipeViews.ExpandFirstOfTwo` | app/src/main/java/com/example/jetpackcomposeworkshop/MainActivity.kt:173-193 | with two unexpanded recipes, tapping the first card's body opens its panel with the five lines. The second panel stays hidden |
| `RecipeViews.AddRemoveAdd` | app/src/main/java/com/example/jetpackcomposeworkshop/MainActivity.kt:138-148 | an unselected card's button reads "Add meal", then "Remove meal" after one tap, then "Add meal" after a second |
| `Screen.RecipeScreen.constructor` | app/src/main/java/com/example/jetpackcomposeworkshop/MainActivity.kt:49-51 | the list starts as `GetRecipes`, with six slots |
| `Screen.RecipeScreen.SelectMeal` | app/src/main/java/com/example/jetpackcomposeworkshop/MainActivity.kt:54-57 | the new list is `Toggle` of the old one on `isSelected` at `index`. Its length stays six |
| `Screen.RecipeScreen.CardClicked` | app/src/main/java/com/example/jetpackcomposeworkshop/MainActivity.kt:59-62 | the new list is `Toggle` of the old one on `isExpanded` at `index`. Its length stays six |
| `Screen.RecipeScreen.ToggleFav` | app/src/main/java/com/example/jetpackcomposeworkshop/MainActivity.kt:64-67 | the new list is `Toggle` of the old one on `isFavourite` at `index`. Its length stays six |

## Left out

- Activity lifecycle, `setContent`, theming and `Surface`: framework plumbing with no logic.
- Layout and styling: padding, sizes, shapes, elevation, the stroke width, scroll state, the heart background's alpha, and how `LazyColumn` emits items. These are presentation details, and the alpha is a float.
- `remember`/`mutableStateOf` recomposition scheduling: the store is a plain mutable field. When the toolkit re-renders decides whether captures are fresh, so the lemmas that need fresh captures take that as a premise.
- Image and icon resources: the drawable is an opaque integer parameter, and icons are named by datatype constructors.
- Constant rows without logic (`RecipeTitle`, `RecipeInfo`, `RecipeTags`, `RecipePrepTime`, `RecipePrepType`) and the no-op "Nutrition" and "Quick prep" buttons.
- Preview functions.
- How the toolkit routes a tap on the heart, which sits inside the clickable card. Each tap target is modelled as reaching only its own callback.
- `Screen.RecipeScreen.SelectMeal`, `Screen.RecipeScreen.CardClicked`, `Screen.RecipeScreen.ToggleFav`: an index outside the list would throw in the source. The methods require an index within the six slots instead, because a card is only ever bound to such an index and the list never changes length.
