# Recipe list manager, modelled in Dafny

This project models the in-memory core of a browser recipe list manager. It is
written in JavaScript on top of Vue, in `index.js`. The modelled parts are:

- the recipe store `RecipeManager`, which owns a list of `{id, name, ingredients}` entries;
- its two sort strategies, by name and by ingredient count;
- the observer pair `NotificationService` / `NotificationDisplay`;
- the recipe decorators `SpicyDecorator` / `VeganDecorator` and `RecipeFactory`;
- the non-visual logic of the `RecipeList` component: the add/edit form, the
  ingredient filter, the notification array it shows, and saving and loading
  the store.

Modules, one per component of the program:

| file | module | what it holds |
|---|---|---|
| `text.dfy` | `Text` | `trim`, `split(',')`, `join`, `includes` and `toLowerCase` on strings |
| `variations.dfy` | `Variations` | `Recipe` and its decorators as a datatype; `CreateRecipe` |
| `recipes.dfy` | `Recipes` | the store entry class `StoredRecipe`, its value `RecipeData`, removal by id |
| `sort_strategies.dfy` | `SortStrategies` | strategy selection, the two comparators, the sort of the store's list |
| `notifications.dfy` | `Notifications` | message arrays, `NotificationDisplay`, `NotificationService` |
| `manager.dfy` | `Manager` | `RecipeManager` |
| `recipe_list.dfy` | `RecipeListComponent` | ingredient parsing and filtering, the `RecipeList` component state |

State the program changes in place is modelled as classes:

- A store entry is a `StoredRecipe` object. Its id is constant; its name and
  ingredients are fields.
- The component's `recipeToEdit` is a reference to one of those objects. An edit
  overwrites that object, which is what the store then shows.
- The store's list is a `seq<StoredRecipe>` field. Adding, deleting and the
  in-place sort each reassign it.
- The component's notification array is a `MessageLog` object. Two parties write
  to it: the component's own `notifyUser`, and the `NotificationDisplay` that
  `mounted()` subscribes around it.

`NotificationService.Notify` is specified for any subscriber list, including
one array that is subscribed twice. Each array receives the message once per
subscriber that writes into it (`Deliveries`). For the component's array that
count is the number of times `mounted()` ran.

Four points of the program's behaviour that the model keeps as they are:

- The program's edit path does not go through the store. It writes the entry's
  fields directly, and the "has been updated." message goes only to the
  component's own array; it is not broadcast.
- `getSortedRecipes` sorts the store's own list in place and returns that list,
  not a copy, so the next save stores the sorted order.
- Ids come from the clock and are not unique by construction. The model takes
  the id as a parameter and never assumes uniqueness.
- `deleteRecipe` announces a deletion even when no entry had the given id.

## Model

| member | source | states |
|---|---|---|
| `Text.TrimStart` | index.js:201 | the result is the suffix left after a run of leading whitespace, and it does not start with whitespace |
| `Text.TrimEnd` | index.js:201 | the result is the prefix left before a run of trailing whitespace, and it does not end with whitespace |
| `Text.Trim` | index.js:201 | the trimmed piece has no whitespace at either end, and it is the slice of the input between a leading and a trailing run of ECMAScript whitespace |
| `Text.TrimOfTrimmed` | index.js:201 | a string with no whitespace at either end is left as it is |
| `Text.TrimIdempotent` | index.js:201 | trimming twice is the same as trimming once |
| `Text.TrimSpacePrefixed` | index.js:201 | trimming a trimmed item behind one space gives the item back |
| `Text.LowerChar` | index.js:180 | an ASCII capital becomes the letter 32 code points later, no result is an ASCII capital, and every other character is kept |
| `Text.Lower` | index.js:180-182 | lowercasing keeps the length and maps each character on its own |
| `Text.LowerIdempotent` | index.js:180-182 | lowercasing twice is the same as lowercasing once |
| `Text.Includes` | index.js:182 | the empty string is included in every string, and a string only includes strings no longer than itself |
| `Text.IncludesIffOccurs` | index.js:182 | `includes` holds exactly when the needle occurs at some offset of the haystack (both directions) |
| `Text.Split` | index.js:201 | `split(',')` yields at least one piece and no piece contains the separator |
| `Text.Join` | index.js:225 | joining no parts gives the empty string, and otherwise the first part is a prefix of the result |
| `Text.JoinCons` | index.js:225 | a joined list of two or more parts is the first part, the separator, then the join of the rest |
| `Text.JoinSplit` | index.js:201 | joining the pieces of a split with the separator restores the text |
| `Text.SplitCommaSpaceJoin` | index.js:225 | splitting a ", "-joined list of comma-free items on ',' gives the first item and then every later item behind one space |
| `Variations.RecipeVariant.GetName` | index.js:126-155 | the base recipe's name is a prefix of every decorated name |
| `Variations.RecipeVariant.GetIngredients` | index.js:130-160 | the base recipe's list is a prefix of every decorated list, and each decorator adds exactly one ingredient |
| `Variations.CreateRecipe` | index.js:76-86 | "spicy" gives name + " (Spicy)" and ingredients + ["Chili Peppers"]; "vegan" gives " (Vegan)" and "Tofu"; any other type leaves name and ingredients as given; the base is the plain recipe |
| `Recipes.StoredRecipe.constructor` | index.js:52-56 | a new entry holds exactly the given id, name and ingredients |
| `Recipes.WithoutId` | index.js:62 | the filtered list is an order-preserving subsequence of the entries; it holds no entry with the id; every entry with another id keeps its multiplicity |
| `Recipes.WithoutAbsentId` | index.js:61-64 | deleting an id that no entry has leaves the list unchanged |
| `SortStrategies.GetSortStrategy` | index.js:42-49 | count ordering exactly for "ingredientCount"; name ordering for "name" and for every other string |
| `SortStrategies.LexLe` | index.js:102 | the stand-in for `localeCompare(...) <= 0`: a prefix sorts no later than any string it begins |
| `SortStrategies.LexLeTotal` | index.js:102 | any two names are comparable |
| `SortStrategies.LexLeTransitive` | index.js:102 | the name order is transitive |
| `SortStrategies.LexLeAntisymmetric` | index.js:102 | names that each sort no later than the other are equal; this holds of the stand-in order, not of `localeCompare` |
| `SortStrategies.InOrder` | index.js:100-110 | a comparator result that is not positive: each entry may come before an identical entry |
| `SortStrategies.InOrderTotal` | index.js:100-110 | both comparators relate any two entries in at least one direction |
| `SortStrategies.InOrderTransitive` | index.js:100-110 | both comparators are transitive |
| `SortStrategies.Insert` | index.js:100-110 | insertion places no entry other than the inserted one and those of the list |
| `SortStrategies.InsertSorted` | index.js:100-110 | inserting an entry into a list sorted by a strategy keeps it sorted |
| `SortStrategies.InsertPermutes` | index.js:100-110 | insertion adds exactly the one entry |
| `SortStrategies.SortRecipes` | index.js:100-110 | the sorted list holds only entries of the input list |
| `SortStrategies.SortRecipesSorted` | index.js:100-110 | sorting yields a permutation of the entries in non-decreasing order of the strategy's key |
| `Notifications.MessageLog.constructor` | index.js:170 | a new message array is empty |
| `Notifications.MessageLog.Push` | index.js:95 | `push` appends the message after the old content |
| `Notifications.NotificationDisplay.constructor` | index.js:90-92 | the display writes into the array it was given |
| `Notifications.NotificationDisplay.Update` | index.js:94-96 | the message is appended to the display's array |
| `Notifications.Repeat` | index.js:21-23 | a broadcast's copies: exactly `n` entries, each the message |
| `Notifications.DeliveriesPositive` | index.js:17-23 | an array receives broadcasts exactly when some subscriber writes into it |
| `Notifications.DeliveriesAppend` | index.js:17-19 | one more subscriber adds one delivery to its own array and none to any other |
| `Notifications.NotificationService.constructor` | index.js:5-11 | a new service has no subscribers |
| `Notifications.NotificationService.Subscribe` | index.js:17-19 | the subscriber is appended; its array gains one delivery per broadcast |
| `Notifications.NotificationService.Notify` | index.js:21-23 | every subscribed array gets the message appended once per subscription, after its old content; the subscriber list and every other array are unchanged |
| `Manager.StoreMessagesDistinct` | index.js:58-63 | the added and deleted announcements never coincide, and each names exactly one recipe |
| `Manager.RecipeManager.constructor` | index.js:28-36 | an empty store over the given service, ordering by name |
| `Manager.RecipeManager.AddRecipe` | index.js:51-59 | exactly one fresh entry with the given id, name and ingredients is appended; earlier entries are unchanged; `Recipe "<name>" has been added.` is broadcast |
| `Manager.RecipeManager.DeleteRecipe` | index.js:61-64 | the list becomes the entries whose id differs, in order; `Recipe "<recipe.name>" has been deleted.` is broadcast whether or not anything matched |
| `Manager.RecipeManager.GetSortedRecipes` | index.js:66-68 | the store's own list is reordered to a permutation sorted by the current strategy, and that list is returned |
| `Manager.RecipeManager.ChangeSortStrategy` | index.js:70-72 | the strategy becomes the one `getSortStrategy` selects for the string |
| `RecipeListComponent.FormMessagesDistinct` | index.js:208-216 | the update and validation messages never coincide with each other or with the store's announcements, and an update message names exactly one recipe |
| `RecipeListComponent.ParseIngredients` | index.js:201 | one item per comma-separated piece; every item is trimmed and comma-free |
| `RecipeListComponent.TrimJoinedPiece` | index.js:199-228 | piece `k` of a ", "-joined list of trimmed, comma-free items trims back to item `k`, and there are as many pieces as items |
| `RecipeListComponent.JoinedIngredientsParseBack` | index.js:199-228 | parsing a ", "-joined list of trimmed, comma-free items gives the list back |
| `RecipeListComponent.EditFormRoundTrip` | index.js:199-228 | re-submitting the edit form unchanged on form-made ingredients stores the same list |
| `RecipeListComponent.MatchesFilter` | index.js:182 | with an empty filter, exactly the recipes with at least one ingredient match |
| `RecipeListComponent.MatchesFilterIff` | index.js:181-183 | a recipe matches exactly when some ingredient, lowercased, contains the lowercased filter |
| `RecipeListComponent.MatchesFilterIgnoresCase` | index.js:180-182 | the filter's letter case does not change the result |
| `RecipeListComponent.FilterByIngredient` | index.js:181-183 | the order-preserving subsequence of exactly the matching entries, each with its multiplicity |
| `RecipeListComponent.RecipeList.constructor` | index.js:164-174 | empty form and filter, an empty notification array, not editing |
| `RecipeListComponent.RecipeList.LoadRecipes` | index.js:190-195 | with a saved snapshot, the store holds fresh entries equal to it; without one, the store is unchanged |
| `RecipeListComponent.RecipeList.SaveRecipes` | index.js:196-198 | the storage slot becomes a snapshot of the store's entries |
| `RecipeListComponent.RecipeList.NotifyUser` | index.js:232-234 | the message is appended to the component's array |
| `RecipeListComponent.RecipeList.Mounted` | index.js:246-251 | the saved recipes are loaded; one display around the component's array is appended to the subscribers, so the array gets one more delivery per broadcast |
| `RecipeListComponent.RecipeList.FilteredAndSortedRecipes` | index.js:176-187 | the store's list is sorted in place (as a permutation); with an empty filter the result is that list itself, otherwise exactly its matching entries in order |
| `RecipeListComponent.RecipeList.AddOrUpdateRecipe` | index.js:199-218 | empty name or text: only "Please enter a recipe name and ingredients." is appended to the component's array, and nothing else changes. In edit mode: the edited entry gets the name and the parsed items, no other entry and no other array changes, the update message goes to the component's array, edit mode is left. Otherwise: one fresh entry is appended after the kept entries, and the added message reaches every subscribed array once per subscription. In both valid cases the store is saved and the form cleared; the edit-mode invariant is kept |
| `RecipeListComponent.RecipeList.SubmitEdit` | index.js:203-214 | the edited entry takes the form's name and the items; every other entry of the store is unchanged; the update message goes to the component's array; edit mode is left, the store saved and the form cleared |
| `RecipeListComponent.RecipeList.SubmitNew` | index.js:209-214 | one entry with the form's name and the items is appended after the kept entries; the added message reaches every subscribed array; the store is saved and the form cleared |
| `RecipeListComponent.RecipeList.AddThroughStore` | index.js:210 | one fresh entry is appended after the kept entries; every subscribed array, the component's included, gets the added message once per subscription |
| `RecipeListComponent.RecipeList.DeleteRecipe` | index.js:219-222 | the store keeps the entries with other ids; every subscribed array gets the deletion message once per subscription, the component's array included; the store is saved |
| `RecipeListComponent.RecipeList.EditRecipe` | index.js:223-228 | the form holds the entry's name and its ingredients joined with ", ", and edit mode is on that entry |
| `RecipeListComponent.RecipeList.ChangeSortStrategy` | index.js:229-231 | the store's strategy becomes the selected one |
| `RecipeListComponent.RecipeList.AddSpicyVariation` | index.js:235-239 | a new entry `<name> (Spicy)` with the ingredients plus "Chili Peppers" is appended after the kept entries; the original entry is unchanged; every subscribed array gets the added message; the store is saved |
| `RecipeListComponent.RecipeList.AddVeganVariation` | index.js:240-244 | a new entry `<name> (Vegan)` with the ingredients plus "Tofu" is appended after the kept entries; the original entry is unchanged; every subscribed array gets the added message; the store is saved |

## Left out

- The Vue component plumbing is not modelled: `createApp(...).mount`, the template and computed-property reactivity. The model calls each component method directly.
- The browser's local storage is a field `storedRecipes` of the component. The JSON encoding, storage failures and the key name are not modelled. A stored value is either absent or a snapshot of entries.
- `Date.now()` is a parameter `now` (or `id`) of the methods that create entries. Nothing claims ids are unique.
- `localeCompare` is replaced by lexicographic order on character codes (`LexLe`), which is proved to be a total order. Locale collation is not modelled.
- `toLowerCase` is modelled on ASCII letters only. Other Unicode case mappings are not.
- JavaScript strings are UTF-16 code-unit sequences. The model uses Dafny strings, which are sequences of Unicode scalar values.
- The singleton mechanics (`static instance`, `getInstance`) are not modelled. Each object is constructed explicitly and passed in.
- Subscribers are only `NotificationDisplay` objects. The dynamic dispatch of `update` to arbitrary objects is not modelled.
- The decorators are a datatype. A decorator object's identity is not modelled, and neither is a base `Recipe` object that changes after it is wrapped.
- The unused `Ingredient` class is not modelled.
- Manager.RecipeManager.GetSortedRecipes: it does not state that the sort is stable, which `Array.prototype.sort` guarantees since ES2019. It states only a sorted permutation; the order among equal keys is the model's insertion sort's.
