/**
 * The non-visual logic of the `RecipeList` component: its form state (name and
 * ingredient text, edit mode and the entry being edited), the filter, the
 * notification array it displays, and the storage slot it saves the store to.
 */
module RecipeListComponent {
  import opened Text
  import opened Variations
  import opened Recipes
  import opened SortStrategies
  import opened Notifications
  import opened Manager

  const PleaseEnterMessage := "Please enter a recipe name and ingredients."

  function UpdatedMessage(name: string): string {
    "Recipe \"" + name + "\" has been updated."
  }

  /**
   * The component's four kinds of message are never confused with each other,
   * and an update message names exactly one recipe.
   */
  lemma FormMessagesDistinct(a: string, b: string)
    ensures UpdatedMessage(a) != AddedMessage(b) && UpdatedMessage(a) != DeletedMessage(b)
    ensures PleaseEnterMessage != AddedMessage(a) && PleaseEnterMessage != DeletedMessage(a)
    ensures PleaseEnterMessage != UpdatedMessage(a)
    ensures UpdatedMessage(a) == UpdatedMessage(b) ==> a == b
  {
    var updated, added, deleted := UpdatedMessage(a), AddedMessage(b), DeletedMessage(b);
    assert updated[|updated| - 4] == 't' && added[|added| - 4] == 'd';
    assert updated[|updated| - 5] == 'a' && deleted[|deleted| - 5] == 'e';
    var addedA, deletedA := AddedMessage(a), DeletedMessage(a);
    assert PleaseEnterMessage[|PleaseEnterMessage| - 2] == 's';
    assert addedA[|addedA| - 2] == 'd' && deletedA[|deletedA| - 2] == 'd' && updated[|updated| - 2] == 'd';
    if UpdatedMessage(a) == UpdatedMessage(b) {
      assert UpdatedMessage(a)[8..8 + |a|] == a && UpdatedMessage(b)[8..8 + |b|] == b;
    }
  }

  /**
   * `text.split(',').map(ing => ing.trim())`: one trimmed, comma-free item per
   * comma-separated piece of the text.
   */
  function ParseIngredients(text: string): (r: seq<string>)
    ensures |r| == |Split(text, ',')| >= 1
    ensures forall k :: 0 <= k < |r| ==> IsTrimmed(r[k]) && ',' !in r[k]
  {
    var pieces := Split(text, ',');
    seq(|pieces|, k requires 0 <= k < |pieces| => (TrimExcludes(pieces[k], ','); Trim(pieces[k])))
  }

  /** Piece `k` of a ", "-joined list of trimmed, comma-free items trims back to item `k`. */
  lemma {:induction false} TrimJoinedPiece(ingredients: seq<string>, k: nat)
    requires k < |ingredients|
    requires forall j :: 0 <= j < |ingredients| ==> IsTrimmed(ingredients[j]) && ',' !in ingredients[j]
    ensures |Split(Join(ingredients, ", "), ',')| == |ingredients|
    ensures Trim(Split(Join(ingredients, ", "), ',')[k]) == ingredients[k]
  {
    var text := Join(ingredients, ", ");
    assert "" + text == text;
    SplitCommaSpaceJoin("", ingredients);
    if k == 0 {
      assert "" + ingredients[0] == ingredients[0];
      TrimOfTrimmed(ingredients[0]);
    } else {
      TrimSpacePrefixed(ingredients[k]);
    }
  }

  /**
   * Joining items with ", " (what `editRecipe` puts in the form) and parsing the
   * text again gives the items back, provided there is at least one item and
   * every item is trimmed and free of commas.
   */
  lemma {:induction false} JoinedIngredientsParseBack(ingredients: seq<string>)
    requires |ingredients| >= 1
    requires forall k :: 0 <= k < |ingredients| ==> IsTrimmed(ingredients[k]) && ',' !in ingredients[k]
    ensures ParseIngredients(Join(ingredients, ", ")) == ingredients
  {
    var parsed := ParseIngredients(Join(ingredients, ", "));
    TrimJoinedPiece(ingredients, 0);
    forall k | 0 <= k < |ingredients| ensures parsed[k] == ingredients[k] {
      TrimJoinedPiece(ingredients, k);
    }
  }

  /**
   * Opening the edit form on ingredients that came from the form and submitting
   * it unchanged stores the same ingredient list.
   */
  lemma EditFormRoundTrip(text: string)
    ensures ParseIngredients(Join(ParseIngredients(text), ", ")) == ParseIngredients(text)
  {
    JoinedIngredientsParseBack(ParseIngredients(text));
  }

  /**
   * `ingredients.some(i => i.toLowerCase().includes(filter.toLowerCase()))`; an
   * empty filter is contained in every ingredient.
   */
  function MatchesFilter(ingredients: seq<string>, filter: string): (r: bool)
    ensures filter == "" ==> (r <==> ingredients != [])
  {
    ingredients != [] &&
    (Includes(Lower(ingredients[0]), Lower(filter)) || MatchesFilter(ingredients[1..], filter))
  }

  /** The filter matches exactly when some ingredient contains it, ignoring ASCII case. */
  lemma {:induction false} MatchesFilterIff(ingredients: seq<string>, filter: string)
    ensures MatchesFilter(ingredients, filter) <==>
            exists k :: 0 <= k < |ingredients| && Includes(Lower(ingredients[k]), Lower(filter))
  {
    if ingredients != [] {
      MatchesFilterIff(ingredients[1..], filter);
      if exists k :: 0 <= k < |ingredients| && Includes(Lower(ingredients[k]), Lower(filter)) {
        var k :| 0 <= k < |ingredients| && Includes(Lower(ingredients[k]), Lower(filter));
        if k > 0 {
          assert ingredients[1..][k - 1] == ingredients[k];
        }
      }
    }
  }

  /** The case of the filter text does not matter. */
  lemma {:induction false} MatchesFilterIgnoresCase(ingredients: seq<string>, filter: string)
    ensures MatchesFilter(ingredients, Lower(filter)) == MatchesFilter(ingredients, filter)
  {
    LowerIdempotent(filter);
    if ingredients != [] {
      MatchesFilterIgnoresCase(ingredients[1..], filter);
    }
  }

  /**
   * The `filter` call of `filteredAndSortedRecipes`: the entries with a matching
   * ingredient, in their order, each as often as it occurs.
   */
  function FilterByIngredient(rs: seq<StoredRecipe>, filter: string): (r: seq<StoredRecipe>)
    reads set o | o in rs
    ensures IsSubsequence(r, rs)
    ensures forall x :: x in r ==> x in rs && MatchesFilter(x.ingredients, filter)
    ensures forall x :: x in rs ==>
              multiset(r)[x] == if MatchesFilter(x.ingredients, filter) then multiset(rs)[x] else 0
  {
    if rs == [] then []
    else
      var rest := FilterByIngredient(rs[1..], filter);
      assert rs == [rs[0]] + rs[1..];
      SubsequenceExtend(rs[0], rest, rs[1..]);
      if MatchesFilter(rs[0].ingredients, filter) then [rs[0]] + rest else rest
  }

  class RecipeList {
    const recipeManager: RecipeManager
    var newRecipeName: string
    var newRecipeIngredients: string
    var filterIngredient: string
    const notifications: MessageLog
    var isEditing: bool
    var recipeToEdit: StoredRecipe?
    /** The `recipes` slot of the browser's local storage. */
    var storedRecipes: Option<seq<RecipeData>>

    /** `data()`: empty form, no filter, an empty notification array, not editing. */
    constructor (recipeManager: RecipeManager, storedRecipes: Option<seq<RecipeData>>)
      ensures this.recipeManager == recipeManager && this.storedRecipes == storedRecipes
      ensures newRecipeName == "" && newRecipeIngredients == "" && filterIngredient == ""
      ensures fresh(notifications) && notifications.entries == []
      ensures !isEditing && recipeToEdit == null
      ensures EditConsistent()
    {
      this.recipeManager := recipeManager;
      newRecipeName := "";
      newRecipeIngredients := "";
      filterIngredient := "";
      notifications := new MessageLog();
      isEditing := false;
      recipeToEdit := null;
      this.storedRecipes := storedRecipes;
    }

    /** The form is in edit mode exactly when it holds an entry to edit. */
    predicate EditConsistent()
      reads this
    {
      isEditing <==> recipeToEdit != null
    }

    /** `loadRecipes()`: replaces the store's list by fresh entries built from the saved snapshot, if any. */
    method LoadRecipes()
      modifies recipeManager`recipes
      ensures storedRecipes.Some? ==> recipeManager.Contents() == storedRecipes.value
      ensures storedRecipes.Some? ==> forall k :: 0 <= k < |recipeManager.recipes| ==> fresh(recipeManager.recipes[k])
      ensures storedRecipes.None? ==> recipeManager.recipes == old(recipeManager.recipes)
    {
      if storedRecipes.Some? {
        var saved := storedRecipes.value;
        var loaded: seq<StoredRecipe> := [];
        var i := 0;
        while i < |saved|
          invariant 0 <= i <= |saved| && |loaded| == i
          invariant forall k :: 0 <= k < i ==> fresh(loaded[k]) && loaded[k].View() == saved[k]
        {
          var entry := new StoredRecipe(saved[i].id, saved[i].name, saved[i].ingredients);
          loaded := loaded + [entry];
          i := i + 1;
        }
        recipeManager.recipes := loaded;
      }
    }

    /** `saveRecipes()`: the storage slot becomes a snapshot of the store. */
    method SaveRecipes()
      modifies this`storedRecipes
      ensures storedRecipes == Some(recipeManager.Contents())
    {
      storedRecipes := Some(recipeManager.Contents());
    }

    /** `notifyUser(message)`: appends to the component's own notification array. */
    method NotifyUser(message: string)
      modifies notifications
      ensures notifications.entries == old(notifications.entries) + [message]
    {
      notifications.Push(message);
    }

    /**
     * `mounted()`: loads the saved recipes, then subscribes a display that writes
     * into this component's notification array, which from then on receives one
     * more copy of every broadcast.
     */
    method Mounted()
      modifies recipeManager`recipes, recipeManager.notificationService`subscribers
      ensures storedRecipes.Some? ==> recipeManager.Contents() == storedRecipes.value
      ensures storedRecipes.None? ==> recipeManager.recipes == old(recipeManager.recipes)
      ensures |recipeManager.notificationService.subscribers| == |old(recipeManager.notificationService.subscribers)| + 1
      ensures recipeManager.notificationService.subscribers[..|old(recipeManager.notificationService.subscribers)|]
              == old(recipeManager.notificationService.subscribers)
      ensures Deliveries(recipeManager.notificationService.subscribers, notifications)
              == Deliveries(old(recipeManager.notificationService.subscribers), notifications) + 1
    {
      LoadRecipes();
      var notificationDisplay := new NotificationDisplay(notifications);
      recipeManager.notificationService.Subscribe(notificationDisplay);
      assert recipeManager.notificationService.subscribers[..|old(recipeManager.notificationService.subscribers)|]
             == old(recipeManager.notificationService.subscribers);
    }

    /**
     * The `filteredAndSortedRecipes` computed value: sorts the store in place, then
     * returns the store's list itself when the filter is empty, and otherwise the
     * entries with an ingredient containing the filter, ignoring ASCII case.
     */
    method FilteredAndSortedRecipes() returns (shown: seq<StoredRecipe>)
      modifies recipeManager`recipes
      ensures multiset(recipeManager.recipes) == multiset(old(recipeManager.recipes))
      ensures Sorted(recipeManager.sortStrategy, recipeManager.Contents())
      ensures filterIngredient == "" ==> shown == recipeManager.recipes
      ensures filterIngredient != "" ==> shown == FilterByIngredient(recipeManager.recipes, filterIngredient)
    {
      shown := recipeManager.GetSortedRecipes();
      if filterIngredient != "" {
        shown := FilterByIngredient(shown, filterIngredient);
      }
    }

    /**
     * `addOrUpdateRecipe()`. With an empty name or empty ingredient text, only the
     * validation message is appended. Otherwise the text is parsed into items; in
     * edit mode the entry being edited is overwritten in place and the update is
     * reported to this component's array only, else a new entry with id `now` is
     * added through the store and broadcast; then the store is saved and the form
     * cleared.
     */
    method AddOrUpdateRecipe(now: int)
      modifies this`newRecipeName, this`newRecipeIngredients, this`isEditing, this`recipeToEdit
      modifies this`storedRecipes, recipeToEdit, recipeManager`recipes
      modifies recipeManager.notificationService.Targets(), notifications
      ensures old(EditConsistent()) ==> EditConsistent()
      ensures recipeManager.notificationService.subscribers == old(recipeManager.notificationService.subscribers)
      // invalid input
      ensures old(newRecipeName) == "" || old(newRecipeIngredients) == "" ==>
                && notifications.entries == old(notifications.entries) + [PleaseEnterMessage]
                && (forall log :: log in recipeManager.notificationService.Targets() && log != notifications ==>
                      log.entries == old(log.entries))
                && recipeManager.recipes == old(recipeManager.recipes)
                && recipeManager.Contents() == old(recipeManager.Contents())
                && (old(recipeToEdit) != null ==> old(recipeToEdit).View() == old(recipeToEdit.View()))
                && newRecipeName == old(newRecipeName) && newRecipeIngredients == old(newRecipeIngredients)
                && isEditing == old(isEditing) && recipeToEdit == old(recipeToEdit)
                && storedRecipes == old(storedRecipes)
      // valid input in edit mode
      ensures old(newRecipeName) != "" && old(newRecipeIngredients) != "" && old(isEditing) && old(recipeToEdit) != null ==>
                && old(recipeToEdit).name == old(newRecipeName)
                && old(recipeToEdit).ingredients == ParseIngredients(old(newRecipeIngredients))
                && recipeManager.recipes == old(recipeManager.recipes)
                && (forall k :: 0 <= k < |recipeManager.recipes| && recipeManager.recipes[k] != old(recipeToEdit) ==>
                      recipeManager.Contents()[k] == old(recipeManager.Contents())[k])
                && notifications.entries == old(notifications.entries) + [UpdatedMessage(old(newRecipeName))]
                && (forall log :: log in recipeManager.notificationService.Targets() && log != notifications ==>
                      log.entries == old(log.entries))
                && !isEditing && recipeToEdit == null
                && newRecipeName == "" && newRecipeIngredients == ""
                && storedRecipes == Some(recipeManager.Contents())
      // valid input otherwise
      ensures old(newRecipeName) != "" && old(newRecipeIngredients) != "" && !(old(isEditing) && old(recipeToEdit) != null) ==>
                && |recipeManager.recipes| == |old(recipeManager.recipes)| + 1
                && recipeManager.recipes[..|old(recipeManager.recipes)|] == old(recipeManager.recipes)
                && recipeManager.Contents() == old(recipeManager.Contents())
                     + [RecipeData(now, old(newRecipeName), ParseIngredients(old(newRecipeIngredients)))]
                && (old(recipeToEdit) != null ==> old(recipeToEdit).View() == old(recipeToEdit.View()))
                && (forall log :: log in recipeManager.notificationService.Targets() ==>
                      log.entries == old(log.entries)
                        + Repeat(AddedMessage(old(newRecipeName)), Deliveries(recipeManager.notificationService.subscribers, log)))
                && notifications.entries == old(notifications.entries)
                     + Repeat(AddedMessage(old(newRecipeName)), Deliveries(recipeManager.notificationService.subscribers, notifications))
                && isEditing == old(isEditing) && recipeToEdit == old(recipeToEdit)
                && newRecipeName == "" && newRecipeIngredients == ""
                && storedRecipes == Some(recipeManager.Contents())
    {
      if newRecipeName != "" && newRecipeIngredients != "" {
        var ingredients := ParseIngredients(newRecipeIngredients);
        if isEditing && recipeToEdit != null {
          SubmitEdit(ingredients);
        } else {
          SubmitNew(now, ingredients);
        }
      } else {
        NotifyUser(PleaseEnterMessage);
      }
    }

    /**
     * The edit branch of `addOrUpdateRecipe`: the entry being edited takes the
     * form's name and the given items, edit mode is left, the update is reported
     * to this component's array only, the store is saved and the form cleared.
     */
    method SubmitEdit(ingredients: seq<string>)
      requires recipeToEdit != null
      modifies this`newRecipeName, this`newRecipeIngredients, this`isEditing, this`recipeToEdit
      modifies this`storedRecipes, recipeToEdit, notifications
      ensures old(recipeToEdit).name == old(newRecipeName) && old(recipeToEdit).ingredients == ingredients
      ensures forall k :: 0 <= k < |recipeManager.recipes| && recipeManager.recipes[k] != old(recipeToEdit) ==>
                recipeManager.Contents()[k] == old(recipeManager.Contents())[k]
      ensures notifications.entries == old(notifications.entries) + [UpdatedMessage(old(newRecipeName))]
      ensures !isEditing && recipeToEdit == null && newRecipeName == "" && newRecipeIngredients == ""
      ensures storedRecipes == Some(recipeManager.Contents())
    {
      var edited := recipeToEdit;
      edited.name := newRecipeName;
      edited.ingredients := ingredients;
      isEditing := false;
      recipeToEdit := null;
      NotifyUser(UpdatedMessage(newRecipeName));
      SaveRecipes();
      newRecipeName := "";
      newRecipeIngredients := "";
    }

    /**
     * The add branch of `addOrUpdateRecipe`: a new entry with id `now`, the
     * form's name and the given items is added through the store, then the store
     * is saved and the form cleared.
     */
    method SubmitNew(now: int, ingredients: seq<string>)
      modifies this`newRecipeName, this`newRecipeIngredients, this`storedRecipes
      modifies recipeManager`recipes, recipeManager.notificationService.Targets()
      ensures |recipeManager.recipes| == |old(recipeManager.recipes)| + 1
      ensures recipeManager.recipes[..|old(recipeManager.recipes)|] == old(recipeManager.recipes)
      ensures recipeManager.Contents() == old(recipeManager.Contents()) + [RecipeData(now, old(newRecipeName), ingredients)]
      ensures recipeManager.notificationService.subscribers == old(recipeManager.notificationService.subscribers)
      ensures forall log :: log in recipeManager.notificationService.Targets() ==>
                log.entries == old(log.entries)
                  + Repeat(AddedMessage(old(newRecipeName)), Deliveries(recipeManager.notificationService.subscribers, log))
      ensures notifications.entries == old(notifications.entries)
                + Repeat(AddedMessage(old(newRecipeName)), Deliveries(recipeManager.notificationService.subscribers, notifications))
      ensures newRecipeName == "" && newRecipeIngredients == ""
      ensures storedRecipes == Some(recipeManager.Contents())
    {
      AddThroughStore(now, newRecipeName, ingredients);
      SaveRecipes();
      newRecipeName := "";
      newRecipeIngredients := "";
    }

    /**
     * Adds through the store: one fresh entry is appended and the store's
     * broadcast reaches every subscribed array, this component's included.
     */
    method AddThroughStore(id: int, name: string, ingredients: seq<string>)
      modifies recipeManager`recipes, recipeManager.notificationService.Targets()
      ensures |recipeManager.recipes| == |old(recipeManager.recipes)| + 1
      ensures recipeManager.recipes[..|old(recipeManager.recipes)|] == old(recipeManager.recipes)
      ensures fresh(recipeManager.recipes[|old(recipeManager.recipes)|])
      ensures recipeManager.Contents() == old(recipeManager.Contents()) + [RecipeData(id, name, ingredients)]
      ensures recipeManager.notificationService.subscribers == old(recipeManager.notificationService.subscribers)
      ensures forall log :: log in recipeManager.notificationService.Targets() ==>
                log.entries == old(log.entries)
                  + Repeat(AddedMessage(name), Deliveries(recipeManager.notificationService.subscribers, log))
      ensures notifications.entries == old(notifications.entries)
                + Repeat(AddedMessage(name), Deliveries(recipeManager.notificationService.subscribers, notifications))
    {
      var subscribers := recipeManager.notificationService.subscribers;
      recipeManager.AddRecipe(id, name, ingredients);
      if notifications !in recipeManager.notificationService.Targets() {
        DeliveriesPositive(subscribers, notifications);
      }
    }

    /** `deleteRecipe(recipe)`: deletes through the store, whose broadcast reaches every subscribed array, then saves. */
    method DeleteRecipe(recipe: StoredRecipe)
      modifies recipeManager`recipes, recipeManager.notificationService.Targets(), this`storedRecipes
      ensures recipeManager.recipes == WithoutId(old(recipeManager.recipes), recipe.id)
      ensures recipeManager.notificationService.subscribers == old(recipeManager.notificationService.subscribers)
      ensures forall log :: log in recipeManager.notificationService.Targets() ==>
                log.entries == old(log.entries)
                  + Repeat(DeletedMessage(recipe.name), Deliveries(recipeManager.notificationService.subscribers, log))
      ensures notifications.entries == old(notifications.entries)
                + Repeat(DeletedMessage(recipe.name), Deliveries(recipeManager.notificationService.subscribers, notifications))
      ensures storedRecipes == Some(recipeManager.Contents())
    {
      var subscribers := recipeManager.notificationService.subscribers;
      recipeManager.DeleteRecipe(recipe);
      if notifications !in recipeManager.notificationService.Targets() {
        DeliveriesPositive(subscribers, notifications);
      }
      SaveRecipes();
    }

    /** `editRecipe(recipe)`: fills the form from the entry and enters edit mode on it. */
    method EditRecipe(recipe: StoredRecipe)
      modifies this`newRecipeName, this`newRecipeIngredients, this`isEditing, this`recipeToEdit
      ensures newRecipeName == recipe.name
      ensures newRecipeIngredients == Join(recipe.ingredients, ", ")
      ensures isEditing && recipeToEdit == recipe
      ensures EditConsistent()
    {
      newRecipeName := recipe.name;
      newRecipeIngredients := Join(recipe.ingredients, ", ");
      isEditing := true;
      recipeToEdit := recipe;
    }

    /** `changeSortStrategy(strategy)`: forwards the selection to the store. */
    method ChangeSortStrategy(strategy: string)
      modifies recipeManager`sortStrategy
      ensures recipeManager.sortStrategy == GetSortStrategy(strategy)
    {
      recipeManager.ChangeSortStrategy(strategy);
    }

    /**
     * `addSpicyVariation(recipe)`: adds a new entry with id `now` named
     * `<name> (Spicy)` whose ingredients are the recipe's plus "Chili Peppers",
     * leaving the recipe itself as it was; then saves.
     */
    method AddSpicyVariation(recipe: StoredRecipe, now: int)
      modifies recipeManager`recipes, recipeManager.notificationService.Targets(), this`storedRecipes
      ensures recipeManager.Contents() == old(recipeManager.Contents())
                + [RecipeData(now, recipe.name + " (Spicy)", recipe.ingredients + ["Chili Peppers"])]
      ensures |recipeManager.recipes| == |old(recipeManager.recipes)| + 1
      ensures recipeManager.recipes[..|old(recipeManager.recipes)|] == old(recipeManager.recipes)
      ensures recipe.View() == old(recipe.View())
      ensures recipeManager.notificationService.subscribers == old(recipeManager.notificationService.subscribers)
      ensures forall log :: log in recipeManager.notificationService.Targets() ==>
                log.entries == old(log.entries)
                  + Repeat(AddedMessage(recipe.name + " (Spicy)"), Deliveries(recipeManager.notificationService.subscribers, log))
      ensures notifications.entries == old(notifications.entries)
                + Repeat(AddedMessage(recipe.name + " (Spicy)"),
                         Deliveries(recipeManager.notificationService.subscribers, notifications))
      ensures storedRecipes == Some(recipeManager.Contents())
    {
      var spicyRecipe := CreateRecipe("spicy", recipe.name, recipe.ingredients);
      AddThroughStore(now, spicyRecipe.GetName(), spicyRecipe.GetIngredients());
      SaveRecipes();
    }

    /**
     * `addVeganVariation(recipe)`: adds a new entry with id `now` named
     * `<name> (Vegan)` whose ingredients are the recipe's plus "Tofu", leaving
     * the recipe itself as it was; then saves.
     */
    method AddVeganVariation(recipe: StoredRecipe, now: int)
      modifies recipeManager`recipes, recipeManager.notificationService.Targets(), this`storedRecipes
      ensures recipeManager.Contents() == old(recipeManager.Contents())
                + [RecipeData(now, recipe.name + " (Vegan)", recipe.ingredients + ["Tofu"])]
      ensures |recipeManager.recipes| == |old(recipeManager.recipes)| + 1
      ensures recipeManager.recipes[..|old(recipeManager.recipes)|] == old(recipeManager.recipes)
      ensures recipe.View() == old(recipe.View())
      ensures recipeManager.notificationService.subscribers == old(recipeManager.notificationService.subscribers)
      ensures forall log :: log in recipeManager.notificationService.Targets() ==>
                log.entries == old(log.entries)
                  + Repeat(AddedMessage(recipe.name + " (Vegan)"), Deliveries(recipeManager.notificationService.subscribers, log))
      ensures notifications.entries == old(notifications.entries)
                + Repeat(AddedMessage(recipe.name + " (Vegan)"),
                         Deliveries(recipeManager.notificationService.subscribers, notifications))
      ensures storedRecipes == Some(recipeManager.Contents())
    {
      var veganRecipe := CreateRecipe("vegan", recipe.name, recipe.ingredients);
      AddThroughStore(now, veganRecipe.GetName(), veganRecipe.GetIngredients());
      SaveRecipes();
    }
  }
}
