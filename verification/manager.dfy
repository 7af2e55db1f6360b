/**
 * `RecipeManager`: the recipe store. It owns the list of entries, announces
 * every addition and deletion through the notification service, and orders the
 * list with the selected sort strategy, in place.
 */
module Manager {
  import opened Recipes
  import opened SortStrategies
  import opened Notifications

  function AddedMessage(name: string): string {
    "Recipe \"" + name + "\" has been added."
  }

  function DeletedMessage(name: string): string {
    "Recipe \"" + name + "\" has been deleted."
  }

  /**
   * The store's two announcements are never confused with each other, and each
   * names exactly one recipe.
   */
  lemma StoreMessagesDistinct(a: string, b: string)
    ensures AddedMessage(a) != DeletedMessage(b)
    ensures AddedMessage(a) == AddedMessage(b) ==> a == b
    ensures DeletedMessage(a) == DeletedMessage(b) ==> a == b
  {
    var added, deleted := AddedMessage(a), DeletedMessage(b);
    assert added[|added| - 4] == 'd' && deleted[|deleted| - 4] == 't';
    if AddedMessage(a) == AddedMessage(b) {
      assert AddedMessage(a)[8..8 + |a|] == a && AddedMessage(b)[8..8 + |b|] == b;
    }
    if DeletedMessage(a) == DeletedMessage(b) {
      assert DeletedMessage(a)[8..8 + |a|] == a && DeletedMessage(b)[8..8 + |b|] == b;
    }
  }

  class RecipeManager {
    var recipes: seq<StoredRecipe>
    const notificationService: NotificationService
    var sortStrategy: SortStrategy

    /** A store over the shared notification service, empty and ordering by name. */
    constructor (notificationService: NotificationService)
      ensures recipes == [] && this.notificationService == notificationService
      ensures sortStrategy == GetSortStrategy("name")
    {
      recipes := [];
      this.notificationService := notificationService;
      sortStrategy := GetSortStrategy("name");
    }

    /** The values of the entries, in list order. */
    function Contents(): seq<RecipeData>
      reads this, recipes
    {
      Views(recipes)
    }

    /**
     * `addRecipe(name, ingredients)`: appends one fresh entry whose id is the
     * clock reading `id`, keeps every earlier entry in place, and broadcasts
     * `Recipe "<name>" has been added.`.
     */
    method AddRecipe(id: int, name: string, ingredients: seq<string>)
      modifies this`recipes, notificationService.Targets()
      ensures |recipes| == |old(recipes)| + 1 && recipes[..|old(recipes)|] == old(recipes)
      ensures fresh(recipes[|old(recipes)|])
      ensures Contents() == old(Contents()) + [RecipeData(id, name, ingredients)]
      ensures notificationService.subscribers == old(notificationService.subscribers)
      ensures forall log :: log in notificationService.Targets() ==>
                log.entries == old(log.entries)
                               + Repeat(AddedMessage(name), Deliveries(notificationService.subscribers, log))
    {
      var newRecipe := new StoredRecipe(id, name, ingredients);
      recipes := recipes + [newRecipe];
      assert recipes[..|old(recipes)|] == old(recipes);
      notificationService.Notify(AddedMessage(name));
    }

    /**
     * `deleteRecipe(recipe)`: keeps exactly the entries whose id differs from
     * `recipe.id`, in order, and broadcasts `Recipe "<recipe.name>" has been deleted.`
     * whether or not anything was removed.
     */
    method DeleteRecipe(recipe: StoredRecipe)
      modifies this`recipes, notificationService.Targets()
      ensures recipes == WithoutId(old(recipes), recipe.id)
      ensures notificationService.subscribers == old(notificationService.subscribers)
      ensures forall log :: log in notificationService.Targets() ==>
                log.entries == old(log.entries)
                               + Repeat(DeletedMessage(recipe.name), Deliveries(notificationService.subscribers, log))
    {
      recipes := WithoutId(recipes, recipe.id);
      notificationService.Notify(DeletedMessage(recipe.name));
    }

    /**
     * `getSortedRecipes()`: sorts the store's own list with the current strategy
     * and returns that list: a permutation of the entries in the strategy's order.
     */
    method GetSortedRecipes() returns (sorted: seq<StoredRecipe>)
      modifies this`recipes
      ensures sorted == recipes
      ensures multiset(recipes) == multiset(old(recipes))
      ensures Sorted(sortStrategy, Contents())
    {
      SortRecipesSorted(recipes, sortStrategy);
      recipes := SortRecipes(recipes, sortStrategy);
      sorted := recipes;
    }

    /** `changeSortStrategy(strategy)`: selects the strategy `getSortStrategy` names. */
    method ChangeSortStrategy(strategy: string)
      modifies this`sortStrategy
      ensures sortStrategy == GetSortStrategy(strategy)
    {
      sortStrategy := GetSortStrategy(strategy);
    }
  }
}
