/**
 * Recipe variations: the `Recipe` base object, the `SpicyDecorator` and
 * `VeganDecorator` wrappers around it, and `RecipeFactory.createRecipe`.
 * A wrapper never changes what it wraps; it derives a new name and a new
 * ingredient list from the wrapped object's.
 */
module Variations {

  /** A recipe-like object: a plain `Recipe` or a decorator around another one. */
  datatype RecipeVariant =
    | Recipe(name: string, ingredients: seq<string>)
    | SpicyDecorator(recipe: RecipeVariant)
    | VeganDecorator(recipe: RecipeVariant)
  {
    /** `getName()`: each decorator appends its tag, so the base name is always a prefix. */
    function GetName(): (r: string)
      ensures Base().name <= r
    {
      match this
      case Recipe(name, _) => name
      case SpicyDecorator(inner) => inner.GetName() + " (Spicy)"
      case VeganDecorator(inner) => inner.GetName() + " (Vegan)"
    }

    /**
     * `getIngredients()`: each decorator returns a copy of the wrapped list plus
     * one item, so the base list is a prefix and each decorator adds exactly one.
     */
    function GetIngredients(): (r: seq<string>)
      ensures Base().ingredients <= r
      ensures |r| == |Base().ingredients| + Depth()
    {
      match this
      case Recipe(_, ingredients) => ingredients
      case SpicyDecorator(inner) => inner.GetIngredients() + ["Chili Peppers"]
      case VeganDecorator(inner) => inner.GetIngredients() + ["Tofu"]
    }

    /** The undecorated `Recipe` at the centre. */
    function Base(): (b: RecipeVariant)
      ensures b.Recipe?
    {
      match this
      case Recipe(_, _) => this
      case SpicyDecorator(inner) => inner.Base()
      case VeganDecorator(inner) => inner.Base()
    }

    /** How many decorators wrap the base. */
    function Depth(): nat {
      match this
      case Recipe(_, _) => 0
      case SpicyDecorator(inner) => inner.Depth() + 1
      case VeganDecorator(inner) => inner.Depth() + 1
    }
  }

  /**
   * `RecipeFactory.createRecipe(type, name, ingredients)`: a `Recipe` wrapped once
   * by the decorator `type` names, or left plain for any other type.
   */
  function CreateRecipe(kind: string, name: string, ingredients: seq<string>): (r: RecipeVariant)
    ensures kind == "spicy" ==>
              r.GetName() == name + " (Spicy)" && r.GetIngredients() == ingredients + ["Chili Peppers"]
    ensures kind == "vegan" ==>
              r.GetName() == name + " (Vegan)" && r.GetIngredients() == ingredients + ["Tofu"]
    ensures kind != "spicy" && kind != "vegan" ==>
              r.GetName() == name && r.GetIngredients() == ingredients
    ensures r.Base() == Recipe(name, ingredients) && r.Depth() <= 1
  {
    var recipe := Recipe(name, ingredients);
    if kind == "spicy" then SpicyDecorator(recipe)
    else if kind == "vegan" then VeganDecorator(recipe)
    else recipe
  }
}
