/**
 * The two sort strategies of the recipe store and the selection between them.
 * `Array.prototype.sort` is modelled by an insertion sort over the store's
 * list of entries, proved to yield a permutation ordered by the strategy's
 * comparator. Names are compared by `LexLe`, a total order that stands for
 * `localeCompare`.
 */
module SortStrategies {
  import opened Recipes

  datatype SortStrategy = NameSortStrategy | IngredientCountSortStrategy

  /** `getSortStrategy`: count ordering for "ingredientCount", name ordering for every other string. */
  function GetSortStrategy(strategy: string): (r: SortStrategy)
    ensures r == IngredientCountSortStrategy <==> strategy == "ingredientCount"
    ensures r == NameSortStrategy <==> strategy != "ingredientCount"
  {
    if strategy == "name" then NameSortStrategy
    else if strategy == "ingredientCount" then IngredientCountSortStrategy
    else NameSortStrategy
  }

  /** Lexicographic order on character codes: `a` sorts no later than `b`; a prefix sorts first. */
  function LexLe(a: string, b: string): (r: bool)
    ensures a <= b ==> r
  {
    a == [] || (b != [] && (a[0] < b[0] || (a[0] == b[0] && LexLe(a[1..], b[1..]))))
  }

  lemma {:induction false} LexLeTotal(a: string, b: string)
    ensures LexLe(a, b) || LexLe(b, a)
  {
    if a != [] && b != [] && a[0] == b[0] {
      LexLeTotal(a[1..], b[1..]);
    }
  }

  lemma {:induction false} LexLeTransitive(a: string, b: string, c: string)
    requires LexLe(a, b) && LexLe(b, c)
    ensures LexLe(a, c)
  {
    if a != [] && b != [] && c != [] && a[0] == b[0] == c[0] {
      LexLeTransitive(a[1..], b[1..], c[1..]);
    }
  }

  /**
   * Only different strings are ordered strictly. This holds of the character-code
   * order; `localeCompare` also answers 0 for some distinct strings (canonically
   * equivalent ones), so it is a property of this stand-in order only.
   */
  lemma {:induction false} LexLeAntisymmetric(a: string, b: string)
    requires LexLe(a, b) && LexLe(b, a)
    ensures a == b
  {
    if a != [] && b != [] {
      LexLeAntisymmetric(a[1..], b[1..]);
      assert a == [a[0]] + a[1..] && b == [b[0]] + b[1..];
    }
  }

  /**
   * The strategy's comparator, read as "`a` may come before `b`": the comparator
   * returns a value that is not positive.
   */
  function InOrder(strategy: SortStrategy, a: RecipeData, b: RecipeData): (r: bool)
    ensures a == b ==> r
  {
    match strategy
    case NameSortStrategy => LexLe(a.name, b.name)
    case IngredientCountSortStrategy => |a.ingredients| - |b.ingredients| <= 0
  }

  /** Both comparators are total preorders. */
  lemma InOrderTotal(strategy: SortStrategy, a: RecipeData, b: RecipeData)
    ensures InOrder(strategy, a, b) || InOrder(strategy, b, a)
  {
    if strategy.NameSortStrategy? {
      LexLeTotal(a.name, b.name);
    }
  }

  lemma InOrderTransitive(strategy: SortStrategy, a: RecipeData, b: RecipeData, c: RecipeData)
    requires InOrder(strategy, a, b) && InOrder(strategy, b, c)
    ensures InOrder(strategy, a, c)
  {
    if strategy.NameSortStrategy? {
      LexLeTransitive(a.name, b.name, c.name);
    }
  }

  /** Every pair of positions is in the strategy's order. */
  predicate Sorted(strategy: SortStrategy, vs: seq<RecipeData>) {
    forall i, j :: 0 <= i < j < |vs| ==> InOrder(strategy, vs[i], vs[j])
  }

  /** Inserts `x` before the first entry it may precede. */
  function Insert(x: StoredRecipe, rs: seq<StoredRecipe>, strategy: SortStrategy): (r: seq<StoredRecipe>)
    reads x, set o | o in rs
    ensures forall o :: o in r ==> o == x || o in rs
  {
    if rs == [] then [x]
    else if InOrder(strategy, x.View(), rs[0].View()) then [x] + rs
    else [rs[0]] + Insert(x, rs[1..], strategy)
  }

  /** The list the strategy's `sort` leaves behind. */
  function SortRecipes(rs: seq<StoredRecipe>, strategy: SortStrategy): (r: seq<StoredRecipe>)
    reads set o | o in rs
    ensures forall o :: o in r ==> o in rs
  {
    if rs == [] then []
    else Insert(rs[0], SortRecipes(rs[1..], strategy), strategy)
  }

  lemma {:induction false} InsertPermutes(x: StoredRecipe, rs: seq<StoredRecipe>, strategy: SortStrategy)
    ensures multiset(Insert(x, rs, strategy)) == multiset(rs) + multiset{x}
  {
    if rs != [] {
      assert rs == [rs[0]] + rs[1..];
      if !InOrder(strategy, x.View(), rs[0].View()) {
        InsertPermutes(x, rs[1..], strategy);
      }
    }
  }

  /** An entry that may precede every entry of a sorted list can be put in front of it. */
  lemma ConsSorted(y: StoredRecipe, rs: seq<StoredRecipe>, strategy: SortStrategy)
    requires Sorted(strategy, Views(rs))
    requires forall k :: 0 <= k < |rs| ==> InOrder(strategy, y.View(), rs[k].View())
    ensures Sorted(strategy, Views([y] + rs))
  {
    var r := [y] + rs;
    forall i, j | 0 <= i < j < |r| ensures InOrder(strategy, r[i].View(), r[j].View()) {
      if i > 0 {
        assert r[i] == rs[i - 1] && r[j] == rs[j - 1];
      }
    }
  }

  lemma SortedTail(rs: seq<StoredRecipe>, strategy: SortStrategy)
    requires rs != [] && Sorted(strategy, Views(rs))
    ensures Sorted(strategy, Views(rs[1..]))
  {
    var tail := rs[1..];
    forall i, j | 0 <= i < j < |tail| ensures InOrder(strategy, tail[i].View(), tail[j].View()) {
      assert tail[i] == rs[i + 1] && tail[j] == rs[j + 1];
    }
  }

  lemma {:induction false} InsertSorted(x: StoredRecipe, rs: seq<StoredRecipe>, strategy: SortStrategy)
    requires Sorted(strategy, Views(rs))
    ensures Sorted(strategy, Views(Insert(x, rs, strategy)))
  {
    if rs == [] {
    } else if InOrder(strategy, x.View(), rs[0].View()) {
      forall k | 0 <= k < |rs| ensures InOrder(strategy, x.View(), rs[k].View()) {
        if k > 0 {
          InOrderTransitive(strategy, x.View(), rs[0].View(), rs[k].View());
        }
      }
      ConsSorted(x, rs, strategy);
    } else {
      var tail := rs[1..];
      SortedTail(rs, strategy);
      InsertSorted(x, tail, strategy);
      InOrderTotal(strategy, x.View(), rs[0].View());
      var ins := Insert(x, tail, strategy);
      forall k | 0 <= k < |ins| ensures InOrder(strategy, rs[0].View(), ins[k].View()) {
        assert ins[k] in ins;
        if ins[k] != x {
          var j :| 0 <= j < |tail| && tail[j] == ins[k];
          assert rs[j + 1] == ins[k];
        }
      }
      ConsSorted(rs[0], ins, strategy);
    }
  }

  /** Sorting yields a permutation of the entries in non-decreasing order of the strategy's key. */
  lemma {:induction false} SortRecipesSorted(rs: seq<StoredRecipe>, strategy: SortStrategy)
    ensures Sorted(strategy, Views(SortRecipes(rs, strategy)))
    ensures multiset(SortRecipes(rs, strategy)) == multiset(rs)
  {
    if rs != [] {
      SortRecipesSorted(rs[1..], strategy);
      InsertSorted(rs[0], SortRecipes(rs[1..], strategy), strategy);
      InsertPermutes(rs[0], SortRecipes(rs[1..], strategy), strategy);
      assert rs == [rs[0]] + rs[1..];
    }
  }
}
