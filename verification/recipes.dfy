/**
 * The entries of the recipe store: mutable `{id, name, ingredients}` objects,
 * their value snapshots, and the order-preserving filters applied to lists of them.
 */
module Recipes {

  datatype Option<T> = None | Some(value: T)

  /** The value of one store entry at one moment, as it is serialised for storage. */
  datatype RecipeData = RecipeData(id: int, name: string, ingredients: seq<string>)

  /**
   * A store entry. The id never changes after creation; the name and the
   * ingredient list are overwritten in place by an edit.
   */
  class StoredRecipe {
    const id: int
    var name: string
    var ingredients: seq<string>

    constructor (id: int, name: string, ingredients: seq<string>)
      ensures this.id == id && this.name == name && this.ingredients == ingredients
    {
      this.id := id;
      this.name := name;
      this.ingredients := ingredients;
    }

    function View(): RecipeData
      reads this
    {
      RecipeData(id, name, ingredients)
    }
  }

  /** The values of a list of entries, position by position. */
  function Views(rs: seq<StoredRecipe>): (vs: seq<RecipeData>)
    reads rs
    ensures |vs| == |rs|
    ensures forall i :: 0 <= i < |rs| ==> vs[i] == rs[i].View()
  {
    seq(|rs|, i reads rs requires 0 <= i < |rs| => rs[i].View())
  }

  /** `sub` can be obtained from `s` by deleting elements, keeping the order of the rest. */
  predicate IsSubsequence<T(==)>(sub: seq<T>, s: seq<T>)
    decreases |s|
  {
    sub == [] || (s != [] && (IsSubsequence(sub, s[1..]) || (sub[0] == s[0] && IsSubsequence(sub[1..], s[1..]))))
  }

  /** Keeping the head of both sequences, or dropping the head of the longer one, keeps a subsequence. */
  lemma SubsequenceExtend<T>(x: T, sub: seq<T>, s: seq<T>)
    requires IsSubsequence(sub, s)
    ensures IsSubsequence([x] + sub, [x] + s)
    ensures IsSubsequence(sub, [x] + s)
  {
    assert ([x] + sub)[1..] == sub;
    assert ([x] + s)[1..] == s;
  }

  /**
   * `recipes.filter(r => r.id !== id)`: the entries whose id differs, in their
   * original order, each as often as it occurred.
   */
  function WithoutId(rs: seq<StoredRecipe>, id: int): (r: seq<StoredRecipe>)
    ensures IsSubsequence(r, rs)
    ensures forall x :: x in r ==> x in rs && x.id != id
    ensures forall x :: x in rs ==> multiset(r)[x] == if x.id == id then 0 else multiset(rs)[x]
  {
    if rs == [] then []
    else
      var rest := WithoutId(rs[1..], id);
      assert rs == [rs[0]] + rs[1..];
      SubsequenceExtend(rs[0], rest, rs[1..]);
      if rs[0].id != id then [rs[0]] + rest else rest
  }

  /** Removing an id that no entry has leaves the list unchanged. */
  lemma {:induction false} WithoutAbsentId(rs: seq<StoredRecipe>, id: int)
    requires forall x :: x in rs ==> x.id != id
    ensures WithoutId(rs, id) == rs
  {
    if rs != [] {
      WithoutAbsentId(rs[1..], id);
    }
  }
}
