/** The saved-recipe history page (src/pages/History.tsx): a
    case-insensitive search over four header fields, and the message shown
    when nothing is listed. Loading the stored list is left to the caller. */
module History {
  import opened Types
  import opened Lists
  import opened Text

  /** The lower-cased term occurs in the lower-cased request id, batch
      number, buyer or order number. */
  predicate Matches(recipe: Recipe, searchTerm: string)
  {
    var searchLower := ToLower(searchTerm);
    Includes(ToLower(recipe.formData.Field(ReqId)), searchLower)
    || Includes(ToLower(recipe.formData.Field(BatchNo)), searchLower)
    || Includes(ToLower(recipe.formData.Field(Buyer)), searchLower)
    || Includes(ToLower(recipe.formData.Field(OrderNo)), searchLower)
  }

  /** `filteredRecipes`. */
  function FilteredRecipes(recipes: seq<Recipe>, searchTerm: string): (r: seq<Recipe>)
    ensures IsSublist(r, recipes)
    ensures forall x :: x in r <==> x in recipes && Matches(x, searchTerm)
    ensures forall x :: multiset(r)[x] == if Matches(x, searchTerm) then multiset(recipes)[x] else 0
    ensures searchTerm == "" ==> r == recipes
  {
    var p := (x: Recipe) => Matches(x, searchTerm);
    FilterIsSublist(recipes, p);
    forall x ensures x in Filter(recipes, p) <==> x in recipes && p(x) {
      FilterMembers(recipes, p, x);
    }
    forall x ensures multiset(Filter(recipes, p))[x] == if p(x) then multiset(recipes)[x] else 0 {
      FilterCount(recipes, p, x);
    }
    if searchTerm == "" then
      forall i | 0 <= i < |recipes| ensures p(recipes[i]) {
        IncludesEmpty(ToLower(recipes[i].formData.Field(ReqId)));
      }
      FilterKeepsAll(recipes, p);
      Filter(recipes, p)
    else Filter(recipes, p)
  }

  /** Terms that lower-case alike find the same recipes. */
  lemma SameLowerSameResult(recipes: seq<Recipe>, t1: string, t2: string)
    requires ToLower(t1) == ToLower(t2)
    ensures FilteredRecipes(recipes, t1) == FilteredRecipes(recipes, t2)
  {
    FilterSamePredicate(recipes, (x: Recipe) => Matches(x, t1), (x: Recipe) => Matches(x, t2));
  }

  /** The search ignores the letter case of the term. */
  lemma CaseInsensitive(recipes: seq<Recipe>, searchTerm: string)
    ensures FilteredRecipes(recipes, ToLower(searchTerm)) == FilteredRecipes(recipes, searchTerm)
  {
    ToLowerIdempotent(searchTerm);
    SameLowerSameResult(recipes, ToLower(searchTerm), searchTerm);
  }

  const NoMatchMessage: string := "No recipes found matching your search."
  const NothingSavedMessage: string := "No recipes saved yet."

  /** The message under an empty result list, none when something is listed. */
  function EmptyResultMessage(filtered: seq<Recipe>, searchTerm: string): (m: Option<string>)
    ensures m.Some? <==> filtered == []
    ensures m.Some? ==> m.value == if searchTerm != "" then NoMatchMessage else NothingSavedMessage
  {
    if |filtered| == 0 then
      Some(if searchTerm != "" then NoMatchMessage else NothingSavedMessage)
    else None
  }

  /** With no term the page says "nothing saved" exactly when nothing is
      stored, and with a term it says "no match" exactly when no stored
      recipe matches. */
  lemma MessageTellsWhy(recipes: seq<Recipe>, searchTerm: string)
    ensures searchTerm == "" ==>
              (EmptyResultMessage(FilteredRecipes(recipes, searchTerm), searchTerm) == Some(NothingSavedMessage)
               <==> recipes == [])
    ensures searchTerm != "" ==>
              (EmptyResultMessage(FilteredRecipes(recipes, searchTerm), searchTerm) == Some(NoMatchMessage)
               <==> forall x :: x in recipes ==> !Matches(x, searchTerm))
  {
    var r := FilteredRecipes(recipes, searchTerm);
    if r != [] {
      assert r[0] in r;
    }
    if searchTerm != "" && r == [] {
      forall x | x in recipes ensures !Matches(x, searchTerm) {
        assert x !in r;
      }
    }
  }
}
