/**
 * The top-level component of the recipe finder: the pure helpers its search handler
 * uses (category derivation, the twelve-recipe cut, the favourites toggle) and the
 * component state with one method per handler.
 */
module App {
  import opened Wrappers
  import opened Text
  import opened Seqs
  import opened Recipes

  // ----------------------------------------------------------------- constants

  /** How many recipes the grid shows. */
  const DisplayLimit: nat := 12

  /** The category loaded on start and on retry. */
  const PopularCategory: string := "Chicken"

  const LoadFailed: string := "Failed to load recipes. Please try again."
  const SearchFailed: string := "Failed to search recipes. Please check your connection."
  const DetailFailed: string := "Failed to load recipe details. Please try again."
  const CategoryFailed: string := "Failed to load category recipes. Please try again."

  const NotFoundPrefix: string := "No recipes found for \""
  const NotFoundSuffix: string := "\". Try a specific ingredient (e.g., \"tomato\", \"chicken\") or a valid category."

  /** The message shown when neither the ingredient nor the category query found anything. */
  function NotFoundMessage(query: string): (m: string)
    ensures |m| == |NotFoundPrefix| + |query| + |NotFoundSuffix|
    ensures m[..|NotFoundPrefix|] == NotFoundPrefix
    ensures m[|NotFoundPrefix|..|NotFoundPrefix| + |query|] == query
    ensures m[|NotFoundPrefix| + |query|..] == NotFoundSuffix
  {
    NotFoundPrefix + query + NotFoundSuffix
  }

  /** The message determines the query it echoes. */
  lemma {:induction false} NotFoundMessageInjective(a: string, b: string)
    requires NotFoundMessage(a) == NotFoundMessage(b)
    ensures a == b
  {
    var n := |NotFoundPrefix|;
    assert |a| == |b|;
    assert a == NotFoundMessage(a)[n..n + |a|];
  }

  // ------------------------------------------------------------------ slice(0, 12)

  /** `slice(0, 12)`: the first twelve elements, or all of them when there are fewer. */
  function Take12<T>(s: seq<T>): (r: seq<T>)
    ensures |r| <= DisplayLimit && |r| <= |s|
    ensures r == s[..|r|]
    ensures |s| <= DisplayLimit ==> r == s
    ensures |s| > DisplayLimit ==> |r| == DisplayLimit
  {
    if |s| <= DisplayLimit then s else s[..DisplayLimit]
  }

  /** Cutting an already cut list changes nothing. */
  lemma {:induction false} Take12Idempotent<T>(s: seq<T>)
    ensures Take12(Take12(s)) == Take12(s)
  {
  }

  /** A longer list shows the same first recipes as any of its prefixes, as far as that prefix reaches. */
  lemma {:induction false} Take12OfPrefix<T>(s: seq<T>, n: nat)
    requires n <= |s|
    ensures Take12(s[..n]) == Take12(s)[..if n < DisplayLimit then n else DisplayLimit]
  {
  }

  // ----------------------------------------------------------- category fallback

  /** The synonym table: lower-cased query to category name. */
  const Synonyms: map<string, string> := map[
    "pasta" := "Pasta",
    "veg" := "Vegetarian",
    "vegetables" := "Vegetarian",
    "fish" := "Seafood",
    "seafood" := "Seafood",
    "dessert" := "Dessert"
  ]

  /** First character upper-cased, the rest lower-cased (`charAt(0).toUpperCase() + slice(1).toLowerCase()`). */
  function Capitalize(s: string): (r: string)
    ensures |r| == |s|
    ensures s != [] ==> r[0] == UpperChar(s[0])
    ensures forall i :: 1 <= i < |s| ==> r[i] == LowerChar(s[i])
  {
    if s == [] then [] else [UpperChar(s[0])] + ToLower(s[1..])
  }

  /** The category the search falls back to: the synonym of the lower-cased query, else the query capitalised. */
  function DeriveCategory(query: string): string {
    var key := ToLower(query);
    if key in Synonyms then Synonyms[key] else Capitalize(query)
  }

  /** Capitalising keeps the lower-case form. */
  lemma {:induction false} LowerOfCapitalize(s: string)
    ensures ToLower(Capitalize(s)) == ToLower(s)
  {
    if s != [] {
      var r := Capitalize(s);
      forall i | 0 <= i < |s|
        ensures ToLower(r)[i] == ToLower(s)[i]
      {
        CaseMapsCompose(s[i]);
      }
    }
  }

  /** Capitalisation ignores the case of its input. */
  lemma {:induction false} CapitalizeCaseInsensitive(a: string, b: string)
    requires ToLower(a) == ToLower(b)
    ensures Capitalize(a) == Capitalize(b)
  {
    assert |a| == |ToLower(a)| == |ToLower(b)| == |b|;
    if a != [] {
      assert LowerChar(a[0]) == ToLower(a)[0] == ToLower(b)[0] == LowerChar(b[0]);
      SameLowerSameUpper(a[0], b[0]);
      forall i | 1 <= i < |a|
        ensures Capitalize(a)[i] == Capitalize(b)[i]
      {
        assert LowerChar(a[i]) == ToLower(a)[i] == ToLower(b)[i] == LowerChar(b[i]);
      }
    }
  }

  /** The derived category does not depend on the case the user typed. */
  lemma {:induction false} DeriveCategoryCaseInsensitive(a: string, b: string)
    requires ToLower(a) == ToLower(b)
    ensures DeriveCategory(a) == DeriveCategory(b)
  {
    CapitalizeCaseInsensitive(a, b);
  }

  /** A string of lower-case letters is its own lower-cased form. */
  lemma {:induction false} LowerOfLowerCase(s: string)
    requires forall i :: 0 <= i < |s| ==> 'a' <= s[i] <= 'z'
    ensures ToLower(s) == s
  {
  }

  /** The six keys of the table, spelled out. */
  predicate IsSynonymKey(key: string) {
    key == "pasta" || key == "veg" || key == "vegetables" || key == "fish" || key == "seafood" || key == "dessert"
  }

  lemma {:induction false} SynonymKeys(key: string)
    requires key in Synonyms
    ensures IsSynonymKey(key)
  {
  }

  lemma {:induction false} KeysLowerCase(key: string)
    requires IsSynonymKey(key)
    ensures ToLower(key) == key
  {
    if key == "pasta" {
      LowerOfLowerCase(key);
    } else if key == "veg" {
      LowerOfLowerCase(key);
    } else if key == "vegetables" {
      LowerOfLowerCase(key);
    } else if key == "fish" {
      LowerOfLowerCase(key);
    } else if key == "seafood" {
      LowerOfLowerCase(key);
    } else {
      LowerOfLowerCase(key);
    }
  }

  /** The table's keys are lower-case, so each one is found by its own lower-cased form. */
  lemma {:induction false} SynonymKeysLowerCase(key: string)
    requires key in Synonyms
    ensures ToLower(key) == key
  {
    SynonymKeys(key);
    KeysLowerCase(key);
  }

  /**
   * The derivation, both ways: a query whose lower-cased form is a table key gets that key's
   * category, and any other query gets itself with the first letter upper-cased and the rest lower-cased.
   */
  lemma {:induction false} DeriveCategorySpec(query: string)
    ensures ToLower(query) in Synonyms ==> DeriveCategory(query) == Synonyms[ToLower(query)]
    ensures ToLower(query) !in Synonyms ==>
      |DeriveCategory(query)| == |query|
      && (query != [] ==> DeriveCategory(query)[0] == UpperChar(query[0]))
      && forall i :: 1 <= i < |query| ==> DeriveCategory(query)[i] == LowerChar(query[i])
  {
  }

  /** A table key, in any case, derives the mapped category. */
  lemma {:induction false} DeriveCategoryOfSynonym(query: string, key: string)
    requires key in Synonyms && ToLower(query) == ToLower(key)
    ensures DeriveCategory(query) == Synonyms[key]
  {
    SynonymKeysLowerCase(key);
  }

  /** Every category the derivation can produce derives to itself: searching for it again asks for the same category. */
  lemma {:induction false} DeriveCategoryIdempotent(query: string)
    ensures DeriveCategory(DeriveCategory(query)) == DeriveCategory(query)
  {
    var key := ToLower(query);
    if key in Synonyms {
      SynonymValuesStable(key);
    } else {
      var c := Capitalize(query);
      LowerOfCapitalize(query);
      assert ToLower(c) == key;
      forall i | 0 <= i < |c|
        ensures Capitalize(c)[i] == c[i]
      {
        if i == 0 { CaseMapsCompose(query[0]); } else { CaseMapsCompose(query[i]); }
      }
    }
  }

  /** Each category named in the table derives to itself. */
  lemma {:induction false} SynonymValuesStable(key: string)
    requires key in Synonyms
    ensures DeriveCategory(Synonyms[key]) == Synonyms[key]
  {
    SynonymKeys(key);
    var v := Synonyms[key];
    if key == "pasta" {
      CategoryStable(v, "pasta");
    } else if key == "veg" || key == "vegetables" {
      VegetarianStable(v);
    } else if key == "fish" || key == "seafood" {
      CategoryStable(v, "seafood");
    } else {
      CategoryStable(v, "dessert");
    }
  }

  /** A category whose lower-cased form is a key mapped back to it. */
  lemma {:induction false} CategoryStable(v: string, k: string)
    requires k in Synonyms && Synonyms[k] == v
    requires v != [] && 'A' <= v[0] <= 'Z' && LowerChar(v[0]) == k[0] && v[1..] == k[1..]
    ensures DeriveCategory(v) == v
  {
    SynonymKeysLowerCase(k);
    assert |k| == |v|;
    forall i | 0 <= i < |v|
      ensures ToLower(v)[i] == k[i]
    {
      if 0 < i {
        assert v[i] == k[i] && LowerChar(k[i]) == k[i];
      }
    }
    assert ToLower(v) == k;
  }

  lemma {:induction false} VegetarianStable(v: string)
    requires v == "Vegetarian"
    ensures DeriveCategory(v) == v
  {
    var key := ToLower(v);
    LowerVegetarian(v);
    VegetarianIsNoKey(key);
    VegetarianCapitalized(v);
    NotSynonymKey(key);
    CapitalizeFixed(v);
  }

  lemma {:induction false} LowerVegetarian(v: string)
    requires v == "Vegetarian"
    ensures ToLower(v) == "vegetarian"
  {
  }

  lemma {:induction false} VegetarianIsNoKey(key: string)
    requires key == "vegetarian"
    ensures !IsSynonymKey(key)
  {
  }

  lemma {:induction false} VegetarianCapitalized(v: string)
    requires v == "Vegetarian"
    ensures v != [] && 'A' <= v[0] <= 'Z' && forall i :: 1 <= i < |v| ==> 'a' <= v[i] <= 'z'
  {
  }

  /** Any other string is no key of the table. */
  lemma {:induction false} NotSynonymKey(key: string)
    requires !IsSynonymKey(key)
    ensures key !in Synonyms
  {
    if key in Synonyms {
      SynonymKeys(key);
    }
  }

  /** An upper-case letter followed by lower-case letters is already capitalised. */
  lemma {:induction false} CapitalizeFixed(v: string)
    requires v != [] && 'A' <= v[0] <= 'Z'
    requires forall i :: 1 <= i < |v| ==> 'a' <= v[i] <= 'z'
    ensures Capitalize(v) == v
  {
  }

  /** A query that is no key, such as "tofu", is capitalised: "tOFU" asks for "Tofu". */
  lemma {:induction false} DeriveCategoryExample(query: string)
    requires query == "tOFU"
    ensures DeriveCategory(query) == "Tofu"
  {
    var key := ToLower(query);
    assert key == "tofu";
    assert key !in Synonyms;
  }

  /**
   * The lookup as written: indexing a JavaScript object literal also finds the members every
   * object inherits. Of those, only `constructor` and `__proto__` have all-lower-case names, so
   * only they can match a lower-cased query; both are truthy and reach the category query as
   * their string forms.
   */
  function DeriveCategoryAsWritten(query: string): string {
    var key := ToLower(query);
    if key in Synonyms then Synonyms[key]
    else if key == "constructor" then "function Object() { [native code] }"
    else if key == "__proto__" then "[object Object]"
    else Capitalize(query)
  }

  /** Away from the two inherited names the lookup as written and the corrected one agree. */
  lemma {:induction false} DeriveCategoryAsWrittenAgrees(query: string)
    requires ToLower(query) != "constructor" && ToLower(query) != "__proto__"
    ensures DeriveCategoryAsWritten(query) == DeriveCategory(query)
  {
  }

  /** Searching "Constructor" falls back to the stringified `Object` function rather than the category "Constructor". */
  lemma {:induction false} DeriveCategoryAsWrittenConstructor(query: string)
    requires query == "Constructor"
    ensures DeriveCategoryAsWritten(query) == "function Object() { [native code] }"
    ensures DeriveCategory(query) == "Constructor"
  {
    var key := ToLower(query);
    assert key == "constructor" by { LowerConstructor(query); }
    assert |key| == 11;
    assert key !in Synonyms;
    CapitalizeFixed(query);
  }

  lemma {:induction false} LowerConstructor(query: string)
    requires query == "Constructor"
    ensures ToLower(query) == "constructor"
  {
  }

  // --------------------------------------------------------------- favourites

  /** `ids.filter(x => x !== id)`. */
  function Without(ids: seq<string>, id: string): (r: seq<string>)
    ensures id !in r
    ensures forall x :: x != id ==> multiset(r)[x] == multiset(ids)[x]
    ensures IsSubsequence(r, ids)
  {
    if ids == [] then []
    else
      var rest := Without(ids[1..], id);
      assert ids == [ids[0]] + ids[1..];
      if ids[0] == id then
        assert rest == [] || rest[0] != ids[0];
        rest
      else
        assert ([ids[0]] + rest)[1..] == rest;
        [ids[0]] + rest
  }

  /** The new favourites list: the id removed everywhere when present, appended when absent. */
  function Toggle(ids: seq<string>, id: string): seq<string> {
    if id in ids then Without(ids, id) else ids + [id]
  }

  /** No id occurs twice. */
  ghost predicate Distinct(ids: seq<string>) {
    forall x :: multiset(ids)[x] <= 1
  }

  /** Toggling flips the membership of the id and of nothing else. */
  lemma {:induction false} ToggleMembership(ids: seq<string>, id: string, x: string)
    ensures x == id ==> (x in Toggle(ids, id) <==> x !in ids)
    ensures x != id ==> (x in Toggle(ids, id) <==> x in ids)
  {
    if x != id && id in ids {
      var r := Without(ids, id);
      assert x in r <==> multiset(r)[x] > 0;
      assert x in ids <==> multiset(ids)[x] > 0;
    }
  }

  /** Removing deletes every occurrence and keeps the others, in order and as often as before. */
  lemma {:induction false} ToggleRemoves(ids: seq<string>, id: string)
    requires id in ids
    ensures id !in Toggle(ids, id)
    ensures forall x :: x != id ==> multiset(Toggle(ids, id))[x] == multiset(ids)[x]
    ensures IsSubsequence(Toggle(ids, id), ids)
  {
  }

  /** An absent id goes to the end, after all the others. */
  lemma {:induction false} ToggleAppends(ids: seq<string>, id: string)
    requires id !in ids
    ensures Toggle(ids, id) == ids + [id]
  {
  }

  lemma {:induction false} WithoutAbsent(ids: seq<string>, id: string)
    requires id !in ids
    ensures Without(ids, id) == ids
    decreases |ids|
  {
    if ids != [] {
      assert id !in ids[1..];
      WithoutAbsent(ids[1..], id);
      assert ids == [ids[0]] + ids[1..];
    }
  }

  lemma {:induction false} WithoutAppend(a: seq<string>, b: seq<string>, id: string)
    ensures Without(a + b, id) == Without(a, id) + Without(b, id)
    decreases |a|
  {
    if a == [] {
      assert a + b == b;
    } else {
      assert (a + b)[0] == a[0] && (a + b)[1..] == a[1..] + b;
      WithoutAppend(a[1..], b, id);
    }
  }

  /** Toggling an absent id twice gives back the original list. */
  lemma {:induction false} ToggleTwiceRestores(ids: seq<string>, id: string)
    requires id !in ids
    ensures Toggle(Toggle(ids, id), id) == ids
  {
    assert id in ids + [id];
    WithoutAppend(ids, [id], id);
    WithoutAbsent(ids, id);
    assert Without([id], id) == [] by { assert [id][1..] == []; }
  }

  /** Toggling a present id twice moves it, once, to the end. */
  lemma {:induction false} ToggleTwiceMoves(ids: seq<string>, id: string)
    requires id in ids
    ensures Toggle(Toggle(ids, id), id) == Without(ids, id) + [id]
  {
  }

  /** A list without repeats stays without repeats. */
  lemma {:induction false} ToggleKeepsDistinct(ids: seq<string>, id: string)
    requires Distinct(ids)
    ensures Distinct(Toggle(ids, id))
  {
    var r := Toggle(ids, id);
    if id in ids {
      forall x
        ensures multiset(r)[x] <= 1
      {
        if x == id {
          assert x !in r;
        }
      }
    } else {
      assert multiset(ids)[id] == 0;
      assert multiset(r) == multiset(ids) + multiset{id};
    }
  }

  // ------------------------------------------------------------------ search

  /**
   * The list a search resolves to, or `Fail` when a query it made failed: the ingredient
   * results when there are any, else the category results, which may themselves be empty.
   */
  function SearchOutcome(byIngredient: Outcome<seq<Recipe>>, byCategory: Outcome<seq<Recipe>>): Outcome<seq<Recipe>> {
    match byIngredient
    case Fail => Fail
    case Ok(list) => if list != [] then byIngredient else byCategory
  }

  /** The queries a search sends: the ingredient query, then the category query only when the first found nothing. */
  function SearchQueries(query: string, byIngredient: Outcome<seq<Recipe>>): seq<Query> {
    [ByIngredient(query)] + (if byIngredient == Ok([]) then [ByCategory(DeriveCategory(query))] else [])
  }

  /**
   * The resolution, case by case: a failed ingredient query fails the search; non-empty
   * ingredient results are used as they are and no category is asked for; otherwise the
   * category reply decides, and empty category results leave the search empty.
   */
  lemma {:induction false} SearchOutcomeSpec(query: string, byIngredient: Outcome<seq<Recipe>>, byCategory: Outcome<seq<Recipe>>)
    ensures byIngredient.Fail? ==> SearchOutcome(byIngredient, byCategory).Fail?
    ensures byIngredient.Ok? && byIngredient.value != [] ==>
      SearchOutcome(byIngredient, byCategory) == byIngredient
      && SearchQueries(query, byIngredient) == [ByIngredient(query)]
    ensures byIngredient == Ok([]) ==>
      SearchOutcome(byIngredient, byCategory) == byCategory
      && SearchQueries(query, byIngredient) == [ByIngredient(query), ByCategory(DeriveCategory(query))]
    ensures SearchOutcome(byIngredient, byCategory) == Ok([]) <==> byIngredient == Ok([]) && byCategory == Ok([])
  {
  }

  /** The category query is sent exactly when the ingredient query succeeded with nothing. */
  lemma {:induction false} CategoryQueriedIff(query: string, byIngredient: Outcome<seq<Recipe>>)
    ensures (exists c :: ByCategory(c) in SearchQueries(query, byIngredient)) <==> byIngredient == Ok([])
  {
    var qs := SearchQueries(query, byIngredient);
    if byIngredient == Ok([]) {
      assert ByCategory(DeriveCategory(query)) in qs;
    } else {
      assert qs == [ByIngredient(query)];
    }
  }

  // ------------------------------------------------------------------- state

  /** A query the component sent to the recipe service, in the order sent. */
  datatype Query = ByIngredient(ingredient: string) | ByCategory(category: string) | Lookup(id: string)

  /**
   * The component state. Each handler runs as one atomic step, so the loading flag it sets
   * at its start is cleared again at its end. Query replies arrive as parameters; `stored`
   * is the decoded copy of the favourites kept in browser storage, `None` while never written.
   */
  class AppState {
    var recipes: seq<Recipe>
    var loading: bool
    var error: string
    var selectedRecipe: Option<Recipe>
    var searchQuery: string
    var favorites: seq<string>
    var stored: Option<seq<string>>
    ghost var queries: seq<Query>

    ghost predicate Valid()
      reads this
    {
      && !loading
      && |recipes| <= DisplayLimit
      && (stored.None? ==> favorites == [])
      && (stored.Some? ==> stored.value == favorites)
    }

    /** The initial state; the favourites come from storage when something was saved there. */
    constructor (saved: Option<seq<string>>)
      ensures Valid()
      ensures recipes == [] && error == "" && selectedRecipe == None && searchQuery == ""
      ensures favorites == (if saved.Some? then saved.value else [])
      ensures stored == saved
      ensures queries == []
    {
      recipes := [];
      loading := false;
      error := "";
      selectedRecipe := None;
      searchQuery := "";
      favorites := if saved.Some? then saved.value else [];
      stored := saved;
      queries := [];
    }

    /** Loads the popular category; `reply` is the reply to its query. */
    method LoadPopularRecipes(reply: Outcome<seq<Recipe>>)
      requires Valid()
      modifies this
      ensures Valid()
      ensures queries == old(queries) + [ByCategory(PopularCategory)]
      ensures reply.Ok? ==> recipes == Take12(reply.value) && error == ""
      ensures reply.Fail? ==> recipes == old(recipes) && error == LoadFailed
      ensures selectedRecipe == old(selectedRecipe) && searchQuery == old(searchQuery)
      ensures favorites == old(favorites) && stored == old(stored)
    {
      loading := true;
      error := "";
      queries := queries + [ByCategory(PopularCategory)];
      match reply {
        case Ok(list) => recipes := Take12(list);
        case Fail => error := LoadFailed;
      }
      loading := false;
    }

    /**
     * The search: trim the term and ignore it when blank; otherwise ask for recipes with the
     * term as ingredient and, only when that succeeds with nothing, for the derived category.
     * `byIngredient` and `byCategory` are the replies those queries get.
     */
    method HandleSearch(term: string, byIngredient: Outcome<seq<Recipe>>, byCategory: Outcome<seq<Recipe>>)
      requires Valid()
      modifies this
      ensures Valid()
      ensures IsBlank(term) ==> unchanged(this)
      ensures !IsBlank(term) ==> searchQuery == Trim(term)
      ensures !IsBlank(term) ==> queries == old(queries) + SearchQueries(Trim(term), byIngredient)
      ensures !IsBlank(term) && SearchOutcome(byIngredient, byCategory).Fail? ==>
        recipes == old(recipes) && error == SearchFailed
      ensures !IsBlank(term) && SearchOutcome(byIngredient, byCategory).Ok? ==>
        var found := SearchOutcome(byIngredient, byCategory).value;
        recipes == Take12(found) && error == (if found == [] then NotFoundMessage(Trim(term)) else "")
      ensures selectedRecipe == old(selectedRecipe) && favorites == old(favorites) && stored == old(stored)
    {
      var query := Trim(term);
      TrimEmptyIffBlank(term);
      if query == [] {
        return;
      }
      Search(query, byIngredient, byCategory);
    }

    /** The search for a trimmed, non-empty query. */
    method Search(query: string, byIngredient: Outcome<seq<Recipe>>, byCategory: Outcome<seq<Recipe>>)
      requires Valid()
      modifies this
      ensures Valid()
      ensures searchQuery == query
      ensures queries == old(queries) + SearchQueries(query, byIngredient)
      ensures SearchOutcome(byIngredient, byCategory).Fail? ==> recipes == old(recipes) && error == SearchFailed
      ensures SearchOutcome(byIngredient, byCategory).Ok? ==>
        var found := SearchOutcome(byIngredient, byCategory).value;
        recipes == Take12(found) && error == (if found == [] then NotFoundMessage(query) else "")
      ensures selectedRecipe == old(selectedRecipe) && favorites == old(favorites) && stored == old(stored)
    {
      loading := true;
      error := "";
      searchQuery := query;
      var failed, results := ResolveSearch(query, byIngredient, byCategory);
      if failed {
        error := SearchFailed;
      } else {
        if |results| == 0 {
          error := NotFoundMessage(query);
        }
        recipes := Take12(results);
      }
      loading := false;
    }

    /**
     * The two queries of a search: the ingredient query, then, when it found nothing, the
     * category query for the derived category, whose results replace the empty ones when
     * there are any. `failed` says that one of the queries failed.
     */
    method ResolveSearch(query: string, byIngredient: Outcome<seq<Recipe>>, byCategory: Outcome<seq<Recipe>>)
      returns (failed: bool, results: seq<Recipe>)
      modifies this`queries
      ensures failed <==> SearchOutcome(byIngredient, byCategory).Fail?
      ensures !failed ==> results == SearchOutcome(byIngredient, byCategory).value
      ensures queries == old(queries) + SearchQueries(query, byIngredient)
    {
      queries := queries + [ByIngredient(query)];
      failed := false;
      results := [];
      match byIngredient {
        case Fail => failed := true;
        case Ok(list) =>
          results := list;
          if |results| == 0 {
            var category := DeriveCategory(query);
            queries := queries + [ByCategory(category)];
            match byCategory {
              case Fail => failed := true;
              case Ok(catResults) =>
                if |catResults| > 0 {
                  results := catResults;
                }
            }
          }
      }
    }

    /** A category chosen from the list; clears the search box. */
    method HandleCategoryFilter(category: string, reply: Outcome<seq<Recipe>>)
      requires Valid()
      modifies this
      ensures Valid()
      ensures searchQuery == ""
      ensures queries == old(queries) + [ByCategory(category)]
      ensures reply.Ok? ==> recipes == Take12(reply.value) && error == ""
      ensures reply.Fail? ==> recipes == old(recipes) && error == CategoryFailed
      ensures selectedRecipe == old(selectedRecipe) && favorites == old(favorites) && stored == old(stored)
    {
      loading := true;
      error := "";
      searchQuery := "";
      queries := queries + [ByCategory(category)];
      match reply {
        case Ok(list) => recipes := Take12(list);
        case Fail => error := CategoryFailed;
      }
      loading := false;
    }

    /**
     * A recipe card was clicked; `detail` is the reply to the look-up of its id. A reply
     * without any meal selects nothing. A success leaves an earlier error message in place.
     */
    method HandleRecipeClick(recipe: Recipe, detail: Outcome<Option<Recipe>>)
      requires Valid()
      modifies this
      ensures Valid()
      ensures queries == old(queries) + [Lookup(recipe.id)]
      ensures detail.Ok? ==> selectedRecipe == detail.value && error == old(error)
      ensures detail.Fail? ==> selectedRecipe == old(selectedRecipe) && error == DetailFailed
      ensures recipes == old(recipes) && searchQuery == old(searchQuery)
      ensures favorites == old(favorites) && stored == old(stored)
    {
      queries := queries + [Lookup(recipe.id)];
      match detail {
        case Ok(found) => selectedRecipe := found;
        case Fail => error := DetailFailed;
      }
    }

    /** The modal's close button. */
    method CloseModal()
      requires Valid()
      modifies this
      ensures Valid()
      ensures selectedRecipe == None
      ensures recipes == old(recipes) && error == old(error) && searchQuery == old(searchQuery)
      ensures favorites == old(favorites) && stored == old(stored) && queries == old(queries)
    {
      selectedRecipe := None;
    }

    /** Flips the id in the favourites and writes the new list to storage. */
    method ToggleFavorite(id: string)
      requires Valid()
      modifies this
      ensures Valid()
      ensures favorites == Toggle(old(favorites), id)
      ensures stored == Some(favorites)
      ensures recipes == old(recipes) && error == old(error) && searchQuery == old(searchQuery)
      ensures selectedRecipe == old(selectedRecipe) && queries == old(queries)
    {
      var newFavorites := Toggle(favorites, id);
      favorites := newFavorites;
      stored := Some(newFavorites);
    }
  }
}
