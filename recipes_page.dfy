/** The browsing page of frontend/my-react-app/src/pages/Recipes.jsx: the
    ingredient and difficulty filters, three recipes per page, the option lists
    extracted from the loaded recipes, and the URL query string that mirrors the
    page's state. */
module RecipesPage {
  import opened Wrappers
  import opened RecipeSchema
  import Text
  import Sequences

  /** The two filter inputs; "" means the filter is off. */
  datatype Filters = Filters(ingredient: string, difficulty: string)

  /** The names `handleFilterChange` is called with. */
  datatype FilterKey = IngredientFilter | DifficultyFilter

  const NoFilters: Filters := Filters("", "")

  /** `recipesPerPage`. */
  const RecipesPerPage: nat := 3

  /** The message set when the recipes cannot be fetched. */
  const LoadError: string := "Failed to load recipes. Please try again later."

  // ---------------------------------------------------------------------------
  // Filtering

  /** The filter callback: a set ingredient filter rejects a recipe whose
      lower-cased ingredients do not contain it lower-cased, and a set difficulty
      filter rejects a recipe whose difficulty is not exactly it. */
  function Matches(f: Filters, r: Recipe): (ok: bool)
    ensures ok <==>
      && (f.ingredient == "" || exists i :: Text.OccursAt(Text.Lower(r.ingredients), Text.Lower(f.ingredient), i))
      && (f.difficulty == "" || r.difficulty == f.difficulty)
  {
    if f.ingredient != "" && !Text.Includes(Text.Lower(r.ingredients), Text.Lower(f.ingredient)) then false
    else if f.difficulty != "" && r.difficulty != f.difficulty then false
    else true
  }

  /** `filteredRecipes`: the matching recipes, in the order they were loaded. */
  function FilterRecipes(all: seq<Recipe>, f: Filters): (r: seq<Recipe>)
    ensures forall x :: x in r <==> x in all && Matches(f, x)
    ensures Sequences.IsSubsequence(r, all)
    ensures f == NoFilters ==> r == all
  {
    Sequences.Filter(all, (x: Recipe) => Matches(f, x))
  }

  /** Each matching recipe is kept as often as it occurs in the full list. */
  lemma FilterRecipesCounts(all: seq<Recipe>, f: Filters)
    ensures forall x :: multiset(FilterRecipes(all, f))[x] == if Matches(f, x) then multiset(all)[x] else 0
  {
    Sequences.FilterMultiplicity(all, (x: Recipe) => Matches(f, x));
  }

  // ---------------------------------------------------------------------------
  // Pagination

  /** How Array.prototype.slice reads an index into a sequence of length n:
      a negative index counts from the end, and the result is clamped to [0, n]. */
  function JsIndex(k: int, n: nat): (r: nat)
    ensures r <= n
    ensures 0 <= k <= n ==> r == k
    ensures k > n ==> r == n
    ensures k < 0 ==> r == if n + k < 0 then 0 else n + k
  {
    if k < 0 then (if n + k < 0 then 0 else n + k)
    else if k > n then n
    else k
  }

  /** Array.prototype.slice(start, end). */
  function JsSlice<T>(s: seq<T>, start: int, end: int): seq<T> {
    var a := JsIndex(start, |s|);
    var b := JsIndex(end, |s|);
    if a < b then s[a..b] else []
  }

  function Min(a: int, b: int): int {
    if a < b then a else b
  }

  /** `currentRecipes` for page `page`: the slice from `page * 3 - 3` to `page * 3`. */
  function CurrentRecipes(list: seq<Recipe>, page: int): seq<Recipe> {
    var last := page * RecipesPerPage;
    JsSlice(list, last - RecipesPerPage, last)
  }

  /** A page never holds more than three recipes, whatever the page number; for
      page p from 1 on it is the stretch of the list from (p - 1) * 3 to p * 3,
      cut at the end of the list. */
  lemma PageContents(list: seq<Recipe>, p: int)
    ensures |CurrentRecipes(list, p)| <= RecipesPerPage
    ensures p >= 1 ==>
      CurrentRecipes(list, p) == list[Min((p - 1) * RecipesPerPage, |list|)..Min(p * RecipesPerPage, |list|)]
    ensures p >= 1 && CurrentRecipes(list, p) != [] ==>
      (p - 1) * RecipesPerPage + |CurrentRecipes(list, p)| <= |list|
    ensures p >= 1 ==> forall k :: 0 <= k < |CurrentRecipes(list, p)| ==>
      CurrentRecipes(list, p)[k] == list[(p - 1) * RecipesPerPage + k]
  {
  }

  /** Page p from 1 on as a slice of the list. */
  lemma PageSlice(list: seq<Recipe>, p: int)
    requires p >= 1
    ensures CurrentRecipes(list, p) == list[Min((p - 1) * RecipesPerPage, |list|)..Min(p * RecipesPerPage, |list|)]
  {
  }

  /** Every recipe on a page is in the list. */
  lemma PageMembers(list: seq<Recipe>, p: int)
    ensures forall x :: x in CurrentRecipes(list, p) ==> x in list
  {
    var a := JsIndex(p * RecipesPerPage - RecipesPerPage, |list|);
    var b := JsIndex(p * RecipesPerPage, |list|);
    if a < b {
      forall x | x in list[a..b] ensures x in list {
        var k :| 0 <= k < b - a && list[a..b][k] == x;
        assert list[a + k] == x;
      }
    }
  }

  /** `Math.ceil(n / 3)`: the fewest pages of three that hold n recipes. */
  function TotalPages(n: nat): (t: nat)
    ensures n <= t * RecipesPerPage < n + RecipesPerPage
  {
    (n + RecipesPerPage - 1) / RecipesPerPage
  }

  /** Pages 1 to k, one after another. */
  function PagesUpTo(list: seq<Recipe>, k: nat): seq<Recipe> {
    if k == 0 then [] else PagesUpTo(list, k - 1) + CurrentRecipes(list, k)
  }

  lemma {:induction false} PagesUpToPrefix(list: seq<Recipe>, k: nat)
    ensures PagesUpTo(list, k) == list[..Min(k * RecipesPerPage, |list|)]
  {
    if k > 0 {
      PagesUpToPrefix(list, k - 1);
      PageSlice(list, k);
      var a := Min((k - 1) * RecipesPerPage, |list|);
      var b := Min(k * RecipesPerPage, |list|);
      calc {
        PagesUpTo(list, k);
        PagesUpTo(list, k - 1) + CurrentRecipes(list, k);
        list[..a] + list[a..b];
        { assert list[..b] == list[..a] + list[a..b]; }
        list[..b];
      }
    }
  }

  /** Pages 1 to totalPages, one after another, are the whole filtered list;
      a page past the last is empty and no page up to it is. */
  lemma PagesCover(list: seq<Recipe>, p: int)
    ensures PagesUpTo(list, TotalPages(|list|)) == list
    ensures p > TotalPages(|list|) ==> CurrentRecipes(list, p) == []
    ensures 1 <= p <= TotalPages(|list|) ==> CurrentRecipes(list, p) != []
  {
    PagesUpToPrefix(list, TotalPages(|list|));
    assert list[..|list|] == list;
    PageContents(list, p);
  }

  // ---------------------------------------------------------------------------
  // Option lists

  /** `recipe.ingredients.split(',').map(ingredient => ingredient.trim())`. */
  function Pieces(r: Recipe): (ps: seq<string>)
    ensures forall x :: x in ps <==>
      exists k :: 0 <= k < |Text.Split(r.ingredients, ',')| && Text.Trim(Text.Split(r.ingredients, ',')[k]) == x
  {
    var parts := Text.Split(r.ingredients, ',');
    var ps := seq(|parts|, k requires 0 <= k < |parts| => Text.Trim(parts[k]));
    assert forall k :: 0 <= k < |parts| ==> ps[k] == Text.Trim(parts[k]);
    assert forall x :: x in ps ==> exists k :: 0 <= k < |ps| && ps[k] == x;
    ps
  }

  /** The `flatMap` of Pieces over the recipes. */
  function AllPieces(rs: seq<Recipe>): (ps: seq<string>)
    ensures forall x :: x in ps <==> exists i :: 0 <= i < |rs| && x in Pieces(rs[i])
  {
    if rs == [] then []
    else
      var rest := AllPieces(rs[1..]);
      assert forall i :: 0 <= i < |rs[1..]| ==> rs[1..][i] == rs[i + 1];
      assert forall i :: 1 <= i < |rs| ==> rs[i] == rs[1..][i - 1];
      Pieces(rs[0]) + rest
  }

  /** `recipes.map(recipe => recipe.difficulty)`. */
  function DifficultyValues(rs: seq<Recipe>): (ds: seq<string>)
    ensures forall x :: x in ds <==> exists i :: 0 <= i < |rs| && rs[i].difficulty == x
  {
    var ds := seq(|rs|, i requires 0 <= i < |rs| => rs[i].difficulty);
    assert forall i :: 0 <= i < |rs| ==> ds[i] == rs[i].difficulty;
    assert forall x :: x in ds ==> exists i :: 0 <= i < |ds| && ds[i] == x;
    ds
  }

  /** `Boolean` as a filter on strings: only "" is falsy. */
  function NonEmpty(s: string): bool {
    s != ""
  }

  /** `[...new Set(allIngredients)].filter(Boolean).sort()` over the pieces. */
  function ExtractIngredients(rs: seq<Recipe>): seq<string> {
    Sequences.SortBy(Sequences.Filter(Sequences.Dedupe(AllPieces(rs)), NonEmpty), Text.StringLess)
  }

  /** `[...new Set(allDifficulties)].filter(Boolean).sort()`. */
  function ExtractDifficulties(rs: seq<Recipe>): seq<string> {
    Sequences.SortBy(Sequences.Filter(Sequences.Dedupe(DifficultyValues(rs)), NonEmpty), Text.StringLess)
  }

  /** The default order of Array.prototype.sort is a strict order. */
  lemma StringOrder()
    ensures Sequences.StrictOrder(Text.StringLess)
  {
    forall a: string, b: string | Text.StringLess(a, b) ensures !Text.StringLess(b, a) {
      Text.StringLessAsymmetric(a, b);
    }
    forall a: string, b: string, c: string | Text.StringLess(a, b) && Text.StringLess(b, c)
      ensures Text.StringLess(a, c)
    {
      Text.StringLessTransitive(a, b, c);
    }
  }

  /** Sorting distinct strings gives them in strictly ascending order. */
  lemma SortStrings(s: seq<string>)
    requires Sequences.Distinct(s)
    ensures var r := Sequences.SortBy(s, Text.StringLess);
      && (forall x :: x in r <==> x in s)
      && (forall i, j :: 0 <= i < j < |r| ==> Text.StringLess(r[i], r[j]))
  {
    var r := Sequences.SortBy(s, Text.StringLess);
    StringOrder();
    Sequences.SortBySorted(s, Text.StringLess);
    Sequences.SortByDistinct(s, Text.StringLess);
    assert forall x :: x in r <==> x in multiset(s);
    forall i, j | 0 <= i < j < |r| ensures Text.StringLess(r[i], r[j]) {
      assert !Text.StringLess(r[j], r[i]);
      Text.StringLessTotal(r[i], r[j]);
    }
  }

  /** The ingredient options: exactly the non-empty trimmed comma-separated
      pieces of the recipes' ingredients, strictly ascending (so without
      duplicates), none with white space at either end. */
  lemma ExtractIngredientsSpec(rs: seq<Recipe>)
    ensures var r := ExtractIngredients(rs);
      && (forall x :: x in r <==> x != "" && exists i :: 0 <= i < |rs| && x in Pieces(rs[i]))
      && (forall i, j :: 0 <= i < j < |r| ==> Text.StringLess(r[i], r[j]))
      && (forall x :: x in r ==> Text.Trim(x) == x)
  {
    var kept := Sequences.Filter(Sequences.Dedupe(AllPieces(rs)), NonEmpty);
    SortStrings(kept);
    var r := ExtractIngredients(rs);
    forall x | x in r ensures Text.Trim(x) == x {
      var i :| 0 <= i < |rs| && x in Pieces(rs[i]);
      var parts := Text.Split(rs[i].ingredients, ',');
      var k :| 0 <= k < |parts| && Text.Trim(parts[k]) == x;
      Text.TrimIdempotent(parts[k]);
    }
  }

  /** The difficulty options: exactly the non-empty difficulties the recipes
      carry, strictly ascending. */
  lemma ExtractDifficultiesSpec(rs: seq<Recipe>)
    ensures var r := ExtractDifficulties(rs);
      && (forall x :: x in r <==> x != "" && exists i :: 0 <= i < |rs| && rs[i].difficulty == x)
      && (forall i, j :: 0 <= i < j < |r| ==> Text.StringLess(r[i], r[j]))
  {
    SortStrings(Sequences.Filter(Sequences.Dedupe(DifficultyValues(rs)), NonEmpty));
  }

  // ---------------------------------------------------------------------------
  // The query string

  /** One name=value pair of a URLSearchParams. */
  type Param = (string, string)

  /** URLSearchParams.get: the value of the first pair with that name. */
  function Get(ps: seq<Param>, name: string): Option<string> {
    if ps == [] then None
    else if ps[0].0 == name then Some(ps[0].1)
    else Get(ps[1..], name)
  }

  /** Every pair with that name removed. */
  function RemoveAll(ps: seq<Param>, name: string): (r: seq<Param>)
    ensures forall k :: Get(r, k) == if k == name then None else Get(ps, k)
  {
    if ps == [] then []
    else if ps[0].0 == name then RemoveAll(ps[1..], name)
    else [ps[0]] + RemoveAll(ps[1..], name)
  }

  /** URLSearchParams.set: the first pair with that name takes the value and the
      others go; with no such pair one is appended. Reading the name back gives
      the value; every other name reads as before. */
  function SetParam(ps: seq<Param>, name: string, value: string): (r: seq<Param>)
    ensures Get(r, name) == Some(value)
    ensures forall k :: k != name ==> Get(r, k) == Get(ps, k)
  {
    if ps == [] then [(name, value)]
    else if ps[0].0 == name then [(name, value)] + RemoveAll(ps[1..], name)
    else [ps[0]] + SetParam(ps[1..], name, value)
  }

  function Digit(d: nat): (c: char)
    requires d < 10
    ensures '0' <= c <= '9' && c as int - '0' as int == d
  {
    ('0' as int + d) as char
  }

  /** Number.prototype.toString for a non-negative integer: its decimal digits,
      the first not a zero unless the number is. */
  function DecimalString(n: nat): (s: string)
    ensures |s| >= 1 && (forall i :: 0 <= i < |s| ==> '0' <= s[i] <= '9')
    ensures n > 0 ==> s[0] != '0'
  {
    if n < 10 then [Digit(n)] else DecimalString(n / 10) + [Digit(n % 10)]
  }

  predicate AllDigits(s: string) {
    forall i :: 0 <= i < |s| ==> '0' <= s[i] <= '9'
  }

  /** The number a string of decimal digits denotes. */
  function DigitsValue(s: string): nat
    requires AllDigits(s)
  {
    if s == [] then 0 else DigitsValue(s[..|s| - 1]) * 10 + (s[|s| - 1] as int - '0' as int)
  }

  /** `parseInt(s, 10)` on a non-empty string of decimal digits; other strings
      (which parseInt reads as NaN or in part) are not modelled. */
  function ParsePage(s: string): Option<int> {
    if s != "" && AllDigits(s) then Some(DigitsValue(s)) else None
  }

  /** Reading back the digits toString writes gives the number. */
  lemma {:induction false} DecimalRoundTrip(n: nat)
    ensures ParsePage(DecimalString(n)) == Some(n)
  {
    var s := DecimalString(n);
    if n >= 10 {
      DecimalRoundTrip(n / 10);
      assert s[..|s| - 1] == DecimalString(n / 10);
    } else {
      assert s[..|s| - 1] == [];
      assert DigitsValue(s) == DigitsValue([]) * 10 + n;
    }
  }

  /** The query string the page keeps in its URL. */
  function SearchParams(f: Filters, page: int): seq<Param> {
    var p1 := if f.ingredient != "" then SetParam([], "ingredient", f.ingredient) else [];
    var p2 := if f.difficulty != "" then SetParam(p1, "difficulty", f.difficulty) else p1;
    if page > 1 then SetParam(p2, "page", DecimalString(page)) else p2
  }

  /** A filter appears in the query string only when it is set, with its value;
      the page only when it is past the first, as its decimal digits; nothing
      else appears. */
  lemma SearchParamsContents(f: Filters, page: int)
    ensures Get(SearchParams(f, page), "ingredient") == if f.ingredient != "" then Some(f.ingredient) else None
    ensures Get(SearchParams(f, page), "difficulty") == if f.difficulty != "" then Some(f.difficulty) else None
    ensures Get(SearchParams(f, page), "page") == if page > 1 then Some(DecimalString(page)) else None
    ensures forall k :: k != "ingredient" && k != "difficulty" && k != "page" ==> Get(SearchParams(f, page), k) == None
  {
  }

  /** The filters the page starts from: `searchParams.get(key) || ''`. */
  function InitialFilters(ps: seq<Param>): Filters {
    Filters(Text.OrElse(Get(ps, "ingredient"), ""), Text.OrElse(Get(ps, "difficulty"), ""))
  }

  /** The query string restores the state it was written from: the filters
      read back as they were, and `parseInt(get('page') || '1', 10)` gives the
      page back for every page from 1 on. */
  lemma SearchParamsRoundTrip(f: Filters, page: int)
    requires page >= 1
    ensures InitialFilters(SearchParams(f, page)) == f
    ensures ParsePage(Text.OrElse(Get(SearchParams(f, page), "page"), "1")) == Some(page)
  {
    SearchParamsContents(f, page);
    if page > 1 {
      DecimalRoundTrip(page);
    } else {
      DecimalRoundTrip(1);
    }
  }

  // ---------------------------------------------------------------------------
  // The page's state

  class RecipesView {
    var allRecipes: seq<Recipe>
    var filters: Filters
    var currentPage: int
    var availableIngredients: seq<string>
    var availableDifficulties: seq<string>
    var error: Option<string>

    /** The page as first rendered from its URL; `page` is the result of
        parsing the `page` parameter. */
    constructor (params: seq<Param>, page: int)
      ensures allRecipes == [] && filters == InitialFilters(params) && currentPage == page
      ensures availableIngredients == [] && availableDifficulties == [] && error == None
    {
      allRecipes := [];
      filters := InitialFilters(params);
      currentPage := page;
      availableIngredients := [];
      availableDifficulties := [];
      error := None;
    }

    /** `fetchRecipes`: `data` is what getRecipes returned, None when it threw.
        Loaded recipes replace the list and, only when there is at least one,
        the option lists; on failure the error is set and `fallback` (the
        page's built-in sample recipes) is shown with its option lists. */
    method LoadRecipes(data: Option<seq<Recipe>>, fallback: seq<Recipe>)
      modifies this
      ensures filters == old(filters) && currentPage == old(currentPage)
      ensures data.Some? ==> allRecipes == data.value && error == old(error)
      ensures data.Some? && |data.value| > 0 ==>
        availableIngredients == ExtractIngredients(data.value) && availableDifficulties == ExtractDifficulties(data.value)
      ensures data.Some? && |data.value| == 0 ==>
        availableIngredients == old(availableIngredients) && availableDifficulties == old(availableDifficulties)
      ensures data.None? ==>
        && error == Some(LoadError) && allRecipes == fallback
        && availableIngredients == ExtractIngredients(fallback)
        && availableDifficulties == ExtractDifficulties(fallback)
    {
      if data.Some? {
        allRecipes := data.value;
        if |data.value| > 0 {
          availableIngredients := ExtractIngredients(data.value);
          availableDifficulties := ExtractDifficulties(data.value);
        }
      } else {
        error := Some(LoadError);
        allRecipes := fallback;
        availableIngredients := ExtractIngredients(fallback);
        availableDifficulties := ExtractDifficulties(fallback);
      }
    }

    /** `handlePageChange`. */
    method HandlePageChange(page: int)
      modifies this`currentPage
      ensures currentPage == page
    {
      currentPage := page;
    }

    /** `handleFilterChange`: only the named filter changes, and the page goes
        back to the first. */
    method HandleFilterChange(key: FilterKey, value: string)
      modifies this`filters, this`currentPage
      ensures key == IngredientFilter ==> filters == Filters(value, old(filters).difficulty)
      ensures key == DifficultyFilter ==> filters == Filters(old(filters).ingredient, value)
      ensures currentPage == 1
    {
      match key {
        case IngredientFilter => filters := filters.(ingredient := value);
        case DifficultyFilter => filters := filters.(difficulty := value);
      }
      currentPage := 1;
    }

    /** `clearFilters`: both filters off, first page. */
    method ClearFilters()
      modifies this`filters, this`currentPage
      ensures filters == NoFilters && currentPage == 1
    {
      filters := NoFilters;
      currentPage := 1;
    }

    /** The effect that writes the URL: each parameter is set in turn. */
    method BuildSearchParams() returns (params: seq<Param>)
      ensures params == SearchParams(filters, currentPage)
      ensures Get(params, "page").Some? <==> currentPage > 1
      ensures Get(params, "ingredient").Some? <==> filters.ingredient != ""
      ensures Get(params, "difficulty").Some? <==> filters.difficulty != ""
    {
      params := [];
      if filters.ingredient != "" {
        params := SetParam(params, "ingredient", filters.ingredient);
      }
      if filters.difficulty != "" {
        params := SetParam(params, "difficulty", filters.difficulty);
      }
      if currentPage > 1 {
        params := SetParam(params, "page", DecimalString(currentPage));
      }
      SearchParamsContents(filters, currentPage);
    }

    /** The recipes shown: the current page of the filtered list. */
    method CurrentPageRecipes() returns (shown: seq<Recipe>)
      ensures |shown| <= RecipesPerPage
      ensures forall x :: x in shown ==> x in allRecipes && Matches(filters, x)
      ensures currentPage >= 1 ==> var filtered := FilterRecipes(allRecipes, filters);
        shown == filtered[Min((currentPage - 1) * RecipesPerPage, |filtered|)..Min(currentPage * RecipesPerPage, |filtered|)]
    {
      var filtered := FilterRecipes(allRecipes, filters);
      shown := CurrentRecipes(filtered, currentPage);
      assert |shown| <= RecipesPerPage by {
        PageContents(filtered, currentPage);
      }
      assert forall x :: x in shown ==> x in filtered by {
        PageMembers(filtered, currentPage);
      }
      if currentPage >= 1 {
        PageSlice(filtered, currentPage);
      }
    }
  }
}
