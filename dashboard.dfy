/** The owner's dashboard of frontend/my-react-app/src/pages/Dashboard.jsx:
    the caller's recipes, a selection of them, a search box, a sort order, and
    deleting one recipe or every selected one through the recipe store. */
module Dashboard {
  import opened Wrappers
  import opened Ids
  import opened RecipeSchema
  import Text
  import Sequences
  import RecipeController

  /** The message set when a delete fails. */
  const DeleteError: string := "Failed to delete recipe(s). Please try again."

  /** The message set when the list cannot be fetched. */
  const LoadError: string := "Failed to load your recipes. Please try again."

  // ---------------------------------------------------------------------------
  // Selection

  /** `handleRecipeSelect`: a selected id is dropped (every copy of it), an
      unselected one is appended. */
  function Toggle(sel: seq<RecipeId>, id: RecipeId): (r: seq<RecipeId>)
    ensures id in r <==> id !in sel
    ensures forall x :: x != id ==> (x in r <==> x in sel)
    ensures Sequences.Distinct(sel) ==> Sequences.Distinct(r)
  {
    if id in sel then Sequences.Filter(sel, (x: RecipeId) => x != id)
    else
      assert forall i :: 0 <= i < |sel| ==> (sel + [id])[i] == sel[i] && sel[i] != id;
      sel + [id]
  }

  /** Toggling the same id twice gives back the same selected ids; when the
      id was not selected it gives back the very same list. */
  lemma ToggleTwice(sel: seq<RecipeId>, id: RecipeId)
    ensures forall x :: x in Toggle(Toggle(sel, id), id) <==> x in sel
    ensures id !in sel ==> Toggle(Toggle(sel, id), id) == sel
  {
    if id !in sel {
      var keep := (x: RecipeId) => x != id;
      Sequences.FilterAppend(sel, id, keep);
      assert Sequences.Filter(sel, keep) == sel;
    }
  }

  /** `recipes.map(recipe => recipe._id)`. */
  function RecipeIds(rs: seq<Recipe>): (ids: seq<RecipeId>)
    ensures |ids| == |rs| && forall i :: 0 <= i < |rs| ==> ids[i] == rs[i].id
  {
    seq(|rs|, i requires 0 <= i < |rs| => rs[i].id)
  }

  /** `handleSelectAll`: when the selection is as long as the list it is
      cleared, otherwise every listed recipe is selected. Only the lengths are
      compared, so a selection holding other ids but as many of them is cleared
      too. */
  function SelectAll(sel: seq<RecipeId>, rs: seq<Recipe>): (r: seq<RecipeId>)
    ensures |sel| == |rs| ==> r == []
    ensures |sel| != |rs| ==> forall x :: x in r <==> exists i :: 0 <= i < |rs| && rs[i].id == x
    ensures |sel| != |rs| ==> |r| == |rs|
  {
    if |sel| == |rs| then []
    else
      var ids := RecipeIds(rs);
      assert forall x :: x in ids ==> exists i :: 0 <= i < |ids| && ids[i] == x;
      ids
  }

  /** Pressing select-all twice over a non-empty list of distinct recipes
      ends with all of them selected when they all were, and none otherwise. */
  lemma SelectAllTwice(sel: seq<RecipeId>, rs: seq<Recipe>)
    requires |rs| > 0
    ensures |sel| == |rs| ==> |SelectAll(SelectAll(sel, rs), rs)| == |rs|
    ensures |sel| != |rs| ==> SelectAll(SelectAll(sel, rs), rs) == []
  {
    if |sel| == |rs| {
      assert SelectAll(sel, rs) == [];
    }
  }

  // ---------------------------------------------------------------------------
  // Search and sort

  /** The search callback: the lower-cased term occurs in the lower-cased name
      or in the lower-cased ingredients. */
  function SearchHit(term: string, r: Recipe): (hit: bool)
    ensures hit <==>
      (exists i :: Text.OccursAt(Text.Lower(r.name), Text.Lower(term), i))
      || (exists i :: Text.OccursAt(Text.Lower(r.ingredients), Text.Lower(term), i))
  {
    Text.Includes(Text.Lower(r.name), Text.Lower(term)) || Text.Includes(Text.Lower(r.ingredients), Text.Lower(term))
  }

  /** `filteredRecipes`: the hits, in list order. */
  function Search(rs: seq<Recipe>, term: string): (r: seq<Recipe>)
    ensures forall x :: x in r <==> x in rs && SearchHit(term, x)
    ensures Sequences.IsSubsequence(r, rs)
  {
    Sequences.Filter(rs, (x: Recipe) => SearchHit(term, x))
  }

  /** Each hit is kept as often as it occurs in the list. */
  lemma SearchCounts(rs: seq<Recipe>, term: string)
    ensures forall x :: multiset(Search(rs, term))[x] == if SearchHit(term, x) then multiset(rs)[x] else 0
  {
    Sequences.FilterMultiplicity(rs, (x: Recipe) => SearchHit(term, x));
  }

  /** An empty search term keeps every recipe. */
  lemma SearchEmpty(rs: seq<Recipe>)
    ensures Search(rs, "") == rs
  {
    assert Text.Lower("") == "";
    forall i | 0 <= i < |rs| ensures SearchHit("", rs[i]) {
      Text.IncludesEmpty(Text.Lower(rs[i].name));
    }
  }

  /** The `sortBy` values the page offers. */
  const Newest: string := "newest"
  const Oldest: string := "oldest"
  const NameAsc: string := "name-asc"
  const NameDesc: string := "name-desc"

  /** "a goes before b" under the comparator for `sortBy`: the comparator's
      result is negative. `nameLess` stands for `localeCompare` being
      negative. Any other key compares everything as equal. */
  function SortLess(sortBy: string, nameLess: (string, string) -> bool): (Recipe, Recipe) -> bool {
    (a: Recipe, b: Recipe) =>
      if sortBy == Newest then b.createdAt - a.createdAt < 0
      else if sortBy == Oldest then a.createdAt - b.createdAt < 0
      else if sortBy == NameAsc then nameLess(a.name, b.name)
      else if sortBy == NameDesc then nameLess(b.name, a.name)
      else false
  }

  /** `sortedRecipes`: a sorted copy; the list it came from is a value and is
      not changed. */
  function SortRecipes(rs: seq<Recipe>, sortBy: string, nameLess: (string, string) -> bool): (r: seq<Recipe>)
    ensures multiset(r) == multiset(rs)
  {
    Sequences.SortBy(rs, SortLess(sortBy, nameLess))
  }

  /** Every comparator the page uses is a strict order when the name order is. */
  lemma SortLessStrict(sortBy: string, nameLess: (string, string) -> bool)
    requires Sequences.StrictOrder(nameLess)
    ensures Sequences.StrictOrder(SortLess(sortBy, nameLess))
  {
    var less := SortLess(sortBy, nameLess);
    forall a: Recipe, b: Recipe | less(a, b) ensures !less(b, a) {
      if sortBy != Newest && sortBy != Oldest && sortBy == NameAsc {
        assert nameLess(a.name, b.name);
      } else if sortBy != Newest && sortBy != Oldest && sortBy == NameDesc {
        assert nameLess(b.name, a.name);
      }
    }
    forall a: Recipe, b: Recipe, c: Recipe | less(a, b) && less(b, c) ensures less(a, c) {
      if sortBy != Newest && sortBy != Oldest && sortBy == NameAsc {
        assert nameLess(a.name, b.name) && nameLess(b.name, c.name);
      } else if sortBy != Newest && sortBy != Oldest && sortBy == NameDesc {
        assert nameLess(b.name, a.name) && nameLess(c.name, b.name);
      }
    }
  }

  /** The sorted list is a permutation of the searched one, ordered as the key
      says: newest first, oldest first, by name up or down; under any other key
      it is the searched list unchanged. */
  lemma SortRecipesOrder(rs: seq<Recipe>, sortBy: string, nameLess: (string, string) -> bool)
    requires Sequences.StrictOrder(nameLess)
    ensures var r := SortRecipes(rs, sortBy, nameLess);
      && multiset(r) == multiset(rs)
      && (sortBy == Newest ==> forall i, j :: 0 <= i < j < |r| ==> r[i].createdAt >= r[j].createdAt)
      && (sortBy == Oldest ==> forall i, j :: 0 <= i < j < |r| ==> r[i].createdAt <= r[j].createdAt)
      && (sortBy == NameAsc ==> forall i, j :: 0 <= i < j < |r| ==> !nameLess(r[j].name, r[i].name))
      && (sortBy == NameDesc ==> forall i, j :: 0 <= i < j < |r| ==> !nameLess(r[i].name, r[j].name))
      && (sortBy !in {Newest, Oldest, NameAsc, NameDesc} ==> r == rs)
  {
    var less := SortLess(sortBy, nameLess);
    var r := SortRecipes(rs, sortBy, nameLess);
    SortLessStrict(sortBy, nameLess);
    Sequences.SortBySorted(rs, less);
    assert forall i, j :: 0 <= i < j < |r| ==> !less(r[j], r[i]);
    if sortBy !in {Newest, Oldest, NameAsc, NameDesc} {
      Sequences.SortByAllEqual(rs, less);
    }
  }

  // ---------------------------------------------------------------------------
  // Deleting

  /** The list after a single delete: every recipe with that id is gone, the
      rest keep their order. */
  function RemoveRecipe(rs: seq<Recipe>, id: RecipeId): (r: seq<Recipe>)
    ensures forall x :: x in r <==> x in rs && x.id != id
    ensures Sequences.IsSubsequence(r, rs)
    ensures (forall i :: 0 <= i < |rs| ==> rs[i].id != id) ==> r == rs
  {
    Sequences.Filter(rs, (x: Recipe) => x.id != id)
  }

  /** Every other recipe is kept as often as it occurred; none with the id. */
  lemma RemoveRecipeCounts(rs: seq<Recipe>, id: RecipeId)
    ensures forall x :: multiset(RemoveRecipe(rs, id))[x] == if x.id != id then multiset(rs)[x] else 0
  {
    Sequences.FilterMultiplicity(rs, (x: Recipe) => x.id != id);
  }

  /** The list after a bulk delete: every recipe whose id is selected is gone,
      the rest keep their order. */
  function RemoveRecipes(rs: seq<Recipe>, sel: seq<RecipeId>): (r: seq<Recipe>)
    ensures forall x :: x in r <==> x in rs && x.id !in sel
    ensures Sequences.IsSubsequence(r, rs)
    ensures sel == [] ==> r == rs
  {
    Sequences.Filter(rs, (x: Recipe) => x.id !in sel)
  }

  /** Every unselected recipe is kept as often as it occurred; no selected one. */
  lemma RemoveRecipesCounts(rs: seq<Recipe>, sel: seq<RecipeId>)
    ensures forall x :: multiset(RemoveRecipes(rs, sel))[x] == if x.id !in sel then multiset(rs)[x] else 0
  {
    Sequences.FilterMultiplicity(rs, (x: Recipe) => x.id !in sel);
  }

  /** The selected ids the store lets `caller` delete. */
  function Deletable(m: map<RecipeId, Recipe>, ids: seq<RecipeId>, caller: UserId): set<RecipeId> {
    set id | id in ids && id in m && m[id].user == caller
  }

  /** Every selected id names one of the caller's stored recipes, and none is
      selected twice: exactly when a one-by-one run of deletes all succeed. */
  ghost predicate AllDeletable(m: map<RecipeId, Recipe>, ids: seq<RecipeId>, caller: UserId) {
    && (forall i :: 0 <= i < |ids| ==> ids[i] in m && m[ids[i]].user == caller)
    && Sequences.Distinct(ids)
  }

  /** What one more delete in the run does, given what the earlier ones did. */
  lemma DeletableStep(m: map<RecipeId, Recipe>, ids: seq<RecipeId>, x: RecipeId, caller: UserId)
    ensures Deletable(m, ids + [x], caller) ==
      Deletable(m, ids, caller) + (if x in m && m[x].user == caller then {x} else {})
    ensures AllDeletable(m, ids + [x], caller) <==>
      AllDeletable(m, ids, caller) && x in m && m[x].user == caller && x !in ids
    ensures var now := m - Deletable(m, ids, caller);
      (x in now && now[x].user == caller) <==> (x in m && m[x].user == caller && x !in Deletable(m, ids, caller))
  {
    var s := ids + [x];
    assert forall i :: 0 <= i < |ids| ==> s[i] == ids[i];
    assert forall y :: y in s <==> y in ids || y == x;
    if AllDeletable(m, s, caller) {
      assert AllDeletable(m, ids, caller);
      forall k | 0 <= k < |ids| ensures ids[k] != x {
        assert s[k] != s[|ids|] && s[|ids|] == x;
      }
      assert x !in ids;
    }
    if AllDeletable(m, ids, caller) && x in m && m[x].user == caller && x !in ids {
      assert forall i, j :: 0 <= i < j < |s| ==> s[i] != s[j];
    }
  }

  /** `Promise.all(selectedRecipes.map(id => deleteRecipe(id)))`: a delete
      is issued for every selected id, in order, even after one has failed. The
      store loses exactly the caller's selected recipes, and the run succeeds
      iff every delete did. */
  method DeleteSelected(store: RecipeController.RecipeStore, ids: seq<RecipeId>, caller: UserId) returns (ok: bool)
    requires store.Valid()
    modifies store`recipes
    ensures store.Valid()
    ensures store.clock == old(store.clock) && store.nextId == old(store.nextId)
    ensures store.recipes == old(store.recipes) - Deletable(old(store.recipes), ids, caller)
    ensures ok <==> AllDeletable(old(store.recipes), ids, caller)
  {
    ghost var before := store.recipes;
    ok := true;
    var i := 0;
    while i < |ids|
      invariant 0 <= i <= |ids|
      invariant store.Valid()
      invariant store.recipes == before - Deletable(before, ids[..i], caller)
      invariant ok <==> AllDeletable(before, ids[..i], caller)
      modifies store`recipes
    {
      var x := ids[i];
      DeletableStep(before, ids[..i], x, caller);
      assert ids[..i + 1] == ids[..i] + [x];
      var r := store.DeleteRecipe(caller, x);
      if r.Err? {
        ok := false;
      }
      i := i + 1;
    }
    assert ids[..|ids|] == ids;
  }

  /** The page's state. `nameLess` is the order `localeCompare` gives names. */
  class DashboardView {
    const nameLess: (string, string) -> bool
    var recipes: seq<Recipe>
    var selectedRecipes: seq<RecipeId>
    var isDeleteModalOpen: bool
    var recipeToDelete: Option<RecipeId>
    var searchTerm: string
    var sortBy: string
    var error: Option<string>
    var loginRedirect: bool

    constructor (nameLess: (string, string) -> bool)
      ensures this.nameLess == nameLess
      ensures recipes == [] && selectedRecipes == [] && !isDeleteModalOpen && recipeToDelete == None
      ensures searchTerm == "" && sortBy == Newest && error == None && !loginRedirect
    {
      this.nameLess := nameLess;
      recipes := [];
      selectedRecipes := [];
      isDeleteModalOpen := false;
      recipeToDelete := None;
      searchTerm := "";
      sortBy := Newest;
      error := None;
      loginRedirect := false;
    }

    /** `fetchUserRecipes`: without a signed-in user (`session` is None) the
        page goes to the login page. Otherwise it lists the caller's recipes,
        unless the request throws (`failed`): then the error shows and the list
        is kept. */
    method LoadRecipes(store: RecipeController.RecipeStore, session: Option<UserId>, failed: bool)
      requires store.Valid()
      modifies this`recipes, this`loginRedirect, this`error
      ensures session.None? ==> loginRedirect && recipes == old(recipes) && error == old(error)
      ensures session.Some? ==> loginRedirect == old(loginRedirect)
      ensures session.Some? && failed ==> error == Some(LoadError) && recipes == old(recipes)
      ensures session.Some? && !failed ==>
        && (forall x :: x in recipes <==> x.id in store.recipes && store.recipes[x.id] == x && x.user == session.value)
        && (forall i, j :: 0 <= i < j < |recipes| ==> recipes[i].id != recipes[j].id)
        && RecipeController.NewestFirst(recipes)
        && error == old(error)
    {
      if session.None? {
        loginRedirect := true;
        return;
      }
      if failed {
        error := Some(LoadError);
        return;
      }
      recipes := store.GetUserRecipes(session.value);
    }

    method HandleRecipeSelect(id: RecipeId)
      modifies this`selectedRecipes
      ensures selectedRecipes == Toggle(old(selectedRecipes), id)
    {
      if id in selectedRecipes {
        selectedRecipes := Sequences.Filter(selectedRecipes, (x: RecipeId) => x != id);
      } else {
        selectedRecipes := selectedRecipes + [id];
      }
    }

    method HandleSelectAll()
      modifies this`selectedRecipes
      ensures selectedRecipes == SelectAll(old(selectedRecipes), recipes)
    {
      if |selectedRecipes| == |recipes| {
        selectedRecipes := [];
      } else {
        selectedRecipes := RecipeIds(recipes);
      }
    }

    /** The search box's onChange. */
    method HandleSearchChange(term: string)
      modifies this`searchTerm
      ensures searchTerm == term
    {
      searchTerm := term;
    }

    /** The sort selector's onChange. */
    method HandleSortChange(key: string)
      modifies this`sortBy
      ensures sortBy == key
    {
      sortBy := key;
    }

    /** `openDeleteModal`: `id` is None for "delete the selected ones". */
    method OpenDeleteModal(id: Option<RecipeId>)
      modifies this`recipeToDelete, this`isDeleteModalOpen
      ensures recipeToDelete == id && isDeleteModalOpen
    {
      recipeToDelete := id;
      isDeleteModalOpen := true;
    }

    method CloseDeleteModal()
      modifies this`recipeToDelete, this`isDeleteModalOpen
      ensures recipeToDelete == None && !isDeleteModalOpen
    {
      isDeleteModalOpen := false;
      recipeToDelete := None;
    }

    /** The recipes shown: the search hits in the chosen order. */
    method SortedRecipes() returns (shown: seq<Recipe>)
      ensures multiset(shown) == multiset(Search(recipes, searchTerm))
      ensures shown == SortRecipes(Search(recipes, searchTerm), sortBy, nameLess)
      ensures searchTerm == "" ==> multiset(shown) == multiset(recipes)
    {
      var filtered := Search(recipes, searchTerm);
      shown := SortRecipes(filtered, sortBy, nameLess);
      if searchTerm == "" {
        SearchEmpty(recipes);
      }
    }

    /** `handleDeleteRecipe` as `caller`. One target: it is deleted in the store
        and, when that succeeds, dropped from the list. No target: every
        selected id is deleted in turn (the requests are all issued even after
        one fails); only if all succeed are they dropped from the list and the
        selection emptied. Any failure sets the error and leaves the list. The
        dialog closes either way. */
    method HandleDeleteRecipe(store: RecipeController.RecipeStore, caller: UserId)
      requires store.Valid()
      modifies this`recipes, this`selectedRecipes, this`error, this`isDeleteModalOpen, this`recipeToDelete
      modifies store`recipes
      ensures store.Valid()
      ensures store.clock == old(store.clock) && store.nextId == old(store.nextId)
      ensures searchTerm == old(searchTerm) && sortBy == old(sortBy) && loginRedirect == old(loginRedirect)
      ensures !isDeleteModalOpen && recipeToDelete == None
      ensures old(recipeToDelete).Some? ==> selectedRecipes == old(selectedRecipes)
      ensures old(recipeToDelete).Some? ==> var id := old(recipeToDelete).value;
        (id in old(store.recipes) && old(store.recipes)[id].user == caller ==>
          && store.recipes == old(store.recipes) - {id}
          && recipes == RemoveRecipe(old(recipes), id) && error == old(error))
      ensures old(recipeToDelete).Some? ==> var id := old(recipeToDelete).value;
        (!(id in old(store.recipes) && old(store.recipes)[id].user == caller) ==>
          && store.recipes == old(store.recipes)
          && recipes == old(recipes) && error == Some(DeleteError))
      ensures old(recipeToDelete).None? ==>
        store.recipes == old(store.recipes) - Deletable(old(store.recipes), old(selectedRecipes), caller)
      ensures old(recipeToDelete).None? && AllDeletable(old(store.recipes), old(selectedRecipes), caller) ==>
        && recipes == RemoveRecipes(old(recipes), old(selectedRecipes))
        && selectedRecipes == [] && error == old(error)
      ensures old(recipeToDelete).None? && !AllDeletable(old(store.recipes), old(selectedRecipes), caller) ==>
        && recipes == old(recipes) && selectedRecipes == old(selectedRecipes)
        && error == Some(DeleteError)
    {
      if recipeToDelete.Some? {
        DeleteTarget(store, caller, recipeToDelete.value);
      } else {
        DeleteAll(store, caller);
      }
      isDeleteModalOpen := false;
      recipeToDelete := None;
    }

    /** The single-target branch of `handleDeleteRecipe`. */
    method DeleteTarget(store: RecipeController.RecipeStore, caller: UserId, id: RecipeId)
      requires store.Valid()
      modifies this`recipes, this`error, store`recipes
      ensures store.Valid()
      ensures id in old(store.recipes) && old(store.recipes)[id].user == caller ==>
        && store.recipes == old(store.recipes) - {id}
        && recipes == RemoveRecipe(old(recipes), id) && error == old(error)
      ensures !(id in old(store.recipes) && old(store.recipes)[id].user == caller) ==>
        && store.recipes == old(store.recipes)
        && recipes == old(recipes) && error == Some(DeleteError)
    {
      var r := store.DeleteRecipe(caller, id);
      if r.Ok? {
        recipes := RemoveRecipe(recipes, id);
      } else {
        error := Some(DeleteError);
      }
    }

    /** The bulk branch of `handleDeleteRecipe`. */
    method DeleteAll(store: RecipeController.RecipeStore, caller: UserId)
      requires store.Valid()
      modifies this`recipes, this`selectedRecipes, this`error, store`recipes
      ensures store.Valid()
      ensures store.recipes == old(store.recipes) - Deletable(old(store.recipes), old(selectedRecipes), caller)
      ensures AllDeletable(old(store.recipes), old(selectedRecipes), caller) ==>
        && recipes == RemoveRecipes(old(recipes), old(selectedRecipes))
        && selectedRecipes == [] && error == old(error)
      ensures !AllDeletable(old(store.recipes), old(selectedRecipes), caller) ==>
        && recipes == old(recipes) && selectedRecipes == old(selectedRecipes)
        && error == Some(DeleteError)
    {
      var ids := selectedRecipes;
      var ok := DeleteSelected(store, ids, caller);
      if ok {
        recipes := RemoveRecipes(recipes, ids);
        selectedRecipes := [];
      } else {
        error := Some(DeleteError);
      }
    }
  }
}
