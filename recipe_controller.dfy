/** The recipe handlers of backend/controllers/recipeController.js over the
    recipe collection: create, list all, get one, update, delete and list the
    caller's own. The collection is a map from identifier to document; the
    caller's identifier is the one the authentication middleware resolved. */
module RecipeController {
  import opened Wrappers
  import opened Ids
  import opened RecipeSchema
  import Text
  import Sequences

  /** The handlers' error responses: 404, 403, and the 500 a failed save gives. */
  datatype RecipeError = NotFound | Forbidden | SaveFailed(fields: set<Field>)

  /** The HTTP status each error is sent with. */
  function Status(e: RecipeError): (code: nat)
    ensures code == 404 <==> e == NotFound
    ensures code == 403 <==> e == Forbidden
    ensures code == 500 <==> e.SaveFailed?
  {
    match e
    case NotFound => 404
    case Forbidden => 403
    case SaveFailed(_) => 500
  }

  /** The order of `sort({ createdAt: -1 })`: a newer recipe comes first. */
  function Newer(a: Recipe, b: Recipe): bool {
    a.createdAt > b.createdAt
  }

  /** Ordered newest first. */
  ghost predicate NewestFirst(s: seq<Recipe>) {
    forall i, j :: 0 <= i < j < |s| ==> s[i].createdAt >= s[j].createdAt
  }

  /** In a list ordered newest first, a strictly newer recipe stands before
      an older one. */
  lemma NewerStandsFirst(s: seq<Recipe>, x: Recipe, y: Recipe)
    requires NewestFirst(s) && x.createdAt > y.createdAt
    ensures forall i, j :: 0 <= i < |s| && 0 <= j < |s| && s[i] == x && s[j] == y ==> i < j
  {
  }

  lemma NewerIsStrictOrder()
    ensures Sequences.StrictOrder(Newer)
  {
  }

  /** Sorting by Newer gives the recipes newest first, with nothing lost or added. */
  lemma SortNewestFirst(s: seq<Recipe>)
    ensures NewestFirst(Sequences.SortBy(s, Newer))
    ensures multiset(Sequences.SortBy(s, Newer)) == multiset(s)
  {
    NewerIsStrictOrder();
    Sequences.SortBySorted(s, Newer);
    var r := Sequences.SortBy(s, Newer);
    assert forall i, j :: 0 <= i < j < |r| ==> !Newer(r[j], r[i]);
  }

  /** The stored documents with identifiers below n, in identifier order. */
  function StoredBelow(m: map<RecipeId, Recipe>, n: nat): seq<Recipe> {
    if n == 0 then []
    else StoredBelow(m, n - 1) + (if n - 1 in m then [m[n - 1]] else [])
  }

  /** StoredBelow lists exactly the stored documents below n, each once. */
  lemma {:induction false} StoredBelowContents(m: map<RecipeId, Recipe>, n: nat)
    requires forall id :: id in m ==> m[id].id == id
    ensures forall r :: r in StoredBelow(m, n) <==> r.id < n && r.id in m && m[r.id] == r
    ensures Sequences.Distinct(StoredBelow(m, n))
    ensures forall i :: 0 <= i < |StoredBelow(m, n)| ==> StoredBelow(m, n)[i].id < n
  {
    if n > 0 {
      StoredBelowContents(m, n - 1);
    }
  }

  /** The documents whose owner is `owner`: the query `find({ user: owner })`. */
  function OwnedBy(s: seq<Recipe>, owner: UserId): (r: seq<Recipe>)
    ensures forall x :: x in r <==> x in s && x.user == owner
    ensures Sequences.Distinct(s) ==> Sequences.Distinct(r)
  {
    Sequences.Filter(s, (x: Recipe) => x.user == owner)
  }

  /** The `$set` of an update: every key the body carries overwrites that field
      (the name through its trim setter); every other field keeps its value.
      Updates run setters but not validators, so any difficulty string and any
      owner the body names are written as given. */
  function ApplySet(rec: Recipe, b: RecipeBody): (r: Recipe)
    ensures r.id == rec.id
    ensures r.name == if b.name.Some? then Text.Trim(b.name.value) else rec.name
    ensures r.ingredients == if b.ingredients.Some? then b.ingredients.value else rec.ingredients
    ensures r.instructions == if b.instructions.Some? then b.instructions.value else rec.instructions
    ensures r.difficulty == if b.difficulty.Some? then b.difficulty.value else rec.difficulty
    ensures r.image == if b.image.Some? then b.image else rec.image
    ensures r.user == if b.user.Some? then b.user.value else rec.user
    ensures r.createdAt == if b.createdAt.Some? then b.createdAt.value else rec.createdAt
  {
    rec.(
      name := if b.name.Some? then CastName(b.name).value else rec.name,
      ingredients := if b.ingredients.Some? then b.ingredients.value else rec.ingredients,
      instructions := if b.instructions.Some? then b.instructions.value else rec.instructions,
      difficulty := if b.difficulty.Some? then b.difficulty.value else rec.difficulty,
      image := if b.image.Some? then b.image else rec.image,
      user := if b.user.Some? then b.user.value else rec.user,
      createdAt := if b.createdAt.Some? then b.createdAt.value else rec.createdAt)
  }

  /** Applying the same update twice is applying it once. */
  lemma ApplySetIdempotent(rec: Recipe, b: RecipeBody)
    ensures ApplySet(ApplySet(rec, b), b) == ApplySet(rec, b)
  {
    if b.name.Some? { Text.TrimIdempotent(b.name.value); }
  }

  /** An update carrying no key changes nothing; one without a `user` key keeps
      the owner. */
  lemma ApplySetUntouched(rec: Recipe, b: RecipeBody)
    ensures Keys(b) == {} ==> ApplySet(rec, b) == rec
    ensures b.user.None? ==> ApplySet(rec, b).user == rec.user
  {
    if Keys(b) == {} {
      assert "name" !in Keys(b) && "ingredients" !in Keys(b) && "instructions" !in Keys(b);
      assert "difficulty" !in Keys(b) && "image" !in Keys(b) && "user" !in Keys(b);
      assert "createdAt" !in Keys(b);
    }
  }

  /** Sorting distinct stored documents newest first keeps them, each once. */
  lemma SortedListing(s: seq<Recipe>, m: map<RecipeId, Recipe>)
    requires forall x :: x in s ==> x.id in m && m[x.id] == x
    requires Sequences.Distinct(s)
    ensures var r := Sequences.SortBy(s, Newer);
      && (forall x :: x in r <==> x in s)
      && (forall i, j :: 0 <= i < j < |r| ==> r[i].id != r[j].id)
      && NewestFirst(r)
  {
    var r := Sequences.SortBy(s, Newer);
    assert NewestFirst(r) by {
      SortNewestFirst(s);
    }
    forall x ensures x in r <==> x in s {
      assert x in r <==> x in multiset(r);
      assert x in s <==> x in multiset(s);
    }
    assert Sequences.Distinct(r) by {
      Sequences.SortByDistinct(s, Newer);
    }
    forall i, j | 0 <= i < j < |r| ensures r[i].id != r[j].id {
      assert r[i] in multiset(r) && r[j] in multiset(r);
      assert r[i] != r[j];
    }
  }

  /** The recipe collection and the clock that `new Date()` reads. */
  class RecipeStore {
    var recipes: map<RecipeId, Recipe>
    var nextId: RecipeId
    var clock: int

    /** Every document is stored under its own identifier, and identifiers not
        yet handed out are at least nextId. */
    ghost predicate Valid()
      reads this
    {
      forall id :: id in recipes ==> recipes[id].id == id && id < nextId
    }

    constructor (now: int)
      ensures Valid() && recipes == map[] && clock == now
    {
      recipes := map[];
      nextId := 0;
      clock := now;
    }

    /** Time passes between requests. */
    method Tick(now: int)
      modifies this`clock
      ensures clock == now
    {
      clock := now;
    }

    /** addRecipe: the body spread first, then `user` and `createdAt` written
        over it, so the owner is always the caller and the time always now,
        whatever the body says. A document the schema rejects is not saved. */
    method AddRecipe(caller: UserId, body: RecipeBody) returns (r: Result<Recipe, RecipeError>)
      requires Valid()
      modifies this`recipes, this`nextId
      ensures Valid()
      ensures var doc := body.(user := Some(caller), createdAt := Some(clock));
        match Create(doc, old(nextId), clock)
        case Ok(rec) => r == Ok(rec) && recipes == old(recipes)[rec.id := rec]
        case Err(fields) => r == Err(SaveFailed(fields)) && recipes == old(recipes)
      ensures r.Ok? ==> r.value.user == caller && r.value.createdAt == clock
      ensures r.Ok? ==> r.value.id !in old(recipes) && WellFormed(r.value)
    {
      var doc := body.(user := Some(caller), createdAt := Some(clock));
      var created := Create(doc, nextId, clock);
      match created {
        case Ok(rec) =>
          CreateWellFormed(doc, nextId, clock);
          recipes := recipes[nextId := rec];
          nextId := nextId + 1;
          r := Ok(rec);
        case Err(fields) =>
          r := Err(SaveFailed(fields));
      }
    }

    /** getAllRecipes: every stored recipe exactly once, newest first. */
    method GetAllRecipes() returns (list: seq<Recipe>)
      requires Valid()
      ensures forall x :: x in list <==> x.id in recipes && recipes[x.id] == x
      ensures forall i, j :: 0 <= i < j < |list| ==> list[i].id != list[j].id
      ensures NewestFirst(list)
    {
      var stored := StoredBelow(recipes, nextId);
      StoredBelowContents(recipes, nextId);
      list := Sequences.SortBy(stored, Newer);
      SortedListing(stored, recipes);
    }

    /** getRecipeById: the stored recipe, or NotFound. Nothing is changed. */
    method GetRecipeById(id: RecipeId) returns (r: Result<Recipe, RecipeError>)
      ensures id in recipes ==> r == Ok(recipes[id])
      ensures id !in recipes ==> r == Err(NotFound)
    {
      if id in recipes {
        r := Ok(recipes[id]);
      } else {
        r := Err(NotFound);
      }
    }

    /** updateRecipe: NotFound is decided before ownership is looked at, then
        Forbidden for a caller who is not the owner; otherwise the body's keys
        are set and the updated document returned. */
    method UpdateRecipe(caller: UserId, id: RecipeId, body: RecipeBody) returns (r: Result<Recipe, RecipeError>)
      requires Valid()
      modifies this`recipes
      ensures Valid()
      ensures id !in old(recipes) ==> r == Err(NotFound) && recipes == old(recipes)
      ensures id in old(recipes) && old(recipes)[id].user != caller ==>
        r == Err(Forbidden) && recipes == old(recipes)
      ensures id in old(recipes) && old(recipes)[id].user == caller ==>
        r == Ok(ApplySet(old(recipes)[id], body)) && recipes == old(recipes)[id := r.value]
    {
      if id !in recipes {
        r := Err(NotFound);
        return;
      }
      var rec := recipes[id];
      if rec.user != caller {
        r := Err(Forbidden);
        return;
      }
      var updated := ApplySet(rec, body);
      recipes := recipes[id := updated];
      r := Ok(updated);
    }

    /** deleteRecipe: the same two checks in the same order; on success the
        document is gone and every other one is untouched. */
    method DeleteRecipe(caller: UserId, id: RecipeId) returns (r: Result<(), RecipeError>)
      requires Valid()
      modifies this`recipes
      ensures Valid()
      ensures id !in old(recipes) ==> r == Err(NotFound) && recipes == old(recipes)
      ensures id in old(recipes) && old(recipes)[id].user != caller ==>
        r == Err(Forbidden) && recipes == old(recipes)
      ensures id in old(recipes) && old(recipes)[id].user == caller ==>
        r == Ok(()) && recipes == old(recipes) - {id}
    {
      if id !in recipes {
        r := Err(NotFound);
        return;
      }
      if recipes[id].user != caller {
        r := Err(Forbidden);
        return;
      }
      recipes := recipes - {id};
      r := Ok(());
    }

    /** getUserRecipes: exactly the caller's recipes, each once, newest first. */
    method GetUserRecipes(caller: UserId) returns (list: seq<Recipe>)
      requires Valid()
      ensures forall x :: x in list <==> x.id in recipes && recipes[x.id] == x && x.user == caller
      ensures forall i, j :: 0 <= i < j < |list| ==> list[i].id != list[j].id
      ensures NewestFirst(list)
    {
      var stored := StoredBelow(recipes, nextId);
      StoredBelowContents(recipes, nextId);
      var owned := OwnedBy(stored, caller);
      list := Sequences.SortBy(owned, Newer);
      SortedListing(owned, recipes);
    }
  }

  /** A recipe created by one user cannot be updated or deleted by another,
      and the owner's delete makes a later get answer NotFound. */
  method OwnershipScenario(store: RecipeStore, owner: UserId, other: UserId, body: RecipeBody)
    returns (created: Result<Recipe, RecipeError>)
    requires store.Valid() && owner != other
    modifies store
    ensures store.Valid()
    ensures created.Ok? ==> created.value.id !in store.recipes
  {
    created := store.AddRecipe(owner, body);
    if created.Ok? {
      var id := created.value.id;
      var u := store.UpdateRecipe(other, id, body);
      assert u == Err(Forbidden);
      var d := store.DeleteRecipe(other, id);
      assert d == Err(Forbidden);
      d := store.DeleteRecipe(owner, id);
      assert d == Ok(());
      var g := store.GetRecipeById(id);
      assert g == Err(NotFound);
      u := store.UpdateRecipe(owner, id, body);
      assert u == Err(NotFound);
    }
  }

  /** Three recipes created at increasing times are listed newest first. */
  method NewestFirstScenario(store: RecipeStore, u: UserId, b: RecipeBody, t1: int, t2: int, t3: int)
    returns (first: Result<Recipe, RecipeError>, second: Result<Recipe, RecipeError>,
             third: Result<Recipe, RecipeError>, list: seq<Recipe>)
    requires store.Valid() && t1 < t2 < t3
    modifies store
    ensures first.Ok? ==> second.Ok? && third.Ok?
    ensures first.Ok? ==> var a, c, e := first.value, second.value, third.value;
      && a in list && c in list && e in list
      && forall i, j :: 0 <= i < |list| && 0 <= j < |list| ==>
           (list[i] == e && list[j] == c ==> i < j) && (list[i] == c && list[j] == a ==> i < j)
  {
    store.Tick(t1);
    first := store.AddRecipe(u, b);
    store.Tick(t2);
    second := store.AddRecipe(u, b);
    store.Tick(t3);
    third := store.AddRecipe(u, b);
    list := store.GetAllRecipes();
    if first.Ok? {
      assert second.Ok? && third.Ok?;
      var a, c, e := first.value, second.value, third.value;
      assert a.createdAt == t1 && c.createdAt == t2 && e.createdAt == t3;
      assert e.id in store.recipes && store.recipes[e.id] == e;
      assert c.id in store.recipes && store.recipes[c.id] == c;
      assert a.id in store.recipes && store.recipes[a.id] == a;
      NewerStandsFirst(list, e, c);
      NewerStandsFirst(list, c, a);
    }
  }
}
