/** The edit page of frontend/my-react-app/src/pages/EditRecipe.jsx: who may
    open a recipe for editing, how the form is filled from the fetched recipe,
    and the update the form submits to the recipe store. */
module EditRecipe {
  import opened Wrappers
  import opened Ids
  import opened RecipeSchema
  import Text
  import RecipeController

  const PermissionError: string := "You do not have permission to edit this recipe."
  const LoadError: string := "Failed to load recipe. Please try again."

  /** Recipe errors are sent as `{ error }`, never `{ message }`, so the page
      always falls back to this text. */
  const UpdateError: string := "Failed to update recipe. Please try again."

  /** A recipe as getRecipeById returns it. `user` is the populated owner's
      identifier, None when the owner no longer exists (populate gives null). */
  datatype FetchedRecipe = FetchedRecipe(
    id: RecipeId,
    name: Option<string>,
    ingredients: Option<string>,
    instructions: Option<string>,
    difficulty: Option<string>,
    image: Option<string>,
    user: Option<UserId>)

  /** The stored recipe with its owner joined in by `populate('user')`. */
  function Fetched(rec: Recipe, ownerExists: bool): FetchedRecipe {
    FetchedRecipe(rec.id, Some(rec.name), Some(rec.ingredients), Some(rec.instructions),
      Some(rec.difficulty), rec.image, if ownerExists then Some(rec.user) else None)
  }

  /** The ownership gate: refused only when the recipe has an owner and it is
      someone else; a recipe without one may be edited by anybody. */
  function MayEdit(data: FetchedRecipe, me: UserId): (ok: bool)
    ensures ok <==> data.user.None? || data.user.value == me
    ensures data.user.None? ==> ok
  {
    !(data.user.Some? && data.user.value != me)
  }

  /** The five form fields. */
  datatype Form = Form(name: string, ingredients: string, instructions: string, difficulty: string, imageUrl: string)

  /** The form before anything is loaded. */
  const InitialForm: Form := Form("", "", "", DefaultDifficulty, "")

  /** The form filled from a fetched recipe: each field `data.x || default`,
      so absent and empty text both give '' and the difficulty gives 'Easy'. */
  function FormFrom(data: FetchedRecipe): (f: Form)
    ensures f.name == if data.name.Some? then data.name.value else ""
    ensures f.ingredients == if data.ingredients.Some? then data.ingredients.value else ""
    ensures f.instructions == if data.instructions.Some? then data.instructions.value else ""
    ensures f.difficulty == if data.difficulty.Some? && data.difficulty.value != "" then data.difficulty.value else "Easy"
    ensures f.imageUrl == if data.image.Some? then data.image.value else ""
  {
    Form(Text.OrElse(data.name, ""), Text.OrElse(data.ingredients, ""), Text.OrElse(data.instructions, ""),
      Text.OrElse(data.difficulty, DefaultDifficulty), Text.OrElse(data.image, ""))
  }

  /** `updatedRecipe`: exactly the keys name, ingredients, instructions,
      difficulty and image, the last from the `imageUrl` field; no owner. */
  function Payload(f: Form): (b: RecipeBody)
    ensures Keys(b) == {"name", "ingredients", "instructions", "difficulty", "image"}
    ensures b.name == Some(f.name) && b.ingredients == Some(f.ingredients) && b.instructions == Some(f.instructions)
    ensures b.difficulty == Some(f.difficulty) && b.image == Some(f.imageUrl)
    ensures b.user.None? && b.createdAt.None?
  {
    RecipeBody(Some(f.name), Some(f.ingredients), Some(f.instructions), Some(f.difficulty), Some(f.imageUrl), None, None)
  }

  /** Opening a well-formed recipe and saving it untouched changes nothing but
      an absent image, which is stored as ''; the owner is kept. */
  lemma SaveUnchanged(rec: Recipe, ownerExists: bool)
    requires WellFormed(rec)
    ensures RecipeController.ApplySet(rec, Payload(FormFrom(Fetched(rec, ownerExists)))) ==
      rec.(image := Some(if rec.image.Some? then rec.image.value else ""))
  {
    Text.TrimIdempotent(rec.name);
  }

  /** The page's state. */
  class EditForm {
    var recipe: Option<FetchedRecipe>
    var form: Form
    var error: Option<string>
    var success: bool
    var loginRedirect: bool

    constructor ()
      ensures recipe == None && form == InitialForm && error == None && !success && !loginRedirect
    {
      recipe := None;
      form := InitialForm;
      error := None;
      success := false;
      loginRedirect := false;
    }

    /** `fetchRecipe`: `session` is the signed-in user (None without a user or
        token) and `data` what getRecipeById returned (None when it threw). */
    method FetchRecipe(session: Option<UserId>, data: Option<FetchedRecipe>)
      modifies this`recipe, this`form, this`error, this`loginRedirect
      ensures session.None? ==>
        loginRedirect && recipe == old(recipe) && form == old(form) && error == old(error)
      ensures session.Some? ==> loginRedirect == old(loginRedirect)
      ensures session.Some? && data.None? ==>
        error == Some(LoadError) && recipe == old(recipe) && form == old(form)
      ensures session.Some? && data.Some? && !MayEdit(data.value, session.value) ==>
        error == Some(PermissionError) && recipe == old(recipe) && form == old(form)
      ensures session.Some? && data.Some? && MayEdit(data.value, session.value) ==>
        recipe == data && form == FormFrom(data.value) && error == old(error)
      ensures success == old(success)
    {
      if session.None? {
        loginRedirect := true;
        return;
      }
      if data.None? {
        error := Some(LoadError);
        return;
      }
      var d := data.value;
      if d.user.Some? && d.user.value != session.value {
        error := Some(PermissionError);
        return;
      }
      recipe := data;
      form := form.(name := Text.OrElse(d.name, ""));
      form := form.(ingredients := Text.OrElse(d.ingredients, ""));
      form := form.(instructions := Text.OrElse(d.instructions, ""));
      form := form.(difficulty := Text.OrElse(d.difficulty, DefaultDifficulty));
      form := form.(imageUrl := Text.OrElse(d.image, ""));
    }

    /** The five inputs' onChange handlers. */
    method EditFields(f: Form)
      modifies this`form
      ensures form == f
    {
      form := f;
    }

    /** `handleSubmit` for the recipe `id`: without a session nothing is sent;
        otherwise the payload goes to the store as an update by the signed-in
        user, and the store's answer decides success or the error text. */
    method HandleSubmit(store: RecipeController.RecipeStore, session: Option<UserId>, id: RecipeId)
      requires store.Valid()
      modifies this`error, this`success, this`loginRedirect, store`recipes
      ensures store.Valid()
      ensures session.None? ==>
        loginRedirect && store.recipes == old(store.recipes) && error == old(error) && success == old(success)
      ensures session.Some? && (id !in old(store.recipes) || old(store.recipes)[id].user != session.value) ==>
        store.recipes == old(store.recipes) && error == Some(UpdateError) && !success
      ensures session.Some? && id in old(store.recipes) && old(store.recipes)[id].user == session.value ==>
        && store.recipes == old(store.recipes)[id := RecipeController.ApplySet(old(store.recipes)[id], Payload(form))]
        && store.recipes[id].user == session.value
        && success && error == None
    {
      if session.None? {
        loginRedirect := true;
        return;
      }
      error := None;
      success := false;
      var updatedRecipe := Payload(form);
      var r := store.UpdateRecipe(session.value, id, updatedRecipe);
      if r.Ok? {
        success := true;
      } else {
        error := Some(UpdateError);
      }
    }
  }

  /** Someone who does not own a recipe may get past the page's gate when its
      owner no longer exists, but the store still refuses the update. */
  method OrphanScenario(store: RecipeController.RecipeStore, page: EditForm, me: UserId, id: RecipeId)
    requires store.Valid() && id in store.recipes && store.recipes[id].user != me
    modifies page, store
    ensures store.recipes == old(store.recipes)
  {
    var data := Fetched(store.recipes[id], false);
    page.FetchRecipe(Some(me), Some(data));
    assert page.recipe == Some(data);
    page.HandleSubmit(store, Some(me), id);
    assert page.error == Some(UpdateError);
  }
}
