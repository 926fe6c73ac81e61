# Recipe sharing app: a verified model

A Dafny model of the logic of a small recipe-sharing web application: an
Express/Mongoose back end with a React front end. Three parts are modelled.

- **The recipe store** (`recipe_controller.dfy`, `recipe_schema.dfy`). This is
  the collection of recipe documents, a map from identifier to recipe. Its
  handlers create, list, get, update and delete recipes. The schema casts,
  defaults and validates a new document. Every mutation checks in the same
  order: the recipe must exist, then it must belong to the caller.
- **The credential store** (`auth_controller.dfy`). Users are filed under their
  email. The handlers are register, login and password change. Hashing,
  hash checking and token signing are functions handed to the store. The model
  only assumes that a password verifies against every hash made from it.
- **The pages** (`recipes_page.dfy`, `recipe_slider.dfy`, `dashboard.dfy`,
  `profile.dfy`, `edit_recipe.dfy`).
  - The browsing page: filters, three recipes per page, option lists, and the
    query string.
  - The featured-recipes carousel.
  - The owner's dashboard: select, search, sort, and single and bulk delete.
  - The password form.
  - The edit page: its ownership gate, form defaults and the submitted update.

  Each page's state is a class; its handlers are methods. A page's mutations
  call the store classes directly. The dashboard also reads its list from the
  store directly, with a `failed` flag standing for a request that threw. What
  the other pages fetch arrives as a parameter, with `None` standing for a
  request that threw.

Shared pieces:

- `text.dfy` models the JavaScript string operations the code relies on: `trim`,
  `split(',')`, ASCII `toLowerCase`, `includes`, `||` on strings, and the
  default sort order.
- `sequences.dfy` holds `filter`, `[...new Set(xs)]` and a stable sort by a
  "comes before" relation.
- `common.dfy` holds `Option`, `Result` and the identifier types.

Object identifiers are naturals and times are integers. The current time is the
store's `clock`, which `Tick` advances between requests. The salt a hash draws
is a parameter.

Behaviour the code has and the model keeps:

- Update runs setters but not validators, so any difficulty string is stored as
  sent and the name is trimmed.
- An update body that carries `user` changes the owner.
- A list's "select all" compares only lengths.
- register answers with the stored document, hash included.
- A recipe whose owner's document no longer exists passes the edit page's gate.
  The store still refuses the update.

## Model

| member | source | states |
|---|---|---|
| RecipeSchema.Create | backend/models/Recipe.js:4-35 | A body is accepted iff it has a non-blank name (after trim), non-empty ingredients and instructions, a difficulty that is absent or one of Easy/Medium/Hard, and an owner. A rejection names exactly the failing paths. An accepted document has the trimmed name, difficulty defaulting to Easy, the image as given (no default), and createdAt defaulting to now. |
| RecipeSchema.CreateWellFormed | backend/models/Recipe.js:5-22 | Every accepted document has a trimmed, non-empty name and a difficulty in the enum. |
| RecipeSchema.CreateToBody | backend/models/Recipe.js:4-35 | Validating a well-formed stored recipe again gives it back unchanged. |
| RecipeController.Status | backend/controllers/recipeController.js:56-76 | A missing recipe is sent as 404 and only it, a refusal to a non-owner as 403 and only it, and a failed save as 500 and only it. |
| RecipeController.NewerIsStrictOrder | backend/controllers/recipeController.js:28 | "createdAt later than" is a strict order, so the descending sort is well defined. |
| RecipeController.NewerStandsFirst | backend/controllers/recipeController.js:28 | In a list ordered newest first, a strictly newer recipe stands before an older one. |
| RecipeController.SortNewestFirst | backend/controllers/recipeController.js:26-28 | `sort({ createdAt: -1 })` is a permutation that leaves newer recipes first. |
| RecipeController.StoredBelowContents | backend/controllers/recipeController.js:26 | Enumerating the collection lists exactly the stored documents, each once. |
| RecipeController.OwnedBy | backend/controllers/recipeController.js:106 | `find({ user })` keeps exactly the documents of that owner and keeps them distinct. |
| RecipeController.ApplySet | backend/controllers/recipeController.js:67-71 | `$set` overwrites exactly the keys the body carries (name through trim); every other field keeps its value. |
| RecipeController.ApplySetIdempotent | backend/controllers/recipeController.js:67-71 | Applying the same update twice equals applying it once. |
| RecipeController.ApplySetUntouched | backend/controllers/recipeController.js:67-71 | An empty body changes nothing; a body without `user` keeps the owner. |
| RecipeController.SortedListing | backend/controllers/recipeController.js:26-28 | Sorting distinct stored documents keeps them all, with distinct ids, newest first. |
| RecipeController.RecipeStore.Tick | backend/models/Recipe.js:33 | The clock that `Date.now` reads moves to the given time. |
| RecipeController.RecipeStore.AddRecipe | backend/controllers/recipeController.js:6-21 | The owner is the caller and createdAt is the clock, whatever the body says. A rejected document is not saved. A saved one takes a fresh id and is well formed. |
| RecipeController.RecipeStore.GetAllRecipes | backend/controllers/recipeController.js:24-34 | Every stored recipe exactly once, newest first. |
| RecipeController.RecipeStore.GetRecipeById | backend/controllers/recipeController.js:37-51 | The stored recipe, or NotFound for an absent id; nothing changes. |
| RecipeController.RecipeStore.UpdateRecipe | backend/controllers/recipeController.js:54-78 | An absent id gives NotFound before ownership is looked at. Another owner's recipe gives Forbidden. Both leave the store unchanged. Otherwise only that recipe is replaced by ApplySet. |
| RecipeController.RecipeStore.DeleteRecipe | backend/controllers/recipeController.js:81-101 | Same checks in the same order; success removes only that id. |
| RecipeController.RecipeStore.GetUserRecipes | backend/controllers/recipeController.js:104-114 | Exactly the caller's stored recipes, each once, newest first. |
| RecipeController.OwnershipScenario | backend/controllers/recipeController.js:56-94 | Another user can neither update nor delete a new recipe. After the owner deletes it, get and update answer NotFound. |
| RecipeController.NewestFirstScenario | backend/controllers/recipeController.js:8-28 | Three recipes created at increasing times are listed latest first. |
| AuthController.Status | backend/controllers/authController.js:56-71 | 404 exactly for an unknown user, 400 for every other refusal. |
| AuthController.MessagesDistinct | backend/controllers/authController.js:12-70 | Each error has its own non-empty message text. |
| AuthController.Sanitize | backend/controllers/authController.js:37-42 | The login response's user carries id, username, email and createdAt, and has no password field. |
| AuthController.CredentialStore.Register | backend/controllers/authController.js:7-22 | A taken email gives UserExists and adds nobody. Otherwise the stored password is the hash, which verifies the password. The id is new, and the token is signed over that id. |
| AuthController.CredentialStore.Login | backend/controllers/authController.js:24-49 | Fails iff the email is unknown or the password does not verify, in both cases with the same InvalidCredentials. On success it gives the sanitized user and a token over its id. |
| AuthController.CredentialStore.UpdatePassword | backend/controllers/authController.js:52-85 | The refusal is the first failing check, in order: a password missing, then the user unknown, then a current password that matches none of that user's hashes. Each refusal changes nothing. Success replaces only that user's hash, and the new hash verifies the new password. |
| AuthController.RegisterLoginScenario | backend/controllers/authController.js:11-34 | A second register with the same email fails. Login with the registered password succeeds with a token over the new id. |
| AuthController.PasswordChangeScenario | backend/controllers/authController.js:62-78 | A wrong current password changes nothing. After a successful change the new password logs in. |
| Text.TrimStartSpec | backend/models/Recipe.js:8 | Dropping leading white space gives a suffix of the input; everything dropped is white space and the result does not start with it. |
| Text.TrimEndSpec | backend/models/Recipe.js:8 | Dropping trailing white space gives a prefix of the input; everything dropped is white space and the result does not end with it. |
| Text.TrimSlice | backend/models/Recipe.js:8 | Trim keeps a contiguous slice, drops only white space on either side, and leaves none at either end. |
| Text.TrimIdempotent | backend/models/Recipe.js:8 | Trimming twice is trimming once. |
| Text.Split | frontend/my-react-app/src/pages/Recipes.jsx:37 | `split(',')` yields at least one piece and no piece contains a comma. |
| Text.JoinSplit | frontend/my-react-app/src/pages/Recipes.jsx:37 | Joining the pieces with the separator gives back the string. |
| Text.LowerChar | frontend/my-react-app/src/pages/Recipes.jsx:128 | ASCII capitals map to their lower-case letter; every other character is kept. |
| Text.Lower | frontend/my-react-app/src/pages/Recipes.jsx:128 | Same length, each character lower-cased. |
| Text.Includes | frontend/my-react-app/src/pages/Recipes.jsx:128 | True iff the needle occurs at some position of the haystack. |
| Text.IncludesEmpty | frontend/my-react-app/src/pages/Dashboard.jsx:106 | Every string includes "". |
| Text.StringLessIrreflexive | frontend/my-react-app/src/pages/Recipes.jsx:39 | No string sorts before itself under the default sort order. |
| Text.StringLessAsymmetric | frontend/my-react-app/src/pages/Recipes.jsx:39 | Two strings are never each before the other. |
| Text.StringLessTransitive | frontend/my-react-app/src/pages/Recipes.jsx:39 | The default sort order is transitive. |
| Text.StringLessTotal | frontend/my-react-app/src/pages/Recipes.jsx:39 | Two different strings are always ordered one way or the other. |
| Sequences.Filter | frontend/my-react-app/src/pages/Recipes.jsx:125 | `filter` keeps exactly the accepted elements, in order (a subsequence), keeps distinct inputs distinct, and is the identity when all are accepted. |
| Sequences.FilterCount | frontend/my-react-app/src/pages/Recipes.jsx:125 | An accepted element occurs in the result as often as in the input; a rejected one not at all. |
| Sequences.FilterMultiplicity | frontend/my-react-app/src/pages/Recipes.jsx:125 | FilterCount for every element: `filter` preserves the multiplicity of what it keeps. |
| Sequences.FilterAppend | frontend/my-react-app/src/pages/Dashboard.jsx:43-49 | Filtering `s + [x]` is filtering `s`, then keeping or dropping `x`. |
| Sequences.Dedupe | frontend/my-react-app/src/pages/Recipes.jsx:39 | `[...new Set(xs)]` has the same elements as xs, each once. |
| Sequences.Insert | frontend/my-react-app/src/pages/Dashboard.jsx:111 | One insertion step adds exactly one element. |
| Sequences.SortBy | frontend/my-react-app/src/pages/Dashboard.jsx:111 | The sort is a permutation. |
| Sequences.InsertSorted | frontend/my-react-app/src/pages/Dashboard.jsx:111-122 | Under a strict order, inserting into a sorted list keeps it sorted. |
| Sequences.ConsSorted | frontend/my-react-app/src/pages/Dashboard.jsx:111-122 | A list is sorted iff its tail is sorted and nothing in the tail strictly precedes its head. |
| Sequences.InsertNonePrecedes | frontend/my-react-app/src/pages/Dashboard.jsx:111-122 | Inserting an element that does not precede y leaves y preceded by nothing. |
| Sequences.SortBySorted | frontend/my-react-app/src/pages/Dashboard.jsx:111-122 | Under a strict order the sorted list has no inversion. |
| Sequences.SortByAllEqual | frontend/my-react-app/src/pages/Dashboard.jsx:121 | A comparator that calls everything equal leaves the order unchanged (stability). |
| Sequences.InsertAfterAll | frontend/my-react-app/src/pages/Dashboard.jsx:121 | An element that precedes nothing goes to the end. |
| Sequences.InsertDistinct | backend/controllers/recipeController.js:28 | Inserting a new element into a distinct list keeps it distinct. |
| Sequences.SortByDistinct | backend/controllers/recipeController.js:28 | Sorting keeps distinct elements distinct. |
| RecipesPage.Matches | frontend/my-react-app/src/pages/Recipes.jsx:126-136 | A recipe passes iff two things hold. Either the ingredient filter is empty, or the lower-cased filter occurs in the lower-cased ingredients. Either the difficulty filter is empty, or it equals the difficulty. |
| RecipesPage.FilterRecipes | frontend/my-react-app/src/pages/Recipes.jsx:124-137 | Exactly the matching recipes, an order-preserving subsequence of all of them; with no filters, all of them. |
| RecipesPage.FilterRecipesCounts | frontend/my-react-app/src/pages/Recipes.jsx:124-137 | Each matching recipe occurs as often as in the full list; a non-matching one not at all. |
| RecipesPage.JsIndex | frontend/my-react-app/src/pages/Recipes.jsx:142 | `slice` reads an index within range as itself, clamps a large one to the length, and counts a negative one from the end. |
| RecipesPage.PageContents | frontend/my-react-app/src/pages/Recipes.jsx:140-142 | Any page number gives at most 3 recipes. Page p from 1 on is the list from (p-1)*3 to p*3, cut at the end. |
| RecipesPage.PageSlice | frontend/my-react-app/src/pages/Recipes.jsx:140-142 | Page p from 1 on is the stretch of the list from (p-1)*3 to p*3, cut at the end. |
| RecipesPage.PageMembers | frontend/my-react-app/src/pages/Recipes.jsx:142 | Every recipe on any page is in the list it was cut from. |
| RecipesPage.TotalPages | frontend/my-react-app/src/pages/Recipes.jsx:145 | `Math.ceil(n/3)`: n <= 3t < n + 3. |
| RecipesPage.PagesUpToPrefix | frontend/my-react-app/src/pages/Recipes.jsx:140-145 | Pages 1..k together are the first min(3k, n) recipes. |
| RecipesPage.PagesCover | frontend/my-react-app/src/pages/Recipes.jsx:140-145 | Pages 1..totalPages together are the filtered list. Every page up to totalPages is non-empty; every page past it is empty. |
| RecipesPage.Pieces | frontend/my-react-app/src/pages/Recipes.jsx:37 | The pieces of one recipe are exactly the trimmed comma-separated parts of its ingredients. |
| RecipesPage.AllPieces | frontend/my-react-app/src/pages/Recipes.jsx:36-38 | `flatMap` holds exactly the pieces of some recipe. |
| RecipesPage.DifficultyValues | frontend/my-react-app/src/pages/Recipes.jsx:43 | Holds exactly the recipes' difficulties. |
| RecipesPage.StringOrder | frontend/my-react-app/src/pages/Recipes.jsx:39 | The default sort order is a strict order. |
| RecipesPage.SortStrings | frontend/my-react-app/src/pages/Recipes.jsx:39 | Sorting distinct strings keeps them all, in strictly ascending order. |
| RecipesPage.ExtractIngredientsSpec | frontend/my-react-app/src/pages/Recipes.jsx:35-40 | The ingredient options are exactly the non-empty trimmed pieces of some recipe's ingredients. They come strictly ascending, so without duplicates, and each is already trimmed. |
| RecipesPage.ExtractDifficultiesSpec | frontend/my-react-app/src/pages/Recipes.jsx:42-45 | The difficulty options are exactly the non-empty difficulties present, strictly ascending. |
| RecipesPage.RemoveAll | frontend/my-react-app/src/pages/Recipes.jsx:117-121 | After removal the name reads as absent; other names read as before. |
| RecipesPage.SetParam | frontend/my-react-app/src/pages/Recipes.jsx:117-121 | `URLSearchParams.set`: the name reads back as the value; every other name reads as before. |
| RecipesPage.Digit | frontend/my-react-app/src/pages/Recipes.jsx:120 | A decimal digit character encoding its value. |
| RecipesPage.DecimalString | frontend/my-react-app/src/pages/Recipes.jsx:120 | `toString()` of a page: non-empty decimal digits, no leading zero for positive numbers. |
| RecipesPage.DecimalRoundTrip | frontend/my-react-app/src/pages/Recipes.jsx:14 | `parseInt` of `toString()` gives the number back. |
| RecipesPage.SearchParamsContents | frontend/my-react-app/src/pages/Recipes.jsx:116-122 | A filter appears only when it is non-empty, with its value. The page appears only when it exceeds 1, as its digits. No other name appears. |
| RecipesPage.SearchParamsRoundTrip | frontend/my-react-app/src/pages/Recipes.jsx:14-21 | Reading the written query string the way the page initialises itself restores both filters and every page from 1 on. |
| RecipesPage.RecipesView.constructor | frontend/my-react-app/src/pages/Recipes.jsx:14-25 | Filters come from the query string (`get(key) \|\| ''`); the lists start empty. |
| RecipesPage.RecipesView.LoadRecipes | frontend/my-react-app/src/pages/Recipes.jsx:28-110 | Loaded data replaces the list. The option lists are recomputed only when the data is non-empty. On failure the error is set and the sample recipes, with their option lists, are shown. |
| RecipesPage.RecipesView.HandlePageChange | frontend/my-react-app/src/pages/Recipes.jsx:148-151 | Sets the page. |
| RecipesPage.RecipesView.HandleFilterChange | frontend/my-react-app/src/pages/Recipes.jsx:154-157 | Only the named filter changes; the page resets to 1. |
| RecipesPage.RecipesView.ClearFilters | frontend/my-react-app/src/pages/Recipes.jsx:160-163 | Both filters empty, page 1. |
| RecipesPage.RecipesView.BuildSearchParams | frontend/my-react-app/src/pages/Recipes.jsx:116-122 | The step-by-step `params.set` calls build SearchParams. `page` is present iff the page exceeds 1, and each filter key iff that filter is non-empty. |
| RecipesPage.RecipesView.CurrentPageRecipes | frontend/my-react-app/src/pages/Recipes.jsx:140-142 | At most 3 recipes, all matching the filters. From page 1 on they are the page's stretch of the filtered list. |
| RecipeSlider.NextIndex | frontend/my-react-app/src/components/RecipeSlider.jsx:78 | `(i+1) % n` stays in [0, n) and wraps from the last index to 0. |
| RecipeSlider.PrevIndex | frontend/my-react-app/src/components/RecipeSlider.jsx:84 | `(i-1+n) % n` stays in [0, n) and wraps from 0 to the last index. |
| RecipeSlider.NextPrevInverse | frontend/my-react-app/src/components/RecipeSlider.jsx:76-85 | prev undoes next and next undoes prev. |
| RecipeSlider.WindowShift | frontend/my-react-app/src/components/RecipeSlider.jsx:102-107 | After one step on, the window's first two items are the old second and third. |
| RecipeSlider.WindowDistinct | frontend/my-react-app/src/components/RecipeSlider.jsx:102-107 | Over more than 3 distinct recipes, the window shows 3 different ones. |
| RecipeSlider.WindowIndex | frontend/my-react-app/src/components/RecipeSlider.jsx:104 | `(i+k) % n` wraps past the end at most once. |
| RecipeSlider.Slider.LoadRecipes | frontend/my-react-app/src/components/RecipeSlider.jsx:14-72 | The fetched recipes, or the sample recipes when the request fails. |
| RecipeSlider.Slider.NextSlide | frontend/my-react-app/src/components/RecipeSlider.jsx:76-79 | With 3 or fewer recipes the index is unchanged; otherwise it becomes NextIndex. |
| RecipeSlider.Slider.PrevSlide | frontend/my-react-app/src/components/RecipeSlider.jsx:82-85 | With 3 or fewer recipes the index is unchanged; otherwise it becomes PrevIndex. |
| RecipeSlider.Slider.GetVisibleRecipes | frontend/my-react-app/src/components/RecipeSlider.jsx:99-108 | With 3 or fewer recipes, the whole list. Otherwise exactly 3 items, item k being `recipes[(currentIndex+k) % n]`. |
| RecipeSlider.NextThenPrevScenario | frontend/my-react-app/src/components/RecipeSlider.jsx:76-108 | Next then prev shows the same window again. |
| Dashboard.Toggle | frontend/my-react-app/src/pages/Dashboard.jsx:42-50 | The id becomes selected iff it was not; other ids keep their membership; a distinct selection stays distinct. |
| Dashboard.ToggleTwice | frontend/my-react-app/src/pages/Dashboard.jsx:43-49 | Toggling twice restores the membership. For an unselected id it restores the very list. |
| Dashboard.RecipeIds | frontend/my-react-app/src/pages/Dashboard.jsx:57 | The ids of the listed recipes, position by position. |
| Dashboard.SelectAll | frontend/my-react-app/src/pages/Dashboard.jsx:53-59 | A selection as long as the list is cleared. Otherwise every listed id is selected. Only the lengths decide. |
| Dashboard.SelectAllTwice | frontend/my-react-app/src/pages/Dashboard.jsx:53-59 | Pressing select-all twice over a non-empty list selects all when all were selected, and none otherwise. |
| Dashboard.SearchHit | frontend/my-react-app/src/pages/Dashboard.jsx:105-108 | True iff the lower-cased term occurs in the lower-cased name or ingredients. |
| Dashboard.Search | frontend/my-react-app/src/pages/Dashboard.jsx:105-108 | Exactly the hits, as an order-preserving subsequence. |
| Dashboard.SearchCounts | frontend/my-react-app/src/pages/Dashboard.jsx:105-108 | Each hit occurs as often as in the list; a miss not at all. |
| Dashboard.SearchEmpty | frontend/my-react-app/src/pages/Dashboard.jsx:105-108 | An empty term keeps every recipe. |
| Dashboard.SortRecipes | frontend/my-react-app/src/pages/Dashboard.jsx:111 | The sorted copy is a permutation of the searched list. |
| Dashboard.SortLessStrict | frontend/my-react-app/src/pages/Dashboard.jsx:111-122 | Each comparator the page uses is a strict order whenever the name order is. |
| Dashboard.SortRecipesOrder | frontend/my-react-app/src/pages/Dashboard.jsx:111-122 | 'newest' orders by createdAt descending and 'oldest' ascending. 'name-asc' and 'name-desc' order by name. Any other key keeps the searched order. |
| Dashboard.RemoveRecipe | frontend/my-react-app/src/pages/Dashboard.jsx:79 | Drops exactly the recipes with that id and keeps the rest in order. |
| Dashboard.RemoveRecipeCounts | frontend/my-react-app/src/pages/Dashboard.jsx:79 | Every recipe with another id occurs as often as before; none with that id remains. |
| Dashboard.RemoveRecipes | frontend/my-react-app/src/pages/Dashboard.jsx:83 | Drops exactly the recipes whose id is selected and keeps the rest in order. |
| Dashboard.RemoveRecipesCounts | frontend/my-react-app/src/pages/Dashboard.jsx:83 | Every unselected recipe occurs as often as before; no selected one remains. |
| Dashboard.DeleteSelected | frontend/my-react-app/src/pages/Dashboard.jsx:82-84 | A delete is issued for every selected id. The store loses exactly the caller's selected recipes, and the run succeeds iff every id is the caller's and distinct. The clock and the next identifier are unchanged. |
| Dashboard.DeletableStep | frontend/my-react-app/src/pages/Dashboard.jsx:82 | One more delete in a run removes the next id exactly when it is the caller's and not yet removed. The run succeeds iff every id is the caller's and distinct. |
| Dashboard.DashboardView.LoadRecipes | frontend/my-react-app/src/pages/Dashboard.jsx:20-39 | Without a session, go to login. With one, the login redirect is untouched; a failed request sets the load error and keeps the list; otherwise the list is exactly the caller's stored recipes, with distinct ids, newest first, and the error is unchanged. |
| Dashboard.DashboardView.HandleRecipeSelect | frontend/my-react-app/src/pages/Dashboard.jsx:42-50 | The selection becomes Toggle of the old one. |
| Dashboard.DashboardView.HandleSelectAll | frontend/my-react-app/src/pages/Dashboard.jsx:53-59 | The selection becomes SelectAll of the old one. |
| Dashboard.DashboardView.HandleSearchChange | frontend/my-react-app/src/pages/Dashboard.jsx:165 | Sets the search term. |
| Dashboard.DashboardView.HandleSortChange | frontend/my-react-app/src/pages/Dashboard.jsx:174 | Sets the sort key. |
| Dashboard.DashboardView.OpenDeleteModal | frontend/my-react-app/src/pages/Dashboard.jsx:62-65 | The dialog opens with the target (None for bulk). |
| Dashboard.DashboardView.CloseDeleteModal | frontend/my-react-app/src/pages/Dashboard.jsx:68-71 | The dialog closes and the target is cleared. |
| Dashboard.DashboardView.SortedRecipes | frontend/my-react-app/src/pages/Dashboard.jsx:105-122 | The shown list is the sorted search result, a permutation of it. With an empty term it is a permutation of all the recipes. |
| Dashboard.DashboardView.HandleDeleteRecipe | frontend/my-react-app/src/pages/Dashboard.jsx:74-92 | Single delete: the store removes the target only when the caller owns it. Only then does the list drop it; otherwise the error is set. Bulk delete: the store loses exactly the caller's selected recipes. Only if every delete succeeded does the list drop them all and the selection empty; otherwise the error is set and the list kept. The dialog closes either way. The search term, sort order and login redirect, and the store's clock and next identifier, are unchanged. |
| Dashboard.DashboardView.DeleteTarget | frontend/my-react-app/src/pages/Dashboard.jsx:76-79 | The single delete: when the caller owns the target, the store and the list both lose it and the error is untouched; otherwise the store and list are kept and the error is set. |
| Dashboard.DashboardView.DeleteAll | frontend/my-react-app/src/pages/Dashboard.jsx:80-85 | The bulk delete: the store loses exactly the caller's selected recipes; if every delete succeeded the list drops the selected ids and the selection empties, otherwise the list and selection are kept and the error is set. |
| Profile.FormError | frontend/my-react-app/src/pages/Profile.jsx:33-41 | No form error iff new and confirm agree and the new password has at least 6 characters. |
| Profile.MismatchFirst | frontend/my-react-app/src/pages/Profile.jsx:33-41 | The mismatch error wins over the length error. |
| Profile.FormPassesNonEmpty | frontend/my-react-app/src/pages/Profile.jsx:38-41 | A new password that passes the form is not empty. |
| Profile.ServerError | frontend/my-react-app/src/pages/Profile.jsx:53 | The server's message, never empty, so the fallback text never shows. |
| Profile.PasswordForm.EnterPasswords | frontend/my-react-app/src/pages/Profile.jsx:129-157 | Sets the three fields. |
| Profile.PasswordForm.HandlePasswordChange | frontend/my-react-app/src/pages/Profile.jsx:25-56 | Both messages are cleared first. A form error is shown with no server call and no other change. Past the form, a refusal from the server (empty current password, unknown user, wrong current password, in that order) shows the server's message; the fields and the hashes are kept. Success shows the message, empties all three fields, and the new hash verifies the new password. |
| EditRecipe.MayEdit | frontend/my-react-app/src/pages/EditRecipe.jsx:38-42 | Editing is allowed iff the recipe has no owner or the owner is the current user. |
| EditRecipe.FormFrom | frontend/my-react-app/src/pages/EditRecipe.jsx:47-51 | Missing text fields give ''; a missing or empty difficulty gives 'Easy'. |
| EditRecipe.Payload | frontend/my-react-app/src/pages/EditRecipe.jsx:78-84 | Exactly the keys name, ingredients, instructions, difficulty and image; the image comes from imageUrl; no owner. |
| EditRecipe.SaveUnchanged | frontend/my-react-app/src/pages/EditRecipe.jsx:47-84 | Loading a well-formed recipe and saving it untouched changes only an absent image (stored as ''). The owner is kept. |
| EditRecipe.EditForm.constructor | frontend/my-react-app/src/pages/EditRecipe.jsx:19-23 | Empty fields, difficulty 'Easy'. |
| EditRecipe.EditForm.FetchRecipe | frontend/my-react-app/src/pages/EditRecipe.jsx:27-59 | No session goes to login. A failed fetch sets the load error. Another owner's recipe sets the permission error and keeps the form. Otherwise the form is filled with the defaults. With a session the login redirect is untouched. |
| EditRecipe.EditForm.EditFields | frontend/my-react-app/src/pages/EditRecipe.jsx:160-218 | Sets the form's fields. |
| EditRecipe.EditForm.HandleSubmit | frontend/my-react-app/src/pages/EditRecipe.jsx:65-100 | Without a session nothing is sent. An absent recipe or another owner's changes nothing and shows the generic error. The owner's submit replaces the recipe with the payload applied, keeps the owner, and succeeds. |
| EditRecipe.OrphanScenario | frontend/my-react-app/src/pages/EditRecipe.jsx:38-42 | A non-owner passes the page's gate for a recipe whose owner is gone, but the store leaves the recipe unchanged. |

## Left out

- Loading and saving flags, navigation after success, `window.scrollTo`, the
  auto-slide `setInterval` and the redirect `setTimeout` are timers or
  rendering, not state the logic depends on.
- The sample recipes shown when a fetch fails are a parameter (`fallback`),
  not their literal contents.
- `parseInt` is modelled only on non-empty digit strings. The page number the
  browsing page starts with is a parameter, so NaN, signs and trailing junk in
  the URL are not modelled.
- The `populate('user', 'username')` join is not modelled. The edit page
  receives the owner as an optional identifier; `Fetched` builds it from a
  stored recipe.
- A stored document's `_id` is not converted to a string: identifiers are
  naturals.
- RecipeController.RecipeStore.AddRecipe always files the new recipe under the
  store's next identifier. The body of `addRecipe` is spread into
  `new Recipe(...)`, so Mongoose would honour an `_id` the client sends
  (backend/controllers/recipeController.js:8-14); a client-chosen identifier,
  and the duplicate-key failure it can cause, are not modelled.
- The order of recipes with equal createdAt in the database's sort is
  unspecified. The model breaks such ties by identifier order, through a stable
  sort.
- Every 500 response is left out: a failing database, and failing bcrypt or
  jsonwebtoken. On the pages, network failures are modelled only as a fetch
  returning None or as the `failed` flag.
- The recipe handlers' `error` texts are not modelled. The pages never read
  them: they read `message` and fall back to their own text.
- The authentication middleware (token check) and the route tables are not
  modelled: the caller is a parameter. The User model
  (backend/models/User.js) is not part of this model, so any normalisation it
  does to emails or usernames is absent. The user's createdAt is the `now`
  parameter of Register.
- bcrypt and jsonwebtoken are parameters of the credential store: opaque hash,
  verify and sign functions. The model assumes only that a password verifies
  against its hash; salts are inputs.
- Registration is sequential, so the check-then-insert race between two
  concurrent registrations is not modelled.
- Dashboard.DashboardView.HandleDeleteRecipe issues the bulk deletes one after
  another instead of concurrently through `Promise.all`. Every delete is still
  issued after a failure, and the outcome is the same.
- Dashboard.SortLess stands for `localeCompare` with an abstract name order
  `nameLess`. The sort's ordering is proved under the assumption that this
  order is strict. `new Date(...)` differences are plain integer differences.
- Text.Lower folds only ASCII letters. JavaScript's full Unicode case mapping
  is not modelled.
- Text.StringLess compares code points. JavaScript compares UTF-16 code
  units, which agrees for characters of the Basic Multilingual Plane.
- Profile.FormError counts characters, while JavaScript's `length` counts
  UTF-16 code units. The two agree outside the astral planes.
- The pages' rendering, the other view components and api.js's logging are not
  modelled.
