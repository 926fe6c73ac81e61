/** The recipe document of backend/models/Recipe.js: which keys a request
    may carry, how a new document is cast, defaulted and validated, and what a
    stored recipe looks like. */
module RecipeSchema {
  import opened Wrappers
  import opened Ids
  import Text

  /** The values the `difficulty` enum admits. */
  const Difficulties: set<string> := {"Easy", "Medium", "Hard"}

  /** The value `difficulty` takes when a new document has none. */
  const DefaultDifficulty: string := "Easy"

  /** A request body (or a document before validation): every key may be absent.
      Keys outside the schema are dropped by the schema's strict mode and do not
      appear. */
  datatype RecipeBody = RecipeBody(
    name: Option<string>,
    ingredients: Option<string>,
    instructions: Option<string>,
    difficulty: Option<string>,
    image: Option<string>,
    user: Option<UserId>,
    createdAt: Option<int>)

  /** A stored recipe. `difficulty` is a plain string because updates bypass the
      enum validator; `image` has no default and may stay absent. */
  datatype Recipe = Recipe(
    id: RecipeId,
    name: string,
    ingredients: string,
    instructions: string,
    difficulty: string,
    image: Option<string>,
    user: UserId,
    createdAt: int)

  /** The paths whose validators can fail. */
  datatype Field = Name | Ingredients | Instructions | Difficulty | User

  /** The keys a body carries. */
  function Keys(b: RecipeBody): set<string> {
    (if b.name.Some? then {"name"} else {})
    + (if b.ingredients.Some? then {"ingredients"} else {})
    + (if b.instructions.Some? then {"instructions"} else {})
    + (if b.difficulty.Some? then {"difficulty"} else {})
    + (if b.image.Some? then {"image"} else {})
    + (if b.user.Some? then {"user"} else {})
    + (if b.createdAt.Some? then {"createdAt"} else {})
  }

  /** Casting the `name` path runs its `trim` setter. */
  function CastName(v: Option<string>): Option<string> {
    if v.Some? then Some(Text.Trim(v.value)) else None
  }

  /** The `required` validator of a String path: an absent or empty value fails. */
  predicate HasText(v: Option<string>) {
    v.Some? && v.value != ""
  }

  /** The paths whose validators reject the cast and defaulted document. An
      absent difficulty takes the default, which the enum admits. */
  function Failures(b: RecipeBody): set<Field> {
    (if HasText(CastName(b.name)) then {} else {Name})
    + (if HasText(b.ingredients) then {} else {Ingredients})
    + (if HasText(b.instructions) then {} else {Instructions})
    + (if b.difficulty.None? || b.difficulty.value in Difficulties then {} else {Difficulty})
    + (if b.user.Some? then {} else {User})
  }

  /** `new Recipe(doc)` followed by validation on save, giving the document the
      identifier `id`; `now` is the time `Date.now` would give. Validation
      reports every failing path at once. */
  function Create(b: RecipeBody, id: RecipeId, now: int): (r: Result<Recipe, set<Field>>)
    ensures r.Ok? <==>
      && b.name.Some? && Text.Trim(b.name.value) != ""
      && b.ingredients.Some? && b.ingredients.value != ""
      && b.instructions.Some? && b.instructions.value != ""
      && (b.difficulty.None? || b.difficulty.value in {"Easy", "Medium", "Hard"})
      && b.user.Some?
    ensures r.Err? ==>
      && r.error != {}
      && (Name in r.error <==> b.name.None? || Text.Trim(b.name.value) == "")
      && (Ingredients in r.error <==> b.ingredients.None? || b.ingredients.value == "")
      && (Instructions in r.error <==> b.instructions.None? || b.instructions.value == "")
      && (Difficulty in r.error <==> b.difficulty.Some? && b.difficulty.value !in {"Easy", "Medium", "Hard"})
      && (User in r.error <==> b.user.None?)
    ensures r.Ok? ==>
      && r.value.id == id
      && r.value.name == Text.Trim(b.name.value)
      && r.value.ingredients == b.ingredients.value
      && r.value.instructions == b.instructions.value
      && r.value.difficulty == (if b.difficulty.Some? then b.difficulty.value else "Easy")
      && r.value.image == b.image
      && r.value.user == b.user.value
      && r.value.createdAt == (if b.createdAt.Some? then b.createdAt.value else now)
  {
    var failures := Failures(b);
    if failures != {} then Err(failures)
    else
      Ok(Recipe(
        id,
        CastName(b.name).value,
        b.ingredients.value,
        b.instructions.value,
        if b.difficulty.Some? then b.difficulty.value else DefaultDifficulty,
        b.image,
        b.user.value,
        if b.createdAt.Some? then b.createdAt.value else now))
  }

  /** What the schema guarantees of a document it accepted. */
  ghost predicate WellFormed(rec: Recipe) {
    && rec.name != "" && Text.Trim(rec.name) == rec.name
    && rec.ingredients != "" && rec.instructions != ""
    && rec.difficulty in Difficulties
  }

  /** Every document the schema accepts is well formed: its name is trimmed
      and non-empty and its difficulty is one of the three levels. */
  lemma CreateWellFormed(b: RecipeBody, id: RecipeId, now: int)
    requires Create(b, id, now).Ok?
    ensures WellFormed(Create(b, id, now).value)
  {
    Text.TrimIdempotent(b.name.value);
  }

  /** The body that carries every field of a stored recipe. */
  function ToBody(rec: Recipe): RecipeBody {
    RecipeBody(Some(rec.name), Some(rec.ingredients), Some(rec.instructions),
      Some(rec.difficulty), rec.image, Some(rec.user), Some(rec.createdAt))
  }

  /** Validating a well-formed recipe again gives it back unchanged: casting
      and defaults are idempotent on accepted documents. */
  lemma CreateToBody(rec: Recipe, now: int)
    requires WellFormed(rec)
    ensures Create(ToBody(rec), rec.id, now) == Ok(rec)
  {
  }
}
