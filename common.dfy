/** Optional values and results with an error, for the JavaScript code's
    absent keys, null results and error responses. */
module Wrappers {

  datatype Option<T> = None | Some(value: T)

  datatype Result<T, E> = Ok(value: T) | Err(error: E)
}

/** Document identifiers. MongoDB's ObjectIds are opaque; the model only
    compares them, so naturals stand for them. */
module Ids {

  type UserId = nat

  type RecipeId = nat
}
