/** What App (src/App.tsx) shows under the input: the loading text, the match
    lookup's error message, or the detail of the confirmed entity, in that
    order of priority. The lookups themselves are opaque: this module only
    reads their flags and results. */
module AppPanel {
  import opened Js
  import ErrorMessages

  /** The detail record, as far as the panel reads it: the name and
      `sprites.front_default`. */
  datatype Entity = Entity(name: string, frontDefault: string)

  /** The panel: "...loading", a paragraph with the error message (null when
      the lookup supplied no error object), or the detail view with the
      entity's name and, when its sprite URL is non-empty, the sprite. */
  datatype Panel =
    | Loading
    | ErrorText(message: Option<string>)
    | Detail(name: Option<string>, sprite: Option<string>)

  /** The loading text while `isLoading`; otherwise, while `isError`, the
      paragraph with the message of the match lookup's `error`; otherwise the
      detail view. */
  function ShowPanel(isLoading: bool, isError: bool, error: Option<ErrorMessages.QueryError>,
                     entity: Option<Entity>, stringify: ErrorMessages.QueryError -> string): (p: Panel)
    ensures isLoading <==> p == Loading
    ensures p.ErrorText? <==> !isLoading && isError
    ensures p.ErrorText? ==> (p.message.None? <==> error.None?)
    ensures p.ErrorText? && error.Some? ==> p.message == Some(ErrorMessages.GetErrorMsg(error.value, stringify))
    ensures p.Detail? <==> !isLoading && !isError
    ensures p.Detail? ==> (p.name.Some? <==> entity.Some?)
    ensures p.Detail? && entity.Some? ==> p.name == Some(entity.value.name)
    ensures p.Detail? ==> (p.sprite.Some? <==> entity.Some? && entity.value.frontDefault != "")
    ensures p.Detail? && p.sprite.Some? ==> p.sprite.value == entity.value.frontDefault
  {
    var errMsg := ErrorMessages.ErrMsg(error, stringify);
    if isLoading then Loading
    else if isError then ErrorText(errMsg)
    else match entity
      case None => Detail(None, None)
      case Some(e) => Detail(Some(e.name), if e.frontDefault != "" then Some(e.frontDefault) else None)
  }

  /** The detail view does not depend on the match lookup's error at all: an
      error object left over from an earlier lookup is not shown once
      `isError` is false. */
  lemma DetailIgnoresError(entity: Option<Entity>, e1: Option<ErrorMessages.QueryError>,
                           e2: Option<ErrorMessages.QueryError>,
                           stringify: ErrorMessages.QueryError -> string)
    ensures ShowPanel(false, false, e1, entity, stringify) == ShowPanel(false, false, e2, entity, stringify)
  {
  }
}
