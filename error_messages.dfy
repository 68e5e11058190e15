/** The error classifier of src/App.tsx: `getErrorMsg`, its `isServerError`
    guard, and `errMsg`, the text App shows for the match lookup's error. */
module ErrorMessages {
  import opened Js

  /** The `status` of a fetch-layer error: an HTTP status code, or one of the
      tags the fetch layer uses for its own failures ("FETCH_ERROR", ...). */
  datatype Status = Code(code: int) | Tag(tag: string)

  /** The two error shapes a lookup can surface. */
  datatype QueryError =
      /** An error of the fetch layer: it always has a `status`; `data` is the
          response body (Undefined when absent); `error` is present on the
          transport-level failures. */
    | FetchBaseQueryError(status: Status, data: Value, error: Option<string>)
      /** A serialized exception: it never has a `status`. */
    | SerializedError(name: Option<string>, message: Option<string>,
                      stack: Option<string>, code: Option<string>)

  /** The text returned when nothing better is known. */
  const DefaultMessage: string := "An error occurred"

  /** `isServerError`: the value is truthy and its `message` property is a string. */
  predicate IsServerError(v: Value) {
    Truthy(v) && Property(v, "message").Str?
  }

  /** The guard holds exactly for an object whose `message` is a string: a
      truthy primitive (a non-empty string, a non-zero number, true) never
      passes, and an empty `message` string still does. */
  lemma IsServerErrorShape(v: Value)
    ensures IsServerError(v) <==> v.Object? && "message" in v.props && v.props["message"].Str?
  {
  }

  /** `getErrorMsg(error)`, with `JSON.stringify` as the parameter `stringify`. */
  function GetErrorMsg(error: QueryError, stringify: QueryError -> string): (r: string)
    // a transport failure: its `error` text
    ensures error.FetchBaseQueryError? && error.error.Some? ==> r == error.error.value
    // a server payload whose `message` is a string, empty or not
    ensures error.FetchBaseQueryError? && error.error.None? && error.data.Object?
            && "message" in error.data.props && error.data.props["message"].Str?
            ==> r == error.data.props["message"].s
    // any other fetch-layer error: its serialisation
    ensures error.FetchBaseQueryError? && error.error.None? && !IsServerError(error.data)
            ==> r == stringify(error)
    // a serialized error with a non-empty message: the message
    ensures error.SerializedError? && error.message.Some? && error.message.value != ""
            ==> r == error.message.value
    // a serialized error without a message, or with an empty one: the default
    ensures error.SerializedError? && (error.message.None? || error.message.value == "")
            ==> r == DefaultMessage
  {
    match error
    case FetchBaseQueryError(_, data, err) =>
      if err.Some? then err.value
      else if IsServerError(data) then Property(data, "message").s
      else stringify(error)
    case SerializedError(_, message, _, _) =>
      if message.Some? && message.value != "" then message.value
      else DefaultMessage
  }

  /** The default text is never produced for a fetch-layer error: its message
      always comes from the error itself or from its serialisation. */
  lemma FetchErrorMessageComesFromError(error: QueryError, stringify: QueryError -> string)
    requires error.FetchBaseQueryError?
    ensures var r := GetErrorMsg(error, stringify);
            (error.error.Some? && r == error.error.value)
            || (error.data.Object? && "message" in error.data.props
                && error.data.props["message"] == Str(r))
            || r == stringify(error)
  {
    IsServerErrorShape(error.data);
  }

  /** The two empty-message cases differ: an empty server `message` is returned
      as it is, an empty serialized `message` gives the default text. */
  lemma EmptyMessagesDiffer(status: Status, props: map<string, Value>,
                            stringify: QueryError -> string)
    ensures GetErrorMsg(FetchBaseQueryError(status, Object(props["message" := Str("")]), None),
                        stringify) == ""
    ensures GetErrorMsg(SerializedError(None, Some(""), None, None), stringify) == DefaultMessage
  {
  }

  /** A truthy primitive body is not a server payload: such an error is
      serialised rather than read as a message. */
  lemma PrimitiveBodyIsSerialised(status: Status, body: string, stringify: QueryError -> string)
    ensures GetErrorMsg(FetchBaseQueryError(status, Str(body), None), stringify)
            == stringify(FetchBaseQueryError(status, Str(body), None))
  {
  }

  /** `errMsg`: the message of the match lookup's error, or null when there is
      no error object; every error object is truthy. */
  function ErrMsg(error: Option<QueryError>, stringify: QueryError -> string): (m: Option<string>)
    ensures m.None? <==> error.None?
    ensures error.Some? ==> m == Some(GetErrorMsg(error.value, stringify))
  {
    match error
    case None => None
    case Some(e) => Some(GetErrorMsg(e, stringify))
  }
}
