/** The exception kinds that cross the request pipeline and the Flask boundary. */
module Exceptions {
  import opened Wrappers
  import opened JsonValues

  /** One entry of a pydantic location tuple: a field name or a list index. */
  datatype LocItem = Field(name: string) | Index(i: int)

  /** One entry of `ValidationError.errors()`, reduced to the two parts the
      source reads: the error type and the first item of its location. */
  datatype ErrorRecord = ErrorRecord(kind: string, loc0: LocItem)

  datatype Exception =
    | ValidationError(errors: seq<ErrorRecord>)
      /** `CustomException(HTTPException)`, code 400, no class-level description. */
    | CustomException(given: Option<string>)
      /** `MLModelException(HTTPException)`, code 500, with a class-level description. */
    | MLModelException(given: Option<string>)
      /** Any other exception, identified only by its class name. */
    | OtherException(name: string)

  const MLModelDefaultDescription: string := "There was a error in ML model"

  /** The text `f"{exc.description}"` yields for the two HTTP exception kinds.
      An HTTPException keeps a description passed to its constructor and otherwise
      falls back to its class attribute; CustomException inherits `None`, which
      the f-string renders as "None". */
  function Description(exc: Exception): (d: string)
    requires exc.CustomException? || exc.MLModelException?
    ensures exc.given.Some? ==> d == exc.given.value
    ensures exc.CustomException? && exc.given.None? ==> d == "None"
    ensures exc.MLModelException? && exc.given.None? ==> d == MLModelDefaultDescription
  {
    match exc.given
    case Some(text) => text
    case None => if exc.CustomException? then "None" else MLModelDefaultDescription
  }
}
