/**
 * The value and fallback rules shared by the two error panels: JavaScript's
 * `||` replaces a falsy message (missing or "") or a falsy status code
 * (missing or 0) by a default.
 */
module ErrorFallbacks {
  import opened Wrappers

  /** The `error` prop, `{ message: string; statusCode: number }`; either field may be missing at run time. */
  datatype ErrorProp = ErrorProp(message: Option<string>, statusCode: Option<int>)

  /** The message and code a panel displays. */
  datatype Shown = Shown(message: string, statusCode: int)

  const DefaultStatusCode := 500

  /** `message || fallback`: a present, non-empty message wins; otherwise the fallback. */
  function OrMessage(message: Option<string>, fallback: string): (r: string)
    ensures message.Some? && message.value != "" ==> r == message.value
    ensures message.None? || message.value == "" ==> r == fallback
    ensures fallback != "" ==> r != ""
  {
    match message
    case Some(m) => if m != "" then m else fallback
    case None => fallback
  }

  /** `statusCode || fallback`: a present, non-zero code wins; otherwise the fallback. */
  function OrStatus(statusCode: Option<int>, fallback: int): (r: int)
    ensures statusCode.Some? && statusCode.value != 0 ==> r == statusCode.value
    ensures statusCode.None? || statusCode.value == 0 ==> r == fallback
    ensures fallback != 0 ==> r != 0
  {
    match statusCode
    case Some(c) => if c != 0 then c else fallback
    case None => fallback
  }

  /** `error?.message` */
  function MessageOf(error: Option<ErrorProp>): Option<string> {
    if error.Some? then error.value.message else None
  }

  /** `error?.statusCode` */
  function StatusOf(error: Option<ErrorProp>): Option<int> {
    if error.Some? then error.value.statusCode else None
  }

  /** The error carries a message `||` keeps. */
  predicate HasMessage(error: Option<ErrorProp>) {
    error.Some? && error.value.message.Some? && error.value.message.value != ""
  }

  /** The error carries a status code `||` keeps. */
  predicate HasStatus(error: Option<ErrorProp>) {
    error.Some? && error.value.statusCode.Some? && error.value.statusCode.value != 0
  }

  /** Shows a pair as the prop it would come from. */
  function AsProp(shown: Shown): Option<ErrorProp> {
    Some(ErrorProp(Some(shown.message), Some(shown.statusCode)))
  }
}

/** The error panel of the list page, src/pages/components/Error.tsx. */
module HomeError {
  import opened Wrappers
  import opened ErrorFallbacks

  const HomeDefaultMessage := "Unknown error occurred"

  /** The default parameter: an omitted `error` becomes `{ message: HomeDefaultMessage, statusCode: 500 }`. */
  function HomeErrorArgument(error: Option<ErrorProp>): (e: ErrorProp)
    ensures error.Some? ==> e == error.value
    ensures error.None? ==> e.message == Some(HomeDefaultMessage) && e.statusCode == Some(DefaultStatusCode)
  {
    match error
    case Some(e) => e
    case None => ErrorProp(Some(HomeDefaultMessage), Some(DefaultStatusCode))
  }

  /**
   * What the panel shows: a non-empty message and a non-zero code unchanged,
   * "Unknown error occurred" and 500 in their place otherwise.
   */
  function HomeErrorShown(error: Option<ErrorProp>): (r: Shown)
    ensures r.message != "" && r.statusCode != 0
    ensures HasMessage(error) ==> r.message == error.value.message.value
    ensures !HasMessage(error) ==> r.message == HomeDefaultMessage
    ensures HasStatus(error) ==> r.statusCode == error.value.statusCode.value
    ensures !HasStatus(error) ==> r.statusCode == DefaultStatusCode
  {
    var e := Some(HomeErrorArgument(error));
    Shown(OrMessage(MessageOf(e), HomeDefaultMessage), OrStatus(StatusOf(e), DefaultStatusCode))
  }

  /** The default parameter changes nothing the `||` fallbacks would not already give. */
  lemma HomeDefaultArgumentRedundant(error: Option<ErrorProp>)
    ensures HomeErrorShown(error) ==
            Shown(OrMessage(MessageOf(error), HomeDefaultMessage), OrStatus(StatusOf(error), DefaultStatusCode))
  {
  }

  /** A shown pair fed back as the prop is shown unchanged. */
  lemma HomeErrorShownIdempotent(error: Option<ErrorProp>)
    ensures HomeErrorShown(AsProp(HomeErrorShown(error))) == HomeErrorShown(error)
  {
  }
}

/** The error panel of the detail page, src/pages/pokemon/components/Error.tsx. */
module PokemonError {
  import opened Wrappers
  import opened ErrorFallbacks
  import HomeError

  const PokemonDefaultMessage := "Ha ocurrido un error inesperado"

  /**
   * What the panel shows: a non-empty message and a non-zero code unchanged;
   * a missing error, message or code, an empty message or a zero code fall
   * back to "Ha ocurrido un error inesperado" and 500.
   */
  function PokemonErrorShown(error: Option<ErrorProp>): (r: Shown)
    ensures r.message != "" && r.statusCode != 0
    ensures HasMessage(error) ==> r.message == error.value.message.value
    ensures !HasMessage(error) ==> r.message == PokemonDefaultMessage
    ensures HasStatus(error) ==> r.statusCode == error.value.statusCode.value
    ensures !HasStatus(error) ==> r.statusCode == DefaultStatusCode
  {
    Shown(OrMessage(MessageOf(error), PokemonDefaultMessage), OrStatus(StatusOf(error), DefaultStatusCode))
  }

  /** An omitted error shows the defaults. */
  lemma PokemonErrorMissing()
    ensures PokemonErrorShown(None) == Shown(PokemonDefaultMessage, DefaultStatusCode)
  {
  }

  /** A shown pair fed back as the prop is shown unchanged. */
  lemma PokemonErrorShownIdempotent(error: Option<ErrorProp>)
    ensures PokemonErrorShown(AsProp(PokemonErrorShown(error))) == PokemonErrorShown(error)
  {
  }

  /** The two panels agree on the code always, and on the message whenever the error carries one. */
  lemma PanelsAgree(error: Option<ErrorProp>)
    ensures PokemonErrorShown(error).statusCode == HomeError.HomeErrorShown(error).statusCode
    ensures (PokemonErrorShown(error).message == HomeError.HomeErrorShown(error).message) <==> HasMessage(error)
  {
  }
}
