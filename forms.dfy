/**
 * The pieces of Angular's reactive forms that both edit components rely on.
 *
 * A control's ValidationErrors object is modelled by its set of keys; the
 * empty set is Angular's null, meaning "valid". A control value is the text
 * the user typed, and an unset control holds the empty string.
 */
module Forms {
  import opened Wrappers

  type Errors = set<string>

  /** Validators.required: a control holding the empty string fails with "required". */
  function Required(value: string): Errors {
    if value == "" then {"required"} else {}
  }

  /**
   * Validators.pattern: an empty value passes (required is the validator
   * that rejects it); any other value fails with "pattern" unless it matches.
   */
  function Pattern(value: string, matches: bool): Errors {
    if value == "" || matches then {} else {"pattern"}
  }

  /**
   * The answer of a duplicate-check request mapped as `result ? { key: true } : null`.
   */
  function DupeErrors(answer: bool, key: string): (e: Errors)
    ensures e == {} <==> !answer
    ensures answer ==> key in e && |e| == 1
  {
    if answer then {key} else {}
  }

  /**
   * Angular runs a control's asynchronous validator only once its synchronous
   * validators pass, so the errors a control ends up with are either its
   * synchronous ones or the mapped answer of the request.
   */
  function Settled(sync: Errors, answer: bool, key: string): Errors {
    if sync != {} then sync else DupeErrors(answer, key)
  }

  lemma SettledValid(sync: Errors, answer: bool, key: string)
    ensures Settled(sync, answer, key) == {} <==> sync == {} && !answer
    ensures sync == {} && answer ==> Settled(sync, answer, key) == {key}
  {
  }

  /**
   * `this.id = idParam ? +idParam : 0`: an absent or empty route parameter
   * gives 0 (create), a present one its numeric value (edit). The parameter
   * is given here already converted to a number.
   */
  function RouteId(idParam: Option<int>): int {
    match idParam
    case None => 0
    case Some(n) => n
  }
}
