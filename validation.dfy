/** What the express-validator chains of the three request validators share:
    how a body field reads to `isInt`, and one validator with its message.
    Every validator of a chain runs (none bails), and the chain reports the
    message of each one that fails; the request goes on exactly when the
    collected list is empty. */
module Validation {
  import opened Common
  import opened Text

  /** A body field as `isInt` sees it: an integer (a JSON integer or a
      string holding one) or anything else. */
  datatype IntField = Int(value: int) | NotInt

  /** `isInt({ min })`; an absent field reads as "" and fails. */
  predicate IsIntAtLeast(f: Option<IntField>, min: int) {
    f.Some? && f.value.Int? && f.value.value >= min
  }

  /** The string a chain without `optional()` sees for a field: an absent one reads as "". */
  function OrEmpty(s: Option<string>): string {
    if s.Some? then s.value else ""
  }

  /** A field a `trim()` sanitiser rewrote in place: trimmed when given,
      still absent when not. */
  function TrimmedOption(s: Option<string>): (r: Option<string>)
    ensures r.Some? <==> s.Some?
    ensures r.Some? ==> r.value == Trim(s.value)
  {
    if s.Some? then Some(Trim(s.value)) else None
  }

  /** One validator: its message when it fails, nothing when it holds. */
  function Check<M>(ok: bool, message: M): (errs: seq<M>)
    ensures |errs| == if ok then 0 else 1
    ensures !ok ==> errs[0] == message
  {
    if ok then [] else [message]
  }

  /** A chain of two validators reports nothing exactly when both hold,
      and both messages in order when both fail. */
  lemma ChainOfTwo<M>(a: bool, b: bool, ma: M, mb: M)
    ensures var errs := Check(a, ma) + Check(b, mb);
      && |errs| <= 2
      && (errs == [] <==> a && b)
      && (!a && !b ==> errs == [ma, mb])
  {
  }

  /** A chain of three validators reports nothing exactly when all three
      hold, and ends with the third message when the third fails. */
  lemma ChainOfThree<M>(a: bool, b: bool, c: bool, ma: M, mb: M, mc: M)
    ensures var errs := Check(a, ma) + Check(b, mb) + Check(c, mc);
      && |errs| <= 3
      && (errs == [] <==> a && b && c)
      && (!c ==> |errs| >= 1 && errs[|errs| - 1] == mc)
  {
  }
}
