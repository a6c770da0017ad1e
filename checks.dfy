/**
 * Ordered, short-circuiting validation: each handler runs a fixed list of
 * `if (...) { res.status(..); throw ... }` steps and the first one that
 * rejects its input decides the rejection.
 */
module Checks {
  import opened Wrappers
  import opened Errors

  /** One validation step: whether the input passes it, and what it raises
      when it does not. */
  datatype Check = Check(passes: bool, rejection: Rejection)

  /** The position of the first step that rejects, or |cs| when all pass. */
  function FirstFailing(cs: seq<Check>): (k: nat)
    ensures k <= |cs|
    ensures forall j | 0 <= j < k :: cs[j].passes
    ensures k < |cs| ==> !cs[k].passes
  {
    if cs == [] || !cs[0].passes then 0 else 1 + FirstFailing(cs[1..])
  }

  /** Runs the steps in order and stops at the first that rejects. */
  function RunChecks(cs: seq<Check>): (r: Option<Rejection>)
    ensures r.None? <==> forall j | 0 <= j < |cs| :: cs[j].passes
    ensures r.Some? ==>
      exists k | 0 <= k < |cs| ::
        !cs[k].passes && cs[k].rejection == r.value && forall j | 0 <= j < k :: cs[j].passes
  {
    var k := FirstFailing(cs);
    if k == |cs| then None else Some(cs[k].rejection)
  }

  /** Whatever step rejects first decides the outcome. */
  lemma RunChecksStopsAt(cs: seq<Check>, k: nat)
    requires k < |cs| && !cs[k].passes
    requires forall j | 0 <= j < k :: cs[j].passes
    ensures RunChecks(cs) == Some(cs[k].rejection)
  {
  }
}
