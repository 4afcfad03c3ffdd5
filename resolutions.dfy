/**
 * The `AvailableResolution` string enumeration. The validators test a request
 * tag with `AvailableResolution[tag]`, which looks a member up by its KEY NAME
 * (a string enumeration has no reverse mapping from values), so the accepted
 * tags are the eight names, whatever values those names carry.
 */
module Resolutions {
  import opened Wrappers

  /** The eight members, by name. */
  datatype Resolution = P144 | P240 | P360 | P480 | P720 | P1080 | P1440 | P2160

  /** The name under which a member is declared. */
  function KeyName(r: Resolution): string
  {
    match r
    case P144 => "P144"
    case P240 => "P240"
    case P360 => "P360"
    case P480 => "P480"
    case P720 => "P720"
    case P1080 => "P1080"
    case P1440 => "P1440"
    case P2160 => "P2160"
  }

  /** The string value each member is initialised with: eight names share three values. */
  function Value(r: Resolution): string
  {
    match r
    case P144 | P240 | P360 => "P144"
    case P480 | P720 | P1080 => "P480"
    case P1440 | P2160 => "P1440"
  }

  /** `AvailableResolution[s]`: the member whose name is `s`, if there is one. */
  function FromKey(s: string): (r: Option<Resolution>)
    ensures r.Some? ==> KeyName(r.value) == s
    ensures r.None? ==> forall q :: KeyName(q) != s
  {
    if s == "P144" then Some(P144)
    else if s == "P240" then Some(P240)
    else if s == "P360" then Some(P360)
    else if s == "P480" then Some(P480)
    else if s == "P720" then Some(P720)
    else if s == "P1080" then Some(P1080)
    else if s == "P1440" then Some(P1440)
    else if s == "P2160" then Some(P2160)
    else None
  }

  /** A request tag the validators accept (the lookup is truthy). */
  predicate IsKey(s: string)
  {
    FromKey(s).Some?
  }

  /** Looking a member up by its own name finds that member. */
  lemma FromKeyName(r: Resolution)
    ensures FromKey(KeyName(r)) == Some(r)
  {
  }

  /** The accepted tags are exactly the eight names. */
  lemma KeysAreNames(s: string)
    ensures IsKey(s) <==> s in {"P144", "P240", "P360", "P480", "P720", "P1080", "P1440", "P2160"}
  {
  }

  /**
   * The value collapse does not affect membership: "P2160" is no member's
   * value, yet it is accepted, and every value is itself an accepted name.
   */
  lemma MembershipIgnoresValues(r: Resolution)
    ensures IsKey("P2160") && forall q :: Value(q) != "P2160"
    ensures IsKey(Value(r))
    ensures Value(r) in {"P144", "P480", "P1440"}
  {
  }
}
