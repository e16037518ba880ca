/**
 * The request-validation rules the DTO classes declare, with the semantics
 * of the validator library: each decorated property is checked against every
 * one of its constraints and each failed constraint is one violation; the
 * request is rejected (400) when there is any violation. A property that is
 * absent from the body is `undefined`, written `None` here.
 */
module Validation {
  import opened Wrappers
  import opened Json
  import Uuid

  datatype Constraint =
    | MinLength(min: nat)
    | MaxLength(max: nat)
    | IsNotEmpty
    | IsUuid

  datatype Violation = Violation(property: string, constraint: Constraint)

  /** A request body: the properties of the parsed JSON object. */
  type Body = map<string, Json>

  function Field(body: Body, property: string): Option<Json> {
    if property in body then Some(body[property]) else None
  }

  /** The two emoji presentation selectors, which the length check does not count. */
  predicate IsPresentationSelector(c: char) {
    c == 0xFE0E as char || c == 0xFE0F as char
  }

  /**
   * The length the validator measures: code points (a surrogate pair counts
   * once), less the presentation selectors.
   */
  function Length(s: string): (n: nat)
    ensures n <= |s|
  {
    if s == [] then 0
    else (if IsPresentationSelector(s[0]) then 0 else 1) + Length(s[1..])
  }

  /** Whether the value of a property meets one constraint. */
  predicate Satisfies(c: Constraint, v: Option<Json>) {
    match c
    case MinLength(min) => v.Some? && v.value.String? && Length(v.value.s) >= min
    case MaxLength(max) => v.Some? && v.value.String? && Length(v.value.s) <= max
    case IsNotEmpty => v != None && v != Some(Null) && v != Some(String(""))
    case IsUuid => v.Some? && v.value.String? && Uuid.IsUuid(v.value.s)
  }

  /** The violations of the constraints `cs` declared on `property`. */
  function Check(body: Body, property: string, cs: seq<Constraint>): set<Violation> {
    set c | c in cs && !Satisfies(c, Field(body, property)) :: Violation(property, c)
  }

  // ---------------------------------------------------------------- properties

  /** Declaring constraints together reports the violations of each of them: decorators stack. */
  lemma CheckConcat(body: Body, property: string, cs1: seq<Constraint>, cs2: seq<Constraint>)
    ensures Check(body, property, cs1 + cs2) == Check(body, property, cs1) + Check(body, property, cs2)
  {
    var v := Field(body, property);
    forall x | x in Check(body, property, cs1 + cs2)
      ensures x in Check(body, property, cs1) + Check(body, property, cs2)
    {
      var c :| c in cs1 + cs2 && !Satisfies(c, v) && x == Violation(property, c);
      if c in cs1 {
        assert x in Check(body, property, cs1);
      } else {
        assert x in Check(body, property, cs2);
      }
    }
  }

  /** A property passes iff its value meets every constraint declared on it. */
  lemma CheckPassesIff(body: Body, property: string, cs: seq<Constraint>)
    ensures Check(body, property, cs) == {} <==> forall c :: c in cs ==> Satisfies(c, Field(body, property))
  {
    if Check(body, property, cs) == {} {
      forall c | c in cs
        ensures Satisfies(c, Field(body, property))
      {
        assert Violation(property, c) !in Check(body, property, cs);
      }
    }
  }

  /** Violations name their property, so the reports of two properties never mix. */
  lemma ChecksDisjoint(body: Body, p: string, q: string, cs: seq<Constraint>, ds: seq<Constraint>)
    requires p != q
    ensures Check(body, p, cs) !! Check(body, q, ds)
  {
  }

  /** Text without presentation selectors is measured by its number of characters. */
  lemma {:induction false} LengthPlain(s: string)
    requires forall i :: 0 <= i < |s| ==> !IsPresentationSelector(s[i])
    ensures Length(s) == |s|
  {
    if s != [] {
      LengthPlain(s[1..]);
    }
  }

  /** A UUID is never empty, so `@IsNotEmpty()` adds nothing to `@IsUUID()` beyond a second message. */
  lemma UuidImpliesNotEmpty(v: Option<Json>)
    requires Satisfies(IsUuid, v)
    ensures Satisfies(IsNotEmpty, v)
  {
    assert |v.value.s| == 36;
  }
}
