/**
 Obligation identity. The three ledgers key an obligation by canonical JSON of four fields; canonical
 JSON is injective, so the key is modelled as the four values themselves.
 */
module Obligations {
  import opened Json
  import opened Wrappers

  datatype Key = Key(domain: Value, subject: Value, relation: Value, required: Value)

  /** `compatibility_ledger._obligation_key`: the first three fields are indexed, so a missing one raises. */
  function StrictKey(finding: Fields): Option<Key> {
    if "domain" in finding && "subject" in finding && "predicate" in finding then
      Some(LenientKey(finding))
    else
      None
  }

  /** The replay ledger and the hypothesis evaluator read all four fields with `.get`. */
  function LenientKey(finding: Fields): Key {
    Key(Get(finding, "domain"), Get(finding, "subject"), Get(finding, "predicate"), Get(finding, "required"))
  }

  /** `_obligation_from_key`: what the ledger reports for a key. */
  function Record(key: Key): Value {
    Object(map["domain" := key.domain, "subject" := key.subject,
               "predicate" := key.relation, "required" := key.required])
  }

  /** A finding whose observed value already equals the required one imposes nothing. */
  predicate Satisfied(finding: Fields) {
    PyEq(Get(finding, "observed"), Get(finding, "required"))
  }

  /** Reading a finding raises exactly here. */
  predicate Malformed(finding: Value) {
    !finding.Object? || (!Satisfied(finding.fields) && StrictKey(finding.fields).None?)
  }

  /** The finding asks for `key` to be established. */
  predicate Demands(finding: Value, key: Key) {
    finding.Object? && !Satisfied(finding.fields) && StrictKey(finding.fields) == Some(key)
  }

  /** The obligations a list of findings demands. */
  ghost predicate DemandedBy(findings: seq<Value>, keys: set<Key>) {
    forall key :: key in keys <==> exists i :: 0 <= i < |findings| && Demands(findings[i], key)
  }

  /**
   The loop over `findings` in `CompatibilityDeltaLedger.observe`: None stands for the ValueError or
   KeyError that makes the whole report unusable.
   */
  method ReadObligations(findings: seq<Value>) returns (keys: Option<set<Key>>)
    ensures keys.None? <==> exists i :: 0 <= i < |findings| && Malformed(findings[i])
    ensures keys.Some? ==> DemandedBy(findings, keys.value)
  {
    var found: set<Key> := {};
    for i := 0 to |findings|
      invariant forall j :: 0 <= j < i ==> !Malformed(findings[j])
      invariant forall key :: key in found <==> exists j :: 0 <= j < i && Demands(findings[j], key)
    {
      var finding := findings[i];
      if !finding.Object? {
        return None;
      }
      if Satisfied(finding.fields) {
        continue;
      }
      var key := StrictKey(finding.fields);
      if key.None? {
        return None;
      }
      found := found + {key.value};
    }
    return Some(found);
  }
}
