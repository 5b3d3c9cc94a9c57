/** The activation-required attributes a job record carries: the mailbox
    between the invocation that needs a manual activation and the later
    `release` that resolves it. */
module JobAttributes {
  import opened Text

  /** A ClassAd attribute value as this tool reads it: the `Undefined`
      sentinel, or a value (an endpoint id for the attributes below). */
  datatype AttrValue = Undefined | Value(text: string)

  /** The attribute-name prefix (constants.ENDPOINT_ACTIVATION_REQUIRED). */
  const ENDPOINT_ACTIVATION_REQUIRED: string := "ENDPOINT_ACTIVATION_REQUIRED"

  /** The key `f"{ENDPOINT_ACTIVATION_REQUIRED}_{idx}"`. */
  function RequiredKey(idx: nat): (k: string)
    ensures StartsWith(k, ENDPOINT_ACTIVATION_REQUIRED)
    ensures |k| > |ENDPOINT_ACTIVATION_REQUIRED| + 1 && k[|ENDPOINT_ACTIVATION_REQUIRED|] == '_'
  {
    ENDPOINT_ACTIVATION_REQUIRED + "_" + NatToString(idx)
  }

  /** `k.startswith(ENDPOINT_ACTIVATION_REQUIRED)`, the test `release` applies. */
  predicate IsRequiredKey(k: string) {
    StartsWith(k, ENDPOINT_ACTIVATION_REQUIRED)
  }

  /** The index written after the prefix and the underscore. */
  function KeyIndex(k: string): nat
    requires |k| > |ENDPOINT_ACTIVATION_REQUIRED|
  {
    ParseNat(k[|ENDPOINT_ACTIVATION_REQUIRED| + 1..])
  }

  /** Every key written is one `release` recognises, and its index can be read back. */
  lemma RequiredKeyRoundTrip(idx: nat)
    ensures IsRequiredKey(RequiredKey(idx))
    ensures |RequiredKey(idx)| > |ENDPOINT_ACTIVATION_REQUIRED| && KeyIndex(RequiredKey(idx)) == idx
  {
    var k := RequiredKey(idx);
    assert k[..|ENDPOINT_ACTIVATION_REQUIRED|] == ENDPOINT_ACTIVATION_REQUIRED;
    assert k[|ENDPOINT_ACTIVATION_REQUIRED| + 1..] == NatToString(idx);
    ParseNatToString(idx);
  }

  /** Distinct enumeration indices give distinct attribute names. */
  lemma RequiredKeysDistinct(i: nat, j: nat)
    requires i != j
    ensures RequiredKey(i) != RequiredKey(j)
  {
    RequiredKeyRoundTrip(i);
    RequiredKeyRoundTrip(j);
  }

  /** The job attributes after `set_job_attr(RequiredKey(idx), endpoint)` for
      each endpoint at its enumeration index, in order. */
  function RecordRequired(attrs: map<string, AttrValue>, endpoints: seq<string>): (r: map<string, AttrValue>)
    ensures attrs.Keys <= r.Keys
    ensures forall k :: k in r && k !in attrs ==> StartsWith(k, ENDPOINT_ACTIVATION_REQUIRED)
    decreases |endpoints|
  {
    if endpoints == [] then attrs
    else
      var n := |endpoints| - 1;
      RecordRequired(attrs, endpoints[..n])[RequiredKey(n) := Value(endpoints[n])]
  }

  /** After recording, attribute `RequiredKey(i)` holds the i-th endpoint for
      every i: no endpoint overwrites another. */
  lemma {:induction false} RecordRequiredValues(attrs: map<string, AttrValue>, endpoints: seq<string>)
    ensures forall i :: 0 <= i < |endpoints| ==>
      RequiredKey(i) in RecordRequired(attrs, endpoints)
      && RecordRequired(attrs, endpoints)[RequiredKey(i)] == Value(endpoints[i])
    decreases |endpoints|
  {
    if endpoints != [] {
      var n := |endpoints| - 1;
      RecordRequiredValues(attrs, endpoints[..n]);
      forall i | 0 <= i < n
        ensures RecordRequired(attrs, endpoints)[RequiredKey(i)] == Value(endpoints[i])
      {
        RequiredKeysDistinct(i, n);
        assert endpoints[..n][i] == endpoints[i];
      }
    }
  }

  /** Recording adds exactly the keys `RequiredKey(i)`, one per endpoint. */
  lemma {:induction false} RecordRequiredKeys(attrs: map<string, AttrValue>, endpoints: seq<string>)
    ensures forall k :: k in RecordRequired(attrs, endpoints) <==>
      k in attrs || exists i :: 0 <= i < |endpoints| && k == RequiredKey(i)
    decreases |endpoints|
  {
    if endpoints != [] {
      var n := |endpoints| - 1;
      RecordRequiredKeys(attrs, endpoints[..n]);
      forall k | k in RecordRequired(attrs, endpoints) && k !in attrs
        ensures exists i :: 0 <= i < |endpoints| && k == RequiredKey(i)
      {
        if k != RequiredKey(n) {
          var i :| 0 <= i < n && k == RequiredKey(i);
        }
      }
    }
  }

  /** Every attribute outside the written keys keeps its value. */
  lemma {:induction false} RecordRequiredOthers(attrs: map<string, AttrValue>, endpoints: seq<string>, k: string)
    requires k in attrs && forall i :: 0 <= i < |endpoints| ==> k != RequiredKey(i)
    ensures k in RecordRequired(attrs, endpoints) && RecordRequired(attrs, endpoints)[k] == attrs[k]
    decreases |endpoints|
  {
    if endpoints != [] {
      RecordRequiredOthers(attrs, endpoints[..|endpoints| - 1], k);
    }
  }
}
