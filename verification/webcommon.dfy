/**
 * What every REST resource of the web server shares: the replies a request
 * can get, the error codes of the failures, and the check that a create
 * request carries every required parameter.
 */
module WebCommon {
  import opened Json

  /** A loaded request body: parameter name to value (Python's None is `JNull`). */
  type Data = map<string, Json>

  /** The input data could not be loaded with the resource's schema. */
  const CANNOT_LOAD: nat := 100
  /** A required create parameter is missing or None. */
  const MISSING_REQUIREMENTS: nat := 200
  /** The DAO raised while inserting. */
  const CANNOT_CREATE: nat := 300
  /** The DAO raised while updating or deleting. */
  const CANNOT_CHANGE: nat := 301

  const BAD_REQUEST: nat := 400
  const OK: nat := 200

  /** What a request handler returns to the framework. */
  datatype Reply<E> =
    | Single(entity: E, status: nat)   // one entity marshalled with the single schema
    | Listing(entities: seq<E>)        // entities marshalled with the multi schema, status 200
    | Failure(code: nat, status: nat)  // an error body with its code
    | NoContent                        // `None, 204`
    | Refused                          // `False`, when the pre-delete hook declines

  /** Every required key is present with a value other than None. */
  predicate RequirementsMet(required: seq<string>, data: Data)
  {
    forall i :: 0 <= i < |required| ==> required[i] in data && data[required[i]] != JNull
  }

  /**
   * `checkRequirementsCreate(data)`: scans the required parameters in order
   * and stops at the first one that is absent or None.
   */
  method CheckRequirementsCreate(required: seq<string>, data: Data) returns (valid: bool)
    ensures valid <==> RequirementsMet(required, data)
  {
    valid := true;
    var i := 0;
    while i < |required|
      invariant 0 <= i <= |required|
      invariant forall k :: 0 <= k < i ==> required[k] in data && data[required[k]] != JNull
    {
      var key := required[i];
      if key !in data || data[key] == JNull {
        valid := false;
        break;
      }
      i := i + 1;
    }
  }

  /** Adding parameters never breaks the requirements, and a required key set to None always does. */
  lemma RequirementsMonotone(required: seq<string>, data: Data, more: Data, key: string)
    requires RequirementsMet(required, data)
    requires forall k :: k in data ==> k in more && more[k] == data[k]
    ensures RequirementsMet(required, more)
    ensures key in required ==> !RequirementsMet(required, data[key := JNull])
  {
    if key in required {
      var i :| 0 <= i < |required| && required[i] == key;
      assert data[key := JNull][required[i]] == JNull;
    }
  }
}
