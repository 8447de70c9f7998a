/** Small vocabulary shared by the modules of the project. */
module Prelude {

  /** A campaign's UUID, as an opaque token. */
  type CampaignId = string

  /** A value that may be absent: the source's `null`, `undefined` and optional fields. */
  datatype Option<+T> = None | Some(value: T)

  /** How an awaited remote call ends. `AckLost` is the case a caller cannot tell from `Failed`:
      the effect took place, the caller still sees an exception. */
  datatype Outcome = Ok | Failed | AckLost

  predicate Distinct<T(==)>(s: seq<T>) {
    forall i, j :: 0 <= i < j < |s| ==> s[i] != s[j]
  }
}
