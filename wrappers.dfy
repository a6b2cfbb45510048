/** Optional values (`undefined`/`null` in the source, and NaN from `parseFloat`),
    and a fact about sequence prefixes the loops over lists rely on. */
module Wrappers {

  datatype Option<+T> = None | Some(value: T) {

    /** `x ?? default` */
    function GetOr(default: T): T {
      match this
      case Some(v) => v
      case None => default
    }
  }

  /** A prefix one element longer is the shorter prefix plus that element. */
  lemma PrefixSnoc<T>(s: seq<T>, i: nat)
    requires i < |s|
    ensures s[..i + 1] == s[..i] + [s[i]]
  {
  }
}
