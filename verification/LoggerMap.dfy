/** Display names of loggers (frontend/src/lib/logger-map.ts): the longest known prefix decides. */
module LoggerMap {
  import opened Wrappers

  /** k is a longest key of the mapping that the name starts with. */
  predicate IsBest(mapping: map<string, string>, name: string, k: string) {
    k in mapping && k <= name && forall j | j in mapping && j <= name :: |j| <= |k|
  }

  /** Two prefixes of one name with the same length are the same key, so the best one is unique. */
  lemma {:induction false} BestIsUnique(mapping: map<string, string>, name: string, j: string, k: string)
    requires IsBest(mapping, name, j) && IsBest(mapping, name, k)
    ensures j == k
  {}

  /**
   mapLoggerName, for any order `keys` in which the object lists its keys: the label of the one
   longest key that is a prefix of the name, or the name if there is none or its label is empty.
   The contract does not mention the order.
   */
  method MapLoggerName(mapping: map<string, string>, keys: seq<string>, moduleName: Option<string>)
    returns (display: string)
    requires forall k :: k in keys <==> k in mapping
    ensures moduleName.GetOr("") == "" ==> display == ""
    ensures moduleName.GetOr("") != "" ==>
              && (forall k | IsBest(mapping, moduleName.value, k) ::
                    display == if mapping[k] != "" then mapping[k] else moduleName.value)
              && ((forall k | k in mapping :: !(k <= moduleName.value)) ==> display == moduleName.value)
  {
    if moduleName.None? || moduleName.value == "" {
      return "";
    }
    var name := moduleName.value;
    var bestKey := "";
    for i := 0 to |keys|
      invariant bestKey == "" || (bestKey in mapping && bestKey <= name)
      invariant forall j | 0 <= j < i && keys[j] <= name :: |keys[j]| <= |bestKey|
    {
      var key := keys[i];
      if key <= name {
        if |key| > |bestKey| {
          bestKey := key;
        }
      }
    }
    forall k | IsBest(mapping, name, k) ensures k == bestKey {
      assert k in keys;
      assert |bestKey| == |k|;
      assert bestKey == name[..|bestKey|] && k == name[..|k|];
    }
    display := if bestKey in mapping && mapping[bestKey] != "" then mapping[bestKey] else name;
  }
}
