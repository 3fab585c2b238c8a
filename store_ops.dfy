/**
 * The key-value store's commands that the engine uses (GET, MGET, MSET, DEL),
 * as functions on the store's contents, and the log entry each one leaves.
 */
module StoreOps {
  import opened Results

  /** A command sent to the store. */
  datatype Call =
    | GetCall(key: string)
    | MGetCall(keys: seq<string>)
    | MSetCall(pairs: seq<(string, string)>)
    | DelCall(key: string)

  /** GET: the value under `key`, or nil when the key is absent. */
  function Lookup(data: map<string, string>, key: string): Option<string>
  {
    if key in data then Some(data[key]) else None
  }

  /** MGET: one answer per requested key, in the order requested. */
  function MGetValues(data: map<string, string>, keys: seq<string>): seq<Option<string>>
  {
    seq(|keys|, i requires 0 <= i < |keys| => Lookup(data, keys[i]))
  }

  /** MSET: the pairs are stored left to right, so a later pair for a key wins. */
  function ApplyMSet(data: map<string, string>, pairs: seq<(string, string)>): map<string, string>
    decreases |pairs|
  {
    if pairs == [] then data
    else
      var n := |pairs| - 1;
      ApplyMSet(data, pairs[..n])[pairs[n].0 := pairs[n].1]
  }

  /** A DEL of each key in turn; deleting an absent key is not an error. */
  function DelAll(data: map<string, string>, keys: seq<string>): map<string, string>
    decreases |keys|
  {
    if keys == [] then data
    else
      var n := |keys| - 1;
      DelAll(data, keys[..n]) - {keys[n]}
  }

  /** The log a DEL of each key in turn leaves. */
  function DelCalls(keys: seq<string>): seq<Call>
  {
    seq(|keys|, i requires 0 <= i < |keys| => DelCall(keys[i]))
  }

  /** One more key deleted, one more entry in the log. */
  lemma DelStep(data: map<string, string>, keys: seq<string>, i: nat)
    requires i < |keys|
    ensures DelAll(data, keys[..i + 1]) == DelAll(data, keys[..i]) - {keys[i]}
    ensures DelCalls(keys[..i + 1]) == DelCalls(keys[..i]) + [DelCall(keys[i])]
  {
    assert keys[..i + 1][..i] == keys[..i];
  }

  /** Deleting keys one by one removes exactly those keys and keeps every other entry. */
  lemma {:induction false} DelAllIsDifference(data: map<string, string>, keys: seq<string>)
    ensures DelAll(data, keys) == data - (set k | k in keys)
  {
    if keys != [] {
      var n := |keys| - 1;
      DelAllIsDifference(data, keys[..n]);
      assert (set k | k in keys) == (set k | k in keys[..n]) + {keys[n]} by {
        assert keys == keys[..n] + [keys[n]];
      }
    }
  }

  /** Deleting the same keys a second time changes nothing. */
  lemma DelAllIdempotent(data: map<string, string>, keys: seq<string>)
    ensures DelAll(DelAll(data, keys), keys) == DelAll(data, keys)
  {
    DelAllIsDifference(data, keys);
    DelAllIsDifference(DelAll(data, keys), keys);
  }
}
