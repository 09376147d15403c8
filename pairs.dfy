/** Ordered lists of name/value pairs: the items of a Python dict, the pairs parse_qsl reads from a
  * query string, and the entries of a browser URLSearchParams. */
module Pairs {
  import opened Wrappers

  type Pairs = seq<(string, string)>

  /** The names that occur. */
  function Keys(pairs: Pairs): set<string> {
    if |pairs| == 0 then {} else {pairs[0].0} + Keys(pairs[1..])
  }

  /** A name occurs exactly when some pair carries it. */
  lemma {:induction false} KeysAt(pairs: Pairs, key: string)
    ensures key in Keys(pairs) <==> exists i :: 0 <= i < |pairs| && pairs[i].0 == key
  {
    if |pairs| > 0 {
      KeysAt(pairs[1..], key);
      if key in Keys(pairs[1..]) {
        var i :| 0 <= i < |pairs[1..]| && pairs[1..][i].0 == key;
        assert pairs[i + 1].0 == key;
      }
      if exists i :: 0 <= i < |pairs| && pairs[i].0 == key {
        var i :| 0 <= i < |pairs| && pairs[i].0 == key;
        if i > 0 {
          assert pairs[1..][i - 1].0 == key;
        }
      }
    }
  }

  /** Each name occurs once. */
  predicate DistinctKeys(pairs: Pairs) {
    |pairs| == 0 || (pairs[0].0 !in Keys(pairs[1..]) && DistinctKeys(pairs[1..]))
  }

  /** The value under a name as a lookup finds it: that of its first pair. */
  function Value(pairs: Pairs, key: string): (r: Option<string>)
    ensures r.Some? <==> key in Keys(pairs)
  {
    if |pairs| == 0 then None
    else if pairs[0].0 == key then Some(pairs[0].1)
    else Value(pairs[1..], key)
  }

  /** The value a name was given last. */
  function LastValue(pairs: Pairs, key: string): (r: Option<string>)
    ensures r.Some? <==> key in Keys(pairs)
  {
    if |pairs| == 0 then None
    else
      var later := LastValue(pairs[1..], key);
      if later.Some? then later
      else if pairs[0].0 == key then Some(pairs[0].1)
      else None
  }
}
