/**
 * The tool draws from Go's global `math/rand` source.  The model takes the
 * draws as data instead: a tree of streams, one stream for the draws a call
 * makes itself and one sub-tree for each array element or map entry it
 * hands to a recursive call.  Every sequence of results the real source can
 * produce is some such tree, so a property proved for all trees holds for
 * every run.
 */
module Random {
  datatype Draws = Draws(here: seq<nat>, text: string, items: seq<Draws>, fields: map<string, Draws>)

  const NoDraws := Draws([], "", [], map[])

  /** The `k`-th draw of a stream reduced to `[0, n)`, as `rand.Intn(n)` returns; 0 once the stream is used up. */
  function Pick(s: seq<nat>, k: nat, n: nat): (r: nat)
    requires n > 0
    ensures r < n
  {
    if k < |s| then s[k] % n else 0
  }

  /** `rand.Float64() < 0.5` for the `k`-th draw of a stream. */
  predicate Coin(s: seq<nat>, k: nat)
  {
    Pick(s, k, 2) == 0
  }

  /** The draws handed to the call for the `i`-th array element. */
  function Item(d: Draws, i: nat): Draws
  {
    if i < |d.items| then d.items[i] else NoDraws
  }

  /** The draws handed to the call for the map entry `key`. */
  function Field(d: Draws, key: string): Draws
  {
    if key in d.fields then d.fields[key] else NoDraws
  }
}
