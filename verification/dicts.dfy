/** Python `dict` semantics over an association list: keys are unique, an
    assignment to an existing key keeps its position, an assignment to a new
    key appends it, and `pop` removes a key. Iteration order is list order. */
module Dicts {
  import opened Wrappers

  type Dict<V> = seq<(string, V)>

  function Keys<V>(d: Dict<V>): set<string>
  {
    if |d| == 0 then {} else {d[0].0} + Keys(d[1..])
  }

  /** Keys are pairwise distinct, as in every Python dict. */
  predicate Distinct<V>(d: Dict<V>)
  {
    |d| == 0 || (d[0].0 !in Keys(d[1..]) && Distinct(d[1..]))
  }

  /** `d.get(k)`: the value of the first entry with key `k`. */
  function Get<V>(d: Dict<V>, k: string): (r: Option<V>)
    ensures r.Some? <==> k in Keys(d)
  {
    if |d| == 0 then None
    else if d[0].0 == k then Some(d[0].1)
    else Get(d[1..], k)
  }

  /** `d[k] = v`. */
  function Set<V>(d: Dict<V>, k: string, v: V): (r: Dict<V>)
    ensures Get(r, k) == Some(v)
    ensures forall j :: j != k ==> Get(r, j) == Get(d, j)
    ensures Keys(r) == Keys(d) + {k}
    ensures |r| == if k in Keys(d) then |d| else |d| + 1
    ensures forall i :: 0 <= i < |d| ==> r[i].0 == d[i].0
    ensures Distinct(d) ==> Distinct(r)
  {
    if |d| == 0 then [(k, v)]
    else if d[0].0 == k then [(k, v)] + d[1..]
    else
      var t := Set(d[1..], k, v);
      var r := [d[0]] + t;
      assert r[1..] == t;
      r
  }

  /** `d.pop(k, None)`, keeping only the remaining dict. */
  function Remove<V>(d: Dict<V>, k: string): (r: Dict<V>)
    ensures Get(r, k) == None
    ensures forall j :: j != k ==> Get(r, j) == Get(d, j)
    ensures Keys(r) == Keys(d) - {k}
    ensures Distinct(d) ==> Distinct(r)
  {
    if |d| == 0 then []
    else if d[0].0 == k then
      assert Distinct(d) ==> k !in Keys(d[1..]);
      Remove(d[1..], k)
    else
      var t := Remove(d[1..], k);
      var r := [d[0]] + t;
      assert r[1..] == t;
      r
  }

  /** The value of the LAST pair with key `k` in a list of pairs, which may
      repeat keys: the value a dict comprehension over the pairs keeps. */
  function LastOf<V>(ps: seq<(string, V)>, k: string): Option<V>
  {
    if |ps| == 0 then None
    else if ps[|ps| - 1].0 == k then Some(ps[|ps| - 1].1)
    else LastOf(ps[..|ps| - 1], k)
  }

  /** `d.update(ps)`: assign every pair in order. */
  function Merge<V>(d: Dict<V>, ps: seq<(string, V)>): (r: Dict<V>)
    ensures forall j :: Get(r, j) == if LastOf(ps, j).Some? then LastOf(ps, j) else Get(d, j)
    ensures Keys(d) <= Keys(r)
    ensures Distinct(d) ==> Distinct(r)
    decreases |ps|
  {
    if |ps| == 0 then d
    else Set(Merge(d, ps[..|ps| - 1]), ps[|ps| - 1].0, ps[|ps| - 1].1)
  }

  /** `{k: v for (k, v) in ps}`. */
  function FromPairs<V>(ps: seq<(string, V)>): (r: Dict<V>)
    ensures forall j :: Get(r, j) == LastOf(ps, j)
    ensures Distinct(r)
  {
    Merge([], ps)
  }

  lemma {:induction false} KeysAppend<V>(d: Dict<V>, x: (string, V))
    ensures Keys(d + [x]) == Keys(d) + {x.0}
    ensures Get(d + [x], x.0) == if x.0 in Keys(d) then Get(d, x.0) else Some(x.1)
    ensures forall j :: j != x.0 ==> Get(d + [x], j) == Get(d, j)
    ensures Distinct(d + [x]) <==> Distinct(d) && x.0 !in Keys(d)
    decreases |d|
  {
    if |d| > 0 {
      assert (d + [x])[1..] == d[1..] + [x];
      KeysAppend(d[1..], x);
    } else {
      assert Keys([x]) == {x.0} + Keys([x][1..]);
    }
  }

  /** In a dict, the first and the last entry for a key are the same entry. */
  lemma {:induction false} LastOfDistinct<V>(d: Dict<V>, k: string)
    requires Distinct(d)
    ensures LastOf(d, k) == Get(d, k)
    decreases |d|
  {
    if |d| > 0 {
      var init := d[..|d| - 1];
      assert d == init + [d[|d| - 1]];
      KeysAppend(init, d[|d| - 1]);
      LastOfDistinct(init, k);
    }
  }
}
