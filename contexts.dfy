/** The subscriber context built from key/value pairs:
    `Context.of(ctx.stream().collect(toMap(KeyValue::getKey, KeyValue::getValue)))`.
    The collector puts each pair into a hash map in stream order and raises
    `IllegalStateException` on the first key it has already seen; there is no
    later-wins override. The map keeps no order. */
module Contexts {
  import opened Java

  /** A non-null key or value object; keys are told apart as `equals` does. */
  datatype Obj = Obj(id: nat)

  type Pair = (Obj, Obj)

  /** An immutable context: each key bound to one value. */
  type Context = map<Obj, Obj>

  /** No two pairs share a key. */
  predicate DistinctKeys(pairs: seq<Pair>) {
    forall i, j :: 0 <= i < j < |pairs| ==> pairs[i].0 != pairs[j].0
  }

  /** The keys of the pairs. */
  function KeysOf(pairs: seq<Pair>): set<Obj> {
    set i | 0 <= i < |pairs| :: pairs[i].0
  }

  /** The collector run over the pairs in stream order. On success every pair's
      key is bound to that pair's value and nothing else is bound; the only
      exception it raises is the duplicate-key one. */
  function ToMap(pairs: seq<Pair>): (r: Result<Context>)
    ensures r.Err? ==> r.failure == IllegalState
    ensures r.Ok? ==> r.value.Keys == KeysOf(pairs)
    ensures r.Ok? ==> forall i :: 0 <= i < |pairs| ==> r.value[pairs[i].0] == pairs[i].1
    decreases |pairs|
  {
    if pairs == [] then Ok(map[])
    else
      var init, last := pairs[..|pairs| - 1], pairs[|pairs| - 1];
      match ToMap(init)
      case Err(f) => Err(f)
      case Ok(m) =>
        if last.0 in m then Err(IllegalState)
        else
          assert KeysOf(pairs) == KeysOf(init) + {last.0} by {
            assert forall i :: 0 <= i < |init| ==> pairs[i] == init[i];
          }
          assert forall i :: 0 <= i < |init| ==> pairs[i] == init[i] && init[i].0 in m;
          Ok(m[last.0 := last.1])
  }

  /** The collector succeeds exactly when the keys are distinct. */
  lemma {:induction false} ToMapOkIffDistinct(pairs: seq<Pair>)
    ensures ToMap(pairs).Ok? <==> DistinctKeys(pairs)
    decreases |pairs|
  {
    if pairs != [] {
      var init, last := pairs[..|pairs| - 1], pairs[|pairs| - 1];
      ToMapOkIffDistinct(init);
      assert forall i :: 0 <= i < |init| ==> pairs[i] == init[i];
      if DistinctKeys(pairs) {
        assert DistinctKeys(init);
      } else {
        var i, j :| 0 <= i < j < |pairs| && pairs[i].0 == pairs[j].0;
        if j < |pairs| - 1 {
          assert !DistinctKeys(init);
        } else if ToMap(init).Ok? {
          assert init[i].0 in KeysOf(init);
        }
      }
    }
  }

  /** With distinct keys the context holds exactly one entry per pair. */
  lemma {:induction false} SizeOfDistinct(pairs: seq<Pair>)
    requires DistinctKeys(pairs)
    ensures ToMap(pairs).Ok? && |ToMap(pairs).value| == |pairs|
    decreases |pairs|
  {
    ToMapOkIffDistinct(pairs);
    if pairs != [] {
      var init := pairs[..|pairs| - 1];
      assert forall i :: 0 <= i < |init| ==> pairs[i] == init[i];
      assert DistinctKeys(init);
      SizeOfDistinct(init);
    }
  }
}
