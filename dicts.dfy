/**
 * A Python `dict` with string keys: a finite map that also remembers the order in which its keys were first
 * inserted. Iterating `d.keys()` or `d.items()` follows `order`; assigning `d[k] = v` to a
 * key already present replaces the value and keeps the key's place.
 */
module Dicts {
  import opened Seqs

  datatype Dict<V> = Dict(order: seq<string>, entries: map<string, V>) {

    /** Every key appears once in `order`, and `order` lists exactly the keys of `entries`. */
    ghost predicate Valid() {
      && NoDuplicates(order)
      && (forall k :: k in entries <==> k in order)
    }

    /** `d[k] = v`. */
    function Set(k: string, v: V): (d: Dict<V>)
      ensures Valid() ==> d.Valid()
      ensures k in d.entries && d.entries[k] == v
    {
      Dict(if k in entries then order else order + [k], entries[k := v])
    }
  }

  /** Assigning a key not yet present appends it to the order. */
  lemma SetNew<V>(d: Dict<V>, k: string, v: V)
    requires d.Valid() && k !in d.order
    ensures d.Set(k, v).order == d.order + [k]
    ensures d.Set(k, v).entries == d.entries[k := v]
  {
  }

  /** Assigning a key keeps the existing order as a prefix. */
  lemma SetKeepsOrder<V>(d: Dict<V>, k: string, v: V)
    ensures d.order <= d.Set(k, v).order
  {
  }

  /** `{}`. */
  function Empty<V>(): (d: Dict<V>)
    ensures d.Valid() && d.order == [] && d.entries == map[]
  {
    Dict([], map[])
  }

  /** The dictionary `{ks[0]: vs[0], ks[1]: vs[1], ...}` built by assigning the pairs in turn. */
  function AssignAll<V>(d: Dict<V>, ks: seq<string>, vs: seq<V>): Dict<V>
    requires |ks| == |vs|
    decreases |ks|
  {
    if ks == [] then d
    else AssignAll(d, ks[..|ks| - 1], vs[..|vs| - 1]).Set(ks[|ks| - 1], vs[|vs| - 1])
  }

  /** Starting from `{}`, assigning keys `ks` in turn leaves them in order of first assignment. */
  lemma {:induction false} AssignAllOrder<V>(ks: seq<string>, vs: seq<V>)
    requires |ks| == |vs|
    ensures AssignAll(Empty(), ks, vs).Valid()
    ensures AssignAll(Empty(), ks, vs).order == Distinct(ks)
    decreases |ks|
  {
    if ks != [] {
      var n := |ks| - 1;
      var prev := AssignAll(Empty(), ks[..n], vs[..n]);
      AssignAllOrder(ks[..n], vs[..n]);
      assert ks[n] in prev.entries <==> ks[n] in Distinct(ks[..n]);
    }
  }

  /** ... and each assigned key holds the value of its last assignment. */
  lemma {:induction false} AssignAllLastWins<V>(ks: seq<string>, vs: seq<V>, k: string)
    requires |ks| == |vs|
    ensures k in AssignAll(Empty(), ks, vs).entries <==> k in ks
    ensures k in ks ==> AssignAll(Empty(), ks, vs).entries[k] == vs[LastIndex(ks, k)]
    decreases |ks|
  {
    if ks != [] {
      var n := |ks| - 1;
      AssignAllLastWins(ks[..n], vs[..n], k);
      if k == ks[n] {
        LastIndexUnique(ks, k, n);
      } else if k in ks {
        assert k in ks[..n];
        var j := LastIndex(ks[..n], k);
        assert ks[j + 1..] == ks[..n][j + 1..] + [ks[n]];
        LastIndexUnique(ks, k, j);
      }
    }
  }
}
