/**
 * The generic white-noise signal: one variance contribution per selection
 * group, each broadcast over the observations through the group's boolean
 * mask and summed into one diagonal covariance vector.
 */
module WhiteNoise {
  import opened Naming

  /** `d[name] = v` on a dict seen through its key order: a new name goes last, an existing one keeps its place. */
  function DictInsert(d: seq<string>, name: string): (r: seq<string>)
    ensures name in r && d <= r
    ensures forall x :: x in r <==> x in d || x == name
    ensures |r| == if name in d then |d| else |d| + 1
    ensures Distinct(d) ==> Distinct(r)
  {
    if name in d then d else d + [name]
  }

  /** Inserting every name of `names`, in order. */
  function InsertAll(d: seq<string>, names: seq<string>): seq<string>
    decreases |names|
  {
    if names == [] then d else InsertAll(DictInsert(d, names[0]), names[1..])
  }

  /** Dict keys stay unique, old keys keep their positions, and the new ones are exactly those added. */
  lemma {:induction false} InsertAllDict(d: seq<string>, names: seq<string>)
    requires Distinct(d)
    ensures Distinct(InsertAll(d, names))
    ensures d <= InsertAll(d, names)
    ensures forall x :: x in InsertAll(d, names) <==> x in d || x in names
    decreases |names|
  {
    if names != [] {
      var d' := DictInsert(d, names[0]);
      assert Distinct(d');
      InsertAllDict(d', names[1..]);
      forall x ensures x in names <==> x == names[0] || x in names[1..] {
        assert names == [names[0]] + names[1..];
      }
    }
  }

  /** The parameter prefixes of the groups, in key order. */
  function Prefixes(psrName: string, signalName: string, keys: seq<string>): (r: seq<string>)
    ensures |r| == |keys|
  {
    seq(|keys|, i requires 0 <= i < |keys| => ParamPrefix(psrName, signalName, keys[i]))
  }

  /**
   * The `_params` dict's names after registering, group by group, the
   * parameters that the variance function creates for each prefix.
   */
  function CollectParams(prefixes: seq<string>, paramsOf: string -> seq<string>): seq<string>
    decreases |prefixes|
  {
    if prefixes == [] then []
    else InsertAll(CollectParams(prefixes[..|prefixes| - 1], paramsOf), paramsOf(prefixes[|prefixes| - 1]))
  }

  /** One more group registers its parameters after those of the groups before it. */
  lemma CollectParamsStep(prefixes: seq<string>, i: nat, paramsOf: string -> seq<string>)
    requires i < |prefixes|
    ensures CollectParams(prefixes[..i + 1], paramsOf)
         == InsertAll(CollectParams(prefixes[..i], paramsOf), paramsOf(prefixes[i]))
  {
    assert prefixes[..i + 1][..i] == prefixes[..i];
  }

  /** Every parameter of every group is registered exactly once. */
  lemma {:induction false} CollectParamsExact(prefixes: seq<string>, paramsOf: string -> seq<string>)
    ensures Distinct(CollectParams(prefixes, paramsOf))
    ensures forall x :: x in CollectParams(prefixes, paramsOf)
                        <==> exists i :: 0 <= i < |prefixes| && x in paramsOf(prefixes[i])
    decreases |prefixes|
  {
    if prefixes != [] {
      var init := prefixes[..|prefixes| - 1];
      var last := prefixes[|prefixes| - 1];
      CollectParamsExact(init, paramsOf);
      InsertAllDict(CollectParams(init, paramsOf), paramsOf(last));
      forall x
        ensures x in CollectParams(prefixes, paramsOf)
                <==> exists i :: 0 <= i < |prefixes| && x in paramsOf(prefixes[i])
      {
        if x in paramsOf(last) {
          assert x in paramsOf(prefixes[|prefixes| - 1]);
        }
        if exists i :: 0 <= i < |prefixes| && x in paramsOf(prefixes[i]) {
          var i :| 0 <= i < |prefixes| && x in paramsOf(prefixes[i]);
          if i < |prefixes| - 1 {
            assert prefixes[i] == init[i];
          }
        }
      }
    }
  }

  /** The masked value `v * mask` of one group at observation j (True counts 1, False 0). */
  function MaskedTerm(v: seq<real>, mask: seq<bool>, j: int): real
    requires 0 <= j < |v| && j < |mask|
  {
    if mask[j] then v[j] else 0.0
  }

  /** Entry j of the diagonal after the first |keys| groups have been added. */
  function MaskedSum(keys: seq<string>, masks: seq<seq<bool>>, variances: map<string, seq<real>>, j: nat): real
    requires |masks| == |keys|
    requires forall i :: 0 <= i < |keys| ==> keys[i] in variances && j < |variances[keys[i]]| && j < |masks[i]|
    decreases |keys|
  {
    if keys == [] then 0.0
    else
      var m := |keys| - 1;
      MaskedSum(keys[..m], masks[..m], variances, j) + MaskedTerm(variances[keys[m]], masks[m], j)
  }

  /** An observation that no group's mask selects gets no white noise. */
  lemma {:induction false} MaskedSumUncovered(keys: seq<string>, masks: seq<seq<bool>>, variances: map<string, seq<real>>, j: nat)
    requires |masks| == |keys|
    requires forall i :: 0 <= i < |keys| ==> keys[i] in variances && j < |variances[keys[i]]| && j < |masks[i]|
    requires forall i :: 0 <= i < |masks| ==> !masks[i][j]
    ensures MaskedSum(keys, masks, variances, j) == 0.0
    decreases |keys|
  {
    if keys != [] {
      var m := |keys| - 1;
      MaskedSumUncovered(keys[..m], masks[..m], variances, j);
    }
  }

  /** An observation selected by exactly one group gets exactly that group's variance. */
  lemma {:induction false} MaskedSumSingleGroup(keys: seq<string>, masks: seq<seq<bool>>, variances: map<string, seq<real>>, j: nat, g: nat)
    requires |masks| == |keys|
    requires forall i :: 0 <= i < |keys| ==> keys[i] in variances && j < |variances[keys[i]]| && j < |masks[i]|
    requires g < |keys| && masks[g][j]
    requires forall i :: 0 <= i < |masks| && i != g ==> !masks[i][j]
    ensures MaskedSum(keys, masks, variances, j) == variances[keys[g]][j]
    decreases |keys|
  {
    var m := |keys| - 1;
    if g == m {
      MaskedSumUncovered(keys[..m], masks[..m], variances, j);
    } else {
      MaskedSumSingleGroup(keys[..m], masks[..m], variances, j, g);
    }
  }

  /** Overlapping masks add up: selecting an observation in one more group adds that group's variance. */
  lemma {:induction false} MaskedSumAddsGroup(keys: seq<string>, masks: seq<seq<bool>>, masks': seq<seq<bool>>,
                                              variances: map<string, seq<real>>, j: nat, g: nat)
    requires |masks| == |keys| == |masks'|
    requires forall i :: 0 <= i < |keys| ==> keys[i] in variances && j < |variances[keys[i]]| && j < |masks[i]| && j < |masks'[i]|
    requires g < |keys| && !masks[g][j] && masks'[g][j]
    requires forall i :: 0 <= i < |keys| && i != g ==> masks'[i][j] == masks[i][j]
    ensures MaskedSum(keys, masks', variances, j) == MaskedSum(keys, masks, variances, j) + variances[keys[g]][j]
    decreases |keys|
  {
    var m := |keys| - 1;
    if g == m {
      MaskedSumSame(keys[..m], masks[..m], masks'[..m], variances, j);
    } else {
      MaskedSumAddsGroup(keys[..m], masks[..m], masks'[..m], variances, j, g);
    }
  }

  lemma {:induction false} MaskedSumSame(keys: seq<string>, masks: seq<seq<bool>>, masks': seq<seq<bool>>,
                                         variances: map<string, seq<real>>, j: nat)
    requires |masks| == |keys| == |masks'|
    requires forall i :: 0 <= i < |keys| ==> keys[i] in variances && j < |variances[keys[i]]| && j < |masks[i]| && j < |masks'[i]|
    requires forall i :: 0 <= i < |keys| ==> masks'[i][j] == masks[i][j]
    ensures MaskedSum(keys, masks', variances, j) == MaskedSum(keys, masks, variances, j)
    decreases |keys|
  {
    if keys != [] {
      var m := |keys| - 1;
      MaskedSumSame(keys[..m], masks[..m], masks'[..m], variances, j);
    }
  }

  /** A white-noise signal attached to one pulsar with `n` observations. */
  class WhiteNoiseSignal {
    const n: nat
    /** Selection keys in sorted order, and each key's mask at the same index. */
    var keys: seq<string>
    var masks: seq<seq<bool>>
    /** `_ndiag`: for each key, the prefix its variance contribution was built with. */
    var ndiag: map<string, string>
    /** `_params`: the parameter names, in the order they were registered. */
    var params: seq<string>

    ghost predicate Valid()
      reads this
    {
      && |masks| == |keys|
      && StrictlySorted(keys)
      && (forall i :: 0 <= i < |masks| ==> |masks[i]| == n)
      && (forall k :: k in ndiag <==> k in keys)
    }

    /**
     * `__init__`: the signal keeps what `_do_selection` computes from the
     * pulsar's selection. `paramsOf(prefix)` stands for the names of the
     * parameters that the variance function creates when built with that
     * prefix.
     */
    constructor (psrName: string, signalName: string, n: nat, sel: map<string, seq<bool>>,
                 paramsOf: string -> seq<string>)
      requires forall k :: k in sel ==> |sel[k]| == n
      ensures Valid() && this.n == n
      ensures keys == SortedKeys(sel.Keys)
      ensures forall i :: 0 <= i < |keys| ==> masks[i] == sel[keys[i]]
      ensures forall k :: k in ndiag <==> k in sel
      ensures forall k :: k in ndiag ==> ndiag[k] == ParamPrefix(psrName, signalName, k)
      ensures params == CollectParams(Prefixes(psrName, signalName, keys), paramsOf)
    {
      var ks, ms, nd, ps := DoSelection(psrName, signalName, sel, paramsOf);
      this.n, keys, masks, ndiag, params := n, ks, ms, nd, ps;
    }

    /**
     * `_do_selection`: sort the selection's keys, align the masks with them,
     * build each group's contribution under its parameter prefix and register
     * the contribution's parameters.
     */
    static method DoSelection(psrName: string, signalName: string, sel: map<string, seq<bool>>,
                              paramsOf: string -> seq<string>)
      returns (keys: seq<string>, masks: seq<seq<bool>>, ndiag: map<string, string>, params: seq<string>)
      ensures keys == SortedKeys(sel.Keys)
      ensures |masks| == |keys| && forall i :: 0 <= i < |keys| ==> masks[i] == sel[keys[i]]
      ensures forall k :: k in ndiag <==> k in sel
      ensures forall k :: k in ndiag ==> ndiag[k] == ParamPrefix(psrName, signalName, k)
      ensures params == CollectParams(Prefixes(psrName, signalName, keys), paramsOf)
    {
      keys := SortedKeys(sel.Keys);
      masks := seq(|keys|, i requires 0 <= i < |keys| => sel[keys[i]]);
      ndiag, params := map[], [];
      var prefixes := Prefixes(psrName, signalName, keys);
      for i := 0 to |keys|
        invariant NamedUpTo(psrName, signalName, keys, i, ndiag)
        invariant params == CollectParams(prefixes[..i], paramsOf)
      {
        var key := keys[i];
        var pname := ParamPrefix(psrName, signalName, key);
        NamedStep(psrName, signalName, keys, i, ndiag);
        ndiag := ndiag[key := pname];
        CollectParamsStep(prefixes, i, paramsOf);
        params := Register(params, paramsOf(pname));
      }
      assert prefixes[..|keys|] == prefixes;
    }

    /** The first `upto` keys, and only keys, have their prefix recorded in `_ndiag`. */
    static ghost predicate NamedUpTo(psrName: string, signalName: string, keys: seq<string>, upto: nat,
                                     ndiag: map<string, string>)
    {
      && upto <= |keys|
      && (forall t :: 0 <= t < upto ==> keys[t] in ndiag)
      && (forall k :: k in ndiag ==> k in keys && ndiag[k] == ParamPrefix(psrName, signalName, k))
    }

    /** Recording one more key's prefix extends the recorded range by one. */
    static lemma NamedStep(psrName: string, signalName: string, keys: seq<string>, i: nat,
                           ndiag: map<string, string>)
      requires i < |keys| && NamedUpTo(psrName, signalName, keys, i, ndiag)
      ensures NamedUpTo(psrName, signalName, keys, i + 1, ndiag[keys[i] := ParamPrefix(psrName, signalName, keys[i])])
    {
    }

    /** The inner loop of `_do_selection`: one contribution's parameters go into the dict, in order. */
    static method Register(d: seq<string>, names: seq<string>) returns (r: seq<string>)
      ensures r == InsertAll(d, names)
    {
      r := d;
      for t := 0 to |names|
        invariant InsertAll(r, names[t..]) == InsertAll(d, names)
      {
        InsertAllStep(r, names, t);
        r := DictInsert(r, names[t]);
      }
    }

    /** Registering the names from position t on is registering name t, then the rest. */
    static lemma InsertAllStep(d: seq<string>, names: seq<string>, t: nat)
      requires t < |names|
      ensures InsertAll(d, names[t..]) == InsertAll(DictInsert(d, names[t]), names[t + 1..])
    {
      assert names[t..][1..] == names[t + 1..];
    }

    /**
     * `get_ndiag`: the diagonal noise vector, the sum over the groups (in key
     * order) of each group's variance vector times its mask.
     * `variances[k]` is the value of key k's variance contribution at the
     * current parameters.
     */
    method GetNdiag(variances: map<string, seq<real>>) returns (ret: seq<real>)
      requires Valid()
      requires forall k :: k in keys ==> k in variances && |variances[k]| == n
      ensures |ret| == n
      ensures forall j :: 0 <= j < n ==> ret[j] == MaskedSum(keys, masks, variances, j)
    {
      ret := seq(n, _ => 0.0);
      for i := 0 to |keys|
        invariant |ret| == n
        invariant forall j :: 0 <= j < n ==> ret[j] == MaskedSum(keys[..i], masks[..i], variances, j)
      {
        var v, mask := variances[keys[i]], masks[i];
        ret := seq(n, j requires 0 <= j < n => ret[j] + MaskedTerm(v, mask, j));
        assert keys[..i + 1][..i] == keys[..i] && masks[..i + 1][..i] == masks[..i];
      }
      assert keys[..|keys|] == keys && masks[..|keys|] == masks;
    }
  }
}
