/**
 * The three representations of the ECORR (epoch-correlated) covariance and
 * the dense matrix each one stands for. All three are built from the same
 * per-key epoch slices and one amplitude per key.
 */
module EcorrForms {
  import opened Wrappers
  import opened Epochs

  /** The supported ways of representing the covariance. */
  datatype Method = ShermanMorrison | Block | Sparse

  function MethodName(m: Method): string {
    match m
    case ShermanMorrison => "sherman-morrison"
    case Block => "block"
    case Sparse => "sparse"
  }

  /** The method check run before any signal class is built; an unknown name is a TypeError. */
  function ParseMethod(name: string): (r: Result<Method, string>)
    ensures r.Success? <==> name in ["sherman-morrison", "block", "sparse"]
    ensures r.Success? ==> MethodName(r.value) == name
    ensures r.Failure? ==> r.error == "EcorrKernelNoise does not support method: " + name
  {
    if name == "sherman-morrison" then Success(ShermanMorrison)
    else if name == "block" then Success(Block)
    else if name == "sparse" then Success(Sparse)
    else Failure("EcorrKernelNoise does not support method: " + name)
  }

  /** Each supported method's name is accepted, and gives back that method. */
  lemma ParseMethodName(m: Method)
    ensures ParseMethod(MethodName(m)) == Success(m)
  {
  }

  /** `signal_name = 'ecorr_' + method`: the method can be read back from the signal name. */
  function SignalName(m: Method): (r: string)
    ensures |r| > 6 && r[..6] == "ecorr_" && r[6..] == MethodName(m)
    ensures ParseMethod(r[6..]) == Success(m)
  {
    "ecorr_" + MethodName(m)
  }

  // ---- the per-key epoch slices, flattened in key order -------------------

  /** Every key has its slice list. */
  predicate HasSlices(keys: seq<string>, slices: map<string, seq<Slice>>) {
    forall k :: k in keys ==> k in slices
  }

  /** `sum([slices[key] for key in keys], [])`. */
  function Flatten(keys: seq<string>, slices: map<string, seq<Slice>>): seq<Slice>
    requires HasSlices(keys, slices)
  {
    if keys == [] then [] else slices[keys[0]] + Flatten(keys[1..], slices)
  }

  /** The key each flattened slice came from. */
  function OwnerKeys(keys: seq<string>, slices: map<string, seq<Slice>>): (r: seq<string>)
    requires HasSlices(keys, slices)
    ensures |r| == |Flatten(keys, slices)|
    ensures forall j :: 0 <= j < |r| ==> r[j] in keys
  {
    if keys == [] then []
    else seq(|slices[keys[0]]|, _ => keys[0]) + OwnerKeys(keys[1..], slices)
  }

  /** One amplitude per slice: `ones(len(slices[key])) * amp(value of key)`, concatenated in key order. */
  function Amplitudes(keys: seq<string>, slices: map<string, seq<Slice>>,
                      amp: real -> real, get: string -> real): seq<real>
    requires HasSlices(keys, slices)
  {
    if keys == [] then []
    else seq(|slices[keys[0]]|, _ => amp(get(keys[0]))) + Amplitudes(keys[1..], slices, amp, get)
  }

  lemma {:induction false} AmplitudesOfOwners(keys: seq<string>, slices: map<string, seq<Slice>>,
                                              amp: real -> real, get: string -> real)
    requires HasSlices(keys, slices)
    ensures |Amplitudes(keys, slices, amp, get)| == |Flatten(keys, slices)|
    ensures forall j :: 0 <= j < |Flatten(keys, slices)| ==>
      Amplitudes(keys, slices, amp, get)[j] == amp(get(OwnerKeys(keys, slices)[j]))
  {
    if keys != [] {
      AmplitudesOfOwners(keys[1..], slices, amp, get);
    }
  }

  /**
   * `_get_jvecs`: the slices of every key in key order and, for each, the
   * amplitude of the key it belongs to. With no key at all the concatenation
   * has nothing to join and raises.
   */
  function GetJvecs(keys: seq<string>, slices: map<string, seq<Slice>>,
                    amp: real -> real, get: string -> real): (r: Result<(seq<Slice>, seq<real>), string>)
    requires HasSlices(keys, slices)
    ensures r.Failure? <==> keys == []
    ensures r.Success? ==> r.value.0 == Flatten(keys, slices) && |r.value.1| == |r.value.0|
    ensures r.Success? ==> forall j :: 0 <= j < |r.value.1| ==> r.value.1[j] == amp(get(OwnerKeys(keys, slices)[j]))
  {
    AmplitudesOfOwners(keys, slices, amp, get);
    if keys == [] then Failure("need at least one array to concatenate")
    else Success((Flatten(keys, slices), Amplitudes(keys, slices, amp, get)))
  }

  /** Position of key i's first slice in the flattened list. */
  function FlatStart(keys: seq<string>, slices: map<string, seq<Slice>>, i: nat): nat
    requires HasSlices(keys, slices) && i <= |keys|
  {
    if i == 0 then 0 else |slices[keys[0]]| + FlatStart(keys[1..], slices, i - 1)
  }

  /** Slice j of key i sits at position FlatStart(i) + j of the flattened list, and key i owns it. */
  lemma {:induction false} FlatIndex(keys: seq<string>, slices: map<string, seq<Slice>>, i: nat, j: nat)
    requires HasSlices(keys, slices)
    requires i < |keys| && j < |slices[keys[i]]|
    ensures FlatStart(keys, slices, i) + j < |Flatten(keys, slices)|
    ensures Flatten(keys, slices)[FlatStart(keys, slices, i) + j] == slices[keys[i]][j]
    ensures OwnerKeys(keys, slices)[FlatStart(keys, slices, i) + j] == keys[i]
  {
    if i > 0 {
      FlatIndex(keys[1..], slices, i - 1, j);
    }
  }

  /**
   * The flattened list is laid out like the columns of U: key i's slices
   * start where key i's epochs start.
   */
  lemma {:induction false} FlatStartIsStart(keys: seq<string>, slices: map<string, seq<Slice>>, counts: seq<nat>, i: nat)
    requires HasSlices(keys, slices) && i <= |keys|
    requires |counts| == |keys| && forall t :: 0 <= t < |keys| ==> counts[t] == |slices[keys[t]]|
    ensures FlatStart(keys, slices, i) == Start(counts, i)
  {
    if i > 0 {
      FlatStartIsStart(keys[1..], slices, counts[1..], i - 1);
      StartShift(counts, i);
    }
  }

  /** Every position m of the flattened list is slice j of some key i, at m == FlatStart(i) + j. */
  function FlatPosition(keys: seq<string>, slices: map<string, seq<Slice>>, m: nat): (ij: (nat, nat))
    requires HasSlices(keys, slices)
    requires m < |Flatten(keys, slices)|
    ensures ij.0 < |keys| && ij.1 < |slices[keys[ij.0]]|
    ensures m == FlatStart(keys, slices, ij.0) + ij.1
    ensures Flatten(keys, slices)[m] == slices[keys[ij.0]][ij.1]
    ensures OwnerKeys(keys, slices)[m] == keys[ij.0]
    decreases |keys|
  {
    if m < |slices[keys[0]]| then (0, m)
    else
      var ij := FlatPosition(keys[1..], slices, m - |slices[keys[0]]|);
      (ij.0 + 1, ij.1)
  }

  /** The flattened list is as long as all slice lists together (the `nepoch` of the slices). */
  lemma {:induction false} FlatLength(keys: seq<string>, slices: map<string, seq<Slice>>, counts: seq<nat>)
    requires HasSlices(keys, slices)
    requires |counts| == |keys| && forall t :: 0 <= t < |keys| ==> counts[t] == |slices[keys[t]]|
    ensures |Flatten(keys, slices)| == Sum(counts)
  {
    if keys != [] {
      FlatLength(keys[1..], slices, counts[1..]);
    }
  }

  /** Every slice of every key lies in the n observations. */
  predicate SlicesWithin(n: nat, keys: seq<string>, slices: map<string, seq<Slice>>)
    requires HasSlices(keys, slices)
  {
    forall k, j :: k in keys && 0 <= j < |slices[k]| ==> WellFormed(slices[k][j], n)
  }

  /** Every slice of every key lies in the n observations and no two slices overlap. */
  predicate SlicesApart(n: nat, keys: seq<string>, slices: map<string, seq<Slice>>)
    requires HasSlices(keys, slices)
  {
    && SlicesWithin(n, keys, slices)
    && (forall p, q, i, j ::
          (p in keys && q in keys && 0 <= i < |slices[p]| && 0 <= j < |slices[q]| && (p != q || i != j))
          ==> Apart(slices[p][i], slices[q][j]))
  }

  /** No two slices of a list overlap. */
  predicate Pairwise(ss: seq<Slice>) {
    forall i, j :: 0 <= i < |ss| && 0 <= j < |ss| && i != j ==> Apart(ss[i], ss[j])
  }

  /** With distinct keys, per-key disjointness carries over to the flattened list. */
  lemma FlattenApart(n: nat, keys: seq<string>, slices: map<string, seq<Slice>>)
    requires HasSlices(keys, slices) && SlicesApart(n, keys, slices)
    requires forall a, b :: 0 <= a < b < |keys| ==> keys[a] != keys[b]
    ensures Pairwise(Flatten(keys, slices))
  {
    var flat := Flatten(keys, slices);
    forall x, y | 0 <= x < |flat| && 0 <= y < |flat| && x != y
      ensures Apart(flat[x], flat[y])
    {
      FlatPairApart(n, keys, slices, x, y);
    }
  }

  /** Two different positions of the flattened list come from two different (key, slice) pairs. */
  lemma FlatPairApart(n: nat, keys: seq<string>, slices: map<string, seq<Slice>>, x: nat, y: nat)
    requires HasSlices(keys, slices) && SlicesApart(n, keys, slices)
    requires forall a, b :: 0 <= a < b < |keys| ==> keys[a] != keys[b]
    requires x < |Flatten(keys, slices)| && y < |Flatten(keys, slices)| && x != y
    ensures Apart(Flatten(keys, slices)[x], Flatten(keys, slices)[y])
  {
    var (i, j) := FlatPosition(keys, slices, x);
    var (i', j') := FlatPosition(keys, slices, y);
    assert i != i' ==> keys[i] != keys[i'];
  }

  // ---- the dense matrix each representation stands for --------------------

  predicate Covers(s: Slice, r: int, c: int) {
    Contains(s, r) && Contains(s, c)
  }

  /**
   * The outer-product form: entry (r, c) of the sum over epochs j of
   * `jvec[j] * u_j u_j^T`, u_j the indicator vector of slice j.
   */
  function OuterDense(jvec: seq<real>, ss: seq<Slice>, r: int, c: int): real
    requires |jvec| == |ss|
  {
    if ss == [] then 0.0
    else (if Covers(ss[0], r, c) then jvec[0] else 0.0) + OuterDense(jvec[1..], ss[1..], r, c)
  }

  /** Each block is the square of its slice's size. */
  predicate BlocksFit(blocks: seq<seq<seq<real>>>, ss: seq<Slice>) {
    && |blocks| == |ss|
    && forall j :: 0 <= j < |ss| ==>
         (|blocks[j]| == Size(ss[j]) && forall a :: 0 <= a < |blocks[j]| ==> |blocks[j][a]| == Size(ss[j]))
  }

  /** The block form: entry (r, c) of the matrix with each block placed on its slice's square. */
  function BlockDense(blocks: seq<seq<seq<real>>>, ss: seq<Slice>, r: int, c: int): real
    requires BlocksFit(blocks, ss)
  {
    if ss == [] then 0.0
    else
      (if Covers(ss[0], r, c) && ss[0].start <= ss[0].stop
       then blocks[0][r - ss[0].start][c - ss[0].start] else 0.0)
      + BlockDense(blocks[1..], ss[1..], r, c)
  }

  /** Block j is `(stop - start) x (stop - start)` with every entry `jvec[j]`. */
  predicate ConstantBlocks(blocks: seq<seq<seq<real>>>, ss: seq<Slice>, jvec: seq<real>) {
    && BlocksFit(blocks, ss) && |jvec| == |ss|
    && forall j, a, b :: 0 <= j < |ss| && 0 <= a < |blocks[j]| && 0 <= b < |blocks[j][a]| ==> blocks[j][a][b] == jvec[j]
  }

  /** The block form and the outer-product form stand for the same matrix. */
  lemma {:induction false} BlockDenseIsOuterDense(blocks: seq<seq<seq<real>>>, ss: seq<Slice>, jvec: seq<real>, r: int, c: int)
    requires ConstantBlocks(blocks, ss, jvec)
    ensures BlockDense(blocks, ss, r, c) == OuterDense(jvec, ss, r, c)
  {
    if ss != [] {
      assert ConstantBlocks(blocks[1..], ss[1..], jvec[1..]) by {
        forall j, a, b | 0 <= j < |ss| - 1 && 0 <= a < |blocks[1..][j]| && 0 <= b < |blocks[1..][j][a]|
          ensures blocks[1..][j][a][b] == jvec[1..][j]
        {
          assert blocks[1..][j] == blocks[j + 1];
        }
      }
      BlockDenseIsOuterDense(blocks[1..], ss[1..], jvec[1..], r, c);
    }
  }

  /** With no two slices overlapping, the outer-product entry is the covering slice's amplitude, or zero. */
  lemma {:induction false} OuterDenseAt(jvec: seq<real>, ss: seq<Slice>, r: int, c: int, j: nat)
    requires |jvec| == |ss| && Pairwise(ss)
    requires j < |ss| && Covers(ss[j], r, c)
    ensures OuterDense(jvec, ss, r, c) == jvec[j]
  {
    if j == 0 {
      OuterDenseNone(jvec[1..], ss[1..], r, c);
    } else {
      assert Pairwise(ss[1..]) by {
        forall x, y | 0 <= x < |ss| - 1 && 0 <= y < |ss| - 1 && x != y ensures Apart(ss[1..][x], ss[1..][y]) {
          assert ss[1..][x] == ss[x + 1] && ss[1..][y] == ss[y + 1];
        }
      }
      assert Apart(ss[0], ss[j]);
      OuterDenseAt(jvec[1..], ss[1..], r, c, j - 1);
    }
  }

  /** Where no slice reaches, the outer-product entry is zero. */
  lemma {:induction false} OuterDenseNone(jvec: seq<real>, ss: seq<Slice>, r: int, c: int)
    requires |jvec| == |ss|
    requires forall j :: 0 <= j < |ss| ==> !Covers(ss[j], r, c)
    ensures OuterDense(jvec, ss, r, c) == 0.0
  {
    if ss != [] {
      assert !Covers(ss[0], r, c);
      OuterDenseNone(jvec[1..], ss[1..], r, c);
    }
  }

  // ---- the sparse form ------------------------------------------------------

  /** Some slice of the list with more than one observation covers entry (r, c). */
  predicate CoversLong(ss: seq<Slice>, r: int, c: int) {
    exists j :: 0 <= j < |ss| && Size(ss[j]) > 1 && Covers(ss[j], r, c)
  }

  /** The key (first in key order) that owns a block of size > 1 covering entry (r, c). */
  function BlockOwner(keys: seq<string>, slices: map<string, seq<Slice>>, r: int, c: int): (o: Option<string>)
    requires HasSlices(keys, slices)
    ensures o.Some? ==> o.value in keys && CoversLong(slices[o.value], r, c)
    ensures o.None? ==> forall k :: k in keys ==> !CoversLong(slices[k], r, c)
  {
    if keys == [] then None
    else if CoversLong(slices[keys[0]], r, c) then Some(keys[0])
    else BlockOwner(keys[1..], slices, r, c)
  }

  /** A block of size > 1 of key p covering (r, c) makes p the owner: blocks of different keys do not overlap. */
  lemma BlockOwnerIs(n: nat, keys: seq<string>, slices: map<string, seq<Slice>>, p: string, r: int, c: int)
    requires HasSlices(keys, slices) && SlicesApart(n, keys, slices)
    requires p in keys && CoversLong(slices[p], r, c)
    ensures BlockOwner(keys, slices, r, c) == Some(p)
  {
    var j :| 0 <= j < |slices[p]| && Size(slices[p][j]) > 1 && Covers(slices[p][j], r, c);
    var q := BlockOwner(keys, slices, r, c).value;
    var i :| 0 <= i < |slices[q]| && Size(slices[q][i]) > 1 && Covers(slices[q][i], r, c);
    assert !Apart(slices[p][j], slices[q][i]);
  }

  /** Adding key i to the keys already visited adds exactly its blocks of size > 1. */
  lemma BlockOwnerExtend(keys: seq<string>, slices: map<string, seq<Slice>>, i: nat)
    requires HasSlices(keys, slices) && i < |keys|
    ensures forall r, c :: BlockOwner(keys[..i + 1], slices, r, c).Some?
                           == (BlockOwner(keys[..i], slices, r, c).Some? || CoversLong(slices[keys[i]], r, c))
  {
    forall r, c
      ensures BlockOwner(keys[..i + 1], slices, r, c).Some?
              == (BlockOwner(keys[..i], slices, r, c).Some? || CoversLong(slices[keys[i]], r, c))
    {
      var o, o' := BlockOwner(keys[..i + 1], slices, r, c), BlockOwner(keys[..i], slices, r, c);
      if o'.Some? {
        assert o'.value in keys[..i + 1];
      }
      if CoversLong(slices[keys[i]], r, c) {
        assert keys[i] in keys[..i + 1];
      }
      if o.Some? {
        var t :| 0 <= t < i + 1 && keys[t] == o.value;
        if t < i {
          assert keys[t] in keys[..i];
        }
      }
    }
  }

  /**
   * The sparse matrix once every key's blocks carry their amplitude: inside a
   * block of size > 1 of key p, `amp(value of p)`; everywhere else zero.
   */
  function SparseDense(keys: seq<string>, slices: map<string, seq<Slice>>,
                       amp: real -> real, get: string -> real, r: int, c: int): real
    requires HasSlices(keys, slices)
  {
    match BlockOwner(keys, slices, r, c)
    case Some(p) => amp(get(p))
    case None => 0.0
  }

  /**
   * When every epoch has at least two observations, the sparse form and the
   * outer-product form (and so the block form) stand for the same matrix.
   */
  lemma SparseDenseIsOuterDense(n: nat, keys: seq<string>, slices: map<string, seq<Slice>>,
                                amp: real -> real, get: string -> real, r: int, c: int)
    requires HasSlices(keys, slices) && SlicesApart(n, keys, slices) && keys != []
    requires forall a, b :: 0 <= a < b < |keys| ==> keys[a] != keys[b]
    requires forall k, j :: k in keys && 0 <= j < |slices[k]| ==> Size(slices[k][j]) > 1
    ensures GetJvecs(keys, slices, amp, get).Success?
    ensures var jv := GetJvecs(keys, slices, amp, get).value;
      SparseDense(keys, slices, amp, get, r, c) == OuterDense(jv.1, jv.0, r, c)
  {
    FlattenApart(n, keys, slices);
    match BlockOwner(keys, slices, r, c)
    case Some(p) =>
      var j :| 0 <= j < |slices[p]| && Size(slices[p][j]) > 1 && Covers(slices[p][j], r, c);
      var i :| 0 <= i < |keys| && keys[i] == p;
      OuterDenseInBlock(keys, slices, amp, get, i, j, r, c);
    case None =>
      OuterDenseOutside(keys, slices, amp, get, r, c);
  }

  /** Inside a slice of key i the outer-product form is key i's amplitude. */
  lemma OuterDenseInBlock(keys: seq<string>, slices: map<string, seq<Slice>>,
                          amp: real -> real, get: string -> real, i: nat, j: nat, r: int, c: int)
    requires HasSlices(keys, slices) && Pairwise(Flatten(keys, slices))
    requires i < |keys| && j < |slices[keys[i]]| && Covers(slices[keys[i]][j], r, c)
    ensures GetJvecs(keys, slices, amp, get).Success?
    ensures var jv := GetJvecs(keys, slices, amp, get).value;
      OuterDense(jv.1, jv.0, r, c) == amp(get(keys[i]))
  {
    var jv := GetJvecs(keys, slices, amp, get).value;
    FlatIndex(keys, slices, i, j);
    OuterDenseAt(jv.1, jv.0, r, c, FlatStart(keys, slices, i) + j);
  }

  /** Outside every block of size > 1, when all slices have size > 1, the outer-product form is zero. */
  lemma OuterDenseOutside(keys: seq<string>, slices: map<string, seq<Slice>>,
                          amp: real -> real, get: string -> real, r: int, c: int)
    requires HasSlices(keys, slices) && keys != []
    requires forall k, j :: k in keys && 0 <= j < |slices[k]| ==> Size(slices[k][j]) > 1
    requires forall k :: k in keys ==> !CoversLong(slices[k], r, c)
    ensures GetJvecs(keys, slices, amp, get).Success?
    ensures var jv := GetJvecs(keys, slices, amp, get).value;
      OuterDense(jv.1, jv.0, r, c) == 0.0
  {
    var flat := Flatten(keys, slices);
    forall m | 0 <= m < |flat| ensures !Covers(flat[m], r, c) {
      var (i, j) := FlatPosition(keys, slices, m);
      assert !CoversLong(slices[keys[i]], r, c);
      assert Size(slices[keys[i]][j]) > 1;
    }
    OuterDenseNone(GetJvecs(keys, slices, amp, get).value.1, flat, r, c);
  }
}
