/**
 * The ECORR kernel-noise signal for one pulsar: the epoch slices of every
 * selection group, fixed at construction, and the covariance in the
 * representation chosen by the method. For the sparse method an n x n
 * matrix is allocated once and its blocks are overwritten on every call.
 */
module EcorrNoise {
  import opened Wrappers
  import opened Naming
  import opened Epochs
  import opened EcorrForms

  /** `Ns[slc, slc] = v`: every entry of the slice's square becomes v; nothing else changes. */
  method FillBlock(M: array2<real>, s: Slice, v: real)
    requires s.start <= s.stop <= M.Length0 && s.stop <= M.Length1
    modifies M
    ensures forall r, c :: 0 <= r < M.Length0 && 0 <= c < M.Length1 ==>
      M[r, c] == if Covers(s, r, c) then v else old(M[r, c])
  {
    for r := s.start to s.stop
      invariant forall r', c :: 0 <= r' < M.Length0 && 0 <= c < M.Length1 ==>
        M[r', c] == if s.start <= r' < r && Contains(s, c) then v else old(M[r', c])
    {
      for c := s.start to s.stop
        invariant forall r', c' :: 0 <= r' < M.Length0 && 0 <= c' < M.Length1 ==>
          M[r', c'] == if (s.start <= r' < r || (r' == r && s.start <= c' < c)) && Contains(s, c') then v
                       else old(M[r', c'])
      {
        M[r, c] := v;
      }
    }
  }

  /**
   * The inner loop shared by `_setup_sparse` and `_get_ndiag_sparse`: every
   * slice of size > 1 in the list gets its square set to v; nothing else changes.
   */
  method FillLong(M: array2<real>, ss: seq<Slice>, v: real)
    requires forall j :: 0 <= j < |ss| ==> ss[j].start <= ss[j].stop <= M.Length0 && ss[j].stop <= M.Length1
    modifies M
    ensures forall r, c :: 0 <= r < M.Length0 && 0 <= c < M.Length1 ==>
      M[r, c] == if CoversLong(ss, r, c) then v else old(M[r, c])
  {
    for j := 0 to |ss|
      invariant forall r, c :: 0 <= r < M.Length0 && 0 <= c < M.Length1 ==>
        M[r, c] == if CoversLong(ss[..j], r, c) then v else old(M[r, c])
    {
      if ss[j].stop - ss[j].start > 1 {
        FillBlock(M, ss[j], v);
      }
      assert ss[..j + 1] == ss[..j] + [ss[j]];
    }
    assert ss[..|ss|] == ss;
  }

  /** Every entry outside the blocks of size > 1 is zero. */
  ghost predicate ZeroOutsideBlocks(M: array2<real>, n: nat, keys: seq<string>, slices: map<string, seq<Slice>>)
    requires HasSlices(keys, slices)
    reads M
  {
    forall r, c ::
      (0 <= r < n && 0 <= c < n && 0 <= r < M.Length0 && 0 <= c < M.Length1
       && BlockOwner(keys, slices, r, c).None?) ==> M[r, c] == 0.0
  }

  /** Every selected key has quantization output that fits its mask and the n observations. */
  predicate QuantsFit(n: nat, sel: map<string, seq<bool>>, quant: map<string, Quantization>) {
    forall k :: k in sel ==> |sel[k]| == n && k in quant && Fits(quant[k], sel[k], n)
  }

  /** No two epoch slices, of the same key or of different keys, overlap. */
  predicate QuantsApart(sel: map<string, seq<bool>>, quant: map<string, Quantization>) {
    forall p, q, i, j ::
      (p in sel && q in sel && p in quant && q in quant && 0 <= i < |quant[p].slices| && 0 <= j < |quant[q].slices|
       && (p != q || i != j)) ==> Apart(quant[p].slices[i], quant[q].slices[j])
  }

  /** The covariance in the representation the method names. */
  datatype Covariance =
    | OuterProduct(jvec: seq<real>, slices: seq<Slice>)
    | Blocks(blocks: seq<seq<seq<real>>>, slices: seq<Slice>)
    | SparseMatrix(ns: array2<real>)

  /** `np.ones((nb, nb)) * jv`. */
  function ConstBlock(nb: nat, jv: real): (b: seq<seq<real>>)
    ensures |b| == nb && forall a :: 0 <= a < nb ==> |b[a]| == nb && forall c :: 0 <= c < nb ==> b[a][c] == jv
  {
    seq(nb, _ => seq(nb, _ => jv))
  }

  /** The loop of `_get_ndiag_block`: one constant square block per slice, in slice order. */
  method BlocksOf(jvec: seq<real>, ss: seq<Slice>) returns (blocks: seq<seq<seq<real>>>)
    requires |jvec| == |ss| && forall j :: 0 <= j < |ss| ==> ss[j].start <= ss[j].stop
    ensures ConstantBlocks(blocks, ss, jvec)
  {
    blocks := [];
    for j := 0 to |ss|
      invariant |blocks| == j
      invariant forall x :: 0 <= x < j ==> (
        && |blocks[x]| == Size(ss[x])
        && forall a :: 0 <= a < |blocks[x]| ==> (
          && |blocks[x][a]| == Size(ss[x])
          && forall b :: 0 <= b < |blocks[x][a]| ==> blocks[x][a][b] == jvec[x]))
    {
      var nb := ss[j].stop - ss[j].start;
      blocks := blocks + [ConstBlock(nb, jvec[j])];
    }
  }

  class EcorrKernelNoise {
    const kind: Method
    /** Number of observations of the pulsar. */
    const n: nat
    /** The amplitude law, `10**(2*x)` for a log10 amplitude x. */
    const amp: real -> real
    /** Selection keys in sorted order. */
    var keys: seq<string>
    /** The order in which the `_params` dict lists the keys. */
    var paramOrder: seq<string>
    /** `_slices`: each key's epoch slices. */
    var slices: map<string, seq<Slice>>
    /** `_Ns`: the sparse matrix (allocated only for the sparse method, empty otherwise). */
    var Ns: array2<real>

    /** The epoch structure fixed at construction. */
    ghost predicate LayoutValid()
      reads this`keys, this`slices, this`paramOrder
    {
      && StrictlySorted(keys)
      && HasSlices(keys, slices)
      && (forall k :: k in slices ==> k in keys)
      && SlicesApart(n, keys, slices)
      && Distinct(paramOrder)
      && (forall k :: k in paramOrder <==> k in keys)
    }

    ghost predicate Valid()
      reads this, Ns
    {
      && LayoutValid()
      && (kind == Sparse ==> Ns.Length0 == n && Ns.Length1 == n && ZeroOutsideBlocks(Ns, n, keys, slices))
    }

    /**
     * `__init__`: sort the keys, lay the epochs out key by key, and for the
     * sparse method allocate the matrix. `quant[k]` is what the quantization
     * utilities give for key k's observations; `paramOrder` is the key order
     * of the selection's parameter dict.
     */
    constructor (kind: Method, n: nat, sel: map<string, seq<bool>>, paramOrder: seq<string>,
                 quant: map<string, Quantization>, amp: real -> real)
      requires QuantsFit(n, sel, quant) && QuantsApart(sel, quant)
      requires Distinct(paramOrder) && forall k :: k in paramOrder <==> k in sel
      ensures Valid()
      ensures this.kind == kind && this.n == n && this.amp == amp && this.paramOrder == paramOrder
      ensures keys == SortedKeys(sel.Keys)
      ensures forall k :: k in slices <==> k in sel
      ensures forall k :: k in sel ==> slices[k] == quant[k].slices
      ensures kind == Sparse ==> fresh(Ns) && forall r, c :: 0 <= r < n && 0 <= c < n ==>
        Ns[r, c] == if BlockOwner(keys, slices, r, c).Some? then 1.0 else 0.0
    {
      var ks, sl := Layout(n, sel, quant);
      SlicesFromQuants(n, sel, quant, ks, sl);
      var M: array2<real>;
      if kind == Sparse {
        M := SetupSparse(n, ks, sl);
      } else {
        M := new real[0, 0];
      }
      this.kind, this.n, this.amp := kind, n, amp;
      keys, this.paramOrder, slices, Ns := ks, paramOrder, sl, M;
    }

    /** The layout part of `__init__`: the sorted keys and the `_slices` dict. */
    static method Layout(n: nat, sel: map<string, seq<bool>>, quant: map<string, Quantization>)
      returns (ks: seq<string>, sl: map<string, seq<Slice>>)
      requires QuantsFit(n, sel, quant)
      ensures ks == SortedKeys(sel.Keys) && StrictlySorted(ks)
      ensures forall k :: k in sl <==> k in sel
      ensures forall k :: k in sel ==> sl[k] == quant[k].slices
    {
      ks := SortedKeys(sel.Keys);
      var masks := seq(|ks|, i requires 0 <= i < |ks| => sel[ks[i]]);
      var quants := seq(|ks|, i requires 0 <= i < |ks| => quant[ks[i]]);
      SortedDistinct(ks);
      var U, netot;
      U, sl, netot := LayoutEpochs(n, ks, masks, quants);
      SlicesByKey(sel, quant, ks, quants, sl);
    }

    /** Slices recorded group by group in key order are the quantization's slices of each selection key. */
    static lemma SlicesByKey(sel: map<string, seq<bool>>, quant: map<string, Quantization>, ks: seq<string>,
                             quants: seq<Quantization>, sl: map<string, seq<Slice>>)
      requires forall k :: k in ks <==> k in sel
      requires |quants| == |ks| && forall i :: 0 <= i < |ks| ==> ks[i] in quant && quants[i] == quant[ks[i]]
      requires forall k :: k in sl ==> k in ks
      requires forall i :: 0 <= i < |ks| ==> ks[i] in sl && sl[ks[i]] == quants[i].slices
      ensures forall k :: k in sl <==> k in sel
      ensures forall k :: k in sel ==> sl[k] == quant[k].slices
    {
      forall k | k in sel ensures k in sl && sl[k] == quant[k].slices {
        var i :| 0 <= i < |ks| && ks[i] == k;
      }
    }

    /** The per-key slices taken over from the quantization keep its bounds and its disjointness. */
    static lemma SlicesFromQuants(n: nat, sel: map<string, seq<bool>>, quant: map<string, Quantization>,
                                  ks: seq<string>, sl: map<string, seq<Slice>>)
      requires QuantsFit(n, sel, quant) && QuantsApart(sel, quant)
      requires forall k :: k in ks <==> k in sel
      requires forall k :: k in sel ==> k in sl && sl[k] == quant[k].slices
      ensures HasSlices(ks, sl) && SlicesApart(n, ks, sl)
    {
    }

    /** `_setup_sparse`: an n x n matrix of zeros with 1.0 on every block of size > 1. */
    static method SetupSparse(n: nat, keys: seq<string>, slices: map<string, seq<Slice>>) returns (M: array2<real>)
      requires HasSlices(keys, slices) && SlicesWithin(n, keys, slices)
      ensures fresh(M) && M.Length0 == n && M.Length1 == n
      ensures forall r, c :: 0 <= r < n && 0 <= c < n ==>
        M[r, c] == if BlockOwner(keys, slices, r, c).Some? then 1.0 else 0.0
    {
      M := new real[n, n]((r, c) => 0.0);
      for i := 0 to |keys|
        invariant forall r, c :: 0 <= r < n && 0 <= c < n ==>
          M[r, c] == if BlockOwner(keys[..i], slices, r, c).Some? then 1.0 else 0.0
      {
        FillLong(M, slices[keys[i]], 1.0);
        BlockOwnerExtend(keys, slices, i);
      }
      assert keys[..|keys|] == keys;
    }

    /**
     * `_get_ndiag_sparse`: for every key in the parameter dict's order, each
     * of its blocks of size > 1 is overwritten with `amp(value of the key)`.
     * Afterwards the matrix is a function of the parameter values alone
     * (so a second call with the same values changes nothing), and every
     * entry outside those blocks, size-1 slices included, is untouched.
     */
    method GetNdiagSparse(get: string -> real)
      requires Valid() && kind == Sparse
      modifies Ns
      ensures Valid()
      ensures forall r, c :: 0 <= r < n && 0 <= c < n ==> Ns[r, c] == SparseDense(keys, slices, amp, get, r, c)
      ensures forall r, c :: 0 <= r < n && 0 <= c < n && BlockOwner(keys, slices, r, c).None? ==>
        Ns[r, c] == old(Ns[r, c])
    {
      for t := 0 to |paramOrder|
        invariant forall r, c :: 0 <= r < n && 0 <= c < n ==>
          Ns[r, c] == match BlockOwner(keys, slices, r, c)
                      case Some(p) => if p in paramOrder[..t] then amp(get(p)) else old(Ns[r, c])
                      case None => old(Ns[r, c])
      {
        var p := paramOrder[t];
        forall r, c | CoversLong(slices[p], r, c) ensures BlockOwner(keys, slices, r, c) == Some(p) {
          BlockOwnerIs(n, keys, slices, p, r, c);
        }
        FillLong(Ns, slices[p], amp(get(p)));
        assert paramOrder[..t + 1] == paramOrder[..t] + [p];
      }
      assert paramOrder[..|paramOrder|] == paramOrder;
    }

    /** `_get_ndiag_sherman_morrison`: the amplitudes and slices, left as an outer-product form. */
    function GetNdiagShermanMorrison(get: string -> real): (r: Result<Covariance, string>)
      requires LayoutValid()
      reads this
      ensures r.Failure? <==> keys == []
      ensures r.Success? ==> (
        && r.value.OuterProduct? && r.value.slices == Flatten(keys, slices)
        && |r.value.jvec| == |r.value.slices|
        && forall j :: 0 <= j < |r.value.jvec| ==> r.value.jvec[j] == amp(get(OwnerKeys(keys, slices)[j])))
    {
      match GetJvecs(keys, slices, amp, get)
      case Failure(e) => Failure(e)
      case Success(jv) => Success(OuterProduct(jv.1, jv.0))
    }

    /** `_get_ndiag_block`: one constant square block per slice, paired with the slices. */
    method GetNdiagBlock(get: string -> real) returns (r: Result<Covariance, string>)
      requires LayoutValid()
      ensures r.Failure? <==> keys == []
      ensures r.Success? ==> (
        && r.value.Blocks? && r.value.slices == Flatten(keys, slices)
        && exists jvec :: (
          && |jvec| == |r.value.slices|
          && (forall j :: 0 <= j < |jvec| ==> jvec[j] == amp(get(OwnerKeys(keys, slices)[j])))
          && ConstantBlocks(r.value.blocks, r.value.slices, jvec)))
    {
      match GetJvecs(keys, slices, amp, get)
      case Failure(e) =>
        r := Failure(e);
      case Success(jv) =>
        var (ss, jvec) := jv;
        forall j | 0 <= j < |ss| ensures ss[j].start <= ss[j].stop {
          var (i, t) := FlatPosition(keys, slices, j);
        }
        var blocks := BlocksOf(jvec, ss);
        r := Success(Blocks(blocks, ss));
    }

    /** `get_ndiag`: the covariance in the configured representation. */
    method GetNdiag(get: string -> real) returns (r: Result<Covariance, string>)
      requires Valid()
      modifies Ns
      ensures Valid()
      ensures kind == ShermanMorrison ==> r == GetNdiagShermanMorrison(get)
      ensures kind == Block ==> (r.Failure? <==> keys == [])
      ensures kind == Block && r.Success? ==> (
        && r.value.Blocks? && r.value.slices == Flatten(keys, slices)
        && exists jvec :: (
          && |jvec| == |r.value.slices|
          && (forall j :: 0 <= j < |jvec| ==> jvec[j] == amp(get(OwnerKeys(keys, slices)[j])))
          && ConstantBlocks(r.value.blocks, r.value.slices, jvec)))
      ensures kind == Sparse ==> (
        && r == Success(SparseMatrix(Ns))
        && forall r, c :: 0 <= r < n && 0 <= c < n ==> Ns[r, c] == SparseDense(keys, slices, amp, get, r, c))
      ensures kind != Sparse ==> unchanged(Ns)
    {
      match kind
      case ShermanMorrison =>
        r := GetNdiagShermanMorrison(get);
      case Sparse =>
        GetNdiagSparse(get);
        r := Success(SparseMatrix(Ns));
      case Block =>
        r := GetNdiagBlock(get);
    }
  }
  /**
   * The factory's method check comes first: a name other than the three
   * accepted ones is an error and no signal object is built; an accepted
   * name yields a signal configured with that method.
   */
  method NewEcorrKernelNoise(methodName: string, n: nat, sel: map<string, seq<bool>>, paramOrder: seq<string>,
                             quant: map<string, Quantization>, amp: real -> real)
    returns (r: Result<EcorrKernelNoise, string>)
    requires QuantsFit(n, sel, quant) && QuantsApart(sel, quant)
    requires Distinct(paramOrder) && forall k :: k in paramOrder <==> k in sel
    ensures r.Failure? <==> methodName !in ["sherman-morrison", "block", "sparse"]
    ensures r.Failure? ==> r.error == "EcorrKernelNoise does not support method: " + methodName
    ensures r.Success? ==> (
      && fresh(r.value) && r.value.Valid()
      && MethodName(r.value.kind) == methodName
      && r.value.keys == SortedKeys(sel.Keys))
  {
    match ParseMethod(methodName)
    case Failure(e) =>
      r := Failure(e);
    case Success(m) =>
      var signal := new EcorrKernelNoise(m, n, sel, paramOrder, quant, amp);
      r := Success(signal);
  }
}
