/**
 * Epoch layout of the ECORR signal: every selection group's epochs get a
 * contiguous run of columns in one global quantization matrix U, groups in
 * sorted key order, and every epoch is described by an index slice into the
 * observations.
 */
module Epochs {

  /** A Python `slice(start, stop)` over observation indices. */
  datatype Slice = Slice(start: nat, stop: nat)

  /** Number of observations in the slice, `stop - start`. */
  function Size(s: Slice): int {
    s.stop - s.start
  }

  predicate Contains(s: Slice, r: int) {
    s.start <= r < s.stop
  }

  /** A non-empty slice inside the n observations. */
  predicate WellFormed(s: Slice, n: nat) {
    s.start < s.stop <= n
  }

  /** Two slices share no observation. */
  predicate Apart(s: Slice, t: Slice) {
    s.stop <= t.start || t.stop <= s.start
  }

  /**
   * What the quantization utilities produce for one group: the quantization
   * matrix (one row per observation of the group, `nn` columns, one per
   * epoch) and, for each of its columns, the slice of observations it marks.
   */
  datatype Quantization = Quantization(umat: seq<seq<real>>, nn: nat, slices: seq<Slice>)

  /** Number of selected observations. */
  function CountTrue(mask: seq<bool>): nat
    decreases |mask|
  {
    if mask == [] then 0
    else CountTrue(mask[..|mask| - 1]) + (if mask[|mask| - 1] then 1 else 0)
  }

  /** Row of the group's matrix that holds observation r: the selected observations before r. */
  function Rank(mask: seq<bool>, r: nat): nat
    requires r <= |mask|
  {
    CountTrue(mask[..r])
  }

  lemma {:induction false} CountTrueMonotone(mask: seq<bool>, a: nat, b: nat)
    requires a <= b <= |mask|
    ensures CountTrue(mask[..a]) <= CountTrue(mask[..b])
    decreases b - a
  {
    if a < b {
      CountTrueMonotone(mask, a, b - 1);
      assert mask[..b][..b - 1] == mask[..b - 1];
    }
  }

  /** A selected observation has a row in the group's matrix. */
  lemma {:induction false} RankInRange(mask: seq<bool>, r: nat)
    requires r < |mask| && mask[r]
    ensures Rank(mask, r) < CountTrue(mask)
  {
    assert mask[..r + 1][..r] == mask[..r];
    CountTrueMonotone(mask, r + 1, |mask|);
    assert mask[..|mask|] == mask;
  }

  /**
   * Entry j of the row of `umat` that observation r receives,
   * `umat[Rank(mask, r)][j]` (zero if there is no such entry, which `Fits`
   * rules out for a selected observation).
   */
  function RowEntry(mask: seq<bool>, umat: seq<seq<real>>, r: nat, j: nat): real {
    if r <= |mask| && Rank(mask, r) < |umat| && j < |umat[Rank(mask, r)]| then umat[Rank(mask, r)][j] else 0.0
  }

  /** The group's utilities output fits its mask and the n observations. */
  predicate Fits(q: Quantization, mask: seq<bool>, n: nat) {
    && |q.umat| == CountTrue(mask)
    && (forall t :: 0 <= t < |q.umat| ==> |q.umat[t]| == q.nn)
    && |q.slices| == q.nn
    && (forall j :: 0 <= j < |q.slices| ==> WellFormed(q.slices[j], n))
  }

  /** Every group's utilities output fits its mask, and every mask covers the n observations. */
  predicate AllFit(n: nat, masks: seq<seq<bool>>, quants: seq<Quantization>) {
    |masks| == |quants| && forall i :: 0 <= i < |quants| ==> |masks[i]| == n && Fits(quants[i], masks[i], n)
  }

  /** Number of epochs of each group, `U.shape[1]` for each group's matrix. */
  function Counts(quants: seq<Quantization>): (r: seq<nat>)
    ensures |r| == |quants|
    ensures forall i :: 0 <= i < |r| ==> r[i] == quants[i].nn
  {
    seq(|quants|, i requires 0 <= i < |quants| => quants[i].nn)
  }

  /** `nepoch`: the total number of epochs. */
  function Sum(counts: seq<nat>): nat {
    if counts == [] then 0 else counts[0] + Sum(counts[1..])
  }

  /** `netot` when group i is reached: the first column of group i. */
  function Start(counts: seq<nat>, i: nat): nat
    requires i <= |counts|
  {
    if i == 0 then 0 else Start(counts, i - 1) + counts[i - 1]
  }

  /** After the last group, `netot` equals `nepoch`. */
  lemma {:induction false} StartAtEndIsSum(counts: seq<nat>)
    ensures Start(counts, |counts|) == Sum(counts)
    decreases |counts|
  {
    if counts != [] {
      StartAtEndIsSum(counts[1..]);
      StartShift(counts, |counts|);
    }
  }

  lemma {:induction false} StartShift(counts: seq<nat>, i: nat)
    requires 1 <= i <= |counts|
    ensures Start(counts, i) == counts[0] + Start(counts[1..], i - 1)
  {
    if i > 1 {
      StartShift(counts, i - 1);
    }
  }

  lemma {:induction false} StartMonotone(counts: seq<nat>, i: nat, j: nat)
    requires i <= j <= |counts|
    ensures Start(counts, i) <= Start(counts, j)
    decreases j - i
  {
    if i < j {
      StartMonotone(counts, i, j - 1);
    }
  }

  /** The column ranges of two different groups do not overlap: an earlier group's run ends before a later one starts. */
  lemma {:induction false} RangesDisjoint(counts: seq<nat>, i: nat, j: nat)
    requires i < j < |counts|
    ensures Start(counts, i) + counts[i] <= Start(counts, j)
  {
    assert Start(counts, i + 1) == Start(counts, i) + counts[i];
    StartMonotone(counts, i + 1, j);
  }

  /** The group whose column run holds column c: the runs tile the columns 0 .. nepoch-1. */
  function OwnerOf(counts: seq<nat>, c: nat): (i: nat)
    requires c < Start(counts, |counts|)
    ensures i < |counts| && Start(counts, i) <= c < Start(counts, i) + counts[i]
    decreases |counts|
  {
    var last := |counts| - 1;
    if c >= Start(counts, last) then last
    else
      StartPrefix(counts, last, last);
      var i := OwnerOf(counts[..last], c);
      StartPrefix(counts, last, i);
      i
  }

  lemma {:induction false} StartPrefix(counts: seq<nat>, m: nat, i: nat)
    requires i <= m <= |counts|
    ensures Start(counts[..m], i) == Start(counts, i)
  {
    if i > 0 {
      StartPrefix(counts, m, i - 1);
    }
  }

  /** Column c lies in exactly one group's run, the one OwnerOf names. */
  lemma {:induction false} OwnerUnique(counts: seq<nat>, c: nat, i: nat)
    requires i < |counts| && Start(counts, i) <= c < Start(counts, i) + counts[i]
    ensures c < Start(counts, |counts|)
    ensures OwnerOf(counts, c) == i
  {
    StartMonotone(counts, i + 1, |counts|);
    var o := OwnerOf(counts, c);
    if o < i {
      RangesDisjoint(counts, o, i);
    } else if i < o {
      RangesDisjoint(counts, i, o);
    }
  }

  /**
   * Entry (r, c) of U once every group is in place: the owning group's
   * matrix row for observation r, at the column's position inside the group's
   * run, when the group selects r; zero otherwise.
   */
  function UEntry(n: nat, masks: seq<seq<bool>>, quants: seq<Quantization>, r: nat, c: nat): real
    requires AllFit(n, masks, quants)
    requires r < n && c < Sum(Counts(quants))
  {
    var counts := Counts(quants);
    StartAtEndIsSum(counts);
    var i := OwnerOf(counts, c);

    if masks[i][r] then RowEntry(masks[i], quants[i].umat, r, c - Start(counts, i))
    else 0.0
  }

  /** Inside group g's column run, U holds group g's matrix on the rows g selects and zero elsewhere. */
  lemma {:induction false} UEntryInRun(n: nat, masks: seq<seq<bool>>, quants: seq<Quantization>, g: nat, r: nat, c: nat)
    requires AllFit(n, masks, quants)
    requires g < |quants| && r < n
    requires Start(Counts(quants), g) <= c < Start(Counts(quants), g) + quants[g].nn
    ensures c < Sum(Counts(quants))
    ensures UEntry(n, masks, quants, r, c)
            == if masks[g][r] then RowEntry(masks[g], quants[g].umat, r, c - Start(Counts(quants), g)) else 0.0
  {
    var counts := Counts(quants);
    OwnerUnique(counts, c, g);
    StartAtEndIsSum(counts);
  }

  lemma {:induction false} UEntryRun(n: nat, masks: seq<seq<bool>>, quants: seq<Quantization>, g: nat)
    requires AllFit(n, masks, quants)
    requires g < |quants|
    ensures Start(Counts(quants), g) + quants[g].nn <= Sum(Counts(quants))
    ensures forall r, c :: 0 <= r < n && Start(Counts(quants), g) <= c < Start(Counts(quants), g) + quants[g].nn ==>
      UEntry(n, masks, quants, r, c)
      == if masks[g][r] then RowEntry(masks[g], quants[g].umat, r, c - Start(Counts(quants), g)) else 0.0
  {
    StartMonotone(Counts(quants), g + 1, |quants|);
    StartAtEndIsSum(Counts(quants));
    forall r, c | 0 <= r < n && Start(Counts(quants), g) <= c < Start(Counts(quants), g) + quants[g].nn {
      UEntryInRun(n, masks, quants, g, r, c);
    }
  }

  /**
   * `U[mask, off:off+nn] = umat`: the selected rows of the column run
   * receive the group's matrix rows in order; nothing else changes.
   */
  method ScatterRows(U: array2<real>, mask: seq<bool>, umat: seq<seq<real>>, off: nat, nn: nat)
    requires |mask| == U.Length0 && off + nn <= U.Length1
    requires |umat| == CountTrue(mask) && forall t :: 0 <= t < |umat| ==> |umat[t]| == nn
    modifies U
    ensures forall r, c :: 0 <= r < U.Length0 && 0 <= c < U.Length1 ==>
      U[r, c] == if mask[r] && off <= c < off + nn then RowEntry(mask, umat, r, c - off) else old(U[r, c])
  {
    var t := 0;
    for r := 0 to |mask|
      invariant t == Rank(mask, r)
      invariant forall r', c :: 0 <= r' < U.Length0 && 0 <= c < U.Length1 ==>
        U[r', c] == if r' < r && mask[r'] && off <= c < off + nn then RowEntry(mask, umat, r', c - off) else old(U[r', c])
    {
      assert mask[..r + 1][..r] == mask[..r];
      if mask[r] {
        RankInRange(mask, r);
        for j := 0 to nn
          invariant forall r', c :: 0 <= r' < U.Length0 && 0 <= c < U.Length1 ==>
            U[r', c] == if (r' < r || (r' == r && c < off + j)) && mask[r'] && off <= c < off + nn
                        then RowEntry(mask, umat, r', c - off) else old(U[r', c])
        {
          U[r, off + j] := umat[t][j];
        }
        t := t + 1;
      }
    }
  }

  /** U holds its final entries in the columns before `upto`, and zeros from there on. */
  ghost predicate LaidOut(U: array2<real>, n: nat, masks: seq<seq<bool>>, quants: seq<Quantization>, upto: nat)
    requires AllFit(n, masks, quants)
    requires U.Length0 == n && U.Length1 == Sum(Counts(quants))
    reads U
  {
    forall r, c :: 0 <= r < n && 0 <= c < U.Length1 ==>
      U[r, c] == if c < upto then UEntry(n, masks, quants, r, c) else 0.0
  }

  /** One step of the layout loop: group ct's matrix goes into its column run. */
  method PlaceGroup(U: array2<real>, n: nat, masks: seq<seq<bool>>, quants: seq<Quantization>, ct: nat)
    requires AllFit(n, masks, quants) && ct < |quants|
    requires U.Length0 == n && U.Length1 == Sum(Counts(quants))
    requires LaidOut(U, n, masks, quants, Start(Counts(quants), ct))
    modifies U
    ensures LaidOut(U, n, masks, quants, Start(Counts(quants), ct + 1))
  {
    var netot, nn := Start(Counts(quants), ct), quants[ct].nn;
    UEntryRun(n, masks, quants, ct);
    label Before:
    ScatterRows(U, masks[ct], quants[ct].umat, netot, nn);
    forall r, c | 0 <= r < n && 0 <= c < U.Length1
      ensures U[r, c] == if c < netot + nn then UEntry(n, masks, quants, r, c) else 0.0
    {
      var prev := old@Before(U[r, c]);
      assert prev == if c < netot then UEntry(n, masks, quants, r, c) else 0.0;
      if c < netot || netot + nn <= c {
        assert U[r, c] == prev;
      } else if masks[ct][r] {
        assert U[r, c] == RowEntry(masks[ct], quants[ct].umat, r, c - netot);
        assert UEntry(n, masks, quants, r, c) == RowEntry(masks[ct], quants[ct].umat, r, c - netot);
      } else {
        assert U[r, c] == prev == 0.0;
        assert UEntry(n, masks, quants, r, c) == 0.0;
      }
    }
  }

  /**
   * The column layout of `__init__`: U starts as zeros, each group in key
   * order receives its run `[netot, netot + nn)`, its slices are recorded
   * under its key, and `netot` advances by `nn`.
   */
  method LayoutEpochs(n: nat, keys: seq<string>, masks: seq<seq<bool>>, quants: seq<Quantization>)
    returns (U: array2<real>, slices: map<string, seq<Slice>>, netot: nat)
    requires |keys| == |quants| && AllFit(n, masks, quants)
    requires forall i, j :: 0 <= i < j < |keys| ==> keys[i] != keys[j]
    ensures fresh(U) && U.Length0 == n && U.Length1 == Sum(Counts(quants))
    ensures netot == Sum(Counts(quants))
    ensures forall k :: k in slices ==> k in keys
    ensures forall i :: 0 <= i < |keys| ==> keys[i] in slices && slices[keys[i]] == quants[i].slices
    ensures forall r, c :: 0 <= r < n && 0 <= c < U.Length1 ==> U[r, c] == UEntry(n, masks, quants, r, c)
  {
    var counts := Counts(quants);
    var nepoch := Sum(counts);
    StartAtEndIsSum(counts);
    U := new real[n, nepoch]((r, c) => 0.0);
    slices := map[];
    netot := 0;
    for ct := 0 to |keys|
      invariant Progress(U, n, keys, masks, quants, slices, netot, ct)
    {
      slices, netot := LayoutStep(U, n, keys, masks, quants, slices, netot, ct);
    }
  }

  /**
   * The state of the layout loop after `ct` groups: `netot` is the start of
   * group ct, `_slices` holds the first ct keys and no key from elsewhere, and U is final before `netot`.
   */
  ghost predicate Progress(U: array2<real>, n: nat, keys: seq<string>, masks: seq<seq<bool>>, quants: seq<Quantization>,
                           slices: map<string, seq<Slice>>, netot: nat, ct: nat)
    reads U
  {
    && ct <= |keys| == |quants| && AllFit(n, masks, quants)
    && U.Length0 == n && U.Length1 == Sum(Counts(quants))
    && netot == Start(Counts(quants), ct)
    && (forall k :: k in slices ==> k in keys)
    && (forall i :: 0 <= i < ct ==> keys[i] in slices && slices[keys[i]] == quants[i].slices)
    && LaidOut(U, n, masks, quants, netot)
  }

  /** One pass of the layout loop: place group ct, record its slices, advance `netot`. */
  method LayoutStep(U: array2<real>, n: nat, keys: seq<string>, masks: seq<seq<bool>>, quants: seq<Quantization>,
                    slices: map<string, seq<Slice>>, netot: nat, ct: nat)
    returns (slices': map<string, seq<Slice>>, netot': nat)
    requires Progress(U, n, keys, masks, quants, slices, netot, ct) && ct < |keys|
    requires forall i, j :: 0 <= i < j < |keys| ==> keys[i] != keys[j]
    modifies U
    ensures Progress(U, n, keys, masks, quants, slices', netot', ct + 1)
  {
    PlaceGroup(U, n, masks, quants, ct);
    slices' := slices[keys[ct] := quants[ct].slices];
    netot' := netot + quants[ct].nn;
    forall i | 0 <= i < ct ensures slices'[keys[i]] == quants[i].slices {
      assert keys[i] != keys[ct];
    }
  }
}
