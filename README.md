# White-noise signals of a pulsar timing model

This project models the index and layout logic of the white-noise signals in
`enterprise/signals/white_signals.py`. It proves properties of that model.

- **`WhiteNoise` signal.** The selection's keys are sorted and each key's mask
  is aligned with it. The parameter prefix of each group is built from the
  pulsar name, the signal name and the key. The diagonal noise vector is the
  masked sum of the groups' variance vectors.
- **`EcorrKernelNoise` signal.** The method name is validated before anything
  is built. Each selection group's observing epochs get a contiguous column
  range in one quantization matrix U, in sorted key order, and the epochs are
  kept as index slices. The covariance comes in one of three representations:
  - `sherman-morrison`: the slices flattened in key order, with one amplitude
    per slice;
  - `block`: one constant square block per slice;
  - `sparse`: an n x n matrix allocated once, whose blocks are overwritten in
    place on every call.

Modules:

- `Wrappers`: `Option` and `Result`.
- `Naming`: Python's string order, `sorted` over a key set, and the `'_'.join`
  of the non-empty name parts.
- `WhiteNoise`: the `WhiteNoiseSignal` class (`_do_selection`, `get_ndiag`),
  plus its specification functions and lemmas.
- `Epochs`: slices, quantization inputs, column offsets, and the method that
  writes the U matrix.
- `EcorrForms`: the method check, `_get_jvecs`, and the dense meaning of the
  three representations (outer product, blocks, sparse), with the lemmas that
  relate them.
- `EcorrNoise`: the `EcorrKernelNoise` class (`__init__`, `_setup_sparse`,
  `_get_ndiag_sparse`, `_get_ndiag_sherman_morrison`, `_get_ndiag_block`,
  `get_ndiag`), plus the factory's method check.

Inputs that stand for code outside the model:

- `paramsOf(prefix)`: the names of the parameters the variance function creates.
- `variances[key]`: the value of a group's variance function.
- `get(key)`: a parameter's current value.
- `amp`: the law `10**(2*x)`.
- `Quantization(umat, nn, slices)`: what the quantization utilities return for
  a group.
- `paramOrder`: the key order of the selection's parameter dictionary.

## Model

| member | source | states |
|---|---|---|
| Naming.StrLt | enterprise/signals/white_signals.py:36 | definition: Python's `<` on strings, lexicographic by code point with a proper prefix first |
| Naming.SortedKeys | enterprise/signals/white_signals.py:36 | `sorted(keys)`: holds each key of the set exactly once and is strictly increasing in Python's string order |
| Naming.StrLtTotal | enterprise/signals/white_signals.py:36 | the string order is total: of two different strings one precedes the other |
| Naming.StrLtTransitive | enterprise/signals/white_signals.py:36 | the string order is transitive |
| Naming.SortedCons | enterprise/signals/white_signals.py:36 | the least key followed by the sorted rest is strictly sorted and holds exactly the set's keys |
| Naming.SortedDistinct | enterprise/signals/white_signals.py:36 | a strictly sorted key list holds no key twice |
| Naming.LeastUnique | enterprise/signals/white_signals.py:36 | a set of keys has at most one least element, so sorting is deterministic |
| Naming.Join | enterprise/signals/white_signals.py:41 | definition: `'_'.join(parts)` |
| Naming.ParamPrefix | enterprise/signals/white_signals.py:40-41 | definition: the join of the non-empty parts of `[psr.name, name, key]` (its shape is proved in `ParamPrefixShape`) |
| Naming.NonEmptyParts | enterprise/signals/white_signals.py:41 | the filtered list contains no empty string and is no longer than the input |
| Naming.ParamPrefixShape | enterprise/signals/white_signals.py:40-41 | the prefix is the key alone when pulsar and signal name are empty; otherwise it is the non-empty head (`psr`, `name` or `psr_name`), alone if the key is empty or followed by `_key` |
| Naming.ParamPrefixAllPresent | enterprise/signals/white_signals.py:40-41 | with all three parts non-empty the prefix is `psr + "_" + name + "_" + key` |
| Naming.ParamPrefixAllEmpty | enterprise/signals/white_signals.py:40-41 | with all three parts empty the prefix is `""` |
| Naming.ParamPrefixInjective | enterprise/signals/white_signals.py:40-41 | for one pulsar and signal, different non-empty keys never share a prefix |
| WhiteNoise.InsertAll | enterprise/signals/white_signals.py:43-44 | definition: the dict's key order after `self._params[param.name] = param` for each name in turn (proved about in `InsertAllDict`) |
| WhiteNoise.DictInsert | enterprise/signals/white_signals.py:44 | assigning a dict entry keeps the existing keys in place and adds the name exactly when it is new: the key list grows by one only for a new name, and stays duplicate-free |
| WhiteNoise.InsertAllDict | enterprise/signals/white_signals.py:43-44 | after registering a list of names, the dict's keys are duplicate-free, start with the old keys, and are exactly the old keys plus the names |
| WhiteNoise.CollectParams | enterprise/signals/white_signals.py:39-44 | the collected parameter names are the prefixes' parameter names in first-registration order |
| WhiteNoise.CollectParamsExact | enterprise/signals/white_signals.py:39-44 | `_params` lists each name once, and a name is in it exactly when some group's variance function created it |
| WhiteNoise.Prefixes | enterprise/signals/white_signals.py:39-41 | one prefix per sorted key |
| WhiteNoise.WhiteNoiseSignal.DoSelection | enterprise/signals/white_signals.py:35-44 | keys are the sorted selection keys; masks are aligned with them; `_ndiag` has exactly the selection's keys, each with its prefix; `_params` is the registration of every group's parameter names |
| WhiteNoise.WhiteNoiseSignal.Register | enterprise/signals/white_signals.py:43-44 | the inner registration loop adds the names exactly as `InsertAll` does |
| WhiteNoise.WhiteNoiseSignal.constructor | enterprise/signals/white_signals.py:29-44 | the new signal holds the sorted keys, the aligned masks, the per-key prefixes and the parameter list |
| WhiteNoise.WhiteNoiseSignal.GetNdiag | enterprise/signals/white_signals.py:52-56 | returns n entries; entry j is the sum, over the sorted keys, of that key's variance at j where its mask is set |
| WhiteNoise.MaskedSumUncovered | enterprise/signals/white_signals.py:53-55 | an index that no mask covers gets 0 |
| WhiteNoise.MaskedSumSingleGroup | enterprise/signals/white_signals.py:53-55 | an index covered by exactly one group gets that group's variance |
| WhiteNoise.MaskedSumAddsGroup | enterprise/signals/white_signals.py:53-55 | switching one group's mask on at an index adds exactly that group's variance there |
| WhiteNoise.MaskedSumSame | enterprise/signals/white_signals.py:53-55 | entry j depends only on the masks' values at j |
| Epochs.Counts | enterprise/signals/white_signals.py:176 | definition: the `nn` of each group, in key order (the offsets built from it are the subject of `StartAtEndIsSum`, `RangesDisjoint` and `OwnerUnique`) |
| Epochs.Sum | enterprise/signals/white_signals.py:171 | definition: `nepoch`, the sum of the groups' epoch counts |
| Epochs.Start | enterprise/signals/white_signals.py:174-180 | definition: `netot` when group i is reached, with `off_0 = 0` and `off_{k+1} = off_k + nn_k` |
| Epochs.StartAtEndIsSum | enterprise/signals/white_signals.py:171-180 | after the last group the running offset `netot` equals `nepoch`, the total number of epochs |
| Epochs.StartShift | enterprise/signals/white_signals.py:174-180 | group i's offset is the first group's count plus group i-1's offset among the remaining groups, so the offsets can be read off the list's tail |
| Epochs.StartMonotone | enterprise/signals/white_signals.py:174-180 | offsets never decrease along the key order |
| Epochs.RangesDisjoint | enterprise/signals/white_signals.py:175-180 | the column ranges `[off_k, off_k + nn_k)` of different groups do not overlap |
| Epochs.OwnerOf | enterprise/signals/white_signals.py:171-180 | every column below `nepoch` lies in the range of some group |
| Epochs.OwnerUnique | enterprise/signals/white_signals.py:171-180 | that group is the only one whose range holds the column |
| Epochs.StartPrefix | enterprise/signals/white_signals.py:174-180 | a group's offset depends only on the groups before it |
| Epochs.CountTrueMonotone | enterprise/signals/white_signals.py:177 | the number of selected rows before a row never decreases |
| Epochs.RankInRange | enterprise/signals/white_signals.py:177 | a selected row's rank among the selected rows indexes a row of the group's matrix |
| Epochs.UEntryInRun | enterprise/signals/white_signals.py:172-177 | inside group g's column range, U holds group g's matrix on the rows its mask selects and 0 elsewhere |
| Epochs.UEntryRun | enterprise/signals/white_signals.py:172-177 | the same for every entry of the range at once |
| Epochs.ScatterRows | enterprise/signals/white_signals.py:177 | `U[mask, off:off+nn] = umat` writes the selected rows of that column range in order and changes nothing else |
| Epochs.PlaceGroup | enterprise/signals/white_signals.py:175-180 | one loop step: U is correct up to the group's range before, and up to its end after |
| Epochs.LayoutStep | enterprise/signals/white_signals.py:175-180 | one pass of the loop: U becomes correct up to the end of group ct's range, `_slices` gains key ct with its group's slices, and `netot` advances by `nn` to the next group's offset |
| Epochs.LayoutEpochs | enterprise/signals/white_signals.py:171-180 | U is a fresh n x nepoch matrix that agrees with `UEntry` everywhere; the final `netot` is `nepoch`; `_slices` holds only the keys, each mapped to its group's slices |
| EcorrForms.ParseMethod | enterprise/signals/white_signals.py:151-153 | a method name is accepted exactly when it is `sherman-morrison`, `block` or `sparse`; otherwise the error carries the message with the name |
| EcorrForms.ParseMethodName | enterprise/signals/white_signals.py:151-153 | each of the three methods is accepted under its own name |
| EcorrForms.SignalName | enterprise/signals/white_signals.py:157 | the signal name is `ecorr_` followed by a name the method check accepts and maps back to the same method, so different methods give different signal names |
| EcorrForms.Flatten | enterprise/signals/white_signals.py:231-232 | definition: `sum([self._slices[key] for key in keys], [])` (proved about in `FlatIndex`, `FlatPosition` and `FlatLength`) |
| EcorrForms.OwnerKeys | enterprise/signals/white_signals.py:231-235 | each flattened slice has an owning key drawn from the keys |
| EcorrForms.Amplitudes | enterprise/signals/white_signals.py:233-235 | definition: the `np.concatenate` of one amplitude vector per key, as long as that key's slice list (proved about in `AmplitudesOfOwners`) |
| EcorrForms.AmplitudesOfOwners | enterprise/signals/white_signals.py:233-235 | the concatenated amplitude vector has one entry per flattened slice, equal to `amp` of the owning key's value |
| EcorrForms.GetJvecs | enterprise/signals/white_signals.py:230-236 | fails exactly when there are no keys; otherwise the slices are the keys' slice lists concatenated in sorted order, and `jvec[j]` is `amp` of the value of the key owning slice j |
| EcorrForms.FlatStartIsStart | enterprise/signals/white_signals.py:231-232 | the position where key i's slices begin in the flattened list is the running total of the slice counts of the keys before it, the same offset rule `off_{k+1} = off_k + nn_k` as the U columns |
| EcorrForms.FlatIndex | enterprise/signals/white_signals.py:231-235 | slice j of key i sits at position `FlatStart(i) + j` of the flattened list, and its owner there is key i |
| EcorrForms.FlatPosition | enterprise/signals/white_signals.py:231-235 | every position m of the flattened list is `FlatStart(i) + j` for a key i and one of its slices j; the entry there is that slice, and its owner is key i |
| EcorrForms.FlatLength | enterprise/signals/white_signals.py:231-232 | the flattened list is as long as the sum of the keys' slice counts |
| EcorrForms.FlatPairApart | enterprise/signals/white_signals.py:231-232 | two different positions of the flattened list hold non-overlapping slices, whether they come from one key or from two distinct keys |
| EcorrForms.FlattenApart | enterprise/signals/white_signals.py:231-232 | if no two epoch slices overlap, no two entries of the flattened list overlap |
| EcorrForms.BlockDenseIsOuterDense | enterprise/signals/white_signals.py:222-228 | the block form and the outer-product form stand for the same dense matrix |
| EcorrForms.OuterDenseAt | enterprise/signals/white_signals.py:218-220 | inside the square of slice j, the outer-product form is `jvec[j]` |
| EcorrForms.OuterDenseInBlock | enterprise/signals/white_signals.py:218-220 | inside the square of slice j of key i, the outer-product form built from `_get_jvecs` is `amp` of key i's value |
| EcorrForms.OuterDenseOutside | enterprise/signals/white_signals.py:218-220 | when every slice has size > 1 and no key's slice covers the entry, the outer-product form built from `_get_jvecs` is 0 there |
| EcorrForms.OuterDenseNone | enterprise/signals/white_signals.py:218-220 | outside every slice's square, the outer-product form is 0 |
| EcorrForms.BlockOwner | enterprise/signals/white_signals.py:205-215 | names a key whose slice of size > 1 covers the entry, or says that no key has one |
| EcorrForms.BlockOwnerIs | enterprise/signals/white_signals.py:211-215 | if key p has a slice of size > 1 covering the entry, p is its owner, because slices of different keys do not overlap |
| EcorrForms.BlockOwnerExtend | enterprise/signals/white_signals.py:205-208 | visiting one more key adds exactly that key's blocks of size > 1 |
| EcorrForms.SparseDenseIsOuterDense | enterprise/signals/white_signals.py:211-220 | when every epoch has at least two observations, the sparse matrix and the outer-product form agree entry by entry |
| EcorrNoise.FillBlock | enterprise/signals/white_signals.py:208 | `Ns[slc, slc] = v` sets every entry of the slice's square to v and leaves all other entries as they were |
| EcorrNoise.FillLong | enterprise/signals/white_signals.py:206-208 | the loop over one key's slices sets every entry of each slice of size > 1's square to v and leaves all other entries, size-1 squares included, as they were |
| EcorrNoise.ConstBlock | enterprise/signals/white_signals.py:227 | definition: `np.ones((nb, nb)) * jv` (the block list built from it is the subject of `BlocksOf` and `GetNdiagBlock`) |
| EcorrNoise.BlocksOf | enterprise/signals/white_signals.py:224-227 | one block per slice in slice order; block j is `(stop - start)` square and every entry is `jvec[j]` |
| EcorrNoise.EcorrKernelNoise.constructor | enterprise/signals/white_signals.py:159-183 | the keys are sorted; `_slices` holds each selected key's slices; for the sparse method the matrix is set up |
| EcorrNoise.EcorrKernelNoise.Layout | enterprise/signals/white_signals.py:161-180 | the keys are the sorted selection keys, and `_slices` has exactly those keys, each mapped to its group's quantization slices |
| EcorrNoise.EcorrKernelNoise.SetupSparse | enterprise/signals/white_signals.py:203-209 | a fresh n x n matrix whose entry (r, c) is 1.0 exactly when r and c lie in one slice of size > 1, and 0 otherwise |
| EcorrNoise.EcorrKernelNoise.GetNdiagSparse | enterprise/signals/white_signals.py:211-216 | afterwards every entry is `amp(value of p)` inside a block of size > 1 of key p and unchanged elsewhere, size-1 slices included; the result depends only on the parameter values, so a second call with the same values changes nothing |
| EcorrNoise.EcorrKernelNoise.GetNdiagShermanMorrison | enterprise/signals/white_signals.py:218-220 | the outer-product form carries the flattened slices and one amplitude per slice, that of its owning key |
| EcorrNoise.EcorrKernelNoise.GetNdiagBlock | enterprise/signals/white_signals.py:222-228 | fails exactly when there are no keys; otherwise it pairs the flattened slices with one constant block per slice, whose value is the amplitude of the slice's key |
| EcorrNoise.EcorrKernelNoise.GetNdiag | enterprise/signals/white_signals.py:191-197 | dispatches on the method: `sherman-morrison` gives `GetNdiagShermanMorrison`'s outer-product form; `block` fails exactly when there are no keys and otherwise gives the flattened slices with one constant block per slice of the owning key's amplitude; `sparse` returns the matrix just updated to `SparseDense`; the other two leave it untouched |
| EcorrNoise.NewEcorrKernelNoise | enterprise/signals/white_signals.py:151-159 | an unsupported method name is an error and builds nothing; an accepted name builds a valid signal configured with that method |

## Left out

- `base.cache_call` memoization, the `base.Signal` base class and the `ndarray_alt`, `csc_matrix_alt`, `ShermanMorrison` and `BlockMatrix` wrappers are not part of this model.
  - The representations are plain data: an outer-product pair of sequences, a block list, and a dense `array2<real>` in place of CSC storage.
- `utils.create_quantization_matrix` and `utils.quant2ind` are not part of this model.
  - Their output for each group is an input `Quantization`: the epoch matrix, its column count and its slices.
  - Preconditions require the slices to be well-formed (`start < stop <= n`) and pairwise disjoint.
  - So the link between the U columns a group occupies and the slices `quant2ind` derives from them is an assumption, not something computed.
- `Selection`/`selections`, the `parameter` classes, the `enterprise_function` decorator and `self.get` lookup are not part of this model.
  - Variance vectors, parameter names (`paramsOf`) and parameter values (`get`) are function inputs.
  - The order of the selection's parameter dict is the input `paramOrder`, required to be a duplicate-free listing of the keys.
- The floating-point formulas `efac**2 * toaerrs**2` and `10**(2*x)` are left out: values are `real`, with no rounding or NaN, and the amplitude law is the uninterpreted input `amp`.
- The class-factory mechanism (classes built inside functions) is one class per signal kind, configured through constructor arguments. `MeasurementNoise` and `EquadNoise` build the generic class with the default factory `name` `''` (lines 71 and 90) and only override the class attribute `signal_name`, which does not enter the parameter prefix. They are therefore `WhiteNoiseSignal` with signal name `""` and their own variance function.
- `ndiag_params` and `params` (properties of the base class) are not modelled.
- WhiteNoise.WhiteNoiseSignal.GetNdiag: with no selection keys the source returns the scalar 0; the model returns n zeros, which is what that scalar broadcasts to.
- EcorrForms.GetJvecs: `np.concatenate` of an empty list raises, so no keys is modelled as a `Failure` with numpy's message.
- EcorrForms.SparseDenseIsOuterDense: only holds when every slice has at least two observations.
  - The sparse form skips size-1 slices, while the block and outer-product forms keep a 1 x 1 block for them.
  - The quantization is called with `nmin=2`, so such slices are not expected in practice.
- The U matrix is built and proved correct but not stored in the signal, because the source only uses it to derive the slices.
- EcorrNoise.EcorrKernelNoise.SetupSparse: visits the keys in sorted order. `_slices` is filled in that order (lines 175-179), so with insertion-ordered dicts the source's `items()` order is the same. With any other dict order the matrix would still be the same, since every write is 1.0.
