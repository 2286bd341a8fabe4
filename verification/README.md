# remove_big_objects, modelled in Dafny

A model of `remove_big_objects` from `remove_big_objects.py`: the size filter
that takes a boolean or integer array, finds the label of every element
(connected-component labels for a boolean array, the array itself for an
integer one), counts how many elements carry each label, and sets to 0
(False) every element whose label occurs **more than** `max_size` times.

The array is flattened in `ravel` order and modelled as `seq<int>`; a boolean
element is 0 for False and nonzero for True. The element type is reduced to
`Bool | Int | Other`. The connected-component labelling done by scipy for a
boolean array is a parameter `labels`, which must be 0 exactly where the
array is False. The two exceptions are values of a `Result` type, and the
warning is a returned flag.

Modules:

- `Errors` (errors.dfy): `TypeError`, `ValueError` and the result types.
- `Dtype` (dtype.dfy): element kinds and the element-type guard.
- `Labels` (labels.dfy): counting labels in a flattened label map.
- `Histogram` (histogram.dfy): `np.bincount` as a single pass over the labels.
- `Mask` (mask.dfy): zeroing the elements whose label's bucket is too big.
- `SizeFilter` (filter.dfy): the whole function and the properties of its
  result, idempotence among them.
- `Buffer` (buffer.dfy): the same function on a mutable `array<int>`, with
  the `in_place` choice between returning the input buffer and a fresh copy.
- `DocExamples` (examples.dfy): the 3x5 array of the docstring, run through
  the model.

The code and its docstring disagree, and the model follows the code. The
docstring says the function removes components *smaller* than the size, and
its examples call `remove_small_objects`. The code instead zeroes labels
whose count is strictly greater than `max_size` (line 87). On the docstring's
array with `max_size=6` and face adjacency, it changes nothing
(`DocExamples.FaceLimitSixKeepsAll`). The biggest object there has exactly 6
pixels, and only the background, which is already 0, has more. The
`max_size == 0` return is described as an efficiency shortcut, but it
changes behaviour: without it, every element would be zeroed. The model
encodes it literally.

## Model

| member | source | states |
|---|---|---|
| Dtype.CheckDtypeSupported | remove_big_objects.py:7-11 | the guard passes exactly for boolean and integer arrays and raises TypeError for every other element type |
| Labels.MaxLabel | remove_big_objects.py:77 | the largest label of a non-empty map occurs in it and bounds every label, which is what sizes numpy's histogram |
| Labels.CountIsMultiplicity | remove_big_objects.py:77 | the per-label count used as the histogram's reference is the label's multiplicity in the multiset of elements, independent of element order |
| Histogram.Tally | remove_big_objects.py:77 | one pass over the labels adds to every bucket exactly the number of positions holding that label, and leaves the number of buckets alone |
| Histogram.BucketCount | remove_big_objects.py:77 | the histogram has no buckets for an empty map, otherwise one past the largest label: every label has a bucket and the last bucket's label occurs |
| Histogram.Bincount | remove_big_objects.py:76-81 | ValueError exactly when some label is negative; otherwise the bucket list is as long as the largest label plus one (empty for an empty map) and bucket l holds the number of positions labelled l |
| Histogram.TwoBucketsIffSingleLabel | remove_big_objects.py:83-85 | the histogram has exactly two buckets precisely when every label is 0 or 1 and label 1 occurs |
| Mask.ZeroTooBig | remove_big_objects.py:87-89 | same length as the input; a position whose label's bucket exceeds max_size becomes 0, every other position keeps its input value |
| Buffer.ZeroTooBigInPlace | remove_big_objects.py:87-89 | clearing the buffer in one pass with labels read beforehand leaves exactly what the pure mask computes |
| SizeFilter.LabelMap | remove_big_objects.py:69-74 | the map the histogram is taken over (the supplied labelling for a boolean array, the array itself for an integer one) labels every element, with 0 exactly on the background |
| SizeFilter.RemoveBigObjects | remove_big_objects.py:13-91 | TypeError for other element types before anything else; max_size 0 returns the input unchanged with no warning; otherwise ValueError exactly when a label is negative, else success with the same length, where an element is set to 0 when its label occurs more than max_size times and otherwise keeps its value, and the warning fires exactly when the label map holds the single object 1 |
| SizeFilter.NoNewForeground | remove_big_objects.py:87-89 | every output element is 0 or the input element at that position, and background stays background |
| SizeFilter.NegativeLimitClearsAll | remove_big_objects.py:87 | a negative max_size clears every element, since no label count is below 0 |
| SizeFilter.SurvivorKeepsSize | remove_big_objects.py:87-89 | an object that survives the filter has the same size under any labelling of the output that names the same objects, and that size is within max_size |
| SizeFilter.ClearingTwiceIsClearingOnce | remove_big_objects.py:87-89 | clearing the output again by such a labelling clears nothing more |
| SizeFilter.IntegerOutputKeepsPartition | remove_big_objects.py:73-74 | on the integer path the output, used as its own label map, groups its foreground exactly as the input labels did |
| SizeFilter.FilterIsIdempotent | remove_big_objects.py:87-89 | filtering the output again with the same max_size succeeds and returns the output unchanged, on the boolean path given a labelling of the output naming the same objects |
| Buffer.RemoveBigObjectsBuffer | remove_big_objects.py:61-67 | the buffer holds what the pure filter computes and the exception raised is the one it returns; in place the input buffer itself is returned, otherwise a fresh buffer and the input is untouched; an exception leaves the input untouched |
| DocExamples.FaceLimitSixKeepsAll | remove_big_objects.py:41-48 | on the docstring array with face adjacency and size 6 the code keeps every pixel, unlike the docstring's output |
| DocExamples.FullLimitSixClearsMergedObject | remove_big_objects.py:41-43 | with full adjacency and size 6 the merged 7-pixel object is cleared and only the isolated corner pixel remains |
| DocExamples.SingleObjectWarns | remove_big_objects.py:83-85 | an integer map holding one object passes the filter and raises the single-label warning |

## Left out

- Connected-component labelling (`ndi.generate_binary_structure`, `ndi.label`, lines 70-72) is scipy code; its result is the `labels` parameter, required to be 0 exactly on the False elements and never negative, as a labelling is. A ValueError therefore arises only on the integer path. Connectivity is therefore not a parameter of the model.
- N-dimensional shape: the array is the flattened `ravel` order, so shapes and the structuring element's geometry are not modelled.
- The warning sink (`warn`, line 84) and the exception messages: the warning is a returned flag and the exceptions are bare `TypeError` / `ValueError` values.
- numpy element types beyond bool / integer / other: the int32 label buffer, bincount's casting limits for large unsigned types and the numpy 1.7 workaround. Integers are unbounded; counts cannot overflow in the model.
- A boolean element is modelled as an integer, 0 for False and nonzero for True; the model does not force it to 0 or 1.
- Default arguments (`max_size=64`, `connectivity=1`, `in_place=False`, line 13) are not modelled; every call passes all of them. `max_size` is an integer: Python also accepts a float threshold (`0.0` takes the early return at line 66), which the model does not cover.
- SizeFilter.FilterIsIdempotent: it speaks of the output data only. The warning flag of the second run can differ, for example when clearing leaves only label 1, and idempotence needs a labelling of the output that names the same objects.
- The docstring examples that call `remove_small_objects` (lines 44-53) describe the opposite filter and are not taken as behaviour of this function.
