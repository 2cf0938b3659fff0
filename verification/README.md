# ts_utils: list set helpers, NaN-pair filtering and Fourier feature layout

This project models two pieces of the `ts_utils` time-series utilities in Dafny
and proves properties of them.

- **List set helpers** (`generic_utils.py`).
  - `intersect_list`, `difference_list` and `union_list` convert both lists to
    Python sets, combine them, and list the resulting set.
  - `remove_nan_union` drops every position at which either of two index-aligned
    arrays holds NaN.
- **Fourier features** (`fourier_terms.py`).
  - `_calculate_fourier_terms` builds the `N x 2n` matrix of sine terms for
    harmonics 1..n followed by the cosine terms.
  - `add_fourier_features` validates its arguments and names the new columns
    `{column}_sin_{i}` then `{column}_cos_{i}`. It stores column j of the matrix
    under the j-th name.

Files:

- `wrappers.dfy`: `Option` and `Result`. Python exceptions become `Failure` values.
- `numbers.dfy`: a float cell is `NaN | Val(v: real)`. Also `Trunc`, the
  truncation toward zero done by `astype(int)`, and `AsInt`, the column-level
  cast, which fails on NaN.
- `decimal.dfy`: `str(n)` for non-negative integers, with a parser that undoes it.
- `list_sets.dfy`: `set(list)` (`Elems`), `list(set)` (`ListOfSet`) and the
  three helpers.
- `nan_filter.dfy`: the NaN mask, `np.delete` with a boolean mask, and
  `remove_nan_union`.
- `fourier.dfy`: the Fourier matrix, the feature names and their parser, the
  column assignment, and `add_fourier_features`.

Modelling choices:

- **Order of `list(set(...))`.** Python leaves it unspecified. `ListOfSet` is a
  method that picks an arbitrary remaining element at each step. So the three
  helpers fix membership, distinctness and length, and nothing about order.
- **Unequal-length inputs to `remove_nan_union`.** numpy raises an error for
  these in every case: either broadcasting the two `isnan` arrays fails, or the
  mask length does not match the array in `np.delete`. The model returns
  `Failure(LengthMismatch)`.
- **`np.delete` with a boolean mask.** This follows NumPy 1.19 and later: the
  positions where the mask is true are dropped.
- **sin and cos.** They are the two function fields of `Trig`, applied to
  `(cycle value, harmonic i, max_cycle)`. They are left uninterpreted. Either
  may return NaN, as a zero `max_cycle` does.
- **The matrix.** It is stored column by column, with an explicit row count, so
  `np.hstack` of the sine and cosine blocks is sequence concatenation.
- **The table.** It is a row count plus a map from column name to column. A
  column is either numeric (float cells) or of another dtype.
- **Mutation.** `add_fourier_features` mutates its frame in place. The model
  returns the new frame instead. Every failure happens before the assignment,
  so on failure the caller's frame is unchanged. The model therefore returns no
  frame on failure.
- **Missing `max_value`: the code fails, the intended behaviour does not.** The
  docstring of `add_fourier_features` intends to infer `max_value` from the data
  with a warning. The code instead executes `raise warnings.warn(...)`.
  `warnings.warn` returns `None`, and raising `None` is a `TypeError`. If
  warnings are turned into errors, `warn` itself raises. The model follows the
  code: a missing `max_value` always ends in `Failure(RaiseOfWarningResult)`.
- **Failures after the two assertions.** The model also reproduces these two:
  - `astype(int)` raises on a NaN cell (`NonFiniteToInt`);
  - `np.empty` rejects a negative number of terms (`NegativeDimensions`).

## Model

| member | source | states |
|---|---|---|
| Numbers.Trunc | fourier_terms.py:53 | for values within the integer range, the cast drops the fractional part toward zero: the result has the value's sign and lies within 1 of it, on the side of zero |
| Numbers.AsInt | fourier_terms.py:53 | `astype(int)` fails exactly when the column holds a NaN; otherwise it keeps the length and truncates every cell toward zero |
| Decimal.NatToString | fourier_terms.py:57-59 | the `str(i)` used in feature names is a non-empty string of decimal digits, with a leading zero only for 0 |
| Decimal.ParseNatToString | fourier_terms.py:57-59 | reading the digits of `str(i)` back gives `i` |
| Decimal.NatToStringInjective | fourier_terms.py:57-59 | different harmonic indices render as different strings |
| ListSets.DistinctIffCardIsLength | generic_utils.py:3-10 | a list's set is never longer than the list, and has the list's length exactly when the list has no repeats |
| ListSets.ListOfSet | generic_utils.py:4 | `list(s)` lists every element of the set and nothing else, each exactly once, so its length is the set's size |
| ListSets.IntersectList | generic_utils.py:3-4 | x is in the result iff it is in both lists; no repeats; length equals the size of the set intersection |
| ListSets.DifferenceList | generic_utils.py:6-7 | x is in the result iff it is in the first list and not the second; no repeats; length equals the size of the set difference |
| ListSets.UnionList | generic_utils.py:9-10 | x is in the result iff it is in either list; no repeats; length equals the size of the set union |
| ListSets.HelperSizes | generic_utils.py:3-10 | intersection and difference together are as long as the first list's set; union plus intersection equals the sum of both sets' sizes |
| ListSets.IntersectExample | generic_utils.py:3-4 | `intersect_list([1,2,3],[2,3,4])` lists exactly 2 and 3 |
| NanFilter.Kept | generic_utils.py:14 | the positions a boolean mask keeps: strictly increasing, each in range with a false mask entry, and every such position included |
| NanFilter.KeptCount | generic_utils.py:14 | the number of kept positions is the number of false mask entries |
| NanFilter.DeleteSelectsKept | generic_utils.py:14 | `np.delete(xs, mask)` has one entry per kept position, and entry j is the element at the j-th kept position |
| NanFilter.DeleteNothing | generic_utils.py:14 | a mask with no true entry deletes nothing |
| NanFilter.RemoveNanUnion | generic_utils.py:12-14 | fails exactly on unequal lengths; both outputs have one entry per position where neither input is NaN, hold no NaN, and entry j of each comes from the same input position, in increasing order |
| NanFilter.RemoveNanUnionIdentity | generic_utils.py:12-14 | inputs without NaN come back unchanged |
| NanFilter.RemoveNanUnionIdempotent | generic_utils.py:12-14 | filtering the outputs again changes nothing |
| NanFilter.RemoveNanUnionExample | generic_utils.py:12-14 | `[1, NaN, 3]` and `[1, 2, NaN]` give `[1]` and `[1]` |
| Fourier.CalculateFourierTerms | fourier_terms.py:8-17 | fails only for a negative number of terms; otherwise it has one row per cycle value and 2n columns; column i-1 holds the sine and column n+i-1 the cosine of harmonic i of each row's value |
| Fourier.ParseFeatureNameInverse | fourier_terms.py:57-59 | a feature name can be parsed back to the wave and the harmonic it was built from |
| Fourier.FeatureNameInjective | fourier_terms.py:57-59 | two names of one column are equal only if wave and harmonic are equal |
| Fourier.FeatureNamesDecode | fourier_terms.py:57-59 | the list has 2n names; name j decodes to the sine of harmonic j+1 for j < n, and to the cosine of harmonic j-n+1 after that |
| Fourier.FeatureNamesDistinct | fourier_terms.py:57-59 | the 2n generated names are pairwise distinct |
| Fourier.FeatureNamesExample | fourier_terms.py:57-59 | two harmonics of `month` are named `month_sin_1, month_sin_2, month_cos_1, month_cos_2` |
| Fourier.Assign | fourier_terms.py:60 | after assigning, the table's column names are its old names plus every assigned name |
| Fourier.AssignPlacesColumns | fourier_terms.py:60 | with distinct names, each name holds its own column afterwards, and every other column is untouched |
| Fourier.AddFourierFeatures | fourier_terms.py:20-60 | the failures come in the code's order: missing column, non-numeric column, omitted `max_value` (always a failure), NaN cell, negative term count. Success happens exactly when none applies. On success the names are the 2n feature names, name j holds column j of the Fourier matrix of the truncated values, other columns are unchanged, and a well-formed table stays well-formed |

## Left out

- Numbers.Trunc: casts into an unbounded integer. `astype(int)` actually
  produces a 64-bit integer (the platform `int` width), and a finite cell of
  magnitude 2^63 or more gets an implementation-defined value, often -2^63,
  whose sign need not match. Neither the int64 range nor that wrap is modelled.
- Fourier.AddFourierFeatures: assumes Python assertions are enabled. Under
  `python -O` the column-exists and numeric-dtype checks (fourier_terms.py:41-46)
  are skipped. A non-numeric column whose strings `astype(int)` can parse
  would then yield features. Here it always fails with `ColumnNotNumeric`.

- `differencing.py` (`make_stationary`, `_detrend`): the detrend path calls the
  statsmodels `lowess` smoother, which is not part of this model. The logdiff
  path is `log`/`exp` floating-point arithmetic. The mutated default argument
  is a Python side effect with no logic to model.
- `metric_utils.py` (`mae`, `mse`, `mape`, `smape`, `mase`): floating-point means
  with `nanmean` and unguarded division. Their behaviour depends on IEEE NaN and
  infinity, which exact reals would misrepresent.
- `formatting.py` (`compact_to_expanded`): pandas date ranges, frame reshaping
  and a progress bar. These are library plumbing, not logic.
- The numeric values of sin and cos, and the `use_32_bit` float32 downcast
  (fourier_terms.py:61-62). Values are uninterpreted, so a change of precision
  has nothing to act on.
- Pandas column order and the mechanics of `df[names] = matrix`: the table is a
  map from names to columns.
- Duplicate column labels, infinite cells, and bool or complex dtypes are not
  distinguished.
- The value of `df[column].max()` (fourier_terms.py:48) is not modelled. It is
  computed but always discarded by the failure that follows.
- The message text of the exceptions.
- Elements the set helpers cannot hash (a `TypeError` in Python): list elements
  are Dafny values with equality.
- `np.isnan` on non-float arrays, and arrays of more than one dimension, in
  `remove_nan_union`.
- The older `np.delete` behaviour that read a boolean mask as the indices 0 and 1.
