/** Fourier features of fourier_terms.py: for a cyclical column (month, hour, ...)
    and harmonics 1..n, a block of sine columns followed by a block of cosine
    columns, appended to the table under the names `{column}_sin_{i}` and
    `{column}_cos_{i}`. The trigonometric values themselves are left
    uninterpreted; the model is about shape, order, naming and failures. */
module Fourier {
  import opened Wrappers
  import opened Numbers
  import opened Decimal
  import ListSets

  /** sin and cos of the angle 2*pi*v*i/max_cycle, each as an uninterpreted
      function of (cycle value v, harmonic i, max_cycle). Either may yield NaN,
      as a zero max_cycle does in floating point. */
  datatype Trig = Trig(sin: (int, int, int) -> Num, cos: (int, int, int) -> Num)

  /** A float matrix kept column by column; `rows` fixes its height even when
      it has no columns. */
  datatype Matrix = Matrix(rows: nat, columns: seq<seq<Num>>)

  predicate WellShaped(m: Matrix) {
    forall c :: 0 <= c < |m.columns| ==> |m.columns[c]| == m.rows
  }

  /** The exceptions `add_fourier_features` can end in. */
  datatype Error =
    | ColumnNotFound         // first assertion: no such column
    | ColumnNotNumeric       // second assertion: column is not of numeric dtype
    | RaiseOfWarningResult   // `raise warnings.warn(...)`: warn returns None, and raising None is a TypeError
    | NonFiniteToInt         // `astype(int)` met a NaN cell
    | NegativeDimensions     // `np.empty` with a negative number of terms

  /** One harmonic of one wave over a whole column: the vectorised
      `np.sin`/`np.cos` of a single loop iteration. */
  function Harmonic(f: (int, int, int) -> Num, cycle: seq<int>, i: int, maxCycle: int): seq<Num> {
    seq(|cycle|, row requires 0 <= row < |cycle| => f(cycle[row], i, maxCycle))
  }

  /** Column j of the Fourier matrix for n harmonics: the sine of harmonic
      j+1 in the first block, the cosine of harmonic j-n+1 in the second. */
  function TermColumn(trig: Trig, cycle: seq<int>, maxCycle: int, n: nat, j: nat): seq<Num> {
    if j < n then Harmonic(trig.sin, cycle, j + 1, maxCycle)
    else Harmonic(trig.cos, cycle, j - n + 1, maxCycle)
  }

  /** `_calculate_fourier_terms`: an |cycle| x 2n matrix whose column i-1 is the
      sine of harmonic i and whose column n+i-1 is its cosine. */
  method CalculateFourierTerms(cycle: seq<int>, maxCycle: int, n: int, trig: Trig)
    returns (r: Result<Matrix, Error>)
    ensures r.Failure? <==> n < 0
    ensures r.Failure? ==> r.error == NegativeDimensions
    ensures r.Success? ==>
      r.value.rows == |cycle| && |r.value.columns| == 2 * n && WellShaped(r.value)
    ensures r.Success? ==>
      forall i, row :: 1 <= i <= n && 0 <= row < |cycle| ==>
        r.value.columns[i - 1][row] == trig.sin(cycle[row], i, maxCycle) &&
        r.value.columns[n + i - 1][row] == trig.cos(cycle[row], i, maxCycle)
    ensures r.Success? ==>
      forall j :: 0 <= j < |r.value.columns| ==> r.value.columns[j] == TermColumn(trig, cycle, maxCycle, n, j)
  {
    if n < 0 {
      return Failure(NegativeDimensions);
    }
    var sinX: seq<seq<Num>> := [];
    var cosX: seq<seq<Num>> := [];
    for i := 1 to n + 1
      invariant |sinX| == |cosX| == i - 1
      invariant forall c :: 0 <= c < i - 1 ==> sinX[c] == Harmonic(trig.sin, cycle, c + 1, maxCycle)
      invariant forall c :: 0 <= c < i - 1 ==> cosX[c] == Harmonic(trig.cos, cycle, c + 1, maxCycle)
    {
      sinX := sinX + [Harmonic(trig.sin, cycle, i, maxCycle)];
      cosX := cosX + [Harmonic(trig.cos, cycle, i, maxCycle)];
    }
    return Success(Matrix(|cycle|, sinX + cosX));
  }

  // Feature names

  datatype Wave = Sin | Cos

  function Tag(w: Wave): string {
    match w
    case Sin => "_sin_"
    case Cos => "_cos_"
  }

  /** `f"{column}_sin_{i}"` or `f"{column}_cos_{i}"`. */
  function FeatureName(column: string, w: Wave, i: nat): string {
    column + Tag(w) + NatToString(i)
  }

  /** The two list comprehensions joined: sine names for 1..n, then cosine
      names for 1..n. */
  function FeatureNames(column: string, n: nat): seq<string> {
    seq(n, k requires 0 <= k < n => FeatureName(column, Sin, k + 1)) +
    seq(n, k requires 0 <= k < n => FeatureName(column, Cos, k + 1))
  }

  /** Recovers the wave and harmonic a feature name of `column` was built from. */
  function ParseFeatureName(column: string, name: string): Option<(Wave, nat)> {
    var p := |column|;
    if |name| > p + 5 && name[..p] == column then
      var tag, digits := name[p..p + 5], name[p + 5..];
      if AllDigits(digits) && tag == Tag(Sin) then Some((Sin, ParseDigits(digits)))
      else if AllDigits(digits) && tag == Tag(Cos) then Some((Cos, ParseDigits(digits)))
      else None
    else None
  }

  /** A feature name says which wave and harmonic it holds. */
  lemma ParseFeatureNameInverse(column: string, w: Wave, i: nat)
    ensures ParseFeatureName(column, FeatureName(column, w, i)) == Some((w, i))
  {
    var name, p := FeatureName(column, w, i), |column|;
    assert name[..p] == column;
    assert name[p..p + 5] == Tag(w);
    assert name[p + 5..] == NatToString(i);
    ParseNatToString(i);
  }

  /** Two feature names of one column coincide only when wave and harmonic do. */
  lemma FeatureNameInjective(column: string, w: Wave, i: nat, w': Wave, i': nat)
    ensures FeatureName(column, w, i) == FeatureName(column, w', i') ==> w == w' && i == i'
  {
    ParseFeatureNameInverse(column, w, i);
    ParseFeatureNameInverse(column, w', i');
  }

  /** Entry j of the name list names the sine of harmonic j+1 when j < n and
      the cosine of harmonic j-n+1 otherwise. */
  lemma FeatureNamesDecode(column: string, n: nat)
    ensures |FeatureNames(column, n)| == 2 * n
    ensures forall j :: 0 <= j < 2 * n ==>
      ParseFeatureName(column, FeatureNames(column, n)[j])
        == if j < n then Some((Sin, j + 1)) else Some((Cos, j - n + 1))
  {
    var names := FeatureNames(column, n);
    forall j | 0 <= j < 2 * n
      ensures ParseFeatureName(column, names[j])
        == if j < n then Some((Sin, j + 1)) else Some((Cos, j - n + 1))
    {
      if j < n {
        ParseFeatureNameInverse(column, Sin, j + 1);
      } else {
        ParseFeatureNameInverse(column, Cos, j - n + 1);
      }
    }
  }

  /** The generated names are pairwise distinct. */
  lemma FeatureNamesDistinct(column: string, n: nat)
    ensures ListSets.NoDuplicates(FeatureNames(column, n))
  {
    var names := FeatureNames(column, n);
    FeatureNamesDecode(column, n);
    forall j, j' | 0 <= j < j' < |names|
      ensures names[j] != names[j']
    {
      assert ParseFeatureName(column, names[j]) != ParseFeatureName(column, names[j']);
    }
  }

  /** Two month harmonics are named month_sin_1, month_sin_2, month_cos_1, month_cos_2. */
  lemma FeatureNamesExample()
    ensures FeatureNames("month", 2) == ["month_sin_1", "month_sin_2", "month_cos_1", "month_cos_2"]
  {
    assert NatToString(1) == "1" && NatToString(2) == "2";
    assert FeatureName("month", Sin, 1) == "month_sin_1";
    assert FeatureName("month", Sin, 2) == "month_sin_2";
    assert FeatureName("month", Cos, 1) == "month_cos_1";
    assert FeatureName("month", Cos, 2) == "month_cos_2";
  }

  // Tables

  /** A table column: numeric (ints and floats alike are float cells here) or
      of some other dtype, whose contents the model never reads. */
  datatype Column = Numeric(cells: seq<Num>) | NonNumeric(size: nat)

  function Length(c: Column): nat {
    match c
    case Numeric(cells) => |cells|
    case NonNumeric(size) => size
  }

  /** A table: a row count and its columns by name. */
  datatype Frame = Frame(rows: nat, columns: map<string, Column>)

  predicate WellFormed(df: Frame) {
    forall name :: name in df.columns ==> Length(df.columns[name]) == df.rows
  }

  /** `df[names] = values`, one column after the other: each name gets its
      column, replacing any column of that name already present. */
  function Assign(columns: map<string, Column>, names: seq<string>, values: seq<Column>): (r: map<string, Column>)
    requires |names| == |values|
    ensures r.Keys == columns.Keys + ListSets.Elems(names)
    decreases |names|
  {
    if |names| == 0 then columns
    else
      assert ListSets.Elems(names) == {names[0]} + ListSets.Elems(names[1..]);
      Assign(columns[names[0] := values[0]], names[1..], values[1..])
  }

  /** With distinct names, every name ends up holding its own column, and
      every other column is left as it was. */
  lemma {:induction false} AssignPlacesColumns(columns: map<string, Column>, names: seq<string>, values: seq<Column>)
    requires |names| == |values|
    requires ListSets.NoDuplicates(names)
    ensures forall j :: 0 <= j < |names| ==> Assign(columns, names, values)[names[j]] == values[j]
    ensures forall c :: c in columns && c !in names ==> Assign(columns, names, values)[c] == columns[c]
    decreases |names|
  {
    if |names| > 0 {
      var next := columns[names[0] := values[0]];
      var m := Assign(columns, names, values);
      assert m == Assign(next, names[1..], values[1..]);
      AssignPlacesColumns(next, names[1..], values[1..]);
      forall j | 0 <= j < |names|
        ensures m[names[j]] == values[j]
      {
        if j == 0 {
          assert names[0] !in names[1..];
        } else {
          assert names[1..][j - 1] == names[j];
        }
      }
      forall c | c in columns && c !in names
        ensures m[c] == columns[c]
      {
        assert c !in names[1..];
      }
    }
  }

  /** `add_fourier_features(df, column, max_value, n_fourier_terms)`.
      The checks run in the source's order, and every failure leaves no new
      table behind. When `max_value` is omitted the call always fails: the
      warning is raised as if it were an exception. On success the table gains
      the 2n named columns, sine block first, each holding the trigonometric
      value of the truncated cycle value, and nothing else changes. */
  method AddFourierFeatures(df: Frame, column: string, maxValue: Option<int>, nTerms: int, trig: Trig)
    returns (r: Result<(Frame, seq<string>), Error>)
    ensures column !in df.columns ==> r == Failure(ColumnNotFound)
    ensures column in df.columns && df.columns[column].NonNumeric? ==> r == Failure(ColumnNotNumeric)
    ensures (column in df.columns && df.columns[column].Numeric? && maxValue.None?) ==>
      r == Failure(RaiseOfWarningResult)
    ensures (column in df.columns && df.columns[column].Numeric? && maxValue.Some? &&
             HasNaN(df.columns[column].cells)) ==> r == Failure(NonFiniteToInt)
    ensures (column in df.columns && df.columns[column].Numeric? && maxValue.Some? &&
             !HasNaN(df.columns[column].cells) && nTerms < 0) ==> r == Failure(NegativeDimensions)
    ensures r.Success? <==>
      column in df.columns && df.columns[column].Numeric? && maxValue.Some? &&
      !HasNaN(df.columns[column].cells) && nTerms >= 0
    ensures r.Success? ==> |r.value.1| == 2 * nTerms && r.value.1 == FeatureNames(column, nTerms)
    ensures r.Success? ==>
      var src := df.columns[column].cells;
      forall j :: 0 <= j < |r.value.1| ==>
        r.value.1[j] in r.value.0.columns &&
        r.value.0.columns[r.value.1[j]].Numeric? &&
        |r.value.0.columns[r.value.1[j]].cells| == |src|
    ensures r.Success? ==>
      var cycle, names := AsInt(df.columns[column].cells).value, r.value.1;
      forall j :: 0 <= j < |names| ==>
        r.value.0.columns[names[j]] == Numeric(TermColumn(trig, cycle, maxValue.value, nTerms, j))
    ensures r.Success? ==>
      r.value.0.rows == df.rows &&
      r.value.0.columns.Keys == df.columns.Keys + ListSets.Elems(r.value.1) &&
      forall c :: c in df.columns && c !in r.value.1 ==> r.value.0.columns[c] == df.columns[c]
    ensures r.Success? && WellFormed(df) ==> WellFormed(r.value.0)
  {
    if column !in df.columns {
      return Failure(ColumnNotFound);
    }
    var col := df.columns[column];
    if col.NonNumeric? {
      return Failure(ColumnNotNumeric);
    }
    if maxValue.None? {
      return Failure(RaiseOfWarningResult);
    }
    var cycle := AsInt(col.cells);
    if cycle.None? {
      return Failure(NonFiniteToInt);
    }
    var terms := CalculateFourierTerms(cycle.value, maxValue.value, nTerms, trig);
    if terms.Failure? {
      return Failure(terms.error);
    }
    var m := terms.value;
    var names := FeatureNames(column, nTerms);
    var values := seq(2 * nTerms, j requires 0 <= j < 2 * nTerms => Numeric(m.columns[j]));
    FeatureNamesDistinct(column, nTerms);
    AssignPlacesColumns(df.columns, names, values);
    var out := Frame(df.rows, Assign(df.columns, names, values));
    return Success((out, names));
  }
}
