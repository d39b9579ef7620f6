/**
 * The pandas DataFrame that `make_df` fills column by column, and the outlier
 * flagger `flag_outliers`, which adds a boolean column in place.
 */
module DataFrames {
  import opened Domain

  /** The flagger's fixed band: values strictly outside [Lower, Upper] are outliers. */
  const Lower: real := 97.0
  const Upper: real := 103.0

  /** The mask `value.gt(103) | value.lt(97)`: a value is flagged exactly when it lies outside the closed band. */
  predicate IsOutlier(v: real): (flagged: bool)
    ensures flagged <==> !(Lower <= v <= Upper)
  {
    v > Upper || v < Lower
  }

  /** Both comparisons are strict: the band's ends are not outliers, and every value past either end is. */
  lemma BandIsInclusive()
    ensures !IsOutlier(97.0) && !IsOutlier(103.0)
    ensures IsOutlier(96.999) && IsOutlier(103.001)
  {
  }

  /** The columns a frame of the pipeline can hold, in table `meas_values`'s vocabulary. */
  datatype Column = Time | Value | Tool | RunTimestamp | Filename | Outlier {
    /** The columns `make_df` fills with one string for every row. */
    predicate IsText() {
      Tool? || RunTimestamp? || Filename?
    }
  }

  /** `df[c] = ...`: a column assigned for the first time is appended; an existing one keeps its place. */
  function WithColumn(columns: seq<Column>, c: Column): (r: seq<Column>)
    ensures c in r && |columns| <= |r| <= |columns| + 1
    ensures r[..|columns|] == columns
  {
    if c in columns then columns else columns + [c]
  }

  /** A DataFrame with the pipeline's columns, stored column by column. */
  class Frame {
    var columns: seq<Column>
    var time: seq<int>
    var value: seq<real>
    var tool: seq<string>
    var runTimestamp: seq<string>
    var filename: seq<string>
    var outlier: seq<bool>

    /** Every column the frame holds has one entry per row. */
    ghost predicate Valid()
      reads this
    {
      Time in columns && Value in columns && |value| == |time| &&
      (Tool in columns ==> |tool| == |time|) &&
      (RunTimestamp in columns ==> |runTimestamp| == |time|) &&
      (Filename in columns ==> |filename| == |time|) &&
      (Outlier in columns ==> |outlier| == |time|)
    }

    /** All six columns of table `meas_values` are present. */
    predicate Complete()
      reads this
    {
      Tool in columns && RunTimestamp in columns && Filename in columns && Outlier in columns
    }

    /**
     * `pd.read_csv(fp)` followed by `df.columns = ["time", "value"]`: one row
     * per CSV row, in file order, under the names time and value.
     */
    constructor FromCsv(samples: seq<Sample>)
      ensures Valid() && columns == [Time, Value]
      ensures time == seq(|samples|, i requires 0 <= i < |samples| => samples[i].time)
      ensures value == seq(|samples|, i requires 0 <= i < |samples| => samples[i].value)
    {
      columns := [Time, Value];
      time := seq(|samples|, i requires 0 <= i < |samples| => samples[i].time);
      value := seq(|samples|, i requires 0 <= i < |samples| => samples[i].value);
      tool, runTimestamp, filename, outlier := [], [], [], [];
    }

    /** `df[c] = s` for a string `s`: pandas broadcasts it to every row. */
    method AssignText(c: Column, s: string)
      requires Valid() && c.IsText()
      modifies this
      ensures Valid() && columns == WithColumn(old(columns), c)
      ensures tool == if c == Tool then seq(|time|, _ => s) else old(tool)
      ensures runTimestamp == if c == RunTimestamp then seq(|time|, _ => s) else old(runTimestamp)
      ensures filename == if c == Filename then seq(|time|, _ => s) else old(filename)
      ensures time == old(time) && value == old(value) && outlier == old(outlier)
    {
      var column := seq(|time|, _ => s);
      match c {
        case Tool => tool := column;
        case RunTimestamp => runTimestamp := column;
        case Filename => filename := column;
      }
      columns := WithColumn(columns, c);
    }

    /**
     * `flag_outliers`: set the whole `outlier` column to false, then set it to
     * true on the rows the mask selects. Every other column and the row order
     * stay as they were; the only column added is `outlier`.
     */
    method FlagOutliers()
      requires Valid()
      modifies this
      ensures Valid() && columns == WithColumn(old(columns), Outlier)
      ensures |outlier| == |value|
      ensures forall i :: 0 <= i < |value| ==> (outlier[i] <==> IsOutlier(value[i]))
      ensures time == old(time) && value == old(value)
      ensures tool == old(tool) && runTimestamp == old(runTimestamp) && filename == old(filename)
    {
      outlier := seq(|time|, _ => false);
      columns := WithColumn(columns, Outlier);
      var i := 0;
      while i < |value|
        invariant 0 <= i <= |value| && |outlier| == |value|
        invariant Valid() && columns == WithColumn(old(columns), Outlier)
        invariant forall k :: 0 <= k < i ==> (outlier[k] <==> IsOutlier(value[k]))
        invariant forall k :: i <= k < |value| ==> !outlier[k]
        invariant time == old(time) && value == old(value)
        invariant tool == old(tool) && runTimestamp == old(runTimestamp) && filename == old(filename)
      {
        if value[i] > Upper || value[i] < Lower {
          outlier := outlier[i := true];
        }
        i := i + 1;
      }
    }

    /**
     * The rows `to_sql` writes to `meas_values`: row `i` of the frame, read
     * across its six columns. This is a definition; what the rows hold after
     * `make_df` is proved in `RecordBuilder.FillFrame`.
     */
    function Records(): seq<Record>
      reads this
      requires Valid() && Complete()
    {
      var t, v, to, ts, f, o := time, value, tool, runTimestamp, filename, outlier;
      seq(|t|, i requires 0 <= i < |t| => Record(t[i], v[i], to[i], ts[i], f[i], o[i]))
    }
  }
}
