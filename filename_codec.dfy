/**
 * The file-name codec `parse_filename`: strip every ".csv" from the name,
 * split it on '_' and read the tool and the run timestamp from the first
 * three parts.
 */
module FilenameCodec {
  import opened Domain

  const Separator: char := '_'

  /** What `parse_filename` returns: the tool and the run timestamp text. */
  datatype Parsed = Parsed(tool: string, runTimestamp: string)

  /** True when `pat` occurs in `s` as a contiguous slice. */
  predicate Occurs(pat: string, s: string)
    decreases |s|
  {
    |pat| <= |s| && (s[..|pat|] == pat || (0 < |s| && Occurs(pat, s[1..])))
  }

  /**
   * Python's `s.replace(pat, "")`: scan from the left, drop each occurrence of
   * `pat`, resume after it (occurrences do not overlap).
   */
  function RemoveAll(s: string, pat: string): (r: string)
    requires pat != []
    ensures |r| <= |s|
    ensures !Occurs(pat, s) ==> r == s
    decreases |s|
  {
    if |s| < |pat| then s
    else if s[..|pat|] == pat then RemoveAll(s[|pat|..], pat)
    else [s[0]] + RemoveAll(s[1..], pat)
  }

  /**
   * Python's `s.split(sep)` for a one-character separator: the pieces between
   * separators, one more piece than there are separators, none holding `sep`.
   */
  function Split(s: string, sep: char): (parts: seq<string>)
    ensures |parts| >= 1
    ensures forall i :: 0 <= i < |parts| ==> sep !in parts[i]
    decreases |s|
  {
    if s == [] then [[]]
    else
      var rest := Split(s[1..], sep);
      if s[0] == sep then [[]] + rest
      else [[s[0]] + rest[0]] + rest[1..]
  }

  /** Python's `sep.join(parts)`. */
  function Join(parts: seq<string>, sep: char): string
    decreases |parts|
  {
    if |parts| == 0 then []
    else if |parts| == 1 then parts[0]
    else parts[0] + [sep] + Join(parts[1..], sep)
  }

  /**
   * `parse_filename`: the first part is the tool, the second and third joined
   * by a space are the run timestamp; with fewer than three parts Python's
   * list indexing raises IndexError. Parts beyond the third are ignored.
   */
  function ParseFilename(name: string): (r: Result<Parsed>)
    ensures r.Err? ==> r.error == IndexOutOfRange(name)
    ensures r.Ok? ==> Separator !in r.value.tool
  {
    var parts := Split(RemoveAll(name, CsvSuffix), Separator);
    if |parts| < 3 then Err(IndexOutOfRange(name))
    else Ok(Parsed(parts[0], parts[1] + " " + parts[2]))
  }

  /** One unfolding of Split on a string given as its first character and the rest. */
  lemma SplitCons(c: char, t: string, sep: char)
    ensures Split([c] + t, sep)
            == if c == sep then [[]] + Split(t, sep) else [[c] + Split(t, sep)[0]] + Split(t, sep)[1..]
  {
    var s := [c] + t;
    assert s[0] == c && s[1..] == t;
  }

  /** There is one more piece than there are separators. */
  lemma {:induction false} SplitCount(s: string, sep: char)
    ensures |Split(s, sep)| == multiset(s)[sep] + 1
    decreases |s|
  {
    if s != [] {
      SplitCount(s[1..], sep);
      assert s == [s[0]] + s[1..];
      SplitCons(s[0], s[1..], sep);
    }
  }

  /** One unfolding of Join on a first part followed by at least one more. */
  lemma JoinCons(p: string, rest: seq<string>, sep: char)
    requires |rest| >= 1
    ensures Join([p] + rest, sep) == p + [sep] + Join(rest, sep)
  {
    var parts := [p] + rest;
    assert parts[0] == p && parts[1..] == rest;
  }

  /** Splitting and joining again gives back the string. */
  lemma {:induction false} JoinSplit(s: string, sep: char)
    ensures Join(Split(s, sep), sep) == s
    decreases |s|
  {
    if s != [] {
      var t := s[1..];
      var rest := Split(t, sep);
      JoinSplit(t, sep);
      assert s == [s[0]] + t;
      SplitCons(s[0], t, sep);
      if s[0] == sep {
        JoinCons([], rest, sep);
      } else if |rest| == 1 {
        assert Split(s, sep) == [[s[0]] + rest[0]];
      } else {
        var head := [s[0]] + rest[0];
        assert rest == [rest[0]] + rest[1..];
        JoinCons(rest[0], rest[1..], sep);
        JoinCons(head, rest[1..], sep);
        assert Split(s, sep) == [head] + rest[1..];
      }
    }
  }

  /** A prefix without separators glues onto the first piece of what follows it. */
  lemma {:induction false} SplitPrefix(a: string, t: string, sep: char)
    requires sep !in a
    ensures Split(a + t, sep) == [a + Split(t, sep)[0]] + Split(t, sep)[1..]
    decreases |a|
  {
    if a == [] {
      var x := Split(t, sep);
      assert a + t == t && a + x[0] == x[0];
      assert x == [x[0]] + x[1..];
    } else {
      var x := Split(t, sep);
      var inner := Split(a[1..] + t, sep);
      SplitPrefix(a[1..], t, sep);
      assert a + t == [a[0]] + (a[1..] + t);
      SplitCons(a[0], a[1..] + t, sep);
      assert inner == [a[1..] + x[0]] + x[1..];
      assert inner[0] == a[1..] + x[0] && inner[1..] == x[1..];
      assert [a[0]] + (a[1..] + x[0]) == a + x[0];
    }
  }

  /** Joining separator-free parts and splitting again gives back the parts. */
  lemma {:induction false} SplitJoin(parts: seq<string>, sep: char)
    requires |parts| >= 1
    requires forall i :: 0 <= i < |parts| ==> sep !in parts[i]
    ensures Split(Join(parts, sep), sep) == parts
    decreases |parts|
  {
    if |parts| == 1 {
      SplitPrefix(parts[0], [], sep);
      assert parts[0] + [] == parts[0];
      assert Split([], sep) == [[]];
    } else {
      var tail := Join(parts[1..], sep);
      SplitJoin(parts[1..], sep);
      SplitCons(sep, tail, sep);
      SplitPrefix(parts[0], [sep] + tail, sep);
      var y := Split([sep] + tail, sep);
      assert y == [[]] + parts[1..];
      assert y[0] == [] && y[1..] == parts[1..];
      assert Join(parts, sep) == parts[0] + ([sep] + tail);
      assert parts[0] + [] == parts[0];
      assert parts == [parts[0]] + parts[1..];
    }
  }

  /** Removing ".csv" from a stem that holds none, followed by ".csv", leaves the stem. */
  lemma {:induction false} StripSuffix(stem: string)
    requires !Occurs(CsvSuffix, stem)
    ensures RemoveAll(stem + CsvSuffix, CsvSuffix) == stem
    decreases |stem|
  {
    var s := stem + CsvSuffix;
    if stem == [] {
      assert s == CsvSuffix;
      assert s[|CsvSuffix|..] == [];
    } else {
      if |stem| >= 4 {
        assert s[..4] == stem[..4];
      } else {
        assert s[..4][|stem|] == '.';
        assert CsvSuffix[|stem|] != '.';
      }
      assert s[..4] != CsvSuffix;
      StripSuffix(stem[1..]);
      assert s[1..] == stem[1..] + CsvSuffix;
    }
  }

  /** A string lacking some character of `pat` cannot contain `pat`. */
  lemma {:induction false} MissingCharNoOccurrence(pat: string, s: string, k: nat)
    requires k < |pat| && pat[k] !in s
    ensures !Occurs(pat, s)
    decreases |s|
  {
    if |pat| <= |s| {
      assert s[..|pat|][k] == s[k];
      if 0 < |s| {
        assert forall c :: c in s[1..] ==> c in s;
        MissingCharNoOccurrence(pat, s[1..], k);
      }
    }
  }

  /**
   * A name made of separator-free parts joined by '_' and followed by ".csv"
   * parses to the first part and the second and third joined by a space;
   * parts after the third are ignored.
   */
  lemma ParseJoined(parts: seq<string>)
    requires |parts| >= 3
    requires forall i :: 0 <= i < |parts| ==> Separator !in parts[i]
    requires !Occurs(CsvSuffix, Join(parts, Separator))
    ensures ParseFilename(Join(parts, Separator) + CsvSuffix)
            == Ok(Parsed(parts[0], parts[1] + " " + parts[2]))
  {
    StripSuffix(Join(parts, Separator));
    SplitJoin(parts, Separator);
  }

  /** `parse_filename` fails exactly when the stripped name holds fewer than two separators. */
  lemma ParseFailsIff(name: string)
    ensures ParseFilename(name).Err? <==> multiset(RemoveAll(name, CsvSuffix))[Separator] < 2
  {
    SplitCount(RemoveAll(name, CsvSuffix), Separator);
  }

  /**
   * An example, tool "A", date "20240101", time "120000.000": the
   * name "A_20240101_120000.000.csv" gives tool "A" and timestamp "20240101 120000.000".
   * The three parts are parameters fixed by the precondition so that the proof
   * reasons about their concatenation instead of unfolding `Split` character
   * by character over a literal.
   */
  lemma ParseExample(tool: string, date: string, time: string)
    requires tool == "A" && date == "20240101" && time == "120000.000"
    ensures ParseFilename(tool + "_" + date + "_" + time + CsvSuffix) == Ok(Parsed(tool, date + " " + time))
  {
    var parts := [tool, date, time];
    JoinCons(date, [time], Separator);
    JoinCons(tool, [date, time], Separator);
    assert [tool] + [date, time] == parts;
    assert "_" == [Separator];
    assert Join(parts, Separator) == tool + "_" + date + "_" + time;
    assert 'v' !in tool + "_" + date + "_" + time;
    MissingCharNoOccurrence(CsvSuffix, Join(parts, Separator), 3);
    ParseJoined(parts);
  }
}
