/**
 * `DataLoader`: every line of a CSV file that contains a comma becomes one
 * training instance, its last `outputLength` fields the output vector and
 * the others the input vector. Reading the file is outside the model: the
 * lines read, and whether reading stopped at an `IOException`, are
 * parameters, and `Double.parseDouble` is a partial function given as a
 * parameter (`None` where it throws `NumberFormatException`).
 */
module DataLoader {
  import opened Common
  import opened Trainer

  const Delimiter: char := ','

  /**
   * The pieces of `s` between delimiters, empty pieces included: the
   * delimiters of `s` cut it into one more piece than there are delimiters.
   */
  function Fields(s: string): (fs: seq<string>)
    ensures |fs| >= 1
    ensures forall i :: 0 <= i < |fs| ==> Delimiter !in fs[i]
  {
    if s == [] then [""]
    else
      var rest := Fields(s[1..]);
      if s[0] == Delimiter then [""] + rest
      else [[s[0]] + rest[0]] + rest[1..]
  }

  /** The pieces put back together with a delimiter between each two. */
  function Join(fs: seq<string>): string
    requires |fs| >= 1
  {
    if |fs| == 1 then fs[0] else fs[0] + [Delimiter] + Join(fs[1..])
  }

  /** Cutting a line at its delimiters loses nothing: joining the pieces gives the line back. */
  lemma {:induction false} JoinFields(s: string)
    ensures Join(Fields(s)) == s
  {
    if s != [] {
      var rest := Fields(s[1..]);
      JoinFields(s[1..]);
      if s[0] != Delimiter {
        var fs := Fields(s);
        assert fs[1..] == rest[1..];
        if |rest| > 1 {
          assert Join(rest) == rest[0] + [Delimiter] + Join(rest[1..]);
        }
        assert s == [s[0]] + s[1..];
      } else {
        assert s == [s[0]] + s[1..];
      }
    }
  }

  /** A piece without delimiter followed by a delimiter is the first field of what follows. */
  lemma {:induction false} FieldsOfPrefixed(f: string, t: string)
    requires Delimiter !in f
    ensures Fields(f + [Delimiter] + t) == [f] + Fields(t)
  {
    if f == [] {
      assert [] + [Delimiter] + t == [Delimiter] + t;
      assert ([Delimiter] + t)[1..] == t;
    } else {
      var s := f + [Delimiter] + t;
      assert s[1..] == f[1..] + [Delimiter] + t;
      FieldsOfPrefixed(f[1..], t);
      assert [s[0]] + f[1..] == f;
    }
  }

  /** A string without delimiter is a single field. */
  lemma {:induction false} FieldsOfPiece(f: string)
    requires Delimiter !in f
    ensures Fields(f) == [f]
  {
    if f != [] {
      FieldsOfPiece(f[1..]);
      assert [f[0]] + f[1..] == f;
    }
  }

  /** The other round trip: pieces free of delimiters are recovered from their join. */
  lemma {:induction false} FieldsJoin(fs: seq<string>)
    requires |fs| >= 1
    requires forall i :: 0 <= i < |fs| ==> Delimiter !in fs[i]
    ensures Fields(Join(fs)) == fs
  {
    if |fs| == 1 {
      FieldsOfPiece(fs[0]);
    } else {
      FieldsJoin(fs[1..]);
      FieldsOfPrefixed(fs[0], Join(fs[1..]));
    }
  }

  /**
   * The trailing empty strings removed: what is left is a prefix whose last
   * piece, if any, is not empty, and everything removed was empty.
   */
  function TrimTrailing(fs: seq<string>): (r: seq<string>)
    ensures r <= fs
    ensures r == [] || r[|r| - 1] != ""
    ensures forall i :: |r| <= i < |fs| ==> fs[i] == ""
  {
    if fs == [] || fs[|fs| - 1] != "" then fs else TrimTrailing(fs[..|fs| - 1])
  }

  /**
   * `line.split(",")` on a line that holds a comma, the only lines the loader
   * splits: the fields of the line with the trailing empty ones dropped (a
   * line made only of commas has no fields at all). On a line without a
   * comma Java returns the line itself, which this function does not model.
   */
  function SplitLine(line: string): (fs: seq<string>)
    ensures forall i :: 0 <= i < |fs| ==> Delimiter !in fs[i]
  {
    TrimTrailing(Fields(line))
  }

  /** Every field parsed, in order, or `None` if some field does not parse. */
  function Parsed(fs: seq<string>, parse: string -> Option<real>): (r: Option<seq<real>>)
    ensures r.Some? <==> forall i :: 0 <= i < |fs| ==> parse(fs[i]).Some?
    ensures r.Some? ==> |r.value| == |fs| && forall i :: 0 <= i < |fs| ==> r.value[i] == parse(fs[i]).value
  {
    if fs == [] then Some([])
    else match Parsed(fs[..|fs| - 1], parse)
      case None => None
      case Some(v) =>
        match parse(fs[|fs| - 1])
        case None => None
        case Some(x) => Some(v + [x])
  }

  /**
   * What `parseInstance(line, outputLength)` returns: the allocation of
   * `new double[line.length - outputLength]` or `new double[outputLength]`
   * fails for an output length below 0 or above the field count (with an
   * output length of `Integer.MIN_VALUE` the subtraction wraps to a negative
   * size as well); otherwise a field that does not parse raises the number
   * format error, and the instance is the parsed fields, cut before the last
   * `outputLength`. So it fails exactly when the output length is outside
   * 0..m or a field does not parse; otherwise the output vector has
   * `outputLength` entries and the two vectors together hold the m fields'
   * values, input first, each in field order.
   */
  function InstanceOf(line: seq<string>, outputLength: Int32, parse: string -> Option<real>): (r: Result<TrainingInstance>)
    ensures r.Success? <==> 0 <= outputLength <= |line| && forall i :: 0 <= i < |line| ==> parse(line[i]).Some?
    ensures r.Failure? ==> r.exception == if 0 <= outputLength <= |line| then NumberFormat else NegativeArraySize
    ensures r.Success? ==>
              && |r.value.inputVector| + |r.value.outputVector| == |line|
              && |r.value.outputVector| == outputLength
              && (forall i :: 0 <= i < |r.value.inputVector| ==> r.value.inputVector[i] == parse(line[i]).value)
              && (forall i :: 0 <= i < outputLength ==>
                    r.value.outputVector[i] == parse(line[|line| - outputLength + i]).value)
  {
    if outputLength < 0 || outputLength > |line| then Failure(NegativeArraySize)
    else match Parsed(line, parse)
      case None => Failure(NumberFormat)
      case Some(v) => Success(TrainingInstance(v[..|line| - outputLength], v[|line| - outputLength..]))
  }

  /** `parseInstance`: two arrays allocated, then filled by the two loops. */
  method ParseInstance(line: seq<string>, outputLength: Int32, parse: string -> Option<real>)
    returns (r: Result<TrainingInstance>)
    ensures r == InstanceOf(line, outputLength, parse)
  {
    var n := |line| - outputLength;
    if n < 0 || outputLength < 0 {
      return Failure(NegativeArraySize);
    }
    var input := new real[n];
    var output := new real[outputLength];
    for i := 0 to n
      invariant forall j :: 0 <= j < i ==> parse(line[j]).Some? && input[j] == parse(line[j]).value
    {
      match parse(line[i])
      case None =>
        return Failure(NumberFormat);
      case Some(x) =>
        input[i] := x;
    }
    for i := n to |line|
      invariant forall j :: 0 <= j < n ==> parse(line[j]).Some? && input[j] == parse(line[j]).value
      invariant forall j :: n <= j < i ==> parse(line[j]).Some? && output[j - n] == parse(line[j]).value
    {
      match parse(line[i])
      case None =>
        return Failure(NumberFormat);
      case Some(x) =>
        output[i - n] := x;
    }
    var v := Parsed(line, parse).value;
    assert input[..] == v[..n];
    assert output[..] == v[n..];
    r := Success(TrainingInstance(input[..], output[..]));
  }

  /** The lines that hold a delimiter, in file order: the data rows. */
  function DataRows(lines: seq<string>): (rows: seq<string>)
    ensures |rows| <= |lines|
    ensures forall j :: 0 <= j < |rows| ==> Delimiter in rows[j]
  {
    if lines == [] then []
    else
      var line := lines[|lines| - 1];
      DataRows(lines[..|lines| - 1]) + (if Delimiter in line then [line] else [])
  }

  /** A line is a data row exactly when it holds a delimiter, and the rows keep the lines' order. */
  lemma {:induction false} DataRowsAppend(a: seq<string>, b: seq<string>)
    ensures DataRows(a + b) == DataRows(a) + DataRows(b)
  {
    if b != [] {
      assert (a + b)[..|a + b| - 1] == a + b[..|b| - 1];
      DataRowsAppend(a, b[..|b| - 1]);
    } else {
      assert a + b == a;
    }
  }

  /** The instance a data row gives, or the exception it raises: `parseInstance(line.split(","), outputLength)`. */
  function RowInstance(row: string, outputLength: Int32, parse: string -> Option<real>): Result<TrainingInstance>
  {
    InstanceOf(SplitLine(row), outputLength, parse)
  }

  /** `RowInstance` for a fixed output length and number parser. */
  function RowParser(outputLength: Int32, parse: string -> Option<real>): string -> Result<TrainingInstance>
  {
    row => RowInstance(row, outputLength, parse)
  }

  /**
   * The line loop of `loadCsv` over the lines read, as a function, for a
   * row parser `parseRow`: lines without a delimiter are skipped, every other
   * line adds its instance at the end, and the first exception of the row
   * parser ends the load.
   */
  function Loaded(lines: seq<string>, parseRow: string -> Result<TrainingInstance>): Result<seq<TrainingInstance>>
  {
    if lines == [] then Success([])
    else match Loaded(lines[..|lines| - 1], parseRow)
      case Failure(e) => Failure(e)
      case Success(xs) =>
        var line := lines[|lines| - 1];
        if Delimiter !in line then Success(xs)
        else match parseRow(line)
          case Failure(e) => Failure(e)
          case Success(x) => Success(xs + [x])
  }

  /** Row `j` is the first of the rows whose parse fails. */
  ghost predicate FirstFailing(rows: seq<string>, j: nat, parseRow: string -> Result<TrainingInstance>)
    requires j < |rows|
  {
    && parseRow(rows[j]).Failure?
    && forall i :: 0 <= i < j ==> parseRow(rows[i]).Success?
  }

  /**
   * The load succeeds exactly when every data row parses, and then it holds
   * one instance per data row, in file order; otherwise its exception is that
   * of the first data row that fails.
   */
  lemma {:induction false} LoadedRows(lines: seq<string>, parseRow: string -> Result<TrainingInstance>)
    ensures var r, rows := Loaded(lines, parseRow), DataRows(lines);
            && (r.Success? <==> forall j :: 0 <= j < |rows| ==> parseRow(rows[j]).Success?)
            && (r.Success? ==> |r.value| == |rows|)
            && (r.Success? ==> forall j :: 0 <= j < |rows| ==> r.value[j] == parseRow(rows[j]).value)
            && (r.Failure? ==> exists j :: 0 <= j < |rows| && FirstFailing(rows, j, parseRow)
                                         && r.exception == parseRow(rows[j]).exception)
  {
    if lines != [] {
      var init := lines[..|lines| - 1];
      var line := lines[|lines| - 1];
      LoadedRows(init, parseRow);
      var rows0 := DataRows(init);
      var rows := DataRows(lines);
      assert rows[..|rows0|] == rows0;
      var r0 := Loaded(init, parseRow);
      if r0.Failure? {
        var j :| 0 <= j < |rows0| && FirstFailing(rows0, j, parseRow) && r0.exception == parseRow(rows0[j]).exception;
        assert forall i :: 0 <= i <= j ==> rows[i] == rows0[i];
        assert FirstFailing(rows, j, parseRow);
      } else if Delimiter in line {
        assert rows == rows0 + [line];
        if parseRow(line).Failure? {
          assert FirstFailing(rows, |rows0|, parseRow);
        }
      } else {
        assert rows == rows0;
      }
    }
  }

  /** Every instance `loadCsv` returns has an output vector of `outputLength` entries. */
  lemma {:induction false} LoadedOutputLength(lines: seq<string>, outputLength: Int32, parse: string -> Option<real>)
    requires Loaded(lines, RowParser(outputLength, parse)).Success?
    ensures forall x :: x in Loaded(lines, RowParser(outputLength, parse)).value ==> |x.outputVector| == outputLength
  {
    LoadedRows(lines, RowParser(outputLength, parse));
  }

  /**
   * `loadCsv(file, outputLength)`, with the file's I/O as parameters:
   * `openFailure` when opening the file throws an `IOException`, `lines` the
   * lines read before the end of the file or before an `IOException` of
   * `readLine` (`readFailure`), and `closeFailure` when `close()` in the
   * `finally` block throws. The `IOException` of `close()` replaces an
   * exception of `parseInstance` that is on its way out, so the outer catch
   * turns it into `null` (`None`) as well; otherwise a parse exception
   * propagates uncaught. Any `IOException` gives `null`, never a partial
   * list, and without one the instances come back in file order.
   */
  method LoadCsv(openFailure: bool, lines: seq<string>, readFailure: bool, closeFailure: bool,
                 outputLength: Int32, parse: string -> Option<real>)
    returns (r: Result<Option<seq<TrainingInstance>>>)
    ensures openFailure ==> r == Success(None)
    ensures var loaded := Loaded(lines, RowParser(outputLength, parse));
            && (!openFailure && loaded.Failure? ==>
                  r == if closeFailure then Success(None) else Failure(loaded.exception))
            && (!openFailure && loaded.Success? ==>
                  r == Success(if readFailure || closeFailure then None else Some(loaded.value)))
  {
    if openFailure {
      return Success(None);
    }
    ghost var parseRow := RowParser(outputLength, parse);
    var instances: seq<TrainingInstance> := [];
    for i := 0 to |lines|
      invariant Loaded(lines[..i], parseRow) == Success(instances)
    {
      assert lines[..i + 1][..i] == lines[..i];
      var line := lines[i];
      if Delimiter in line {
        var x := ParseInstance(SplitLine(line), outputLength, parse);
        assert x == parseRow(line);
        if x.Failure? {
          assert Loaded(lines[..i + 1], parseRow) == Failure(x.exception);
          LoadedFailurePersists(lines, i + 1, parseRow);
          if closeFailure {
            return Success(None);
          }
          return Failure(x.exception);
        }
        instances := instances + [x.value];
      }
    }
    assert lines[..|lines|] == lines;
    if readFailure || closeFailure {
      return Success(None);
    }
    r := Success(Some(instances));
  }

  /** Once a prefix of the lines fails to load, so do all the lines, with the same exception. */
  lemma {:induction false} LoadedFailurePersists(lines: seq<string>, k: nat, parseRow: string -> Result<TrainingInstance>)
    requires k <= |lines| && Loaded(lines[..k], parseRow).Failure?
    ensures Loaded(lines, parseRow) == Loaded(lines[..k], parseRow)
    decreases |lines| - k
  {
    if k < |lines| {
      assert lines[..k + 1][..k] == lines[..k];
      LoadedFailurePersists(lines, k + 1, parseRow);
    } else {
      assert lines[..k] == lines;
    }
  }
}
