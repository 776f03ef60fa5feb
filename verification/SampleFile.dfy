/** The script that writes the sample file, Codigos_auxiliares/formatador_dados_atp_distancia.py,
    and the round trip of a sample through the file and the reader of dataModule.c. */
module SampleFile {
  import opened DecimalText
  import opened WindowedReader
  import opened ReaderProperties

  /** The instrument transformer ratio of a channel: RTP, then RTC. */
  function Ratio(ch: nat): (r: real)
    ensures r > 0.0
  {
    if ch < 3 then 500000.0 / 115.0 else 600.0 / 5.0
  }

  /** Six primary values brought to secondary units. */
  function ToSecondary(row: seq<real>): (r: seq<real>)
    ensures |r| == |row|
  {
    seq(|row|, ch requires 0 <= ch < |row| => row[ch] / Ratio(ch))
  }

  function PrintedRow(row: seq<real>): (r: seq<string>)
    ensures |r| == |row|
  {
    seq(|row|, ch requires 0 <= ch < |row| => PrintFixed6(row[ch]))
  }

  /** One line of the intermediate file: six decimals, tabs between, a line break. */
  function TabbedLine(row: seq<real>): string { Join(PrintedRow(row), '\t') + "\n" }

  /** A line of the intermediate file, split on white space and joined with commas; blank
      lines are dropped. */
  function CommaLines(lines: seq<string>): seq<string>
  {
    if lines == [] then []
    else
      var values := Split(lines[0], IsSpace);
      (if values != [] then [Join(values, ',') + "\n"] else []) + CommaLines(lines[1..])
  }

  /** The loop that fills the columns, each value divided by its ratio. */
  method ReadColumns(rows: seq<seq<real>>) returns (scaled: seq<seq<real>>)
    ensures |scaled| == |rows| && forall i :: 0 <= i < |rows| ==> scaled[i] == ToSecondary(rows[i])
  {
    scaled := [];
    for i := 0 to |rows|
      invariant |scaled| == i && forall j :: 0 <= j < i ==> scaled[j] == ToSecondary(rows[j])
    {
      scaled := scaled + [ToSecondary(rows[i])];
    }
  }

  /** The loop that writes the samples of the new grid. */
  method WriteTabbed(rows: seq<seq<real>>) returns (lines: seq<string>)
    ensures |lines| == |rows| && forall i :: 0 <= i < |rows| ==> lines[i] == TabbedLine(rows[i])
  {
    lines := [];
    for i := 0 to |rows|
      invariant |lines| == i && forall j :: 0 <= j < i ==> lines[j] == TabbedLine(rows[j])
    {
      lines := lines + [TabbedLine(rows[i])];
    }
  }

  lemma CommaLinesStep(lines: seq<string>, i: nat)
    requires i < |lines|
    ensures var values := Split(lines[i], IsSpace);
            CommaLines(lines[i..])
              == (if values != [] then [Join(values, ',') + "\n"] else []) + CommaLines(lines[i + 1..])
  {
    hide Split, Join;
    assert lines[i..][1..] == lines[i + 1..];
  }

  /** `uniformizar_dados`. */
  method Uniformize(input: seq<string>) returns (output: seq<string>)
    ensures output == CommaLines(input)
  {
    output := [];
    for i := 0 to |input|
      invariant CommaLines(input) == output + CommaLines(input[i..])
    {
      hide Split, Join, CommaLines;
      CommaLinesStep(input, i);
      var values := Split(input[i], IsSpace);
      if values != [] {
        var line := Join(values, ',') + "\n";
        assert output + ([line] + CommaLines(input[i + 1..])) == (output + [line]) + CommaLines(input[i + 1..]);
        output := output + [line];
      } else {
        assert [] + CommaLines(input[i + 1..]) == CommaLines(input[i + 1..]);
      }
    }
  }

  // ----- through the file and back -----

  lemma TabbedLineSplits(row: seq<real>)
    requires row != []
    ensures Split(TabbedLine(row), IsSpace) == PrintedRow(row)
  {
    forall ch | 0 <= ch < |row| ensures IsToken(PrintedRow(row)[ch], IsSpace) {
      PrintedIsToken(row[ch], []);
    }
    SplitOfJoin(PrintedRow(row), '\t', "\n", IsSpace);
  }

  /** The tokens the reader sees: the printed values, the last with its line break. */
  function FileTokens(row: seq<real>): (r: seq<string>)
    requires row != []
    ensures |r| == |row|
  {
    seq(|row|, ch requires 0 <= ch < |row| =>
      if ch == |row| - 1 then PrintFixed6(row[ch]) + "\n" else PrintFixed6(row[ch]))
  }

  lemma {:induction false} JoinWithTail(tokens: seq<string>, last: string, tail: string)
    ensures Join(tokens + [last], ',') + tail == Join(tokens + [last + tail], ',')
  {
    if tokens == [] {
    } else {
      JoinWithTail(tokens[1..], last, tail);
      assert (tokens + [last])[1..] == tokens[1..] + [last];
      assert (tokens + [last + tail])[1..] == tokens[1..] + [last + tail];
    }
  }

  lemma CommaLineSplits(row: seq<real>)
    requires row != []
    ensures Split(Join(PrintedRow(row), ',') + "\n", IsComma) == FileTokens(row)
  {
    hide PrintFixed6, Split;
    var t, n := FileTokens(row), |row| - 1;
    forall ch | 0 <= ch < |row| ensures IsToken(t[ch], IsComma) {
      PrintedIsToken(row[ch], if ch == n then "\n" else []);
      assert PrintFixed6(row[ch]) + [] == PrintFixed6(row[ch]);
    }
    assert PrintedRow(row) == PrintedRow(row)[..n] + [PrintFixed6(row[n])];
    assert t == PrintedRow(row)[..n] + [PrintFixed6(row[n]) + "\n"];
    JoinWithTail(PrintedRow(row)[..n], PrintFixed6(row[n]), "\n");
    SplitOfJoin(t, ',', [], IsComma);
    assert Join(t, ',') + [] == Join(t, ',');
  }

  predicate IsTable(rows: seq<seq<real>>)
  {
    forall i :: 0 <= i < |rows| ==> |rows[i]| == NUM_CHANNELS
  }

  /** The file the two passes write for a table of primary values. */
  function FileOf(rows: seq<seq<real>>): (lines: seq<string>)
    ensures |lines| == |rows|
  {
    seq(|rows|, i requires 0 <= i < |rows| => Join(PrintedRow(ToSecondary(rows[i])), ',') + "\n")
  }

  lemma JoinOfSix(t: seq<string>, c: char)
    requires |t| == 6
    ensures Join(t, c) == t[0] + [c] + (t[1] + [c] + (t[2] + [c] + (t[3] + [c] + (t[4] + [c] + t[5]))))
  {
    assert t[5..] == [t[5]];
    JoinStep(t, c, 4);
    JoinStep(t, c, 3);
    JoinStep(t, c, 2);
    JoinStep(t, c, 1);
    JoinStep(t, c, 0);
    assert t[0..] == t && Join(t[5..], c) == t[5];
  }

  lemma JoinStep(t: seq<string>, c: char, i: nat)
    requires i + 1 < |t|
    ensures Join(t[i..], c) == t[i] + [c] + Join(t[i + 1..], c)
  {
    assert t[i..][1..] == t[i + 1..];
  }

  /** A line of the file: the six values of its row, voltages divided by 500000/115 and
      currents by 600/5, with commas between and a line break behind. What the text of each
      is says `DecimalText.PrintedText`. */
  lemma LineText(rows: seq<seq<real>>, i: nat)
    requires IsTable(rows) && i < |rows|
    ensures |rows[i]| == 6
    ensures var v: seq<real> := [rows[i][0] / (500000.0 / 115.0), rows[i][1] / (500000.0 / 115.0),
                                 rows[i][2] / (500000.0 / 115.0), rows[i][3] / (600.0 / 5.0),
                                 rows[i][4] / (600.0 / 5.0), rows[i][5] / (600.0 / 5.0)];
            FileOf(rows)[i] == PrintFixed6(v[0]) + "," + (PrintFixed6(v[1]) + "," + (PrintFixed6(v[2]) + ","
                               + (PrintFixed6(v[3]) + "," + (PrintFixed6(v[4]) + "," + PrintFixed6(v[5]))))) + "\n"
  {
    hide PrintFixed6, Join;
    assert |rows[i]| == NUM_CHANNELS;
    var t := PrintedRow(ToSecondary(rows[i]));
    JoinOfSix(t, ',');
    assert Ratio(0) == Ratio(1) == Ratio(2) == 500000.0 / 115.0 && Ratio(3) == Ratio(4) == Ratio(5) == 600.0 / 5.0;
    hide Ratio;
    assert t[0] == PrintFixed6(rows[i][0] / Ratio(0)) && t[1] == PrintFixed6(rows[i][1] / Ratio(1))
           && t[2] == PrintFixed6(rows[i][2] / Ratio(2)) && t[3] == PrintFixed6(rows[i][3] / Ratio(3))
           && t[4] == PrintFixed6(rows[i][4] / Ratio(4)) && t[5] == PrintFixed6(rows[i][5] / Ratio(5));
    assert FileOf(rows)[i] == Join(t, ',') + "\n";
    assert [','] == ",";
  }

  lemma {:induction false} CommaLinesOfTabbed(rows: seq<seq<real>>, lines: seq<string>)
    requires IsTable(rows) && |lines| == |rows|
    requires forall i :: 0 <= i < |rows| ==> lines[i] == TabbedLine(ToSecondary(rows[i]))
    ensures CommaLines(lines) == FileOf(rows)
  {
    hide TabbedLine, ToSecondary, PrintedRow, Split, Join;
    if rows == [] {
    } else {
      CommaLinesOfTabbed(rows[1..], lines[1..]);
      assert |rows[0]| == NUM_CHANNELS;
      TabbedLineSplits(ToSecondary(rows[0]));
      assert FileOf(rows) == [FileOf(rows)[0]] + FileOf(rows[1..]);
    }
  }

  /** The script as a whole, for a source table that is already on the sampling grid. */
  method Format(rows: seq<seq<real>>) returns (lines: seq<string>)
    requires IsTable(rows)
    ensures lines == FileOf(rows)
  {
    var scaled := ReadColumns(rows);
    var tabbed := WriteTabbed(scaled);
    lines := Uniformize(tabbed);
    CommaLinesOfTabbed(rows, tabbed);
  }

  /** Every line written is well formed for the reader, and every sample comes back in its
      row and channel within half a millionth of a secondary unit. */
  lemma SampleRoundTrip(rows: seq<seq<real>>, i: nat, ch: nat)
    requires IsTable(rows) && i < |rows| && ch < NUM_CHANNELS
    ensures WellFormed(FileOf(rows)[i])
    ensures -0.0000005 * Ratio(ch) <= Sample(FileOf(rows)[i], ch) - rows[i][ch] <= 0.0000005 * Ratio(ch)
  {
    hide PrintFixed6, Atof, Split, Join;
    assert |rows[i]| == NUM_CHANNELS;
    var row := ToSecondary(rows[i]);
    CommaLineSplits(row);
    PrintingError(row[ch], if ch == |row| - 1 then "\n" else []);
    assert PrintFixed6(row[ch]) + [] == PrintFixed6(row[ch]);
  }

  /** The whole way: after n calls of the reader on the file of a table, the matrix holds the
      last rows consumed, each at its row number modulo the window size, to within the
      printing error. */
  lemma TableRoundTrip(rows: seq<seq<real>>, n: nat, ch: nat, i: nat)
    requires IsTable(rows) && ch < NUM_CHANNELS && i < BUFFER_SIZE
    requires i < Consumed(FileOf(rows), n)
    ensures CallSucceeds(FileOf(rows), n)
    ensures var l := LastLine(Consumed(FileOf(rows), n), i);
            -0.0000005 * Ratio(ch) <= AfterCalls(FileOf(rows), n).buffer[ch][i] - rows[l][ch] <= 0.0000005 * Ratio(ch)
  {
    hide Sample, WellFormed, Consumed, ReadStep, FileOf, LastLine;
    var lines := FileOf(rows);
    forall j | 0 <= j < |lines| ensures WellFormed(lines[j]) {
      SampleRoundTrip(rows, j, 0);
    }
    CallOutcome(lines, n);
    BufferHoldsLastSamples(lines, n, ch, i);
    SampleRoundTrip(rows, LastLine(Consumed(lines, n), i), ch);
  }
}
