/** What repeated calls of the windowed reader deliver. */
module ReaderProperties {
  import opened DecimalText
  import opened WindowedReader

  /** The state after n calls on an unchanged file. */
  function AfterCalls(lines: seq<string>, n: nat): (st: ReaderState)
    ensures IsBuffer(st.buffer)
  {
    if n == 0 then Start() else ReadStep(Readable(lines), AfterCalls(lines, n - 1)).0
  }

  /** Whether call n, counting from 0, returns a matrix. */
  predicate CallSucceeds(lines: seq<string>, n: nat)
  {
    ReadStep(Readable(lines), AfterCalls(lines, n)).1
  }

  /** How many lines n successful calls consume. */
  function Consumed(lines: seq<string>, n: nat): (c: nat)
    ensures c <= |lines|
  {
    if n * BUFFER_SIZE < |lines| then n * BUFFER_SIZE else |lines|
  }

  lemma ConsumedByOneMore(lines: seq<string>, n: nat)
    ensures var c := Consumed(lines, n);
            && Consumed(lines, n + 1) == c + |Window(lines, c)|
            && (c % BUFFER_SIZE == 0 || c == |lines|)
  {}

  predicate WellFormedUpTo(lines: seq<string>, n: nat)
    requires n <= |lines|
  {
    forall i :: 0 <= i < n ==> WellFormed(lines[i])
  }

  // ----- the cursor -----

  /** The cursor stays inside the file, so the end of the file is never met while skipping. */
  lemma {:induction false} CursorStaysInFile(lines: seq<string>, n: nat)
    ensures AfterCalls(lines, n).currentLine <= |lines|
  {
    hide Stored;
    if n == 0 {
    } else {
      CursorStaysInFile(lines, n - 1);
    }
  }

  /** A call fails exactly when a malformed line lies among the lines up to the end of its
      window; until then the cursor moves by whole windows to the end of the file. */
  lemma {:induction false} CallOutcome(lines: seq<string>, n: nat)
    ensures CallSucceeds(lines, n) <==> WellFormedUpTo(lines, Consumed(lines, n + 1))
    ensures WellFormedUpTo(lines, Consumed(lines, n)) ==> AfterCalls(lines, n).currentLine == Consumed(lines, n)
  {
    hide ReadStep, Consumed, WellFormedUpTo, CallSucceeds;
    if n == 0 {
      NothingConsumed(lines);
      CallAtCursor(lines, 0);
    } else {
      CallOutcome(lines, n - 1);
      if !WellFormedUpTo(lines, Consumed(lines, n - 1)) {
        MoreLines(lines, n - 1);
      }
      if CallSucceeds(lines, n - 1) {
        CallAtCursor(lines, n - 1);
        CallAtCursor(lines, n);
      } else {
        FailureIsSticky(lines, n - 1);
        MoreLines(lines, n);
      }
    }
  }

  lemma MoreLines(lines: seq<string>, n: nat)
    requires !WellFormedUpTo(lines, Consumed(lines, n))
    ensures !WellFormedUpTo(lines, Consumed(lines, n + 1))
  {
    hide Consumed, WellFormed;
    ConsumedByOneMore(lines, n);
  }

  lemma CallAtCursor(lines: seq<string>, n: nat)
    requires WellFormedUpTo(lines, Consumed(lines, n))
    requires AfterCalls(lines, n).currentLine == Consumed(lines, n)
    ensures CallSucceeds(lines, n) <==> WellFormedUpTo(lines, Consumed(lines, n + 1))
    ensures CallSucceeds(lines, n) ==> AfterCalls(lines, n + 1).currentLine == Consumed(lines, n + 1)
  {
    hide ReadStep, Consumed, WellFormed;
    ConsumedByOneMore(lines, n);
    StepOutcome(lines, AfterCalls(lines, n));
  }

  lemma NothingConsumed(lines: seq<string>)
    ensures Consumed(lines, 0) == 0 && WellFormedUpTo(lines, Consumed(lines, 0))
  {}

  lemma StepOutcome(lines: seq<string>, st: ReaderState)
    requires IsBuffer(st.buffer) && st.currentLine <= |lines|
    ensures var next := st.currentLine + |Window(lines, st.currentLine)|;
            var r := ReadStep(Readable(lines), st);
            && next <= |lines|
            && (r.1 <==> forall i :: st.currentLine <= i < next ==> WellFormed(lines[i]))
            && r.0.currentLine == if r.1 then next else st.currentLine
  {
    hide Stored, WellFormed;
    var window := Window(lines, st.currentLine);
    forall i | 0 <= i < |window| ensures window[i] == lines[st.currentLine + i] {}
    forall i | st.currentLine <= i < st.currentLine + |window| ensures lines[i] == window[i - st.currentLine] {}
  }

  /** A call that fails leaves everything as it must be for every later call to fail on
      the same line: the state it leaves is a fixed point. */
  lemma FailureIsFixedPoint(lines: Lines, st: ReaderState)
    requires IsBuffer(st.buffer) && !ReadStep(lines, st).1
    ensures ReadStep(lines, ReadStep(lines, st).0) == (ReadStep(lines, st).0, false)
    ensures ReadStep(lines, st).0.currentLine == st.currentLine
  {
    hide GoodLines, Sample, WellFormed, Fields;
    if lines.Readable? && st.currentLine <= |lines.lines| {
      var window := Window(lines.lines, st.currentLine);
      var n := GoodLines(window);
      var c := |Fields(window[n])|;
      var b, r := Stored(st.buffer, window, n, c), Stored(Stored(st.buffer, window, n, c), window, n, c);
      forall ch | 0 <= ch < NUM_CHANNELS ensures b[ch] == r[ch] {}
      assert b == r;
    }
  }

  lemma {:induction false} FailureIsSticky(lines: seq<string>, n: nat)
    requires !CallSucceeds(lines, n)
    ensures !CallSucceeds(lines, n + 1) && AfterCalls(lines, n + 2) == AfterCalls(lines, n + 1)
  {
    hide ReadStep;
    FailureIsFixedPoint(Readable(lines), AfterCalls(lines, n));
  }

  // ----- one call, cell by cell -----

  /** Six fields between commas. */
  predicate HasSixFields(line: string) { |Split(line, IsComma)| >= 6 }

  /** The value a field stands for: channels 0 to 2 are voltages behind a transformer of
      500000 to 115, channels 3 to 5 currents behind one of 600 to 5. */
  function Primary(line: string, ch: nat): real
    requires ch < |Split(line, IsComma)|
  {
    var v := Atof(Split(line, IsComma)[ch]);
    if ch < 3 then v * 500000.0 / 115.0 else v * 600.0 / 5.0
  }

  lemma PrimaryIsSample(line: string, ch: nat)
    requires ch < 6
    ensures HasSixFields(line) == WellFormed(line) && Split(line, IsComma) == Fields(line)
    ensures ch < |Split(line, IsComma)| ==> Primary(line, ch) == Sample(line, ch)
  {
    hide Split, Atof;
  }

  /** Whether a call writes a cell. */
  predicate IsWritten(lines: seq<string>, start: nat, ch: nat, i: nat)
  {
    && start + i < |lines| && ch < |Split(lines[start + i], IsComma)|
    && forall j :: start <= j < start + i ==> HasSixFields(lines[j])
  }

  lemma WrittenCell(lines: seq<string>, st: ReaderState, ch: nat, i: nat)
    requires IsBuffer(st.buffer) && st.currentLine <= |lines| && ch < 6 && i < 32
    ensures ReadStep(Readable(lines), st).0.buffer[ch][i]
         == if IsWritten(lines, st.currentLine, ch, i) then Sample(lines[st.currentLine + i], ch) else st.buffer[ch][i]
  {
    hide Split, Sample, HasSixFields, Fields;
    var window, start := Window(lines, st.currentLine), st.currentLine;
    var n := GoodLines(window);
    forall k | 0 <= k < |window|
      ensures window[k] == lines[start + k] && HasSixFields(window[k]) == WellFormed(window[k])
      ensures Split(window[k], IsComma) == Fields(window[k])
    {
      PrimaryIsSample(window[k], ch);
    }
    if i < n {
      assert HasSixFields(window[i]);
      AllSix(lines, start, window, n);
      EnoughFields(window[i], ch);
    } else if i == n < |window| {
      AllSix(lines, start, window, n);
    } else if n < |window| {
      assert !HasSixFields(lines[start + n]);
    }
  }

  lemma EnoughFields(line: string, ch: nat)
    requires HasSixFields(line) && ch < 6
    ensures ch < |Split(line, IsComma)|
  {}

  lemma AllSix(lines: seq<string>, start: nat, window: seq<string>, n: nat)
    requires start + |window| <= |lines| && n <= |window|
    requires forall k :: 0 <= k < |window| ==> window[k] == lines[start + k]
    requires forall k :: 0 <= k < n ==> HasSixFields(window[k])
    ensures forall j :: start <= j < start + n ==> HasSixFields(lines[j])
  {
    forall j | start <= j < start + n ensures HasSixFields(lines[j]) {
      assert HasSixFields(window[j - start]);
    }
  }

  /** One call on a file that opens. It returns a matrix when each of the next 32 lines, or of
      as many as are left, has six fields, and moves on by that many lines. A cell is written
      when no line before its own is short and its own has its field, whether the call then
      fails or not; every other cell keeps its value. */
  lemma CallByCells(lines: seq<string>, st: ReaderState, ch: nat, i: nat)
    requires IsBuffer(st.buffer) && st.currentLine <= |lines| && ch < 6 && i < 32
    ensures var r := ReadStep(Readable(lines), st);
            var next := if |lines| - st.currentLine < 32 then |lines| else st.currentLine + 32;
            && (r.1 <==> forall j :: st.currentLine <= j < next ==> HasSixFields(lines[j]))
            && r.0.currentLine == (if r.1 then next else st.currentLine)
            && r.0.callCount == (if r.1 then st.callCount + 1 else st.callCount)
            && r.0.buffer[ch][i] == if IsWritten(lines, st.currentLine, ch, i)
                                    then Primary(lines[st.currentLine + i], ch) else st.buffer[ch][i]
  {
    hide Split, HasSixFields, WellFormed, IsWritten, Stored, Sample, Primary, Fields;
    StepOutcome(lines, st);
    WrittenCell(lines, st, ch, i);
    forall line ensures HasSixFields(line) == WellFormed(line) { PrimaryIsSample(line, ch); }
    if IsWritten(lines, st.currentLine, ch, i) { WrittenField(lines, st.currentLine, ch, i); }
  }

  lemma WrittenField(lines: seq<string>, start: nat, ch: nat, i: nat)
    requires IsWritten(lines, start, ch, i) && ch < 6
    ensures ch < |Split(lines[start + i], IsComma)| && Primary(lines[start + i], ch) == Sample(lines[start + i], ch)
  {
    hide Split;
    PrimaryIsSample(lines[start + i], ch);
  }

  // ----- the buffer -----

  /** The last of the first `count` lines whose number is i modulo the window size. */
  function LastLine(count: nat, i: nat): (l: nat)
    requires i < count
    ensures l < count && l % BUFFER_SIZE == i % BUFFER_SIZE && count - l <= BUFFER_SIZE
  {
    i + (count - 1 - i) / BUFFER_SIZE * BUFFER_SIZE
  }

  function LastSample(lines: seq<string>, count: nat, ch: nat, i: nat): real
    requires count <= |lines|
  {
    if i < count then Sample(lines[LastLine(count, i)], ch) else 0.0
  }

  /** After any run of successful calls each cell of the matrix holds the last consumed
      sample of its channel at its position modulo the window size: whole windows in order,
      and after a short last window, or at the end of the file, the tail of the file over
      what the window before it left. */
  lemma {:induction false} BufferHoldsLastSamples(lines: seq<string>, n: nat, ch: nat, i: nat)
    requires WellFormedUpTo(lines, Consumed(lines, n))
    requires ch < NUM_CHANNELS && i < BUFFER_SIZE
    ensures AfterCalls(lines, n).buffer[ch][i] == LastSample(lines, Consumed(lines, n), ch, i)
  {
    hide Sample, WellFormed, Consumed, ReadStep, LastLine;
    if n == 0 {
      NothingConsumed(lines);
    } else {
      var before, after := Consumed(lines, n - 1), Consumed(lines, n);
      ConsumedByOneMore(lines, n - 1);
      CallOutcome(lines, n - 1);
      BufferHoldsLastSamples(lines, n - 1, ch, i);
      SuccessStores(lines, AfterCalls(lines, n - 1), ch, i);
      NewSampleIsLast(before, after, i);
    }
  }

  lemma SuccessStores(lines: seq<string>, st: ReaderState, ch: nat, i: nat)
    requires IsBuffer(st.buffer) && ReadStep(Readable(lines), st).1
    requires ch < NUM_CHANNELS && i < BUFFER_SIZE
    ensures st.currentLine <= |lines|
    ensures var window := Window(lines, st.currentLine);
            && st.currentLine + |window| <= |lines|
            && ReadStep(Readable(lines), st).0.buffer[ch][i]
            == if i < |window| then Sample(lines[st.currentLine + i], ch) else st.buffer[ch][i]
  {
    hide Sample, WellFormed;
  }

  lemma NewSampleIsLast(before: nat, after: nat, i: nat)
    requires before <= after <= before + BUFFER_SIZE && i < BUFFER_SIZE
    requires before % BUFFER_SIZE == 0 || before == after
    ensures i < after - before ==> i < after && LastLine(after, i) == before + i
    ensures i >= after - before && i < before ==> i < after && LastLine(after, i) == LastLine(before, i)
    ensures i >= after - before && i >= before ==> i >= after
  {
    if before == after {
    } else if i < after - before {
      LastLineIs(after, i, before / BUFFER_SIZE);
    } else if i < before {
      LastLineIs(after, i, before / BUFFER_SIZE - 1);
      LastLineIs(before, i, before / BUFFER_SIZE - 1);
    }
  }

  lemma LastLineIs(count: nat, i: nat, q: nat)
    requires i + q * BUFFER_SIZE < count <= i + (q + 1) * BUFFER_SIZE
    ensures i < count && LastLine(count, i) == i + q * BUFFER_SIZE
  {
    var d := count - 1 - i;
    assert q * 32 <= d < q * 32 + 32;
    assert d / 32 == q;
  }

  /** At the end of the file every later call succeeds and changes nothing but the call
      counter: the caller keeps seeing the last window. */
  lemma EndOfFileFreezes(lines: seq<string>, st: ReaderState)
    requires IsBuffer(st.buffer) && st.currentLine == |lines|
    ensures ReadStep(Readable(lines), st) == (st.(callCount := st.callCount + 1), true)
  {
    StoredNothing(st.buffer, []);
  }
}
