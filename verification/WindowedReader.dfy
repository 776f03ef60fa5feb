/** The windowed reader of Algoritmos/dataModule.c. Every call rewinds the file, skips the
    lines consumed so far and parses up to one window of lines into a buffer that survives
    between calls. */
module WindowedReader {
  import opened DecimalText

  const NUM_CHANNELS := 6
  const BUFFER_SIZE := 32

  /** A parsed value in primary units: channels 0 to 2 are voltages, 3 to 5 currents. The
      macros carry no parentheses, so the ratio is applied as a product, then a quotient. */
  function ToPrimary(ch: nat, v: real): real
  {
    if ch < 3 then v * 500000.0 / 115.0 else v * 600.0 / 5.0
  }

  function Fields(line: string): seq<string> { Split(line, IsComma) }

  predicate WellFormed(line: string) { |Fields(line)| >= NUM_CHANNELS }

  function Sample(line: string, ch: nat): real
  {
    if ch < |Fields(line)| then ToPrimary(ch, Atof(Fields(line)[ch])) else 0.0
  }

  // ----- what one call does -----

  datatype ReaderState = ReaderState(currentLine: nat, callCount: nat, buffer: seq<seq<real>>)

  function Start(): (st: ReaderState)
    ensures IsBuffer(st.buffer)
  {
    ReaderState(0, 0, seq(NUM_CHANNELS, _ => seq(BUFFER_SIZE, _ => 0.0)))
  }

  predicate IsBuffer(b: seq<seq<real>>)
  {
    |b| == NUM_CHANNELS && forall ch :: 0 <= ch < NUM_CHANNELS ==> |b[ch]| == BUFFER_SIZE
  }

  /** The buffer after the first n lines of a window and the first c fields of the next. */
  function Stored(b: seq<seq<real>>, window: seq<string>, n: nat, c: nat): (r: seq<seq<real>>)
    requires IsBuffer(b) && n <= |window| <= BUFFER_SIZE && (c > 0 ==> n < |window|)
    ensures IsBuffer(r)
  {
    seq(NUM_CHANNELS, ch requires 0 <= ch < NUM_CHANNELS =>
      seq(BUFFER_SIZE, i requires 0 <= i < BUFFER_SIZE =>
        if i < n || (i == n && ch < c) then Sample(window[i], ch) else b[ch][i]))
  }

  /** How many lines of the window come before the first malformed one. */
  function GoodLines(window: seq<string>): (n: nat)
    ensures n <= |window|
    ensures forall i :: 0 <= i < n ==> WellFormed(window[i])
    ensures n < |window| ==> !WellFormed(window[n])
  {
    if window == [] || !WellFormed(window[0]) then 0 else 1 + GoodLines(window[1..])
  }

  /** The lines the next call reads. */
  function Window(lines: seq<string>, currentLine: nat): (r: seq<string>)
    requires currentLine <= |lines|
    ensures |r| <= BUFFER_SIZE
  {
    if |lines| - currentLine < BUFFER_SIZE then lines[currentLine..]
    else lines[currentLine..currentLine + BUFFER_SIZE]
  }

  /** One call of `data_read`: the new state, and whether a matrix was returned. `lines` is
      None when the file cannot be opened. */
  function ReadStep(lines: Lines, st: ReaderState): (r: (ReaderState, bool))
    requires IsBuffer(st.buffer)
    ensures IsBuffer(r.0.buffer)
  {
    match lines
    case Unreadable => (st, false)
    case Readable(ls) =>
      if st.currentLine > |ls| then (st, false)
      else
        var window := Window(ls, st.currentLine);
        var n := GoodLines(window);
        if n < |window| then
          (st.(buffer := Stored(st.buffer, window, n, |Fields(window[n])|)), false)
        else
          (ReaderState(st.currentLine + n, st.callCount + 1, Stored(st.buffer, window, n, 0)), true)
  }

  datatype Lines = Unreadable | Readable(lines: seq<string>)

  // ----- filling the buffer sample by sample -----

  function Updated(b: seq<seq<real>>, ch: nat, i: nat, v: real): seq<seq<real>>
    requires IsBuffer(b) && ch < NUM_CHANNELS && i < BUFFER_SIZE
  {
    b[ch := b[ch][i := v]]
  }

  lemma StoredNothing(b: seq<seq<real>>, window: seq<string>)
    requires IsBuffer(b) && |window| <= BUFFER_SIZE
    ensures Stored(b, window, 0, 0) == b
  {
    forall ch | 0 <= ch < NUM_CHANNELS ensures Stored(b, window, 0, 0)[ch] == b[ch] {}
  }

  lemma StoredOneMore(b: seq<seq<real>>, window: seq<string>, n: nat, c: nat)
    requires IsBuffer(b) && n < |window| <= BUFFER_SIZE && c < NUM_CHANNELS
    ensures Stored(b, window, n, c + 1) == Updated(Stored(b, window, n, c), c, n, Sample(window[n], c))
  {
    var l, r := Stored(b, window, n, c + 1), Updated(Stored(b, window, n, c), c, n, Sample(window[n], c));
    forall ch | 0 <= ch < NUM_CHANNELS ensures l[ch] == r[ch] {}
  }

  lemma StoredWholeLine(b: seq<seq<real>>, window: seq<string>, n: nat)
    requires IsBuffer(b) && n < |window| <= BUFFER_SIZE
    ensures Stored(b, window, n, NUM_CHANNELS) == Stored(b, window, n + 1, 0)
  {
    var l, r := Stored(b, window, n, NUM_CHANNELS), Stored(b, window, n + 1, 0);
    forall ch | 0 <= ch < NUM_CHANNELS ensures l[ch] == r[ch] {}
  }

  lemma {:induction false} FirstBadLine(window: seq<string>, n: nat)
    requires n <= |window| && (forall i :: 0 <= i < n ==> WellFormed(window[i]))
    requires n == |window| || !WellFormed(window[n])
    ensures GoodLines(window) == n
  {
    if n == 0 {
    } else {
      FirstBadLine(window[1..], n - 1);
    }
  }

  // ----- the code -----

  /** Where sample i of channel ch lies: the matrix is stored row after row. */
  function Index(ch: nat, i: nat): nat { ch * BUFFER_SIZE + i }

  /** The matrix laid out in a flat array. */
  function Rows(a: seq<real>): (b: seq<seq<real>>)
    requires |a| == NUM_CHANNELS * BUFFER_SIZE
    ensures IsBuffer(b)
  {
    seq(NUM_CHANNELS, ch requires 0 <= ch < NUM_CHANNELS => a[Index(ch, 0)..Index(ch, 0) + BUFFER_SIZE])
  }

  lemma RowsOfUpdated(a: seq<real>, ch: nat, i: nat, v: real)
    requires |a| == NUM_CHANNELS * BUFFER_SIZE && ch < NUM_CHANNELS && i < BUFFER_SIZE
    ensures Index(ch, i) < |a|
    ensures Rows(a[Index(ch, i) := v]) == Updated(Rows(a), ch, i, v)
  {
    forall c | 0 <= c < NUM_CHANNELS
      ensures Rows(a[Index(ch, i) := v])[c] == Updated(Rows(a), ch, i, v)[c]
    {}
  }

  class DataReader {
    const file: Lines
    var position: nat
    var currentLine: nat
    var callCount: nat
    const buffer: array<real>

    ghost predicate Valid()
    {
      buffer.Length == NUM_CHANNELS * BUFFER_SIZE
    }

    ghost function State(): (r: ReaderState)
      requires Valid()
      reads this, buffer
      ensures IsBuffer(r.buffer)
    {
      ReaderState(currentLine, callCount, Rows(buffer[..]))
    }

    constructor (file: Lines)
      ensures Valid() && fresh(buffer) && this.file == file
      ensures State() == Start()
    {
      this.file := file;
      position := 0;
      currentLine := 0;
      callCount := 0;
      buffer := new real[NUM_CHANNELS * BUFFER_SIZE](_ => 0.0);
      new;
      forall ch | 0 <= ch < NUM_CHANNELS ensures Rows(buffer[..])[ch] == Start().buffer[ch] {}
    }

    /** The assignment `buffer[ch][i] = v`. */
    method Store(ch: nat, i: nat, v: real)
      requires Valid() && ch < NUM_CHANNELS && i < BUFFER_SIZE
      modifies buffer
      ensures State() == old(State()).(buffer := Updated(old(State().buffer), ch, i, v))
    {
      hide Index, Rows, Updated;
      RowsOfUpdated(buffer[..], ch, i, v);
      ghost var was := buffer[..];
      buffer[Index(ch, i)] := v;
      assert buffer[..] == was[Index(ch, i) := v];
    }

    /** Opens the file, or rewinds it, and reads past the lines consumed so far. */
    method RewindAndSkip() returns (found: bool)
      requires Valid() && file.Readable?
      modifies this`position
      ensures found <==> currentLine <= |file.lines|
      ensures found ==> position == currentLine
      ensures State() == old(State())
    {
      position := 0;
      for i := 0 to currentLine
        modifies this`position
        invariant position == i <= |file.lines|
      {
        if position == |file.lines| {
          return false;
        }
        position := position + 1;
      }
      return true;
    }

    /** Stores the fields of one line in column `count`, as far as there are any. */
    method ParseLine(line: string, count: nat, ghost before: seq<seq<real>>, ghost window: seq<string>)
      returns (ok: bool)
      requires Valid() && IsBuffer(before) && count < |window| <= BUFFER_SIZE && line == window[count]
      requires State().buffer == Stored(before, window, count, 0)
      modifies buffer
      ensures ok <==> WellFormed(line)
      ensures State() == old(State()).(buffer :=
                if ok then Stored(before, window, count + 1, 0) else Stored(before, window, count, |Fields(line)|))
    {
      hide Stored, Updated, Split, IsBuffer, Rows, Atof;
      var fields := Fields(line);
      for ch := 0 to NUM_CHANNELS
        modifies buffer
        invariant ch <= |fields|
        invariant State() == old(State()).(buffer := Stored(before, window, count, ch))
      {
        if ch == |fields| {
          return false;
        }
        StoredOneMore(before, window, count, ch);
        Store(ch, count, ToPrimary(ch, Atof(fields[ch])));
      }
      StoredWholeLine(before, window, count);
      return true;
    }

    method DataRead() returns (ok: bool)
      requires Valid()
      modifies this, buffer
      ensures Valid()
      ensures (State(), ok) == ReadStep(file, old(State()))
      ensures file.Unreadable? ==> !ok && State() == old(State())
    {
      hide Stored, GoodLines, Fields, IsBuffer, Rows;
      if file.Unreadable? {
        return false;
      }
      var lines := file.lines;
      var found := RewindAndSkip();
      if !found {
        return false;
      }
      ghost var before := State();
      ghost var window := Window(lines, currentLine);
      var count := 0;
      StoredNothing(before.buffer, window);
      while count < BUFFER_SIZE && position < |lines|
        modifies this`position, buffer
        invariant position == currentLine + count <= |lines|
        invariant count <= |window| && (forall i :: 0 <= i < count ==> WellFormed(window[i]))
        invariant State() == before.(buffer := Stored(before.buffer, window, count, 0))
        decreases |lines| - position
      {
        var line := lines[position];
        position := position + 1;
        assert line == window[count];
        var parsed := ParseLine(line, count, before.buffer, window);
        if !parsed {
          FirstBadLine(window, count);
          return false;
        }
        count := count + 1;
      }
      FirstBadLine(window, count);
      callCount := callCount + 1;
      currentLine := currentLine + count;
      return true;
    }
  }
}
