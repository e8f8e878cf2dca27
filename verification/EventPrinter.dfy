/** Writing event streams, and the proof that the reader gets back what was written. */
module EventPrinter {
  import opened Options
  import opened Text
  import opened EventStream

  /** A line of a block: a data line with or without the optional space, or any comment, field
      or junk line that is not blank and does not carry data. */
  datatype Line = Data(value: string, spaced: bool) | Other(text: string)

  datatype Ending = LF | CRLF

  datatype Row = Row(line: Line, ending: Ending)

  function Eol(e: Ending): string
  {
    if e == LF then "\n" else "\r\n"
  }

  function LineText(line: Line): string
  {
    match line
    case Data(value, spaced) => "data:" + (if spaced then " " else "") + value
    case Other(text) => text
  }

  /** A data value holds no line break, and starts with a space only behind the optional one. */
  predicate WellFormed(line: Line)
  {
    match line
    case Data(value, spaced) =>
      && (forall i :: 0 <= i < |value| ==> value[i] != '\n' && value[i] != '\r')
      && (!spaced ==> !(" " <= value))
    case Other(text) =>
      && (forall i :: 0 <= i < |text| ==> text[i] != '\n')
      && (exists i :: 0 <= i < |text| && text[i] != '\r')
      && !("data:" <= text)
  }

  function PrintRow(row: Row): string
  {
    LineText(row.line) + Eol(row.ending)
  }

  function PrintRows(rows: seq<Row>): string
  {
    if rows == [] then "" else PrintRow(rows[0]) + PrintRows(rows[1..])
  }

  function PrintBlanks(blanks: seq<Ending>): string
  {
    if blanks == [] then "" else Eol(blanks[0]) + PrintBlanks(blanks[1..])
  }

  /** A block is rows followed by one or more blank lines. */
  datatype Block = Block(rows: seq<Row>, blanks: seq<Ending>)

  function PrintBlocks(blocks: seq<Block>): string
  {
    if blocks == [] then ""
    else PrintRows(blocks[0].rows) + PrintBlanks(blocks[0].blanks) + PrintBlocks(blocks[1..])
  }

  /** The stream ends after the last block, after some rows of an unfinished block, or in the
      middle of such a block's last line. */
  datatype Tail = NoTail | Rows(rows: seq<Row>) | Unended(rows: seq<Row>, last: Line)

  function PrintTail(tail: Tail): string
  {
    match tail
    case NoTail => ""
    case Rows(rows) => PrintRows(rows)
    case Unended(rows, last) => PrintRows(rows) + LineText(last)
  }

  predicate WellFormedRows(rows: seq<Row>)
  {
    forall i :: 0 <= i < |rows| ==> WellFormed(rows[i].line)
  }

  predicate WellFormedBlocks(blocks: seq<Block>)
  {
    forall i :: 0 <= i < |blocks| ==> WellFormedRows(blocks[i].rows) && blocks[i].blanks != []
  }

  predicate WellFormedTail(tail: Tail)
  {
    match tail
    case NoTail => true
    case Rows(rows) => WellFormedRows(rows)
    case Unended(rows, last) => WellFormedRows(rows) && WellFormed(last)
  }

  function ValueOf(line: Line): seq<string>
  {
    if line.Data? then [line.value] else []
  }

  /** The data values of some rows, in order. */
  function Values(rows: seq<Row>): seq<string>
  {
    if rows == [] then []
    else ValueOf(rows[0].line) + Values(rows[1..])
  }

  function TailValues(tail: Tail): seq<string>
  {
    match tail
    case NoTail => []
    case Rows(rows) => Values(rows)
    case Unended(rows, last) => Values(rows) + ValueOf(last)
  }

  // ---------------------------------------------------------------- reading rows back

  lemma {:induction false} LineLengthOf(text: string, rest: string)
    requires forall i :: 0 <= i < |text| ==> text[i] != '\n'
    ensures LineLength(text + "\n" + rest) == |text| + 1
    ensures text != [] ==> LineLength(text) == |text|
  {
    if text != [] {
      assert (text + "\n" + rest)[1..] == text[1..] + "\n" + rest;
      LineLengthOf(text[1..], rest);
    }
  }

  lemma {:induction false} TrimBreaksAfter(a: string, b: string)
    requires forall i :: 0 <= i < |b| ==> IsBreak(b[i])
    ensures TrimBreaks(a + b) == TrimBreaks(a)
  {
    if b == [] {
      assert a + b == a;
    } else {
      assert (a + b)[..|a + b| - 1] == a + b[..|b| - 1];
      TrimBreaksAfter(a, b[..|b| - 1]);
    }
  }

  /** The first line of a printed row and what follows it. */
  lemma RowLine(text: string, e: Ending, rest: string)
    requires forall i :: 0 <= i < |text| ==> text[i] != '\n'
    ensures var s := text + Eol(e) + rest;
            s != [] && s[..LineLength(s)] == text + Eol(e) && s[LineLength(s)..] == rest
    ensures EndsBlock(text + Eol(e)) == EndsBlock(text)
  {
    var body := if e == LF then text else text + "\r";
    var s := text + Eol(e) + rest;
    assert s == body + "\n" + rest;
    LineLengthOf(body, rest);
    TrimBreaksAfter(text, Eol(e));
  }

  lemma DataIsNotBlank(value: string, spaced: bool)
    requires WellFormed(Data(value, spaced))
    ensures forall i :: 0 <= i < |LineText(Data(value, spaced))| ==> LineText(Data(value, spaced))[i] != '\n'
    ensures !EndsBlock(LineText(Data(value, spaced)))
  {
    NoBreaksNotBlank(LineText(Data(value, spaced)));
  }

  lemma NoBreaksNotBlank(s: string)
    requires s != [] && !IsBreak(s[|s| - 1])
    ensures !EndsBlock(s)
  {
  }

  lemma {:induction false} NotBlank(s: string, i: nat)
    requires i < |s| && s[i] != '\n' && s[i] != '\r'
    ensures !EndsBlock(s)
  {
    if i < |s| - 1 {
      NotBlank(s[..|s| - 1], i);
    }
  }

  lemma LineIsNotBlank(line: Line)
    requires WellFormed(line)
    ensures forall i :: 0 <= i < |LineText(line)| ==> LineText(line)[i] != '\n'
    ensures !EndsBlock(LineText(line)) && LineText(line) != []
  {
    if line.Data? {
      DataIsNotBlank(line.value, line.spaced);
    } else {
      var i :| 0 <= i < |line.text| && line.text[i] != '\r';
      NotBlank(line.text, i);
    }
  }

  lemma {:induction false} RowPilesUp(row: Row, rest: string, block: string, end: End, valid: string -> bool)
    requires WellFormed(row.line)
    ensures ReadFrom(PrintRow(row) + rest, block, end, valid) == ReadFrom(rest, block + PrintRow(row), end, valid)
  {
    LineIsNotBlank(row.line);
    RowLine(LineText(row.line), row.ending, rest);
    FirstLine(PrintRow(row) + rest, block, end, valid);
  }

  /** Rows only pile up in the block buffer. */
  lemma {:induction false} RowsPileUp(rows: seq<Row>, rest: string, block: string, end: End, valid: string -> bool)
    requires WellFormedRows(rows)
    ensures ReadFrom(PrintRows(rows) + rest, block, end, valid) == ReadFrom(rest, block + PrintRows(rows), end, valid)
    decreases |rows|
  {
    if rows == [] {
      assert PrintRows(rows) + rest == rest && block + PrintRows(rows) == block;
    } else {
      var row, more := PrintRow(rows[0]), PrintRows(rows[1..]);
      RowPilesUp(rows[0], more + rest, block, end, valid);
      RowsPileUp(rows[1..], rest, block + row, end, valid);
      Assoc(row, more, rest);
      Assoc(block, row, more);
    }
  }

  lemma BlankEndsBlock(e: Ending, rest: string, block: string, end: End, valid: string -> bool)
    ensures ReadFrom(Eol(e) + rest, block, end, valid) == Dispatch(BlockData(block), valid, ReadFrom(rest, "", end, valid))
  {
    RowLine("", e, rest);
    assert "" + Eol(e) + rest == Eol(e) + rest && "" + Eol(e) == Eol(e);
    FirstLine(Eol(e) + rest, block, end, valid);
  }

  /** The first blank line ends the block; further ones find an empty buffer. */
  lemma {:induction false} BlanksEndBlock(blanks: seq<Ending>, rest: string, block: string, end: End, valid: string -> bool)
    requires blanks != []
    ensures ReadFrom(PrintBlanks(blanks) + rest, block, end, valid)
            == Dispatch(BlockData(block), valid, ReadFrom(rest, "", end, valid))
    decreases |blanks|
  {
    var more := PrintBlanks(blanks[1..]);
    assert PrintBlanks(blanks) + rest == Eol(blanks[0]) + (more + rest);
    BlankEndsBlock(blanks[0], more + rest, block, end, valid);
    if |blanks| == 1 {
      assert more + rest == rest;
    } else {
      EmptyBlockIsSilent();
      BlanksEndBlock(blanks[1..], rest, "", end, valid);
    }
  }

  // ---------------------------------------------------------------- the data of a printed block

  lemma {:induction false} SplitOf(text: string, rest: string)
    requires forall i :: 0 <= i < |text| ==> text[i] != '\n'
    ensures Split(text + "\n" + rest) == [text] + Split(rest)
    ensures Split(text) == [text]
  {
    if text == [] {
      assert text + "\n" + rest == "\n" + rest;
    } else {
      assert (text + "\n" + rest)[1..] == text[1..] + "\n" + rest;
      SplitOf(text[1..], rest);
      assert [text[0]] + text[1..] == text;
    }
  }

  lemma {:induction false} DataValuesAppend(a: seq<string>, b: seq<string>)
    ensures DataValues(a + b) == DataValues(a) + DataValues(b)
  {
    if b == [] {
      assert a + b == a;
    } else {
      assert (a + b)[..|a + b| - 1] == a + b[..|b| - 1];
      DataValuesAppend(a, b[..|b| - 1]);
    }
  }

  lemma DataValuesOfOne(line: string)
    ensures DataValues([line]) == DataValue(line)
  {
    assert DataValues([line][..0]) == [];
  }

  lemma TrimReturnsEnd(s: string)
    requires s == [] || s[|s| - 1] != '\r'
    ensures TrimReturns(s) == s && TrimReturns(s + "\r") == s
  {
    assert (s + "\r")[..|s|] == s;
  }

  lemma ValueOfData(value: string, spaced: bool, line: string)
    requires WellFormed(Data(value, spaced))
    requires line == LineText(Data(value, spaced)) || line == LineText(Data(value, spaced)) + "\r"
    ensures DataValue(line) == [value]
  {
    var text := LineText(Data(value, spaced));
    TrimReturnsEnd(text);
    assert "data:" <= text;
    var after := TrimPrefix(text, "data:");
    if spaced {
      assert after == " " + value;
      assert TrimPrefix(after, " ") == value;
    } else {
      assert after == value;
    }
  }

  lemma ValueOfOther(text: string, line: string)
    requires WellFormed(Other(text))
    requires line == text || line == text + "\r"
    ensures DataValue(line) == []
  {
    var t := TrimReturns(line);
    assert t <= text;
    assert "data:" <= t ==> "data:" <= text;
  }

  lemma ValueOfLine(line: Line, raw: string)
    requires WellFormed(line) && (raw == LineText(line) || raw == LineText(line) + "\r")
    ensures DataValue(raw) == ValueOf(line)
  {
    match line
    case Data(value, spaced) => ValueOfData(value, spaced, raw);
    case Other(text) => ValueOfOther(text, raw);
  }

  lemma ValuesOfFirstRow(row: Row, rest: string)
    requires WellFormed(row.line)
    ensures DataValues(Split(PrintRow(row) + rest)) == ValueOf(row.line) + DataValues(Split(rest))
  {
    LineIsNotBlank(row.line);
    var raw := if row.ending == LF then LineText(row.line) else LineText(row.line) + "\r";
    assert PrintRow(row) + rest == raw + "\n" + rest;
    SplitOf(raw, rest);
    DataValuesAppend([raw], Split(rest));
    DataValuesOfOne(raw);
    ValueOfLine(row.line, raw);
  }

  lemma Assoc<T>(a: seq<T>, b: seq<T>, c: seq<T>)
    ensures a + (b + c) == (a + b) + c
  {
  }

  /** The data values of printed rows are the values that were written. */
  lemma {:induction false} ValuesOfRows(rows: seq<Row>, rest: string)
    requires WellFormedRows(rows)
    ensures DataValues(Split(PrintRows(rows) + rest)) == Values(rows) + DataValues(Split(rest))
    decreases |rows|
  {
    if rows == [] {
      assert PrintRows(rows) + rest == rest;
    } else {
      var row, more := PrintRow(rows[0]), PrintRows(rows[1..]) + rest;
      Assoc(row, PrintRows(rows[1..]), rest);
      ValuesOfFirstRow(rows[0], more);
      ValuesOfRows(rows[1..], rest);
      Assoc(ValueOf(rows[0].line), Values(rows[1..]), DataValues(Split(rest)));
    }
  }

  lemma BlockDataOfRows(rows: seq<Row>)
    requires WellFormedRows(rows)
    ensures BlockData(PrintRows(rows)) == Trim(Join(Values(rows)))
  {
    ValuesOfRows(rows, "");
    assert PrintRows(rows) + "" == PrintRows(rows);
    EmptyHasNoValues();
    assert Values(rows) + [] == Values(rows);
  }

  lemma EmptyHasNoValues()
    ensures DataValues(Split("")) == []
  {
    DataValuesOfOne("");
    assert TrimReturns("") == "";
  }

  lemma BlockDataOfTail(tail: Tail)
    requires WellFormedTail(tail)
    ensures BlockData(PrintTail(tail)) == Trim(Join(TailValues(tail)))
  {
    match tail
    case NoTail => EmptyHasNoValues();
    case Rows(rows) => BlockDataOfRows(rows);
    case Unended(rows, last) =>
      LineIsNotBlank(last);
      ValuesOfRows(rows, LineText(last));
      SplitOf(LineText(last), "");
      DataValuesOfOne(LineText(last));
      ValueOfLine(last, LineText(last));
  }

  // ---------------------------------------------------------------- reading a whole stream back

  function BlockDataOf(b: Block): string
  {
    Trim(Join(Values(b.rows)))
  }

  /** What the consumer gets from the data of the blocks, one after the other. */
  function DispatchAll(data: seq<string>, valid: string -> bool, last: Reading): Reading
  {
    if data == [] then last else Dispatch(data[0], valid, DispatchAll(data[1..], valid, last))
  }

  function BlocksData(blocks: seq<Block>): seq<string>
  {
    if blocks == [] then [] else [BlockDataOf(blocks[0])] + BlocksData(blocks[1..])
  }

  lemma TailIsDispatched(tail: Tail, end: End, valid: string -> bool)
    requires WellFormedTail(tail)
    ensures ReadFrom(PrintTail(tail), "", end, valid) ==
            if end == Broken then Reading([], ReadError)
            else Dispatch(Trim(Join(TailValues(tail))), valid, Reading([], Complete))
  {
    BlockDataOfTail(tail);
    TailPilesUp(tail, end, valid);
    NoLines(PrintTail(tail), end, valid);
  }

  lemma TailPilesUp(tail: Tail, end: End, valid: string -> bool)
    requires WellFormedTail(tail)
    ensures ReadFrom(PrintTail(tail), "", end, valid) == ReadFrom("", PrintTail(tail), end, valid)
  {
    match tail
    case NoTail =>
    case Rows(rows) =>
      RowsPileUp(rows, "", "", end, valid);
      assert PrintRows(rows) + "" == PrintRows(rows) && "" + PrintRows(rows) == PrintRows(rows);
    case Unended(rows, last) =>
      LineIsNotBlank(last);
      RowsPileUp(rows, LineText(last), "", end, valid);
      assert "" + PrintRows(rows) == PrintRows(rows);
      LastLinePilesUp(LineText(last), PrintRows(rows), end, valid);
  }

  lemma LastLinePilesUp(text: string, block: string, end: End, valid: string -> bool)
    requires (forall i :: 0 <= i < |text| ==> text[i] != '\n') && !EndsBlock(text) && text != []
    ensures ReadFrom(text, block, end, valid) == ReadFrom("", block + text, end, valid)
  {
    LineLengthOf(text, "");
    assert text[..|text|] == text && text[|text|..] == "";
    FirstLine(text, block, end, valid);
  }

  lemma BlockIsDispatched(b: Block, rest: string, end: End, valid: string -> bool)
    requires WellFormedRows(b.rows) && b.blanks != []
    ensures ReadFrom(PrintRows(b.rows) + PrintBlanks(b.blanks) + rest, "", end, valid)
            == Dispatch(BlockDataOf(b), valid, ReadFrom(rest, "", end, valid))
  {
    RowsPileUp(b.rows, PrintBlanks(b.blanks) + rest, "", end, valid);
    assert PrintRows(b.rows) + PrintBlanks(b.blanks) + rest == PrintRows(b.rows) + (PrintBlanks(b.blanks) + rest);
    assert "" + PrintRows(b.rows) == PrintRows(b.rows);
    BlanksEndBlock(b.blanks, rest, PrintRows(b.rows), end, valid);
    BlockDataOfRows(b.rows);
  }

  lemma {:induction false} BlocksAreDispatched(blocks: seq<Block>, rest: string, end: End, valid: string -> bool)
    requires WellFormedBlocks(blocks)
    ensures ReadFrom(PrintBlocks(blocks) + rest, "", end, valid)
            == DispatchAll(BlocksData(blocks), valid, ReadFrom(rest, "", end, valid))
    decreases |blocks|
  {
    if blocks == [] {
      assert PrintBlocks(blocks) + rest == rest;
    } else {
      var more := PrintBlocks(blocks[1..]);
      Assoc(PrintRows(blocks[0].rows) + PrintBlanks(blocks[0].blanks), more, rest);
      BlockIsDispatched(blocks[0], more + rest, end, valid);
      BlocksAreDispatched(blocks[1..], rest, end, valid);
    }
  }

  /** Whatever well-formed stream is written, the reader dispatches the data of its blocks in
      order, and that of an unfinished last block if the input simply ends. */
  lemma StreamIsDispatched(blocks: seq<Block>, tail: Tail, end: End, valid: string -> bool)
    requires WellFormedBlocks(blocks) && WellFormedTail(tail)
    ensures ReadFrom(PrintBlocks(blocks) + PrintTail(tail), "", end, valid) ==
            DispatchAll(BlocksData(blocks), valid,
                        if end == Broken then Reading([], ReadError)
                        else Dispatch(Trim(Join(TailValues(tail))), valid, Reading([], Complete)))
  {
    BlocksAreDispatched(blocks, PrintTail(tail), end, valid);
    TailIsDispatched(tail, end, valid);
  }

  // ---------------------------------------------------------------- payloads

  /** A payload that survives printing: trimmed, without carriage returns, neither empty nor
      the closing marker, and accepted by the consumer. */
  predicate Payload(p: string, valid: string -> bool)
  {
    Trimmed(p) && '\r' !in p && p != "" && p != "[DONE]" && valid(p)
  }

  /** A block carries a payload when its data values are the payload's lines; it is a filler
      when it has no data, or just the closing marker. */
  predicate Carries(values: seq<string>, payload: Option<string>)
  {
    match payload
    case Some(p) => values == Split(p)
    case None => values == [] || values == ["[DONE]"]
  }

  function Payloads(payloads: seq<Option<string>>): seq<string>
  {
    if payloads == [] then []
    else (if payloads[0].Some? then [payloads[0].value] else []) + Payloads(payloads[1..])
  }

  lemma {:induction false} JoinOfSplit(s: string)
    ensures Join(Split(s)) == s
  {
    if s != [] {
      JoinOfSplit(s[1..]);
      var rest := Split(s[1..]);
      JoinOfFirst("", rest);
      JoinOfFirst([s[0]] + rest[0], rest[1..]);
      JoinOfFirst(rest[0], rest[1..]);
      assert [rest[0]] + rest[1..] == rest;
      if s[0] != '\n' {
        JoinPrefix(s[0], rest[0], rest[1..]);
      }
    }
  }

  lemma JoinOfFirst(first: string, rest: seq<string>)
    ensures Join([first] + rest) == if rest == [] then first else first + "\n" + Join(rest)
  {
    assert ([first] + rest)[1..] == rest;
  }

  lemma JoinPrefix(c: char, first: string, rest: seq<string>)
    ensures Join([[c] + first] + rest) == [c] + Join([first] + rest)
  {
    JoinOfFirst([c] + first, rest);
    JoinOfFirst(first, rest);
    Assoc([c], first, "\n");
    Assoc([c], first + "\n", Join(rest));
  }

  lemma CarriedData(values: seq<string>, payload: Option<string>, valid: string -> bool)
    requires Carries(values, payload) && (payload.Some? ==> Payload(payload.value, valid))
    ensures payload.Some? ==> Trim(Join(values)) == payload.value
    ensures payload.None? ==> Silent(Trim(Join(values)))
  {
    if payload.Some? {
      JoinOfSplit(payload.value);
      TrimOfTrimmed(payload.value);
    } else if values == ["[DONE]"] {
      assert Trimmed("[DONE]");
      TrimOfTrimmed("[DONE]");
    }
  }

  /** Blocks and a tail, each carrying what its label says. */
  predicate CarryAll(blocks: seq<Block>, payloads: seq<Option<string>>)
  {
    |blocks| == |payloads| && forall i :: 0 <= i < |blocks| ==> Carries(Values(blocks[i].rows), payloads[i])
  }

  predicate AllPayloads(payloads: seq<Option<string>>, valid: string -> bool)
  {
    forall i :: 0 <= i < |payloads| ==> payloads[i].Some? ==> Payload(payloads[i].value, valid)
  }

  lemma {:induction false} CarriedBlocks(blocks: seq<Block>, payloads: seq<Option<string>>, valid: string -> bool, last: Reading)
    requires CarryAll(blocks, payloads) && AllPayloads(payloads, valid)
    ensures DispatchAll(BlocksData(blocks), valid, last) == Prepend(Payloads(payloads), last)
    decreases |blocks|
  {
    if blocks == [] {
      assert [] + last.events == last.events;
    } else {
      CarriedData(Values(blocks[0].rows), payloads[0], valid);
      CarriedBlocks(blocks[1..], payloads[1..], valid, last);
      CarriedFirst(BlockDataOf(blocks[0]), payloads[0], Payloads(payloads[1..]), valid, last);
    }
  }

  lemma CarriedFirst(data: string, payload: Option<string>, rest: seq<string>, valid: string -> bool, last: Reading)
    requires if payload.Some? then data == payload.value && !Silent(data) && valid(data) else Silent(data)
    ensures Dispatch(data, valid, Prepend(rest, last))
            == Prepend((if payload.Some? then [payload.value] else []) + rest, last)
  {
    if payload.Some? {
      Assoc([payload.value], rest, last.events);
    } else {
      assert [] + rest == rest;
    }
  }

  /** Round trip: payloads written as data lines, with either line ending, with or without the
      optional space, among comments and other fields, between filler and closing-marker blocks
      and extra blank lines, and with or without a final blank line or line end, are read back
      exactly, in order. */
  lemma RoundTrip(blocks: seq<Block>, payloads: seq<Option<string>>, tail: Tail, tailPayload: Option<string>, valid: string -> bool)
    requires WellFormedBlocks(blocks) && WellFormedTail(tail)
    requires CarryAll(blocks, payloads) && Carries(TailValues(tail), tailPayload)
    requires AllPayloads(payloads, valid) && (tailPayload.Some? ==> Payload(tailPayload.value, valid))
    ensures ReadFrom(PrintBlocks(blocks) + PrintTail(tail), "", EndOfFile, valid)
            == Reading(Payloads(payloads) + if tailPayload.Some? then [tailPayload.value] else [], Complete)
  {
    StreamIsDispatched(blocks, tail, EndOfFile, valid);
    CarriedData(TailValues(tail), tailPayload, valid);
    CarriedBlocks(blocks, payloads, valid, Dispatch(Trim(Join(TailValues(tail))), valid, Reading([], Complete)));
    assert Payloads(payloads) + [] == Payloads(payloads);
  }

  // ---------------------------------------------------------------- payloads that are refused

  predicate Accepts(data: string)
  {
    true
  }

  /** What a consumer that refuses some of `sent` gets: everything before the first one it refuses. */
  ghost predicate StoppedAt(sent: seq<string>, valid: string -> bool, k: nat, r: Reading)
  {
    && k < |sent| && !valid(sent[k]) && (forall i :: 0 <= i < k ==> valid(sent[i]))
    && r == Reading(sent[..k], BadEvent)
  }

  lemma StopsLater(data: string, rest: seq<string>, valid: string -> bool, r: Reading)
    requires valid(data)
    ensures forall k: nat :: StoppedAt(rest, valid, k, r) ==> StoppedAt([data] + rest, valid, k + 1, Before(data, r))
  {
    forall k: nat | StoppedAt(rest, valid, k, r)
      ensures StoppedAt([data] + rest, valid, k + 1, Before(data, r))
    {
      assert ([data] + rest)[..k + 1] == [data] + rest[..k];
    }
  }

  /** For every input: a consumer that accepts everything the input holds gets all of it, and one
      that refuses something gets exactly what comes before, and the reading fails. */
  ghost predicate ReadsLike(all: Reading, valid: string -> bool, r: Reading)
  {
    if forall i :: 0 <= i < |all.events| ==> valid(all.events[i]) then r == all
    else exists k: nat :: StoppedAt(all.events, valid, k, r)
  }

  lemma DispatchLike(data: string, valid: string -> bool, all: Reading, r: Reading)
    requires ReadsLike(all, valid, r)
    ensures ReadsLike(Dispatch(data, Accepts, all), valid, Dispatch(data, valid, r))
  {
    var more := Dispatch(data, Accepts, all);
    if !Silent(data) {
      assert more.events == [data] + all.events;
      if !valid(data) {
        assert !valid(more.events[0]);
        assert more.events[..0] == [];
        assert StoppedAt(more.events, valid, 0, Dispatch(data, valid, r));
      } else if forall i :: 0 <= i < |all.events| ==> valid(all.events[i]) {
      } else {
        StopsLater(data, all.events, valid, r);
        var i :| 0 <= i < |all.events| && !valid(all.events[i]);
        assert !valid(more.events[i + 1]);
      }
    }
  }

  lemma {:induction false} RefusedEventStops(input: string, block: string, end: End, valid: string -> bool)
    ensures ReadsLike(ReadFrom(input, block, end, Accepts), valid, ReadFrom(input, block, end, valid))
    decreases |input|
  {
    if input == [] {
      DispatchLike(BlockData(block), valid, Reading([], Complete), Reading([], Complete));
    } else {
      var line, rest := input[..LineLength(input)], input[LineLength(input)..];
      if TrimBreaks(line) == "" {
        RefusedEventStops(rest, "", end, valid);
        DispatchLike(BlockData(block), valid, ReadFrom(rest, "", end, Accepts), ReadFrom(rest, "", end, valid));
      } else {
        RefusedEventStops(rest, block + line, end, valid);
      }
    }
  }

  /** The whole contract of the reader: payloads written in any of these ways reach the consumer in
      order, all of them if it accepts them, and otherwise exactly those before the first one it
      refuses; a broken stream loses its unfinished last block and nothing else. */
  lemma ReaderKeepsPayloads(blocks: seq<Block>, payloads: seq<Option<string>>, tail: Tail, tailPayload: Option<string>,
                            end: End, valid: string -> bool)
    requires WellFormedBlocks(blocks) && WellFormedTail(tail)
    requires CarryAll(blocks, payloads) && Carries(TailValues(tail), tailPayload)
    requires AllPayloads(payloads, Accepts) && (tailPayload.Some? ==> Payload(tailPayload.value, Accepts))
    ensures var whole :=
              if end == Broken then Reading(Payloads(payloads), ReadError)
              else Reading(Payloads(payloads) + if tailPayload.Some? then [tailPayload.value] else [], Complete);
            ReadsLike(whole, valid, ReadFrom(PrintBlocks(blocks) + PrintTail(tail), "", end, valid))
  {
    var stream := PrintBlocks(blocks) + PrintTail(tail);
    RefusedEventStops(stream, "", end, valid);
    if end == Broken {
      StreamIsDispatched(blocks, tail, end, Accepts);
      CarriedBlocks(blocks, payloads, Accepts, Reading([], ReadError));
      assert Payloads(payloads) + [] == Payloads(payloads);
    } else {
      RoundTrip(blocks, payloads, tail, tailPayload, Accepts);
    }
  }

  /** Every payload can be written: its lines are printable data lines. */
  lemma {:induction false} PayloadLinesArePrintable(p: string)
    requires '\r' !in p
    ensures forall i :: 0 <= i < |Split(p)| ==> WellFormed(Data(Split(p)[i], true))
  {
    if p != [] {
      PayloadLinesArePrintable(p[1..]);
      var rest := Split(p[1..]);
      assert WellFormed(Data(rest[0], true));
    }
  }
}
