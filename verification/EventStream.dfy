/** The reader for server-sent events (internal/provider/openai_compatible.go), and a printer it
    inverts. The stream format is the one of sections 9.2.5 and 9.2.6 of the WHATWG HTML Living
    Standard, with the reader's two departures: a last block without its blank line is still
    dispatched, and a carriage return alone does not end a line. */
module EventStream {
  import opened Text

  const LINE_FEED := '\n'
  const CARRIAGE_RETURN := '\r'
  const DATA := "data:"
  const DONE := "[DONE]"

  // ---------------------------------------------------------------- lines

  predicate IsBreak(c: char)
  {
    c == LINE_FEED || c == CARRIAGE_RETURN
  }

  /** strings.TrimRight(s, "\r\n"). */
  function TrimBreaks(s: string): (r: string)
    ensures r <= s
  {
    if s != [] && IsBreak(s[|s| - 1]) then TrimBreaks(s[..|s| - 1]) else s
  }

  /** strings.TrimRight(s, "\r"). */
  function TrimReturns(s: string): (r: string)
    ensures r <= s
    ensures r != [] ==> r[|r| - 1] != CARRIAGE_RETURN
  {
    if s != [] && s[|s| - 1] == CARRIAGE_RETURN then TrimReturns(s[..|s| - 1]) else s
  }

  /** The length of the first line, its line feed included if it has one. */
  function LineLength(s: string): (n: nat)
    requires s != []
    ensures 1 <= n <= |s|
  {
    if s[0] == LINE_FEED || |s| == 1 then 1 else 1 + LineLength(s[1..])
  }

  /** strings.Split(s, "\n"). */
  function Split(s: string): (parts: seq<string>)
    ensures parts != []
  {
    if s == [] then [""]
    else
      var rest := Split(s[1..]);
      if s[0] == LINE_FEED then [""] + rest else [[s[0]] + rest[0]] + rest[1..]
  }

  /** strings.Join(parts, "\n"). */
  function Join(parts: seq<string>): string
  {
    if parts == [] then ""
    else if |parts| == 1 then parts[0]
    else parts[0] + [LINE_FEED] + Join(parts[1..])
  }

  // ---------------------------------------------------------------- one block

  function TrimPrefix(s: string, prefix: string): string
  {
    if prefix <= s then s[|prefix|..] else s
  }

  /** The value of a data line, or nothing for every other line. */
  function DataValue(rawLine: string): seq<string>
  {
    var line := TrimReturns(rawLine);
    if DATA <= line then [TrimPrefix(TrimPrefix(line, DATA), " ")] else []
  }

  function DataValues(lines: seq<string>): seq<string>
  {
    if lines == [] then [] else DataValues(lines[..|lines| - 1]) + DataValue(lines[|lines| - 1])
  }

  /** What a block says: its data values joined by line feeds, trimmed. */
  function BlockData(block: string): string
  {
    Trim(Join(DataValues(Split(block))))
  }

  /** A block without data, or the closing marker, dispatches nothing. */
  predicate Silent(data: string)
  {
    data == "" || data == DONE
  }

  // ---------------------------------------------------------------- the reader

  /** How the input ends, and how reading ends. */
  datatype End = EndOfFile | Broken

  datatype Status = Complete | BadEvent | ReadError

  datatype Reading = Reading(events: seq<string>, status: Status)

  function Before(data: string, rest: Reading): Reading
  {
    rest.(events := [data] + rest.events)
  }

  /** Hand `data` to the consumer unless it is silent, and go on with `rest` if it is accepted.
      `valid` stands for parsing the JSON object and for the consumer not failing on it. */
  function Dispatch(data: string, valid: string -> bool, rest: Reading): Reading
  {
    if Silent(data) then rest
    else if !valid(data) then Reading([], BadEvent)
    else Before(data, rest)
  }

  function ReadFrom(input: string, block: string, end: End, valid: string -> bool): Reading
    decreases |input|
  {
    if input == [] then
      if end == Broken then Reading([], ReadError)
      else Dispatch(BlockData(block), valid, Reading([], Complete))
    else
      var line, rest := input[..LineLength(input)], input[LineLength(input)..];
      if TrimBreaks(line) == "" then Dispatch(BlockData(block), valid, ReadFrom(rest, "", end, valid))
      else ReadFrom(rest, block + line, end, valid)
  }

  function EndsBlock(line: string): bool
  {
    TrimBreaks(line) == ""
  }

  function Prepend(events: seq<string>, r: Reading): Reading
  {
    r.(events := events + r.events)
  }

  lemma DispatchAfter(events: seq<string>, data: string, valid: string -> bool, rest: Reading)
    ensures Prepend(events, Dispatch(data, valid, rest)) ==
            if Silent(data) then Prepend(events, rest)
            else if valid(data) then Prepend(events + [data], rest)
            else Reading(events, BadEvent)
  {
    if !Silent(data) {
      assert events + ([data] + rest.events) == (events + [data]) + rest.events;
      assert events + [] == events;
    }
  }

  lemma FirstLine(input: string, block: string, end: End, valid: string -> bool)
    requires input != []
    ensures var line, rest := input[..LineLength(input)], input[LineLength(input)..];
            ReadFrom(input, block, end, valid) ==
            if EndsBlock(line) then Dispatch(BlockData(block), valid, ReadFrom(rest, "", end, valid))
            else ReadFrom(rest, block + line, end, valid)
  {
  }

  lemma NoLines(block: string, end: End, valid: string -> bool)
    ensures ReadFrom("", block, end, valid) ==
            if end == Broken then Reading([], ReadError) else Dispatch(BlockData(block), valid, Reading([], Complete))
  {
  }

  lemma EmptyBlockIsSilent()
    ensures BlockData("") == ""
  {
    assert Split("") == [""];
    assert TrimReturns("") == "";
    assert DataValue("") == [];
    assert DataValues([""]) == DataValues([]) + [];
  }

  /** readOpenAIJSONServerSentEvents: `events` are the payloads handed to the consumer, in order. */
  method ReadEvents(input: string, end: End, valid: string -> bool) returns (events: seq<string>, status: Status)
    ensures Reading(events, status) == ReadFrom(input, "", end, valid)
  {
    events := [];
    var block, reader := "", input;
    ghost var whole := ReadFrom(input, "", end, valid);
    assert Prepend([], whole) == whole;
    while reader != []
      invariant whole == Prepend(events, ReadFrom(reader, block, end, valid))
      decreases |reader|
    {
      var line := reader[..LineLength(reader)];
      FirstLine(reader, block, end, valid);
      reader := reader[|line|..];
      if EndsBlock(line) {
        DispatchAfter(events, BlockData(block), valid, ReadFrom(reader, "", end, valid));
        var data := ProcessBlock(block);
        if !Silent(data) {
          if !valid(data) {
            return events, BadEvent;
          }
          events := events + [data];
        }
        block := "";
      } else {
        block := block + line;
      }
    }
    NoLines(block, end, valid);
    if end == Broken {
      assert events + [] == events;
      return events, ReadError;
    }
    DispatchAfter(events, BlockData(block), valid, Reading([], Complete));
    EmptyBlockIsSilent();
    if block != "" {
      var data := ProcessBlock(block);
      if !Silent(data) {
        if !valid(data) {
          return events, BadEvent;
        }
        events := events + [data];
      }
    }
    assert events + [] == events;
    status := Complete;
  }

  /** The data of a block: processOpenAIEventBlock up to the decision whether to dispatch. */
  method ProcessBlock(block: string) returns (data: string)
    ensures data == BlockData(block)
  {
    var lines := Split(block);
    var dataLines: seq<string> := [];
    for k := 0 to |lines|
      invariant dataLines == DataValues(lines[..k])
    {
      assert lines[..k + 1][..k] == lines[..k];
      var line := TrimReturns(lines[k]);
      assert DATA <= line ==> line[0] == DATA[0];
      if line == "" || ":" <= line || !(DATA <= line) {
        continue;
      }
      dataLines := dataLines + [TrimPrefix(TrimPrefix(line, DATA), " ")];
    }
    assert lines[..|lines|] == lines;
    data := Trim(Join(dataLines));
  }
}
