/** `parseSSEMessage` (src/poe.ts): reads one server-sent-event message line
    by line. The last `event:` line gives the event name and the last
    `data:` line the data, parsed as JSON when it parses and kept as the raw
    trimmed text otherwise; a message without a name, or whose data is
    falsy, is rejected with `Invalid SSE message`. */
module SseMessage {
  import opened JsString
  import opened JsonValue

  /** The `{ event, data }` object the parser returns. */
  datatype Parsed = Parsed(event: string, data: Json)

  /** The returned message, or the `Error('Invalid SSE message: ' + message)` it throws. */
  datatype Outcome = Ok(msg: Parsed) | Invalid(message: string)

  predicate IsEventLine(line: string) {
    StartsWith(line, "event:")
  }

  /** The `else if`: a `data:` line is one that is not an `event:` line. */
  predicate IsDataLine(line: string) {
    !IsEventLine(line) && StartsWith(line, "data:")
  }

  /** The value a `data:` line gives, from its `text` after the prefix:
      `JSON.parse` of the trimmed text, or that text itself when the parse
      throws. A string is the same JavaScript value whichever way it was
      obtained. */
  function DataValue(parse: string -> Option<Json>, text: string): Json {
    var raw := Trim(text);
    match parse(raw)
    case Some(v) => v
    case None => JString(raw)
  }

  /** The name an `event:` line gives, from its `text` after the prefix. */
  function EventName(text: string): string {
    Trim(text)
  }

  /** The two fields the reader keeps. */
  datatype Field = EventField | DataField

  /** `line` sets `f`: the loop's `if` for the event, its `else if` for the data. */
  predicate Sets(f: Field, line: string) {
    match f
    case EventField => IsEventLine(line)
    case DataField => IsDataLine(line)
  }

  /** The index of the last line of `lines[i..]` that sets `f`, or `last`
      when there is none. */
  function LastLineFrom(f: Field, lines: seq<string>, i: nat, last: int): (k: int)
    requires i <= |lines| && -1 <= last < i
    ensures last <= k < |lines|
    ensures k == last || (i <= k && Sets(f, lines[k]))
    decreases |lines| - i
  {
    if i == |lines| then last
    else LastLineFrom(f, lines, i + 1, if Sets(f, lines[i]) then i else last)
  }

  /** The index of the last line that sets `f`, or -1. */
  function LastLine(f: Field, lines: seq<string>): (k: int)
    ensures -1 <= k < |lines| && (0 <= k ==> Sets(f, lines[k]))
  {
    LastLineFrom(f, lines, 0, -1)
  }

  /** The event name once every line has been read, starting from `''`. */
  function LastEvent(lines: seq<string>): string {
    var k := LastLine(EventField, lines);
    if k < 0 then "" else EventName(lines[k][6..])
  }

  /** The data once every line has been read, starting from `''`. */
  function LastData(parse: string -> Option<Json>, lines: seq<string>): Json {
    var k := LastLine(DataField, lines);
    if k < 0 then JString("") else DataValue(parse, lines[k][5..])
  }

  /** What the parser makes of a whole message. */
  function Interpret(parse: string -> Option<Json>, message: string): Outcome {
    var lines := Split(message, '\n');
    var event := LastEvent(lines);
    var data := LastData(parse, lines);
    if event == "" || IsFalsy(data) then Invalid(message) else Ok(Parsed(event, data))
  }

  /** The `for (const line of lines)` loop: the last `event:` line's
      trimmed text and the last `data:` line's value, from `''` and `''`. */
  method ReadFields(parse: string -> Option<Json>, lines: seq<string>) returns (event: string, data: Json)
    ensures event == LastEvent(lines) && data == LastData(parse, lines)
  {
    event, data := "", JString("");
    var i := 0;
    while i < |lines|
      invariant 0 <= i <= |lines|
      invariant event == LastEvent(lines[..i]) && data == LastData(parse, lines[..i])
    {
      var line := lines[i];
      assert lines[..i + 1] == lines[..i] + [line];
      LastEventSnoc(lines[..i], line);
      LastDataSnoc(parse, lines[..i], line);
      if IsEventLine(line) {
        event := EventName(line[6..]);
      } else if IsDataLine(line) {
        data := DataValue(parse, line[5..]);
      }
      i := i + 1;
    }
    assert lines[..|lines|] == lines;
  }

  /** `parseSSEMessage(message)`, with `JSON.parse` given as `parse`. */
  method ParseSseMessage(parse: string -> Option<Json>, message: string) returns (r: Outcome)
    ensures r == Interpret(parse, message)
  {
    var lines := Split(message, '\n');
    var event, data := ReadFields(parse, lines);
    if event == "" || IsFalsy(data) {
      r := Invalid(message);
    } else {
      r := Ok(Parsed(event, data));
    }
  }

  // ---------------------------------------------------------------------
  // Which line wins.
  // ---------------------------------------------------------------------

  /** One more line: it becomes the last line that sets `f` when it sets `f`. */
  lemma {:induction false} LastLineFromSnoc(f: Field, s: seq<string>, x: string, i: nat, last: int)
    requires i <= |s| && -1 <= last < i
    ensures LastLineFrom(f, s + [x], i, last) == if Sets(f, x) then |s| else LastLineFrom(f, s, i, last)
    decreases |s| - i
  {
    if i < |s| {
      assert (s + [x])[i] == s[i];
      LastLineFromSnoc(f, s, x, i + 1, if Sets(f, s[i]) then i else last);
    } else {
      assert (s + [x])[i] == x;
    }
  }

  /** Reading one more line changes the name exactly when it is an `event:` line. */
  lemma LastEventSnoc(s: seq<string>, x: string)
    ensures LastEvent(s + [x]) == if IsEventLine(x) then EventName(x[6..]) else LastEvent(s)
  {
    LastLineFromSnoc(EventField, s, x, 0, -1);
    var k := LastLine(EventField, s);
    if 0 <= k {
      assert (s + [x])[k] == s[k];
    }
    assert (s + [x])[|s|] == x;
  }

  /** Reading one more line changes the data exactly when it is a `data:` line. */
  lemma LastDataSnoc(parse: string -> Option<Json>, s: seq<string>, x: string)
    ensures LastData(parse, s + [x]) == if IsDataLine(x) then DataValue(parse, x[5..]) else LastData(parse, s)
  {
    LastLineFromSnoc(DataField, s, x, 0, -1);
    var k := LastLine(DataField, s);
    if 0 <= k {
      assert (s + [x])[k] == s[k];
    }
    assert (s + [x])[|s|] == x;
  }

  /** Lines that do not set `f` leave the index as it was. */
  lemma {:induction false} NoLineFrom(f: Field, lines: seq<string>, i: nat, last: int)
    requires i <= |lines| && -1 <= last < i
    requires forall j :: i <= j < |lines| ==> !Sets(f, lines[j])
    ensures LastLineFrom(f, lines, i, last) == last
    decreases |lines| - i
  {
    if i < |lines| {
      NoLineFrom(f, lines, i + 1, last);
    }
  }

  /** Reading on from line `i` up to line `k`, the last that sets `f`, ends at `k`. */
  lemma {:induction false} LastLineReached(f: Field, lines: seq<string>, i: nat, last: int, k: nat)
    requires -1 <= last < i <= k < |lines| && Sets(f, lines[k])
    requires forall j :: k < j < |lines| ==> !Sets(f, lines[j])
    ensures LastLineFrom(f, lines, i, last) == k
    decreases k - i
  {
    if i < k {
      LastLineReached(f, lines, i + 1, if Sets(f, lines[i]) then i else last, k);
    } else {
      NoLineFrom(f, lines, k + 1, k);
    }
  }

  /** The line that sets `f` is the LAST line that sets it. */
  lemma LastLineIs(f: Field, lines: seq<string>, k: nat)
    requires k < |lines| && Sets(f, lines[k])
    requires forall j :: k < j < |lines| ==> !Sets(f, lines[j])
    ensures LastLine(f, lines) == k
  {
    if k == 0 {
      NoLineFrom(f, lines, 1, 0);
    } else {
      LastLineReached(f, lines, 1, if Sets(f, lines[0]) then 0 else -1, k);
    }
  }

  /** The event name is the trimmed text after the LAST `event:` line. */
  lemma LastEventLine(lines: seq<string>, k: nat)
    requires k < |lines| && IsEventLine(lines[k])
    requires forall j :: k < j < |lines| ==> !IsEventLine(lines[j])
    ensures LastEvent(lines) == Trim(lines[k][6..])
  {
    LastLineIs(EventField, lines, k);
  }

  /** Without an `event:` line the name stays empty. */
  lemma NoEventLine(lines: seq<string>)
    requires forall j :: 0 <= j < |lines| ==> !IsEventLine(lines[j])
    ensures LastEvent(lines) == ""
  {
    NoLineFrom(EventField, lines, 0, -1);
  }

  /** The data is what the LAST `data:` line gives. */
  lemma LastDataLine(parse: string -> Option<Json>, lines: seq<string>, k: nat)
    requires k < |lines| && IsDataLine(lines[k])
    requires forall j :: k < j < |lines| ==> !IsDataLine(lines[j])
    ensures LastData(parse, lines) == DataValue(parse, lines[k][5..])
  {
    LastLineIs(DataField, lines, k);
  }

  /** Without a `data:` line the data stays `''`, which is falsy. */
  lemma NoDataLine(parse: string -> Option<Json>, lines: seq<string>)
    requires forall j :: 0 <= j < |lines| ==> !IsDataLine(lines[j])
    ensures LastData(parse, lines) == JString("") && IsFalsy(LastData(parse, lines))
  {
    NoLineFrom(DataField, lines, 0, -1);
  }

  /** A message without a `data:` line is rejected, whatever its event name. */
  lemma NoDataRejected(parse: string -> Option<Json>, message: string)
    requires forall j :: 0 <= j < |Split(message, '\n')| ==> !IsDataLine(Split(message, '\n')[j])
    ensures Interpret(parse, message) == Invalid(message)
  {
    NoDataLine(parse, Split(message, '\n'));
  }

  /** A message without an `event:` line is rejected, whatever its data. */
  lemma NoEventRejected(parse: string -> Option<Json>, message: string)
    requires forall j :: 0 <= j < |Split(message, '\n')| ==> !IsEventLine(Split(message, '\n')[j])
    ensures Interpret(parse, message) == Invalid(message)
  {
    NoEventLine(Split(message, '\n'));
  }

  // ---------------------------------------------------------------------
  // A frame in the wire form `event: <name>\ndata: <payload>\n\n`.
  // ---------------------------------------------------------------------

  function Frame(name: string, payload: string): string {
    "event: " + name + "\ndata: " + payload + "\n\n"
  }

  /** Splitting at the first separator. */
  lemma SplitAtFirst(a: string, b: string, sep: char)
    requires sep !in a
    ensures Split(a + [sep] + b, sep) == [a] + Split(b, sep)
  {
    var s := a + [sep] + b;
    assert s[|a|..|a| + 1] == [sep];
    assert OccursAt(s, [sep], |a|);
    forall j | 0 <= j < |a| ensures !OccursAt(s, [sep], j) {
      assert s[j..j + 1] == [a[j]];
    }
    assert s[..|a|] == a && s[|a| + 1..] == b;
  }

  lemma SplitNone(a: string, sep: char)
    requires sep !in a
    ensures Split(a, sep) == [a]
  {
    forall j | 0 <= j <= |a| - 1 ensures !OccursAt(a, [sep], j) {
      assert a[j..j + 1] == [a[j]];
    }
  }

  /** The lines of a frame: the event line, the data line and two empty lines. */
  lemma FrameLines(name: string, payload: string)
    requires '\n' !in name && '\n' !in payload
    ensures Split(Frame(name, payload), '\n') == ["event: " + name, "data: " + payload, "", ""]
  {
    var e, d := "event: " + name, "data: " + payload;
    assert '\n' !in e && '\n' !in d;
    assert Frame(name, payload) == e + "\n" + (d + "\n" + ("" + "\n" + ""));
    SplitAtFirst(e, d + "\n" + ("" + "\n" + ""), '\n');
    SplitAtFirst(d, "" + "\n" + "", '\n');
    SplitAtFirst("", "", '\n');
    SplitNone("", '\n');
  }

  /** A space before a trimmed string is removed by `trim()`. */
  lemma TrimAfterSpace(s: string)
    ensures Trim(" " + s) == Trim(s)
  {
    TrimStartSkips(" ", s);
  }

  /** The event name of a frame's four lines: the trimmed text after `event:`. */
  lemma FrameLinesEvent(lines: seq<string>, name: string, payload: string)
    requires lines == ["event: " + name, "data: " + payload, "", ""]
    ensures LastEvent(lines) == Trim(" " + name)
  {
    var e := "event: " + name;
    assert e[..6] == "event:" && e[6..] == " " + name;
    forall j | 0 < j < 4 ensures !IsEventLine(lines[j]) {
      if j == 1 {
        assert lines[1][0] == 'd';
      }
    }
    LastEventLine(lines, 0);
  }

  /** The data of a frame's four lines. */
  lemma FrameLinesData(parse: string -> Option<Json>, lines: seq<string>, name: string, payload: string)
    requires lines == ["event: " + name, "data: " + payload, "", ""]
    ensures LastData(parse, lines) == DataValue(parse, payload)
  {
    var dl := "data: " + payload;
    assert ("event: " + name)[0] == 'e';
    assert dl[..5] == "data:" && dl[..6] != "event:" && dl[5..] == " " + payload;
    assert !IsDataLine(lines[2]) && !IsDataLine(lines[3]);
    LastDataLine(parse, lines, 1);
    assert LastData(parse, lines) == DataValue(parse, dl[5..]);
    TrimAfterSpace(payload);
  }

  /** A frame in the wire form reads back as its event name (when that is
      already trimmed) and its payload, parsed or raw; it is rejected exactly
      when the name is empty or that data is falsy. */
  lemma FrameRoundTrip(parse: string -> Option<Json>, name: string, payload: string)
    requires '\n' !in name && '\n' !in payload && Trim(name) == name
    ensures var d := DataValue(parse, payload);
      Interpret(parse, Frame(name, payload))
        == if name == "" || IsFalsy(d) then Invalid(Frame(name, payload)) else Ok(Parsed(name, d))
  {
    FrameLines(name, payload);
    var lines := Split(Frame(name, payload), '\n');
    FrameLinesEvent(lines, name, payload);
    TrimAfterSpace(name);
    FrameLinesData(parse, lines, name, payload);
  }
}
