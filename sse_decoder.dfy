/** `sseTransformStream` (src/poe.ts): an incremental decoder for the
    server-sent-event text stream of the bot API. It keeps one string
    `buffer`; every chunk is appended to it and then a loop repeatedly trims
    leading whitespace and tries four anchored recognisers in priority order
    (text frame, done frame, `ping` line, `: ping` comment), removing what
    each one matched, until none matches. */
module SseDecoder {
  import opened JsString
  import opened JsonValue

  const TextHead: string := "event: text"
  const DoneHead: string := "event: done"

  predicate IsCrLf(c: char) {
    c == '\r' || c == '\n'
  }

  predicate AllCrLf(s: string) {
    forall i :: 0 <= i < |s| ==> IsCrLf(s[i])
  }

  /** The greedy `[\r\n]*` at the start of `s`: the length of the leading run of CR/LF characters. */
  function CrLfRun(s: string): (n: nat)
    ensures n <= |s| && AllCrLf(s[..n])
    ensures n == |s| || !IsCrLf(s[n])
  {
    if s != [] && IsCrLf(s[0]) then
      var n := CrLfRun(s[1..]);
      assert s[..1 + n] == [s[0]] + s[1..][..n];
      1 + n
    else
      0
  }

  // ---------------------------------------------------------------------
  // The recognisers, each stated twice: as the scan the regular expression
  // performs, and as the shape of the text it accepts.
  // ---------------------------------------------------------------------

  /** A match of `/^event: text[\r\n]+data: ({[\s\S]*?})/`: the capture group and the length of the whole match. */
  datatype TextMatch = TextMatch(payload: string, length: nat)

  function MatchText(b: string): (m: Option<TextMatch>)
    ensures m.Some? ==> 0 < m.value.length <= |b|
  {
    if !StartsWith(b, TextHead) then None
    else
      var n := CrLfRun(b[11..]);
      var d := 11 + n;
      if n == 0 || !StartsWith(b[d..], "data: {") then None
      else
        var k := IndexOf(b[d + 7..], "}");
        if k < 0 then None
        else Some(TextMatch(b[d + 6..d + 8 + k], d + 8 + k))
  }

  /** The text frame the text regular expression accepts at the start of `b`:
      `event: text`, a non-empty run `eol` of CR/LF, `data: ` and a payload
      `{` + `body` + `}` that ends at the FIRST `}` (the lazy `*?`). */
  function TextFrame(eol: string, body: string): string {
    TextHead + eol + "data: {" + body + "}"
  }

  predicate TextFrameAt(b: string, eol: string, body: string) {
    eol != [] && AllCrLf(eol) && '}' !in body && StartsWith(b, TextFrame(eol, body))
  }

  /** A match of `/^event: done[\r\n]+data: ({})/`: the length of the match. */
  function MatchDone(b: string): (m: Option<nat>)
    ensures m.Some? ==> 0 < m.value <= |b|
  {
    if !StartsWith(b, DoneHead) then None
    else
      var n := CrLfRun(b[11..]);
      var d := 11 + n;
      if n == 0 || !StartsWith(b[d..], "data: {}") then None
      else Some(d + 8)
  }

  function DoneFrame(eol: string): string {
    DoneHead + eol + "data: {}"
  }

  predicate DoneFrameAt(b: string, eol: string) {
    eol != [] && AllCrLf(eol) && StartsWith(b, DoneFrame(eol))
  }

  /** `/^ping$/m` matches at index `i`: some line of `b`, not only the first, is exactly `ping`. */
  predicate PingLineAt(b: string, i: int) {
    OccursAt(b, "ping", i)
    && (i == 0 || IsLineTerminator(b[i - 1]))
    && (i + 4 == |b| || IsLineTerminator(b[i + 4]))
  }

  predicate HasPingLine(b: string) {
    exists i :: 0 <= i <= |b| - 4 && PingLineAt(b, i)
  }

  /** What one pass of the loop recognised in the (already trimmed) buffer. */
  datatype Pass =
    | TextPass(payload: string, length: nat)
    | DonePass(length: nat)
    | PingPass
    | PingCommentPass
    | NoPass

  /** The `if … else if …` chain of one pass: text, then done, then a `ping` line, then `: ping`. */
  function Recognise(t: string): (p: Pass)
    ensures p.TextPass? || p.DonePass? ==> 0 < Matched(p) <= |t|
  {
    match MatchText(t)
    case Some(m) => TextPass(m.payload, m.length)
    case None =>
      match MatchDone(t)
      case Some(n) => DonePass(n)
      case None =>
        if HasPingLine(t) then PingPass
        else if Trim(t) == ": ping" then PingCommentPass
        else NoPass
  }

  /** The length of the regular-expression match of a text or done pass. */
  function Matched(p: Pass): nat {
    match p
    case TextPass(_, n) => n
    case DonePass(n) => n
    case _ => 0
  }

  /** The string a pass hands to `buffer.replace(…, '')`: `match[0]`, `'ping'` or `': ping'`. */
  function Consumed(t: string, p: Pass): (c: string)
    requires p == Recognise(t)
    ensures p.TextPass? || p.DonePass? ==> c == t[..Matched(p)]
    ensures p.PingPass? ==> c == "ping"
    ensures p.PingCommentPass? ==> c == ": ping"
  {
    match p
    case TextPass(_, n) => t[..n]
    case DonePass(n) => t[..n]
    case PingPass => "ping"
    case PingCommentPass => ": ping"
    case NoPass => ""
  }

  /** `t.trim() === ': ping'` puts `: ping` inside `t`. */
  lemma TrimmedPingCommentOccurs(t: string)
    requires Trim(t) == ": ping"
    ensures OccursAt(t, ": ping", |t| - |TrimStart(t)|)
  {
    var s := TrimStart(t);
    TrimStartSpec(t);
    TrimEndSpec(s);
    assert s[..6] == ": ping";
    assert t[|t| - |s|..][..6] == t[|t| - |s|..|t| - |s| + 6];
  }

  /** The buffer after a pass that matched: `buffer.replace(consumed, '').trimStart()`.
      It is shorter than `t` by at least the length of what was consumed
      (the match, 4 for `ping`, 6 for `: ping`), so the loop terminates. */
  function Advance(t: string, p: Pass): (r: string)
    requires p == Recognise(t) && !p.NoPass?
    ensures 0 < |Consumed(t, p)| && |r| <= |t| - |Consumed(t, p)|
  {
    var c := Consumed(t, p);
    match p
    case TextPass(_, _) =>
      assert OccursAt(t, c, 0);
      TrimStart(ReplaceFirst(t, c))
    case DonePass(_) =>
      assert OccursAt(t, c, 0);
      TrimStart(ReplaceFirst(t, c))
    case PingPass =>
      var i :| 0 <= i <= |t| - 4 && PingLineAt(t, i);
      assert OccursAt(t, c, i);
      TrimStart(ReplaceFirst(t, c))
    case PingCommentPass =>
      TrimmedPingCommentOccurs(t);
      TrimStart(ReplaceFirst(t, c))
  }

  // ---------------------------------------------------------------------
  // The loop as a function of the buffer it starts from.
  // ---------------------------------------------------------------------

  /** Where the decoder stands: reading, terminated by a done frame
      (`controller.terminate()`), or errored because `JSON.parse` threw. */
  datatype Status = Open | Terminated | Errored

  /** What one run of the loop enqueued, the buffer it left, and the status. */
  datatype DrainResult = Drained(events: seq<Json>, rest: string, status: Status)

  function Prepend(events: seq<Json>, r: DrainResult): DrainResult {
    Drained(events + r.events, r.rest, r.status)
  }

  lemma PrependTwice(a: seq<Json>, b: seq<Json>, r: DrainResult)
    ensures Prepend(a, Prepend(b, r)) == Prepend(a + b, r)
  {
    assert a + (b + r.events) == (a + b) + r.events;
  }

  /** A buffer the loop leaves when it returns for more input: already
      trimmed, and no recogniser matches it. */
  predicate Stalled(b: string) {
    TrimStart(b) == b && Recognise(b) == NoPass
  }

  /** The `while (buffer)` loop of `transform`, entered with `buffer == b`.
      A text pass enqueues the parsed payload; a done pass terminates; a
      ping pass only consumes; when nothing matches the loop returns. */
  function Drain(parse: string -> Option<Json>, b: string): DrainResult
    decreases |b|, 1
  {
    if b == "" then Drained([], "", Open) else DrainTrimmed(parse, TrimStart(b))
  }

  /** One pass of the loop on a buffer already trimmed by `trimStart()`,
      followed by the rest of the loop. */
  function DrainTrimmed(parse: string -> Option<Json>, t: string): DrainResult
    decreases |t|, 0
  {
    var p := Recognise(t);
    match p
    case TextPass(payload, _) =>
      (match parse(payload)
       case None => Drained([], t, Errored)
       case Some(v) => Prepend([v], Drain(parse, Advance(t, p))))
    case DonePass(_) => Drained([], Advance(t, p), Terminated)
    case PingPass => Drain(parse, Advance(t, p))
    case PingCommentPass => Drain(parse, Advance(t, p))
    case NoPass => Drained([], t, Open)
  }

  /** One `transform` call per chunk, starting from buffer `b`. Once the
      stream has terminated or errored, no later chunk reaches `transform`. */
  function Feed(parse: string -> Option<Json>, b: string, chunks: seq<string>): DrainResult
    decreases |chunks|
  {
    if chunks == [] then Drained([], b, Open)
    else
      var r := Drain(parse, b + chunks[0]);
      if r.status != Open then r
      else Prepend(r.events, Feed(parse, r.rest, chunks[1..]))
  }

  // ---------------------------------------------------------------------
  // The decoder object.
  // ---------------------------------------------------------------------

  /** One decoding session: the closure variable `buffer`, the chunks
      enqueued on the controller so far, and whether the stream is still open. */
  class Decoder {
    /** `JSON.parse`; `None` stands for a thrown `SyntaxError`. */
    const parse: string -> Option<Json>
    var buffer: string
    var emitted: seq<Json>
    var status: Status

    constructor (parse: string -> Option<Json>)
      ensures this.parse == parse
      ensures buffer == "" && emitted == [] && status == Open
    {
      this.parse := parse;
      buffer := "";
      emitted := [];
      status := Open;
    }

    /** `transform(chunk, controller)`: append the chunk to the buffer and
        run the loop. Each `{event: 'text', data}` enqueued on the controller
        is recorded as its `data`. */
    method Transform(chunk: string)
      requires status == Open
      modifies this
      ensures var r := Drain(parse, old(buffer) + chunk);
        emitted == old(emitted) + r.events && buffer == r.rest && status == r.status
    {
      buffer := buffer + chunk;
      var r := RunLoop(parse, buffer);
      emitted := emitted + r.events;
      buffer := r.rest;
      status := r.status;
    }

    /** `flush()`: at end of input it warns exactly when the buffer holds
        something other than whitespace. It enqueues nothing. */
    method Flush() returns (warned: bool)
      requires status == Open
      ensures warned <==> exists i :: 0 <= i < |buffer| && !IsWhitespace(buffer[i])
    {
      TrimEmptyIff(buffer);
      warned := Trim(buffer) != "";
    }
  }

  /** The `while (buffer)` loop of `transform` run on the buffer `b`: it
      returns what it enqueued, in order, the buffer it leaves and the status. */
  method RunLoop(parse: string -> Option<Json>, b: string) returns (r: DrainResult)
    ensures r == Drain(parse, b)
  {
    var buffer := b;
    var queued: seq<Json> := [];
    while buffer != ""
      invariant Drain(parse, b) == Prepend(queued, Drain(parse, buffer))
      decreases |buffer|
    {
      ghost var before := buffer;
      buffer := TrimStart(buffer);
      var p := Recognise(buffer);
      match p
      case TextPass(payload, _) =>
        var v := parse(payload);
        if v.None? {
          return Drained(queued, buffer, Errored);
        }
        buffer := Advance(buffer, p);
        assert Drain(parse, before) == Prepend([v.value], Drain(parse, buffer));
        PrependTwice(queued, [v.value], Drain(parse, buffer));
        queued := queued + [v.value];
      case DonePass(_) =>
        buffer := Advance(buffer, p);
        return Drained(queued, buffer, Terminated);
      case PingPass =>
        buffer := Advance(buffer, p);
      case PingCommentPass =>
        buffer := Advance(buffer, p);
      case NoPass =>
        return Drained(queued, buffer, Open);
    }
    return Drained(queued, "", Open);
  }

  /** A whole decoding session as the stream machinery runs it: a fresh
      decoder, `transform` for each chunk while the stream is open, and
      `flush` at the end if it is still open. What it enqueues and how it
      ends is what `Feed` says. */
  method DecodeAll(parse: string -> Option<Json>, chunks: seq<string>)
    returns (events: seq<Json>, status: Status, warned: bool)
    ensures events == Feed(parse, "", chunks).events
    ensures status == Feed(parse, "", chunks).status
    ensures warned <==> status == Open && exists i :: 0 <= i < |Feed(parse, "", chunks).rest| && !IsWhitespace(Feed(parse, "", chunks).rest[i])
  {
    var d := new Decoder(parse);
    var i := 0;
    while i < |chunks| && d.status == Open
      invariant 0 <= i <= |chunks|
      invariant d.parse == parse
      invariant d.status == Open ==> Feed(parse, "", chunks) == Prepend(d.emitted, Feed(parse, d.buffer, chunks[i..]))
      invariant d.status != Open ==> Feed(parse, "", chunks) == Drained(d.emitted, d.buffer, d.status)
    {
      ghost var emitted0, buffer0 := d.emitted, d.buffer;
      ghost var r := Drain(parse, buffer0 + chunks[i]);
      assert chunks[i..][1..] == chunks[i + 1..];
      assert Feed(parse, buffer0, chunks[i..]) ==
        if r.status != Open then r else Prepend(r.events, Feed(parse, r.rest, chunks[i + 1..]));
      d.Transform(chunks[i]);
      if r.status == Open {
        PrependTwice(emitted0, r.events, Feed(parse, r.rest, chunks[i + 1..]));
      }
      i := i + 1;
    }
    events, status := d.emitted, d.status;
    if status == Open {
      warned := d.Flush();
    } else {
      warned := false;
    }
  }
}
