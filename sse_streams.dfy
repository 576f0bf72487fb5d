/** What the decoder makes of whole streams: a sequence of text frames and
    `ping` lines, cut into chunks anywhere. */
module SseStreams {
  import opened JsString
  import opened JsonValue
  import opened SseDecoder
  import opened SseRecognisers

  /** One element of a well-formed stream, after some whitespace `lead`:
      a text frame, or a `ping` line ended by `eol`. */
  datatype Item =
    | TextItem(lead: string, eol: string, body: string)
    | PingItem(lead: string, eol: string)

  /** The text of an item after its leading whitespace. */
  function ItemText(it: Item): (s: string)
    ensures s != "" && s[0] == (if it.TextItem? then 'e' else 'p')
  {
    match it
    case TextItem(_, eol, body) => TextFrame(eol, body)
    case PingItem(_, eol) => "ping" + eol
  }

  function Render(items: seq<Item>): string {
    if items == [] then "" else items[0].lead + ItemText(items[0]) + Render(items[1..])
  }

  function Concat(chunks: seq<string>): string {
    if chunks == [] then "" else chunks[0] + Concat(chunks[1..])
  }

  /** `s` contains the letters `ping` nowhere. */
  predicate PingFree(s: string) {
    forall i :: 0 <= i <= |s| - 4 ==> !OccursAt(s, "ping", i)
  }

  /** What may end a `ping` line for `$` in `/^ping$/m`: one line
      terminator, `\r\n`, or nothing, when the stream ends there. */
  predicate PingEnd(eol: string) {
    eol == "" || eol == "\r\n" || (|eol| == 1 && IsLineTerminator(eol[0]))
  }

  /** `s` is empty or starts a new line. */
  predicate LineStart(s: string) {
    s == "" || IsLineTerminator(s[0])
  }

  /** An item the decoder handles as intended: whitespace before it, a
      frame the text regular expression accepts whole, and a payload
      `JSON.parse` accepts, or a `ping` with what ends its line. */
  predicate WellFormed(parse: string -> Option<Json>, it: Item) {
    AllWhitespace(it.lead)
    && (it.TextItem? ==>
          it.eol != [] && AllCrLf(it.eol) && '}' !in it.body && parse("{" + it.body + "}").Some?)
    && (it.PingItem? ==> PingEnd(it.eol))
  }

  /** A `ping` with nothing after it in its item is a `ping` line only when
      it is the last item and what follows, `next`, ends its line. */
  predicate BareLast(items: seq<Item>, next: string) {
    forall i :: 0 <= i < |items| && items[i].PingItem? && items[i].eol == "" ==>
      i == |items| - 1 && LineStart(next)
  }

  /** Every `ping` line carries its own line terminator. */
  predicate NoBare(items: seq<Item>) {
    forall i :: 0 <= i < |items| && items[i].PingItem? ==> items[i].eol != ""
  }

  predicate AllWellFormed(parse: string -> Option<Json>, items: seq<Item>) {
    forall i :: 0 <= i < |items| ==> WellFormed(parse, items[i])
  }

  /** No line of `s` starts with `ping`: no `ping` at the start of `s` or
      right after a line terminator. Only such a `ping` can make the part
      of `s` received so far hold a `ping` line. */
  predicate NoLineStartsPing(s: string) {
    forall i :: 0 <= i <= |s| - 4 && (i == 0 || IsLineTerminator(s[i - 1])) ==> !OccursAt(s, "ping", i)
  }

  /** No line of a text frame of the stream starts with `ping`. Since the
      lines of a frame before its payload start with `event`, CR/LF or
      `data`, this is about the lines of the payload. */
  predicate FramesNoPingLine(items: seq<Item>) {
    forall i :: 0 <= i < |items| && items[i].TextItem? ==> NoLineStartsPing(ItemText(items[i]))
  }

  /** The events an item should produce: the parsed payload of a text frame, none for a ping. */
  function ItemValues(parse: string -> Option<Json>, it: Item): seq<Json> {
    match it
    case TextItem(_, _, body) =>
      (match parse("{" + body + "}") case Some(v) => [v] case None => [])
    case PingItem(_, _) => []
  }

  function Values(parse: string -> Option<Json>, items: seq<Item>): seq<Json> {
    if items == [] then [] else ItemValues(parse, items[0]) + Values(parse, items[1..])
  }

  /** Regrouping concatenations. */
  lemma Assoc<T>(a: seq<T>, b: seq<T>, c: seq<T>)
    ensures a + b + c == a + (b + c)
  {
  }

  lemma Assoc4<T>(a: seq<T>, b: seq<T>, c: seq<T>, d: seq<T>)
    ensures a + b + c + d == a + (b + (c + d))
    ensures a + b + c + d == (a + b) + (c + d)
  {
  }

  lemma PrependNothing(r: DrainResult)
    ensures Prepend([], r) == r
  {
    assert [] + r.events == r.events;
  }

  // ---------------------------------------------------------------------
  // One buffer holding the whole stream.
  // ---------------------------------------------------------------------

  /** An item at the front of the buffer produces its events and the loop
      carries on with what follows it. */
  lemma ItemStep(parse: string -> Option<Json>, it: Item, u: string)
    requires WellFormed(parse, it) && (it.PingItem? && it.eol == "" ==> LineStart(u))
    ensures Drain(parse, it.lead + ItemText(it) + u) == Prepend(ItemValues(parse, it), Drain(parse, u))
  {
    var b := it.lead + ItemText(it) + u;
    LeadTrimmed(it.lead, ItemText(it), u);
    if it.TextItem? {
      TextItemStep(parse, b, it.eol, it.body, u);
    } else {
      PingItemStep(parse, b, it.eol, u);
    }
  }

  /** Whitespace before an item is what `trimStart()` removes. */
  lemma LeadTrimmed(lead: string, s: string, u: string)
    requires AllWhitespace(lead) && s != "" && !IsWhitespace(s[0])
    ensures TrimStart(lead + s + u) == s + u
  {
    assert lead + s + u == lead + (s + u);
    TrimStartOf(lead, s + u);
  }

  lemma TextItemStep(parse: string -> Option<Json>, b: string, eol: string, body: string, u: string)
    requires eol != [] && AllCrLf(eol) && '}' !in body && parse("{" + body + "}").Some?
    requires TrimStart(b) == TextFrame(eol, body) + u
    ensures Drain(parse, b) == Prepend([parse("{" + body + "}").value], Drain(parse, u))
  {
    var f := TextFrame(eol, body);
    assert (f + u)[..|f|] == f;
    TextFrameStep(parse, b, eol, body);
    assert (f + u)[|f|..] == u;
  }

  /** A `ping` line at the front is dropped with its line terminator. */
  lemma PingItemStep(parse: string -> Option<Json>, b: string, eol: string, u: string)
    requires PingEnd(eol) && (eol == "" ==> LineStart(u))
    requires TrimStart(b) == "ping" + eol + u
    ensures Drain(parse, b) == Prepend([], Drain(parse, u))
  {
    PingLineShape(eol, u);
    PingLineStep(parse, b);
    assert Drain(parse, b) == Drain(parse, eol + u);
    DrainSkips(parse, eol, u);
    PrependNothing(Drain(parse, u));
  }

  lemma PingLineShape(eol: string, u: string)
    requires PingEnd(eol) && (eol == "" ==> LineStart(u))
    ensures var t := "ping" + eol + u;
      StartsWith(t, "ping") && (|t| == 4 || IsLineTerminator(t[4])) && t[4..] == eol + u
    ensures AllWhitespace(eol)
  {
    var t := "ping" + eol + u;
    assert t[..4] == "ping";
    assert t[4..] == eol + u;
  }

  /** The items after the first are as constrained as the whole, and a
      `ping` without a terminator of its own is followed by a line start. */
  lemma BareLastTail(items: seq<Item>, next: string)
    requires BareLast(items, next) && items != []
    ensures BareLast(items[1..], next)
    ensures items[0].PingItem? && items[0].eol == "" ==> LineStart(Render(items[1..]) + next)
  {
    var tl := items[1..];
    forall i | 0 <= i < |tl| && tl[i].PingItem? && tl[i].eol == ""
      ensures i == |tl| - 1 && LineStart(next)
    {
      assert tl[i] == items[i + 1];
    }
    if items[0].PingItem? && items[0].eol == "" {
      assert tl == [];
      assert Render(tl) + next == next;
    }
  }

  /** Several frames and `ping` lines in one buffer are all handled in one
      `transform` call: every frame's payload is enqueued, in order, the
      pings produce nothing, and the loop then goes on with what follows. */
  lemma {:induction false} DrainItems(parse: string -> Option<Json>, items: seq<Item>, tail: string)
    requires AllWellFormed(parse, items) && BareLast(items, tail)
    ensures Drain(parse, Render(items) + tail) == Prepend(Values(parse, items), Drain(parse, tail))
  {
    if items == [] {
      assert Render(items) + tail == tail;
      PrependNothing(Drain(parse, tail));
    } else {
      var it, rest := items[0], items[1..];
      assert WellFormed(parse, items[0]);
      assert Render(items) + tail == it.lead + ItemText(it) + (Render(rest) + tail);
      BareLastTail(items, tail);
      ItemStep(parse, it, Render(rest) + tail);
      DrainItems(parse, rest, tail);
      PrependTwice(ItemValues(parse, it), Values(parse, rest), Drain(parse, tail));
    }
  }

  /** A stream that ends in whitespace drains completely: every payload is
      enqueued, the buffer is left empty and the stream stays open. */
  lemma WholeStream(parse: string -> Option<Json>, items: seq<Item>, trail: string)
    requires AllWellFormed(parse, items) && BareLast(items, trail) && AllWhitespace(trail)
    ensures Drain(parse, Render(items) + trail) == Drained(Values(parse, items), "", Open)
  {
    DrainItems(parse, items, trail);
    DrainWhitespace(parse, trail);
    assert Values(parse, items) + [] == Values(parse, items);
  }

  /** A done frame after whitespace ends the loop: nothing is enqueued and
      what follows the frame stays, trimmed, in the buffer. */
  lemma DoneFrameLead(parse: string -> Option<Json>, lead: string, eol: string, tail: string)
    requires AllWhitespace(lead) && eol != [] && AllCrLf(eol)
    ensures Drain(parse, lead + DoneFrame(eol) + tail) == Drained([], TrimStart(tail), Terminated)
  {
    var d := DoneFrame(eol);
    assert d[0] == 'e';
    LeadTrimmed(lead, d, tail);
    assert (d + tail)[..|d|] == d;
    DoneFrameStep(parse, lead + d + tail, eol);
    assert (d + tail)[|d|..] == tail;
  }

  /** A first chunk that ends the stream is all the session produces. */
  lemma FeedStops(parse: string -> Option<Json>, c: string, later: seq<string>)
    requires Drain(parse, c).status != Open
    ensures Feed(parse, "", [c] + later) == Drain(parse, c)
  {
    assert ([c] + later)[0] == c;
    assert "" + c == c;
  }

  /** A done frame after the stream's items terminates it: the items'
      payloads are enqueued, the done frame is not, nothing after it is
      looked at (not even a well-formed text frame), and later chunks never
      reach the decoder. */
  lemma DoneTerminates(parse: string -> Option<Json>, items: seq<Item>, lead: string,
                       eol: string, tail: string, later: seq<string>)
    requires AllWellFormed(parse, items) && AllWhitespace(lead)
    requires eol != [] && AllCrLf(eol) && BareLast(items, lead + DoneFrame(eol) + tail)
    ensures Feed(parse, "", [Render(items) + lead + DoneFrame(eol) + tail] + later)
         == Drained(Values(parse, items), TrimStart(tail), Terminated)
  {
    var b := lead + DoneFrame(eol) + tail;
    var c := Render(items) + lead + DoneFrame(eol) + tail;
    Assoc4(Render(items), lead, DoneFrame(eol), tail);
    Assoc(lead, DoneFrame(eol), tail);
    DrainItems(parse, items, b);
    DoneFrameLead(parse, lead, eol, tail);
    assert Values(parse, items) + [] == Values(parse, items);
    FeedStops(parse, c, later);
  }

  /** A text frame after whitespace whose payload `JSON.parse` rejects:
      nothing is enqueued, the stream errors and the buffer keeps the frame. */
  lemma BadFrameLead(parse: string -> Option<Json>, lead: string, eol: string, body: string, tail: string)
    requires AllWhitespace(lead) && eol != [] && AllCrLf(eol) && '}' !in body
    requires parse("{" + body + "}").None?
    ensures Drain(parse, lead + TextFrame(eol, body) + tail) == Drained([], TextFrame(eol, body) + tail, Errored)
  {
    var f := TextFrame(eol, body);
    assert f[0] == 'e';
    LeadTrimmed(lead, f, tail);
    assert (f + tail)[..|f|] == f;
    TextFrameStep(parse, lead + f + tail, eol, body);
  }

  /** A text frame whose payload `JSON.parse` rejects errors the stream:
      the loop records the `enqueue` calls for the payloads before it and no
      more, and the buffer keeps the frame. */
  lemma ParseErrorStops(parse: string -> Option<Json>, items: seq<Item>, lead: string,
                        eol: string, body: string, tail: string)
    requires AllWellFormed(parse, items) && AllWhitespace(lead)
    requires eol != [] && AllCrLf(eol) && '}' !in body && BareLast(items, lead + TextFrame(eol, body) + tail)
    requires parse("{" + body + "}").None?
    ensures Drain(parse, Render(items) + lead + TextFrame(eol, body) + tail)
         == Drained(Values(parse, items), TextFrame(eol, body) + tail, Errored)
  {
    var b := lead + TextFrame(eol, body) + tail;
    assert Render(items) + lead + TextFrame(eol, body) + tail == Render(items) + b;
    DrainItems(parse, items, b);
    BadFrameLead(parse, lead, eol, body, tail);
    assert Values(parse, items) + [] == Values(parse, items);
  }

  // ---------------------------------------------------------------------
  // Incomplete input.
  // ---------------------------------------------------------------------

  /** The text recogniser accepts no proper prefix of a text frame: the
      frame it would find there would end at the frame's own `}`. */
  lemma NoTextInPrefix(eol: string, body: string, p: string)
    requires eol != [] && AllCrLf(eol) && '}' !in body
    requires |p| < |TextFrame(eol, body)| && p == TextFrame(eol, body)[..|p|]
    ensures MatchText(p).None?
  {
    var f := TextFrame(eol, body);
    if MatchText(p).Some? {
      MatchTextSound(p);
      var eol', body' :| TextFrameAt(p, eol', body')
        && MatchText(p).value == TextMatch("{" + body' + "}", |TextFrame(eol', body')|);
      var g := TextFrame(eol', body');
      assert f[..|g|] == g;
      MatchTextComplete(f, eol', body');
      assert f[..|f|] == f;
      MatchTextComplete(f, eol, body);
    }
  }

  /** The done recogniser accepts no prefix of a text frame: `t` is not `d`. */
  lemma NoDoneInPrefix(eol: string, body: string, p: string)
    requires |p| <= |TextFrame(eol, body)| && p == TextFrame(eol, body)[..|p|]
    ensures MatchDone(p).None?
  {
    if |p| > 7 {
      assert p[7] == TextFrame(eol, body)[7] == 't';
    }
  }

  /** A prefix of a string no line of which starts with `ping` has no `ping` line. */
  lemma NoPingLineInPrefix(f: string, p: string)
    requires NoLineStartsPing(f) && |p| <= |f| && p == f[..|p|]
    ensures !HasPingLine(p)
  {
    forall i | 0 <= i <= |p| - 4 ensures !PingLineAt(p, i) {
      if OccursAt(p, "ping", i) && (i == 0 || IsLineTerminator(p[i - 1])) {
        assert f[i..i + 4] == p[i..i + 4];
        assert i == 0 || f[i - 1] == p[i - 1];
        assert OccursAt(f, "ping", i);
        assert false;
      }
    }
  }

  /** A buffer starting with `e` or `p` is not a lone `: ping`. */
  lemma NotComment(p: string)
    requires p != "" && (p[0] == 'e' || p[0] == 'p')
    ensures Trim(p) != ": ping"
  {
    TrimStartOf([], p);
    assert [] + p == p;
    TrimEndSpec(p);
    if |TrimEnd(p)| > 0 {
      assert Trim(p)[0] == p[0];
    }
  }

  /** A text frame cut short is recognised by nothing, as long as no line
      of the frame starts with `ping`: the loop returns and waits for the rest. */
  lemma FramePrefixStalls(eol: string, body: string, p: string)
    requires eol != [] && AllCrLf(eol) && '}' !in body && NoLineStartsPing(TextFrame(eol, body))
    requires 0 < |p| < |TextFrame(eol, body)| && p == TextFrame(eol, body)[..|p|]
    ensures Recognise(p) == NoPass
  {
    NoTextInPrefix(eol, body, p);
    NoDoneInPrefix(eol, body, p);
    NoPingLineInPrefix(TextFrame(eol, body), p);
    assert p[0] == TextFrame(eol, body)[0];
    NotComment(p);
  }

  /** The condition is exact: when a line of the frame starts with `ping`,
      the part of the frame that ends with that `ping` is a ping pass, so a
      chunk boundary there loses the `ping`. */
  lemma FramePrefixPingLine(eol: string, body: string, i: int)
    requires eol != [] && AllCrLf(eol) && '}' !in body
    requires 0 < i && OccursAt(TextFrame(eol, body), "ping", i)
    requires IsLineTerminator(TextFrame(eol, body)[i - 1])
    ensures i + 4 < |TextFrame(eol, body)|
    ensures Recognise(TextFrame(eol, body)[..i + 4]) == PingPass
  {
    var f := TextFrame(eol, body);
    var p := f[..i + 4];
    assert f[|f| - 1] == '}' && f[i + 3] == 'g';
    NoTextInPrefix(eol, body, p);
    NoDoneInPrefix(eol, body, p);
    assert p[i..i + 4] == f[i..i + 4];
    assert PingLineAt(p, i);
  }

  /** The first letters of a `ping` line are recognised by nothing. */
  lemma PingPrefixStalls(p: string)
    requires 0 < |p| < 4 && p == "ping"[..|p|]
    ensures Recognise(p) == NoPass
  {
    assert p[0] == 'p';
    NoFrameHead(p);
    NotComment(p);
  }

  /** A buffer holding whitespace and the first part of an item is left as
      that part, with nothing enqueued, as long as the part is not a whole
      `ping` and no line of a frame starts with `ping`. */
  lemma PartialItemDrain(parse: string -> Option<Json>, it: Item, p: string)
    requires WellFormed(parse, it) && (it.TextItem? ==> NoLineStartsPing(ItemText(it)))
    requires 0 < |p| < |ItemText(it)| && p == ItemText(it)[..|p|]
    requires it.PingItem? ==> |p| < 4
    ensures Drain(parse, it.lead + p) == Drained([], p, Open)
  {
    PartialItemStalls(parse, it, p);
    TrimStartOf(it.lead, p);
    StalledDrain(parse, it.lead + p);
  }

  /** The first part of an item, short of a whole `ping`, is recognised by nothing. */
  lemma PartialItemStalls(parse: string -> Option<Json>, it: Item, p: string)
    requires WellFormed(parse, it) && (it.TextItem? ==> NoLineStartsPing(ItemText(it)))
    requires 0 < |p| < |ItemText(it)| && p == ItemText(it)[..|p|]
    requires it.PingItem? ==> |p| < 4
    ensures Recognise(p) == NoPass && !IsWhitespace(p[0])
  {
    assert p[0] == ItemText(it)[0];
    if it.TextItem? {
      FramePrefixStalls(it.eol, it.body, p);
    } else {
      PingPrefix(p, it.eol);
      PingPrefixStalls(p);
    }
  }

  lemma PingPrefix(p: string, eol: string)
    requires 0 < |p| < 4 && p == ("ping" + eol)[..|p|]
    ensures p == "ping"[..|p|]
  {
    assert ("ping" + eol)[..|p|] == "ping"[..|p|];
  }

  // ---------------------------------------------------------------------
  // Chunk boundaries.
  // ---------------------------------------------------------------------

  /** A stream the chunk-boundary theorem covers: well-formed items, no
      line of a frame that starts with `ping`, whitespace at the end, and a
      `ping` without a terminator only where the trail starts a new line
      (or is empty: the very end of the stream). */
  predicate Good(parse: string -> Option<Json>, items: seq<Item>, trail: string) {
    AllWellFormed(parse, items) && FramesNoPingLine(items) && AllWhitespace(trail) && BareLast(items, trail)
  }

  /** A buffer that may resume: empty, or the first part of the first item
      with its leading whitespace already trimmed. */
  predicate Resumable(buf: string, items: seq<Item>) {
    buf == "" || (|items| > 0 && items[0].lead == "" && |buf| < |ItemText(items[0])|)
  }

  /** Running the loop on the prefix `x` of the stream `items` + `trail`,
      with `rest` still to come, enqueues `emitted`, stays open and leaves
      `buf`, from which the rest of the stream `items'` + `trail'` resumes. */
  predicate SplitsAs(parse: string -> Option<Json>, items: seq<Item>, x: string, rest: string,
                     emitted: seq<Json>, buf: string, items': seq<Item>, trail': string)
  {
    Drain(parse, x) == Drained(emitted, buf, Open)
    && Good(parse, items', trail')
    && emitted + Values(parse, items') == Values(parse, items)
    && buf + rest == Render(items') + trail'
    && Resumable(buf, items')
  }

  lemma ValuesIgnoreLead(parse: string -> Option<Json>, it: Item, lead: string, items: seq<Item>)
    ensures Values(parse, [it.(lead := lead)] + items) == Values(parse, [it] + items)
  {
    assert ([it.(lead := lead)] + items)[1..] == items == ([it] + items)[1..];
  }

  lemma RenderCons(it: Item, items: seq<Item>, trail: string)
    ensures Render([it] + items) + trail == it.lead + (ItemText(it) + (Render(items) + trail))
  {
  }

  lemma RenderHead(items: seq<Item>, trail: string)
    requires items != []
    ensures Render(items) + trail == items[0].lead + (ItemText(items[0]) + (Render(items[1..]) + trail))
    ensures Render(items) + trail == (items[0].lead + ItemText(items[0])) + (Render(items[1..]) + trail)
  {
    var a, b, c := items[0].lead, ItemText(items[0]), Render(items[1..]);
    assert Render(items) == a + b + c;
    Assoc4(a, b, c, trail);
  }

  /** The first item of a good stream is well-formed and so is the rest. */
  lemma GoodHead(parse: string -> Option<Json>, items: seq<Item>, trail: string)
    requires Good(parse, items, trail) && items != []
    ensures WellFormed(parse, items[0]) && (items[0].TextItem? ==> NoLineStartsPing(ItemText(items[0])))
    ensures Good(parse, items[1..], trail)
    ensures items[0].PingItem? && items[0].eol == "" ==> LineStart(Render(items[1..]) + trail)
    ensures items == [items[0]] + items[1..]
  {
    var tl := items[1..];
    BareLastTail(items, trail);
    forall i | 0 <= i < |tl| ensures WellFormed(parse, tl[i]) {
      assert tl[i] == items[i + 1];
    }
    forall i | 0 <= i < |tl| && tl[i].TextItem? ensures NoLineStartsPing(ItemText(tl[i])) {
      assert tl[i] == items[i + 1];
    }
  }

  /** Replacing the first item's leading whitespace by other whitespace keeps the stream good. */
  lemma KeepsGood(parse: string -> Option<Json>, items: seq<Item>, trail: string, it': Item)
    requires Good(parse, items, trail) && |items| > 0
    requires AllWhitespace(it'.lead) && it' == items[0].(lead := it'.lead)
    ensures Good(parse, [it'] + items[1..], trail)
  {
    var items' := [it'] + items[1..];
    forall i | 0 <= i < |items'| ensures WellFormed(parse, items'[i]) {
      if i > 0 { assert items'[i] == items[i]; } else { assert WellFormed(parse, items[0]); }
    }
    forall i | 0 <= i < |items'| && items'[i].TextItem? ensures NoLineStartsPing(ItemText(items'[i])) {
      if i > 0 { assert items'[i] == items[i]; } else { assert ItemText(it') == ItemText(items[0]); }
    }
    forall i | 0 <= i < |items'| && items'[i].PingItem? && items'[i].eol == ""
      ensures i == |items'| - 1 && LineStart(trail)
    {
      if i > 0 { assert items'[i] == items[i]; } else { assert items'[0].eol == items[0].eol; }
    }
  }

  /** Pings keep their terminators when the first item's lead changes or it is dropped. */
  lemma NoBareRelead(items: seq<Item>, lead: string)
    requires NoBare(items) && items != []
    ensures NoBare(items[1..]) && NoBare([items[0].(lead := lead)] + items[1..])
  {
    var tl, items' := items[1..], [items[0].(lead := lead)] + items[1..];
    forall i | 0 <= i < |tl| && tl[i].PingItem? ensures tl[i].eol != "" {
      assert tl[i] == items[i + 1];
    }
    forall i | 0 <= i < |items'| && items'[i].PingItem? ensures items'[i].eol != "" {
      if i > 0 { assert items'[i] == items[i]; } else { assert items'[0].eol == items[0].eol; }
    }
  }

  /** A prefix `x` of `a + b` at least as long as `a` is `a` and a prefix of `b`. */
  lemma SplitBeyond(a: string, b: string, x: string, rest: string)
    requires x + rest == a + b && |x| >= |a|
    ensures x == a + x[|a|..] && x[|a|..] + rest == b
  {
    assert x == (x + rest)[..|x|];
    assert rest == (x + rest)[|x|..];
  }

  /** A prefix `x` of `a + b` no longer than `a` is a prefix of `a`. */
  lemma SplitWithin(a: string, b: string, x: string, rest: string)
    requires x + rest == a + b && |x| <= |a|
    ensures x == a[..|x|] && rest == a[|x|..] + b
  {
    assert x == (x + rest)[..|x|];
    assert rest == (x + rest)[|x|..];
  }

  /** The prefix ends in the trailing whitespace: it drains to nothing. */
  lemma SplitInTrail(parse: string -> Option<Json>, trail: string, x: string, rest: string)
    requires AllWhitespace(trail) && x + rest == Render([]) + trail
    ensures SplitsAs(parse, [], x, rest, [], "", [], rest)
  {
    assert x + rest == trail;
    assert x == trail[..|x|] && rest == trail[|x|..];
    DrainWhitespace(parse, x);
  }

  /** The prefix ends inside the first item's leading whitespace. */
  lemma SplitInLead(parse: string -> Option<Json>, items: seq<Item>, trail: string, x: string, rest: string)
    requires Good(parse, items, trail) && items != []
    requires x + rest == Render(items) + trail && |x| <= |items[0].lead|
    ensures SplitsAs(parse, items, x, rest, [], "", [items[0].(lead := items[0].lead[|x|..])] + items[1..], trail)
  {
    var it, tl := items[0], items[1..];
    var it' := it.(lead := it.lead[|x|..]);
    GoodHead(parse, items, trail);
    RenderHead(items, trail);
    SplitWithin(it.lead, ItemText(it) + (Render(tl) + trail), x, rest);
    DrainWhitespace(parse, x);
    RenderCons(it', tl, trail);
    ValuesIgnoreLead(parse, it, it'.lead, tl);
    KeepsGood(parse, items, trail, it');
  }

  /** The prefix ends inside the first item itself, short of a whole `ping`. */
  lemma SplitInItem(parse: string -> Option<Json>, items: seq<Item>, trail: string, x: string, rest: string)
    requires Good(parse, items, trail) && items != []
    requires x + rest == Render(items) + trail
    requires |items[0].lead| < |x| < |items[0].lead| + |ItemText(items[0])|
    requires items[0].PingItem? ==> |x| < |items[0].lead| + 4
    ensures SplitsAs(parse, items, x, rest, [], x[|items[0].lead|..], [items[0].(lead := "")] + items[1..], trail)
  {
    var it, tl := items[0], items[1..];
    var it' := it.(lead := "");
    var p := x[|it.lead|..];
    GoodHead(parse, items, trail);
    RenderHead(items, trail);
    var s := ItemText(it);
    SplitBeyond(it.lead, s + (Render(tl) + trail), x, rest);
    SplitWithin(s, Render(tl) + trail, p, rest);
    PartialItemDrain(parse, it, p);
    RenderCons(it', tl, trail);
    ValuesIgnoreLead(parse, it, "", tl);
    KeepsGood(parse, items, trail, it');
  }

  /** What is left of the stream after a `ping` whose line terminator `w`
      has not (all) arrived: `w` joins the lead of the next item, or the trail. */
  function AfterPing(tl: seq<Item>, trail: string, w: string): (seq<Item>, string) {
    if tl == [] then ([], w + trail) else ([tl[0].(lead := w + tl[0].lead)] + tl[1..], trail)
  }

  lemma AfterPingRender(tl: seq<Item>, trail: string, w: string)
    ensures w + (Render(tl) + trail) == Render(AfterPing(tl, trail, w).0) + AfterPing(tl, trail, w).1
  {
    if tl != [] {
      var nx := tl[0].(lead := w + tl[0].lead);
      assert ItemText(nx) == ItemText(tl[0]);
      RenderHead(tl, trail);
      RenderCons(nx, tl[1..], trail);
      Assoc(w, tl[0].lead, ItemText(tl[0]) + (Render(tl[1..]) + trail));
    }
  }

  /** Moving the terminator into the next item's lead changes no payload. */
  lemma AfterPingValues(parse: string -> Option<Json>, tl: seq<Item>, trail: string, w: string)
    ensures Values(parse, AfterPing(tl, trail, w).0) == Values(parse, tl)
  {
    if tl != [] {
      ValuesIgnoreLead(parse, tl[0], w + tl[0].lead, tl[1..]);
    }
  }

  /** After a `ping`, the rest of its terminator and the rest of the stream is again a good stream. */
  lemma AfterPingGood(parse: string -> Option<Json>, tl: seq<Item>, trail: string, w: string)
    requires Good(parse, tl, trail) && AllWhitespace(w) && w != "" && IsLineTerminator(w[0])
    ensures Good(parse, AfterPing(tl, trail, w).0, AfterPing(tl, trail, w).1)
    ensures w + (Render(tl) + trail) == Render(AfterPing(tl, trail, w).0) + AfterPing(tl, trail, w).1
    ensures Values(parse, AfterPing(tl, trail, w).0) == Values(parse, tl)
  {
    AfterPingRender(tl, trail, w);
    AfterPingValues(parse, tl, trail, w);
    if tl != [] {
      WhitespaceJoin(w, tl[0].lead);
      KeepsGood(parse, tl, trail, tl[0].(lead := w + tl[0].lead));
    } else {
      WhitespaceJoin(w, trail);
    }
  }

  lemma WhitespaceJoin(a: string, b: string)
    requires AllWhitespace(a) && AllWhitespace(b)
    ensures AllWhitespace(a + b)
  {
    forall i | 0 <= i < |a + b| ensures IsWhitespace((a + b)[i]) {
      if i >= |a| { assert (a + b)[i] == b[i - |a|]; }
    }
  }

  /** The part of a `ping` terminator that has arrived is whitespace that
      starts a new line, and so is the part still to come. */
  lemma PingEndParts(eol: string, k: int)
    requires PingEnd(eol) && 0 <= k < |eol|
    ensures AllWhitespace(eol[..k]) && LineStart(eol[..k])
    ensures AllWhitespace(eol[k..]) && eol[k..] != "" && IsLineTerminator(eol[k..][0])
  {
  }

  /** The prefix ends after the `ping` of a `ping` line but before the end
      of its terminator: the line is removed, and what is still to come of
      the terminator joins the rest of the stream. */
  lemma SplitAfterPing(parse: string -> Option<Json>, items: seq<Item>, trail: string, x: string, rest: string)
    requires Good(parse, items, trail) && items != [] && items[0].PingItem?
    requires x + rest == Render(items) + trail
    requires |items[0].lead| + 4 <= |x| < |items[0].lead| + |ItemText(items[0])|
    ensures var w := items[0].eol[|x| - |items[0].lead| - 4..];
      SplitsAs(parse, items, x, rest, [], "", AfterPing(items[1..], trail, w).0, AfterPing(items[1..], trail, w).1)
  {
    var it, tl := items[0], items[1..];
    var k := |x| - |it.lead| - 4;
    GoodHead(parse, items, trail);
    RenderHead(items, trail);
    PingThenRest(it.lead, it.eol, Render(tl) + trail, x, rest);
    PingEndParts(it.eol, k);
    PingAtEndDrain(parse, it.lead, it.eol[..k], x);
    AfterPingGood(parse, tl, trail, it.eol[k..]);
  }

  lemma PingThenRest(lead: string, eol: string, u: string, x: string, rest: string)
    requires x + rest == lead + ("ping" + eol + u) && |lead| + 4 <= |x| <= |lead| + 4 + |eol|
    ensures var k := |x| - |lead| - 4; x == lead + "ping" + eol[..k] && rest == eol[k..] + u
  {
    var k := |x| - |lead| - 4;
    assert eol == eol[..k] + eol[k..];
    assert lead + ("ping" + eol + u) == (lead + "ping" + eol[..k]) + (eol[k..] + u);
    SplitWithin(lead + "ping" + eol[..k], eol[k..] + u, x, rest);
  }

  /** A `ping` at the end of the buffer, or followed by a line terminator
      whose line holds nothing else, is a `ping` line and is removed. */
  lemma PingAtEndDrain(parse: string -> Option<Json>, lead: string, e: string, x: string)
    requires AllWhitespace(lead) && AllWhitespace(e) && LineStart(e) && x == lead + "ping" + e
    ensures Drain(parse, x) == Drained([], "", Open)
  {
    var t := "ping" + e;
    assert lead + t + "" == x && t + "" == t;
    LeadTrimmed(lead, t, "");
    PingThenLineStart(e);
    PingLineStep(parse, x);
    DrainWhitespace(parse, e);
  }

  lemma PingThenLineStart(e: string)
    requires LineStart(e)
    ensures var t := "ping" + e;
      StartsWith(t, "ping") && (|t| == 4 || IsLineTerminator(t[4])) && t[4..] == e
  {
    var t := "ping" + e;
    assert t[..4] == "ping";
  }

  /** The prefix holds the whole first item: its events come first, then
      whatever the prefix makes of the rest of the stream. */
  lemma SplitCons(parse: string -> Option<Json>, items: seq<Item>, trail: string, x: string, rest: string,
                  e: seq<Json>, buf: string, items': seq<Item>, trail': string)
    requires Good(parse, items, trail) && items != []
    requires x + rest == Render(items) + trail && |x| >= |items[0].lead| + |ItemText(items[0])|
    requires SplitsAs(parse, items[1..], x[|items[0].lead| + |ItemText(items[0])|..], rest, e, buf, items', trail')
    ensures SplitsAs(parse, items, x, rest, ItemValues(parse, items[0]) + e, buf, items', trail')
  {
    var it, tl := items[0], items[1..];
    GoodHead(parse, items, trail);
    RenderHead(items, trail);
    SplitBeyond(it.lead + ItemText(it), Render(tl) + trail, x, rest);
    var x' := x[|it.lead + ItemText(it)|..];
    if it.PingItem? && it.eol == "" && x' != "" {
      assert x'[0] == (x' + rest)[0];
    }
    ItemStep(parse, it, x');
    Assoc(ItemValues(parse, it), e, Values(parse, items'));
  }

  /** Whatever prefix `x` of the stream the buffer holds, the loop enqueues
      the payloads of the items `x` holds whole, stays open, and leaves a
      buffer from which the rest of the stream resumes. */
  lemma {:induction false} SplitPrefix(parse: string -> Option<Json>, items: seq<Item>, trail: string,
                                       x: string, rest: string)
    returns (emitted: seq<Json>, buf: string, items': seq<Item>, trail': string)
    requires Good(parse, items, trail)
    requires x + rest == Render(items) + trail
    ensures SplitsAs(parse, items, x, rest, emitted, buf, items', trail')
    ensures NoBare(items) ==> NoBare(items')
    decreases |items|
  {
    if items == [] {
      emitted, buf, items', trail' := [], "", [], rest;
      SplitInTrail(parse, trail, x, rest);
      return;
    }
    var it := items[0];
    var n := |it.lead| + |ItemText(it)|;
    if |x| >= n {
      GoodHead(parse, items, trail);
      RenderHead(items, trail);
      SplitBeyond(it.lead + ItemText(it), Render(items[1..]) + trail, x, rest);
      var e;
      if NoBare(items) { NoBareRelead(items, ""); }
      e, buf, items', trail' := SplitPrefix(parse, items[1..], trail, x[n..], rest);
      SplitCons(parse, items, trail, x, rest, e, buf, items', trail');
      emitted := ItemValues(parse, it) + e;
    } else if |x| <= |it.lead| {
      emitted, buf, items', trail' := [], "", [it.(lead := it.lead[|x|..])] + items[1..], trail;
      SplitInLead(parse, items, trail, x, rest);
      if NoBare(items) { NoBareRelead(items, it.lead[|x|..]); }
    } else if it.TextItem? || |x| < |it.lead| + 4 {
      emitted, buf, items', trail' := [], x[|it.lead|..], [it.(lead := "")] + items[1..], trail;
      SplitInItem(parse, items, trail, x, rest);
      if NoBare(items) { NoBareRelead(items, ""); }
    } else {
      var tl, w := items[1..], it.eol[|x| - |it.lead| - 4..];
      emitted, buf := [], "";
      items', trail' := AfterPing(tl, trail, w).0, AfterPing(tl, trail, w).1;
      SplitAfterPing(parse, items, trail, x, rest);
      if NoBare(items) && tl != [] {
        NoBareRelead(items, "");
        NoBareRelead(tl, w + tl[0].lead);
      }
    }
  }

  /** Fed the rest of the stream chunk by chunk from a resumable buffer,
      the decoder enqueues every payload still to come and ends open with
      an empty buffer. */
  lemma {:induction false} FeedFrom(parse: string -> Option<Json>, buf: string, chunks: seq<string>,
                                    items: seq<Item>, trail: string)
    requires Good(parse, items, trail)
    requires Resumable(buf, items)
    requires buf + Concat(chunks) == Render(items) + trail
    ensures Feed(parse, buf, chunks) == Drained(Values(parse, items), "", Open)
    decreases |chunks|
  {
    if chunks != [] {
      var x := buf + chunks[0];
      var rest := Concat(chunks[1..]);
      assert x + rest == Render(items) + trail;
      var emitted, buf', items', trail' := SplitPrefix(parse, items, trail, x, rest);
      FeedFrom(parse, buf', chunks[1..], items', trail');
    }
  }

  /** However the stream is cut into chunks, the decoder enqueues the same
      payloads in the same order as for the unsplit stream, and ends open
      with nothing left over, provided no line of a text frame starts with `ping`. */
  lemma ChunkBoundaryInvariance(parse: string -> Option<Json>, items: seq<Item>, trail: string,
                                chunks: seq<string>)
    requires Good(parse, items, trail)
    requires Concat(chunks) == Render(items) + trail
    ensures Feed(parse, "", chunks) == Drained(Values(parse, items), "", Open)
    ensures Feed(parse, "", chunks) == Feed(parse, "", [Concat(chunks)])
  {
    assert "" + Concat(chunks) == Concat(chunks);
    FeedFrom(parse, "", chunks, items, trail);
    var one := [Concat(chunks)];
    assert one[1..] == [];
    assert Concat(one) == Concat(chunks) + Concat(one[1..]);
    FeedFrom(parse, "", one, items, trail);
  }

  // ---------------------------------------------------------------------
  // Chunk boundaries in a stream that ends with a done frame.
  // ---------------------------------------------------------------------

  /** The text recogniser accepts no prefix of a done frame: `d` is not `t`. */
  lemma NoTextInDonePrefix(eol: string, p: string)
    requires |p| <= |DoneFrame(eol)| && p == DoneFrame(eol)[..|p|]
    ensures MatchText(p).None?
  {
    if |p| > 7 {
      assert p[7] == DoneFrame(eol)[7] == 'd';
    }
  }

  /** The done recogniser accepts no proper prefix of a done frame. */
  lemma NoDoneInDonePrefix(eol: string, p: string)
    requires eol != [] && AllCrLf(eol)
    requires |p| < |DoneFrame(eol)| && p == DoneFrame(eol)[..|p|]
    ensures MatchDone(p).None?
  {
    var f := DoneFrame(eol);
    if MatchDone(p).Some? {
      MatchDoneSound(p);
      var eol' :| DoneFrameAt(p, eol') && MatchDone(p).value == |DoneFrame(eol')|;
      assert false;
    }
  }

  /** The lines of a done frame start with `event`, CR/LF or `data`. */
  lemma DoneFrameNoPingLine(eol: string)
    requires AllCrLf(eol)
    ensures NoLineStartsPing(DoneFrame(eol))
  {
    var f := DoneFrame(eol);
    var n := |eol|;
    forall i | 0 <= i <= |f| - 4 && (i == 0 || IsLineTerminator(f[i - 1]))
      ensures !OccursAt(f, "ping", i)
    {
      if i == 0 {
        assert f[0] == 'e';
      } else if 11 < i < 11 + n {
        assert f[i] == eol[i - 11];
      } else if i == 11 + n {
        assert f[i] == 'd';
      }
    }
  }

  /** A done frame cut short is recognised by nothing: the loop waits for the rest. */
  lemma DonePrefixStalls(eol: string, p: string)
    requires eol != [] && AllCrLf(eol)
    requires 0 < |p| < |DoneFrame(eol)| && p == DoneFrame(eol)[..|p|]
    ensures Recognise(p) == NoPass
  {
    NoTextInDonePrefix(eol, p);
    NoDoneInDonePrefix(eol, p);
    DoneFrameNoPingLine(eol);
    NoPingLineInPrefix(DoneFrame(eol), p);
    assert p[0] == DoneFrame(eol)[0];
    NotComment(p);
  }

  /** A buffer holding whitespace and the first part of a done frame is left
      as that part, with nothing enqueued, and the stream stays open. */
  lemma DonePartDrain(parse: string -> Option<Json>, lead: string, eol: string, p: string)
    requires AllWhitespace(lead) && eol != [] && AllCrLf(eol)
    requires 0 < |p| < |DoneFrame(eol)| && p == DoneFrame(eol)[..|p|]
    ensures Drain(parse, lead + p) == Drained([], p, Open)
  {
    DonePrefixStalls(eol, p);
    assert p[0] == DoneFrame(eol)[0];
    TrimStartOf(lead, p);
    StalledDrain(parse, lead + p);
  }

  /** A buffer from which a stream ending in a done frame may resume: one
      the chunk-boundary theorem allows, or the first part of the done frame. */
  predicate ResumableDone(buf: string, items: seq<Item>, lead: string, eol: string) {
    Resumable(buf, items) || (items == [] && lead == "" && |buf| < |DoneFrame(eol)|)
  }

  /** The whole stream, done frame included, is longer than a resumable buffer. */
  lemma DoneStreamLonger(items: seq<Item>, lead: string, eol: string, tail: string, buf: string)
    requires ResumableDone(buf, items, lead, eol)
    ensures |buf| < |Render(items) + lead + DoneFrame(eol) + tail|
  {
    if items != [] {
      RenderHead(items, lead);
    }
  }

  lemma EmptyRender(s: string)
    ensures Render([]) + "" + s == s
  {
    assert Render([]) == "";
  }

  /** The buffer ends before the done frame: as in a stream without one. */
  lemma DoneSplitBefore(parse: string -> Option<Json>, items: seq<Item>, lead: string, eol: string,
                        tail: string, x: string, rest: string)
    returns (emitted: seq<Json>, buf: string, items': seq<Item>, trail': string)
    requires Good(parse, items, lead) && NoBare(items)
    requires x + rest == Render(items) + lead + DoneFrame(eol) + tail && |x| <= |Render(items) + lead|
    ensures Drain(parse, x) == Drained(emitted, buf, Open)
    ensures Good(parse, items', trail') && NoBare(items') && Resumable(buf, items')
    ensures emitted + Values(parse, items') == Values(parse, items)
    ensures buf + rest == Render(items') + trail' + DoneFrame(eol) + tail
  {
    var r, d := Render(items) + lead, DoneFrame(eol);
    Assoc(r, d, tail);
    SplitWithin(r, d + tail, x, rest);
    emitted, buf, items', trail' := SplitPrefix(parse, items, lead, x, r[|x|..]);
    Assoc4(buf, r[|x|..], d, tail);
  }

  /** The buffer ends inside the done frame: every payload before it is
      enqueued and the buffer keeps the part of the frame received so far. */
  lemma DoneSplitInside(parse: string -> Option<Json>, items: seq<Item>, lead: string, eol: string,
                        tail: string, x: string, rest: string)
    requires Good(parse, items, lead) && NoBare(items) && eol != [] && AllCrLf(eol)
    requires x + rest == Render(items) + lead + DoneFrame(eol) + tail
    requires |Render(items) + lead| < |x| < |Render(items) + lead| + |DoneFrame(eol)|
    ensures var p := x[|Render(items) + lead|..];
      Drain(parse, x) == Drained(Values(parse, items), p, Open)
      && |p| < |DoneFrame(eol)| && p + rest == DoneFrame(eol) + tail
  {
    var r, d := Render(items) + lead, DoneFrame(eol);
    Assoc(r, d, tail);
    SplitBeyond(r, d + tail, x, rest);
    var p := x[|r|..];
    SplitWithin(d, tail, p, rest);
    DonePartDrain(parse, lead, eol, p);
    Assoc(Render(items), lead, p);
    DrainItems(parse, items, lead + p);
    assert Values(parse, items) + [] == Values(parse, items);
  }

  /** The buffer holds the whole done frame: every payload before it is
      enqueued and the stream terminates. */
  lemma DoneSplitAfter(parse: string -> Option<Json>, items: seq<Item>, lead: string, eol: string,
                       tail: string, x: string, rest: string)
    requires Good(parse, items, lead) && NoBare(items) && eol != [] && AllCrLf(eol)
    requires x + rest == Render(items) + lead + DoneFrame(eol) + tail
    requires |Render(items) + lead + DoneFrame(eol)| <= |x|
    ensures Drain(parse, x).events == Values(parse, items) && Drain(parse, x).status == Terminated
  {
    var rr, d := Render(items), DoneFrame(eol);
    var a := rr + lead + d;
    SplitBeyond(a, tail, x, rest);
    var q := x[|a|..];
    Assoc(lead, d, q);
    Assoc4(rr, lead, d, q);
    assert x == rr + (lead + d + q);
    DrainItems(parse, items, lead + d + q);
    DoneFrameLead(parse, lead, eol, q);
  }

  /** Fed the rest of a stream that ends in a done frame chunk by chunk, the
      decoder enqueues every payload still to come before the done frame and
      then terminates. */
  lemma {:induction false} FeedFromDone(parse: string -> Option<Json>, buf: string, chunks: seq<string>,
                                        items: seq<Item>, lead: string, eol: string, tail: string)
    requires Good(parse, items, lead) && NoBare(items) && eol != [] && AllCrLf(eol)
    requires ResumableDone(buf, items, lead, eol)
    requires buf + Concat(chunks) == Render(items) + lead + DoneFrame(eol) + tail
    ensures Feed(parse, buf, chunks).events == Values(parse, items)
    ensures Feed(parse, buf, chunks).status == Terminated
    decreases |chunks|
  {
    DoneStreamLonger(items, lead, eol, tail, buf);
    if chunks == [] {
      assert false;
    }
    var r, d := Render(items) + lead, DoneFrame(eol);
    var x, rest := buf + chunks[0], Concat(chunks[1..]);
    Assoc(buf, chunks[0], rest);
    if |x| <= |r| {
      var emitted, buf', items', trail' := DoneSplitBefore(parse, items, lead, eol, tail, x, rest);
      FeedFromDone(parse, buf', chunks[1..], items', trail', eol, tail);
    } else if |x| < |r| + |d| {
      DoneSplitInside(parse, items, lead, eol, tail, x, rest);
      EmptyRender(d + tail);
      Assoc(Render([]) + "", d, tail);
      FeedFromDone(parse, x[|r|..], chunks[1..], [], "", eol, tail);
      assert Values(parse, items) + [] == Values(parse, items);
    } else {
      DoneSplitAfter(parse, items, lead, eol, tail, x, rest);
    }
  }

  /** However a stream that ends in a done frame is cut into chunks, the
      decoder enqueues the payloads of the frames before the done frame, in
      order, and terminates, as for the unsplit stream, provided no line of
      a text frame starts with `ping`. What stays in the buffer is whatever
      arrived after the done frame in the same chunk. Every `ping` item carries its terminator: a `ping` right before the
      frame is no `ping` line, and one before a line terminator is the item
      that ends in it. */
  lemma ChunkBoundaryDone(parse: string -> Option<Json>, items: seq<Item>, lead: string, eol: string,
                          tail: string, chunks: seq<string>)
    requires Good(parse, items, lead) && NoBare(items) && eol != [] && AllCrLf(eol)
    requires Concat(chunks) == Render(items) + lead + DoneFrame(eol) + tail
    ensures Feed(parse, "", chunks).events == Values(parse, items)
    ensures Feed(parse, "", chunks).status == Terminated
    ensures Feed(parse, "", chunks).events == Feed(parse, "", [Concat(chunks)]).events
  {
    assert "" + Concat(chunks) == Concat(chunks);
    FeedFromDone(parse, "", chunks, items, lead, eol, tail);
    DoneTerminates(parse, items, lead, eol, tail, []);
    assert [Concat(chunks)] + [] == [Concat(chunks)];
  }

  // ---------------------------------------------------------------------
  // `: ping` comments.
  // ---------------------------------------------------------------------

  /** A chunk that arrives on an empty buffer and trims to `: ping` is
      dropped: the session goes on exactly as if it had never come. */
  lemma PingCommentChunk(parse: string -> Option<Json>, c: string, later: seq<string>)
    requires Trim(c) == ": ping"
    ensures Feed(parse, "", [c] + later) == Feed(parse, "", later)
  {
    assert "" + c == c;
    PingCommentStep(parse, c);
    assert ([c] + later)[0] == c;
    assert ([c] + later)[1..] == later;
    PrependNothing(Feed(parse, "", later));
  }

  /** No `ping` of `: ping` + `w` + `s` is a line of its own when `w` is
      whitespace and `s` holds no `ping`. */
  lemma CommentNoPingLine(t: string, w: string, s: string)
    requires AllWhitespace(w) && PingFree(s) && t == ": ping" + w + s
    ensures !HasPingLine(t)
  {
    var a := ": ping" + w;
    forall i | 0 <= i <= |t| - 4 ensures !PingLineAt(t, i) {
      if i >= |a| {
        NoPingAfter(a, s, i);
      } else if i >= 6 {
        assert t[i] == w[i - 6];
        NoPingAt(t, i);
      } else if i == 2 {
        assert t[1] == ' ';
      } else {
        assert t[i] == ": ping"[i];
        NoPingAt(t, i);
      }
    }
  }

  /** No `ping` starts at a position of `t` that does not hold `p`. */
  lemma NoPingAt(t: string, i: int)
    requires 0 <= i < |t| && t[i] != 'p'
    ensures !OccursAt(t, "ping", i)
  {
  }

  /** A `ping` inside the part `s` of `a + s` would be a `ping` of `s`. */
  lemma NoPingAfter(a: string, s: string, i: int)
    requires PingFree(s) && |a| <= i <= |a + s| - 4
    ensures !OccursAt(a + s, "ping", i)
  {
    assert (a + s)[i..i + 4] == s[i - |a|..i - |a| + 4];
    assert !OccursAt(s, "ping", i - |a|);
  }

  /** `: ping` with something other than whitespace after it is not a lone comment. */
  lemma CommentWithDataNotComment(t: string, w: string, s: string)
    requires AllWhitespace(w) && s != "" && !IsWhitespace(s[0]) && t == ": ping" + w + s
    ensures Trim(t) != ": ping"
  {
    TrimStartOf([], t);
    assert [] + t == t;
    var r := TrimEnd(t);
    TrimEndSpec(t);
    var k := 6 + |w|;
    assert t[k] == s[0];
  }

  /** `: ping` followed, in the same buffer, by anything that is not
      whitespace and holds no `ping` is recognised by nothing: the comment
      is only dropped when it is all the buffer holds. */
  lemma CommentWithDataStalls(t: string, w: string, s: string)
    requires AllWhitespace(w) && s != "" && !IsWhitespace(s[0]) && PingFree(s)
    requires t == ": ping" + w + s
    ensures TrimStart(t) == t && Recognise(t) == NoPass
  {
    assert t[0] == ':';
    NoFrameHead(t);
    TrimStartOf([], t);
    assert [] + t == t;
    CommentNoPingLine(t, w, s);
    CommentWithDataNotComment(t, w, s);
  }

  /** A prefix of a string without `ping` has no `ping` either. */
  lemma PingFreePrefix(a: string, b: string)
    requires PingFree(a + b)
    ensures PingFree(a)
  {
    forall i | 0 <= i <= |a| - 4 ensures !OccursAt(a, "ping", i) {
      assert (a + b)[i..i + 4] == a[i..i + 4];
      assert !OccursAt(a + b, "ping", i);
    }
  }

  /** One more chunk on a stuck buffer: nothing is enqueued and the chunk is appended. */
  lemma CommentWithDataStep(parse: string -> Option<Json>, w: string, s: string)
    requires AllWhitespace(w) && s != "" && !IsWhitespace(s[0]) && PingFree(s)
    ensures Drain(parse, ": ping" + w + s) == Drained([], ": ping" + w + s, Open)
  {
    var t := ": ping" + w + s;
    CommentWithDataStalls(t, w, s);
    StalledDrain(parse, t);
  }

  lemma CommentShape(w: string, s: string, c: string, cs: seq<string>)
    requires cs != []
    ensures ": ping" + w + s + cs[0] == ": ping" + w + (s + cs[0])
    ensures s + Concat(cs) == (s + cs[0]) + Concat(cs[1..])
  {
  }

  /** Once `: ping` and data share the buffer, the stream is stuck for
      good: no later chunk free of `ping` produces an event, and all of it
      piles up in the buffer. */
  lemma {:induction false} CommentWithDataStallsForever(parse: string -> Option<Json>, w: string, s: string,
                                                        later: seq<string>)
    requires AllWhitespace(w) && s != "" && !IsWhitespace(s[0]) && PingFree(s + Concat(later))
    ensures Feed(parse, ": ping" + w + s, later) == Drained([], ": ping" + w + (s + Concat(later)), Open)
    decreases |later|
  {
    if later != [] {
      var s' := s + later[0];
      CommentShape(w, s, later[0], later);
      PingFreePrefix(s', Concat(later[1..]));
      CommentWithDataStep(parse, w, s');
      CommentWithDataStallsForever(parse, w, s', later[1..]);
      PrependNothing(Feed(parse, ": ping" + w + s', later[1..]));
    }
  }
}
