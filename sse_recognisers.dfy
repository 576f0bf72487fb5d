/** The decoder's recognisers against the shape of text each regular
    expression accepts, and the effect of one pass of the loop for each
    kind of frame. */
module SseRecognisers {
  import opened JsString
  import opened JsonValue
  import opened SseDecoder

  /** `CrLfRun` is the whole run of CR/LF characters, wherever that run ends. */
  lemma {:induction false} CrLfRunOf(s: string, n: nat)
    requires n <= |s| && AllCrLf(s[..n])
    requires n == |s| || !IsCrLf(s[n])
    ensures CrLfRun(s) == n
  {
    if n > 0 {
      assert s[1..][..n - 1] == s[1..n];
      CrLfRunOf(s[1..], n - 1);
    }
  }

  /** The first `}` of `s` is at `k` when `s[..k]` has none. */
  lemma {:induction false} FirstCloseAt(s: string, k: nat)
    requires k < |s| && s[k] == '}' && '}' !in s[..k]
    ensures IndexOf(s, "}") == k
  {
    assert OccursAt(s, "}", k);
  }

  /** Every text frame at the start of `b` is recognised, with the payload
      from its `{` to its first `}` and the frame's length. */
  lemma MatchTextComplete(b: string, eol: string, body: string)
    requires TextFrameAt(b, eol, body)
    ensures MatchText(b) == Some(TextMatch("{" + body + "}", |TextFrame(eol, body)|))
  {
    var f := TextFrame(eol, body);
    ConcatParts(f, b[|f|..]);
    assert b == f + b[|f|..];
    MatchTextOn(eol, body, b[|f|..]);
  }

  /** The text recogniser's answer from the positions it scans: the CR/LF
      run after `event: text`, then `data: {`, then the first `}`. */
  lemma MatchTextBy(b: string, n: nat, k: nat)
    requires StartsWith(b, TextHead) && CrLfRun(b[11..]) == n && n > 0
    requires StartsWith(b[11 + n..], "data: {") && IndexOf(b[18 + n..], "}") == k
    ensures MatchText(b) == Some(TextMatch(b[17 + n..19 + n + k], 19 + n + k))
  {
  }

  /** Where each part of a text frame sits in the buffer that starts with it. */
  lemma TextFrameLayout(eol: string, body: string, r: string)
    ensures var b, n, k := TextFrame(eol, body) + r, |eol|, |body|;
      |b| == 19 + n + k + |r| && |TextFrame(eol, body)| == 19 + n + k
      && b[..11] == TextHead && b[11..11 + n] == eol && b[11 + n..18 + n] == "data: {"
      && b[18 + n..18 + n + k] == body && b[18 + n + k] == '}' && b[19 + n + k..] == r
      && b[17 + n..19 + n + k] == "{" + body + "}"
  {
  }

  /** The CR/LF run after the head of a text frame is its `eol`. */
  lemma TextFrameRun(b: string, eol: string, n: nat)
    requires n == |eol| && eol != [] && AllCrLf(eol)
    requires 12 + n <= |b| && b[11..11 + n] == eol && b[11 + n] == 'd'
    ensures CrLfRun(b[11..]) == n
  {
    assert b[11..][..n] == eol;
    assert b[11..][n] == 'd';
    CrLfRunOf(b[11..], n);
  }

  /** The first `}` after `data: {` is the one that closes `body`. */
  lemma TextFrameClose(b: string, body: string, d: nat, k: nat)
    requires k == |body| && '}' !in body
    requires d + k < |b| && b[d..d + k] == body && b[d + k] == '}'
    ensures IndexOf(b[d..], "}") == k
  {
    var u := b[d..];
    assert u[..k] == body && u[k] == '}';
    FirstCloseAt(u, k);
  }

  /** The text recogniser on a text frame followed by anything. */
  lemma MatchTextOn(eol: string, body: string, r: string)
    requires eol != [] && AllCrLf(eol) && '}' !in body
    ensures MatchText(TextFrame(eol, body) + r) == Some(TextMatch("{" + body + "}", |TextFrame(eol, body)|))
  {
    var b := TextFrame(eol, body) + r;
    var n, k := |eol|, |body|;
    TextFrameLayout(eol, body, r);
    assert b[11 + n] == b[11 + n..18 + n][0] == 'd';
    TextFrameRun(b, eol, n);
    assert StartsWith(b[11 + n..], "data: {") by {
      assert b[11 + n..][..7] == b[11 + n..18 + n];
    }
    TextFrameClose(b, body, 18 + n, k);
    MatchTextBy(b, n, k);
  }

  /** A buffer whose positions hold the parts of a text frame starts with that frame. */
  lemma TextFrameFromParts(b: string, eol: string, body: string)
    requires var d := 11 + |eol|;
      d + 8 + |body| <= |b| && StartsWith(b, TextHead) && b[11..d] == eol
      && b[d..d + 7] == "data: {" && b[d + 7..d + 7 + |body|] == body && b[d + 7 + |body|] == '}'
    ensures StartsWith(b, TextFrame(eol, body))
  {
    var d, k := 11 + |eol|, |body|;
    assert b[..d + 8 + k] == b[..11] + b[11..d] + b[d..d + 7] + b[d + 7..d + 7 + k] + b[d + 7 + k..d + 8 + k];
  }

  /** Whatever the text recogniser returns is a text frame at the start of `b`. */
  lemma {:induction false} MatchTextSound(b: string)
    requires MatchText(b).Some?
    ensures exists eol, body ::
      (TextFrameAt(b, eol, body) && MatchText(b).value == TextMatch("{" + body + "}", |TextFrame(eol, body)|))
  {
    var n := CrLfRun(b[11..]);
    var d := 11 + n;
    var k := IndexOf(b[d + 7..], "}");
    var eol, body := b[11..d], b[d + 7..d + 7 + k];
    assert eol == b[11..][..n];
    assert '}' !in body by {
      forall j | 0 <= j < k ensures body[j] != '}' {
        assert !OccursAt(b[d + 7..], "}", j);
        assert b[d + 7..][j..j + 1] == [body[j]];
      }
    }
    assert b[d + 7..][k..k + 1] == "}";
    assert b[d..][..7] == b[d..d + 7];
    TextFrameFromParts(b, eol, body);
    MatchTextComplete(b, eol, body);
  }

  /** Every done frame at the start of `b` is recognised, with the frame's length. */
  lemma {:induction false} MatchDoneComplete(b: string, eol: string)
    requires DoneFrameAt(b, eol)
    ensures MatchDone(b) == Some(|DoneFrame(eol)|)
  {
    var f := DoneFrame(eol);
    assert b[..|f|] == f;
    assert b[..11] == f[..11] == DoneHead;
    var n := |eol|;
    assert b[11..][..n] == eol;
    assert b[11..][n] == f[11 + n] == 'd';
    CrLfRunOf(b[11..], n);
    assert b[11 + n..][..8] == f[11 + n..] == "data: {}";
  }

  /** Whatever the done recogniser returns is a done frame at the start of `b`. */
  lemma {:induction false} MatchDoneSound(b: string)
    requires MatchDone(b).Some?
    ensures exists eol :: DoneFrameAt(b, eol) && MatchDone(b).value == |DoneFrame(eol)|
  {
    var n := CrLfRun(b[11..]);
    var eol := b[11..11 + n];
    assert eol == b[11..][..n];
    assert b[..19 + n] == DoneFrame(eol);
    MatchDoneComplete(b, eol);
  }

  /** The recognisers are tried in the order text, done, `ping` line,
      `: ping`, and the first that accepts the buffer decides the pass. */
  lemma {:induction false} RecognisePriority(t: string)
    ensures Recognise(t).TextPass? <==> exists eol, body :: TextFrameAt(t, eol, body)
    ensures Recognise(t).DonePass? <==>
      (forall eol, body :: !TextFrameAt(t, eol, body)) && exists eol :: DoneFrameAt(t, eol)
    ensures Recognise(t).PingPass? <==>
      (forall eol, body :: !TextFrameAt(t, eol, body)) && (forall eol :: !DoneFrameAt(t, eol))
      && HasPingLine(t)
    ensures Recognise(t).PingCommentPass? <==>
      (forall eol, body :: !TextFrameAt(t, eol, body)) && (forall eol :: !DoneFrameAt(t, eol))
      && !HasPingLine(t) && Trim(t) == ": ping"
  {
    if MatchText(t).Some? {
      MatchTextSound(t);
    } else {
      forall eol, body | TextFrameAt(t, eol, body) ensures false {
        MatchTextComplete(t, eol, body);
      }
    }
    if MatchDone(t).Some? {
      MatchDoneSound(t);
    } else {
      forall eol | DoneFrameAt(t, eol) ensures false {
        MatchDoneComplete(t, eol);
      }
    }
  }

  /** No recogniser accepts the empty buffer. */
  lemma RecogniseEmpty()
    ensures Recognise("") == NoPass
  {
    assert MatchText("").None? && MatchDone("").None?;
    assert !HasPingLine("");
  }

  /** Running the loop on the trimmed buffer is running it on the buffer:
      the first thing every pass does is `buffer.trimStart()`. */
  lemma {:induction false} DrainTrim(parse: string -> Option<Json>, b: string)
    ensures Drain(parse, TrimStart(b)) == Drain(parse, b)
  {
    var t := TrimStart(b);
    if b == "" {
    } else if t == "" {
      RecogniseEmpty();
      assert Drain(parse, b) == DrainTrimmed(parse, "");
    } else {
      TrimStartIdempotent(b);
      assert Drain(parse, t) == DrainTrimmed(parse, TrimStart(t));
    }
  }

  /** A buffer of whitespace only drains to nothing: no event, an empty buffer, still open. */
  lemma {:induction false} DrainWhitespace(parse: string -> Option<Json>, w: string)
    requires AllWhitespace(w)
    ensures Drain(parse, w) == Drained([], "", Open)
  {
    if w != "" {
      TrimStartOf(w, "");
      assert w + "" == w;
      RecogniseEmpty();
      assert DrainTrimmed(parse, "") == Drained([], "", Open);
    }
  }

  /** When the loop returns for more input, the buffer it leaves is trimmed
      and no recogniser accepts it; it is never longer than the buffer the
      loop started from. */
  lemma {:induction false} DrainLeavesStalled(parse: string -> Option<Json>, b: string)
    ensures |Drain(parse, b).rest| <= |b|
    ensures Drain(parse, b).status == Open ==> Stalled(Drain(parse, b).rest)
    decreases |b|, 1
  {
    if b == "" {
      RecogniseEmpty();
    } else {
      TrimStartIdempotent(b);
      TrimmedLeavesStalled(parse, TrimStart(b));
    }
  }

  lemma {:induction false} TrimmedLeavesStalled(parse: string -> Option<Json>, t: string)
    requires TrimStart(t) == t
    ensures |DrainTrimmed(parse, t).rest| <= |t|
    ensures DrainTrimmed(parse, t).status == Open ==> Stalled(DrainTrimmed(parse, t).rest)
    decreases |t|, 0
  {
    var p := Recognise(t);
    match p
    case TextPass(payload, _) =>
      if parse(payload).Some? {
        DrainLeavesStalled(parse, Advance(t, p));
      }
    case DonePass(_) =>
    case PingPass => DrainLeavesStalled(parse, Advance(t, p));
    case PingCommentPass => DrainLeavesStalled(parse, Advance(t, p));
    case NoPass =>
  }

  /** A text frame at the start of the trimmed buffer: its payload, from `{`
      to the first `}`, is parsed and enqueued as exactly one event, and the
      loop goes on with the rest of the buffer after the frame; if the payload
      does not parse, nothing is enqueued and the stream errors. */
  lemma {:induction false} TextFrameStep(parse: string -> Option<Json>, b: string, eol: string, body: string)
    requires TextFrameAt(TrimStart(b), eol, body)
    ensures var t := TrimStart(b);
      match parse("{" + body + "}")
      case None => Drain(parse, b) == Drained([], t, Errored)
      case Some(v) => Drain(parse, b) == Prepend([v], Drain(parse, t[|TextFrame(eol, body)|..]))
  {
    var t := TrimStart(b);
    var n := |TextFrame(eol, body)|;
    MatchTextComplete(t, eol, body);
    assert b != "";
    var p := Recognise(t);
    assert p == TextPass("{" + body + "}", n);
    ReplaceFirstPrefix(t, t[..n]);
    DrainTrim(parse, t[n..]);
  }

  /** A done frame at the start of a buffer is a done pass, never a text pass. */
  lemma RecogniseDone(t: string, eol: string)
    requires DoneFrameAt(t, eol)
    ensures Recognise(t) == DonePass(|DoneFrame(eol)|)
  {
    MatchDoneComplete(t, eol);
    assert t[..11] == DoneHead;
    assert !StartsWith(t, TextHead) by {
      assert t[7] == 'd' && TextHead[7] == 't';
    }
  }

  /** A done frame at the start of the trimmed buffer terminates the stream:
      nothing is enqueued, whatever follows the frame. */
  lemma {:induction false} DoneFrameStep(parse: string -> Option<Json>, b: string, eol: string)
    requires DoneFrameAt(TrimStart(b), eol)
    ensures Drain(parse, b) == Drained([], TrimStart(TrimStart(b)[|DoneFrame(eol)|..]), Terminated)
  {
    var t := TrimStart(b);
    var n := |DoneFrame(eol)|;
    RecogniseDone(t, eol);
    assert b != "";
    assert Drain(parse, b) == DrainTrimmed(parse, t);
    ReplaceFirstPrefix(t, t[..n]);
    assert Advance(t, DonePass(n)) == TrimStart(t[n..]);
  }

  /** A buffer that does not start with `e` starts with neither frame head. */
  lemma NoFrameHead(t: string)
    requires t != "" && t[0] != 'e'
    ensures !StartsWith(t, TextHead) && !StartsWith(t, DoneHead)
  {
  }

  /** A ping pass on a buffer that starts with `ping` removes that `ping`,
      whichever line made it a ping pass. */
  lemma PingPassAdvance(t: string)
    requires StartsWith(t, "ping") && Recognise(t) == PingPass
    ensures Advance(t, PingPass) == TrimStart(t[4..])
  {
    ReplaceFirstPrefix(t, "ping");
  }

  /** A buffer that starts with a whole `ping` line is a ping pass, and the
      pass removes that `ping`. */
  lemma RecognisePingLine(t: string)
    requires StartsWith(t, "ping") && (|t| == 4 || IsLineTerminator(t[4]))
    ensures Recognise(t) == PingPass
    ensures Advance(t, PingPass) == TrimStart(t[4..])
  {
    assert t[0] == 'p';
    NoFrameHead(t);
    assert PingLineAt(t, 0);
    PingPassAdvance(t);
  }

  /** A `ping` line at the start of the trimmed buffer is removed and nothing is enqueued. */
  lemma {:induction false} PingLineStep(parse: string -> Option<Json>, b: string)
    requires StartsWith(TrimStart(b), "ping")
    requires |TrimStart(b)| == 4 || IsLineTerminator(TrimStart(b)[4])
    ensures Drain(parse, b) == Drain(parse, TrimStart(b)[4..])
  {
    var t := TrimStart(b);
    RecognisePingLine(t);
    assert b != "";
    assert Drain(parse, b) == DrainTrimmed(parse, t);
    assert DrainTrimmed(parse, t) == Drain(parse, Advance(t, PingPass));
    DrainTrim(parse, t[4..]);
  }

  /** The `: ping` comment holds no `ping` line: the `p` follows a space. */
  lemma NoPingLineInComment(t: string)
    requires StartsWith(t, ": ping") && AllWhitespace(t[6..])
    ensures !HasPingLine(t)
  {
    forall i | 0 <= i <= |t| - 4 ensures !PingLineAt(t, i) {
      if i >= 6 {
        assert t[6..][i - 6] == t[i];
      } else {
        assert t[..6][i] == t[i];
      }
    }
  }

  /** A trimmed buffer whose trim is `: ping` is a comment pass, and the
      pass leaves only whitespace. */
  lemma RecognisePingComment(t: string)
    requires TrimStart(t) == t && Trim(t) == ": ping"
    ensures Recognise(t) == PingCommentPass
    ensures Advance(t, PingCommentPass) == TrimStart(t[6..])
    ensures AllWhitespace(t[6..])
  {
    TrimEndSpec(t);
    assert t[..6] == ": ping";
    assert t[0] == ':';
    NoFrameHead(t);
    NoPingLineInComment(t);
    ReplaceFirstPrefix(t, ": ping");
  }

  /** A buffer whose trim is exactly `: ping` is consumed whole without enqueuing anything. */
  lemma {:induction false} PingCommentStep(parse: string -> Option<Json>, b: string)
    requires Trim(b) == ": ping"
    ensures Drain(parse, b) == Drained([], "", Open)
  {
    var t := TrimStart(b);
    TrimStartIdempotent(b);
    RecognisePingComment(t);
    assert b != "";
    assert Drain(parse, b) == DrainTrimmed(parse, t);
    DrainWhitespace(parse, t[6..]);
    DrainTrim(parse, t[6..]);
  }

  /** Whitespace at the front of the buffer makes no difference to the loop. */
  lemma DrainSkips(parse: string -> Option<Json>, w: string, u: string)
    requires AllWhitespace(w)
    ensures Drain(parse, w + u) == Drain(parse, u)
  {
    TrimStartSkips(w, u);
    DrainTrim(parse, w + u);
    DrainTrim(parse, u);
  }

  /** A buffer whose trimmed form no recogniser accepts is left trimmed, with nothing enqueued. */
  lemma StalledDrain(parse: string -> Option<Json>, b: string)
    requires b != "" && Recognise(TrimStart(b)) == NoPass
    ensures Drain(parse, b) == Drained([], TrimStart(b), Open)
  {
    assert Drain(parse, b) == DrainTrimmed(parse, TrimStart(b));
  }

  /** A ping pass on a trimmed buffer removes the first `ping` of the
      buffer, wherever the `ping` line that made it a ping pass is, and the
      loop goes on with what is left. */
  lemma PingPassDrain(parse: string -> Option<Json>, t: string, i: int)
    requires TrimStart(t) == t && Recognise(t) == PingPass
    requires OccursAt(t, "ping", i) && forall j :: 0 <= j < i ==> !OccursAt(t, "ping", j)
    ensures Drain(parse, t) == Drain(parse, t[..i] + t[i + 4..])
  {
    assert Drain(parse, t) == DrainTrimmed(parse, t);
    ReplaceFirstAt(t, "ping", i);
    assert Advance(t, PingPass) == TrimStart(t[..i] + t[i + 4..]);
    DrainTrim(parse, t[..i] + t[i + 4..]);
  }

  /** A buffer not starting with `e` that has a `ping` line anywhere is a ping pass. */
  lemma PingLineAnywhere(t: string, i: nat)
    requires t != "" && t[0] != 'e' && i <= |t| - 4 && PingLineAt(t, i)
    ensures Recognise(t) == PingPass
  {
    NoFrameHead(t);
  }

  /** `pingx\nping` is a ping pass because of its second line. */
  lemma PingOnSecondLine(t: string)
    requires t == "pingx\nping"
    ensures Recognise(t) == PingPass
  {
    assert t[6..10] == "ping" && t[5] == '\n' && |t| == 10;
    PingLineAnywhere(t, 6);
  }

  /** The `ping` test and the `ping` removal look at different places:
      `/^ping$/m` accepts `pingx\nping` because of its second line, and
      `replace` then removes the `ping` at the front of `pingx`, leaving the
      `ping` line in the buffer. */
  lemma PingRemovesFirstOccurrence(t: string)
    requires t == "pingx\nping"
    ensures Recognise(t) == PingPass
    ensures Advance(t, PingPass) == "x\nping"
  {
    PingOnSecondLine(t);
    assert t == "ping" + "x\nping";
    PingFrontRemoved("x\nping");
  }

  /** A ping pass on `ping` followed by a non-blank rest leaves that rest. */
  lemma PingFrontRemoved(u: string)
    requires u != [] && !IsWhitespace(u[0]) && Recognise("ping" + u) == PingPass
    ensures Advance("ping" + u, PingPass) == u
  {
    ConcatParts("ping", u);
    PingPassAdvance("ping" + u);
    TrimStartOf([], u);
    assert [] + u == u;
  }
}
