/** The response side of `handleQuery` (src/poe.ts): the sequence of
    server-sent events written for one query. A `meta` event comes first,
    then one event per partial response the bot yields, and a single `done`
    event ends the stream. The bytes on the wire are written by the HTTP
    framework and are not part of this model. */
module QueryHandler {
  import opened JsonValue

  /** `PartialResponse` (src/types.ts): an optional field is `None` when absent. */
  datatype PartialResponse = PartialResponse(
    text: string,
    data: Option<seq<(string, Json)>>,
    isSuggestedReply: Option<bool>,
    isReplaceResponse: Option<bool>)

  /** The value handed to `JSON.stringify` for the `data` of an event. */
  datatype Payload =
    | ContentType(contentType: string)
    | Response(response: PartialResponse)
    | EmptyObject

  /** One `stream.writeSSE({ event, data })` call. */
  datatype SseWrite = SseWrite(event: string, data: Payload)

  /** `it.is_replace_response` is truthy. */
  predicate IsReplace(it: PartialResponse) {
    it.isReplaceResponse == Some(true)
  }

  /** The events `handleQuery` writes, in order, for the partial responses
      `responses` that `options.getResponse(query)` yields. */
  method HandleQuery(responses: seq<PartialResponse>) returns (writes: seq<SseWrite>)
    ensures |writes| == |responses| + 2
    ensures writes[0] == SseWrite("meta", ContentType("text/markdown"))
    ensures writes[|writes| - 1] == SseWrite("done", EmptyObject)
    ensures forall i :: 0 <= i < |responses| ==>
      writes[i + 1].data == Response(responses[i])
      && writes[i + 1].event == (if IsReplace(responses[i]) then "replace_response" else "text")
    ensures forall i :: 0 <= i < |writes| ==>
      (writes[i].event == "meta" <==> i == 0) && (writes[i].event == "done" <==> i == |writes| - 1)
  {
    writes := [SseWrite("meta", ContentType("text/markdown"))];
    var k := 0;
    while k < |responses|
      invariant 0 <= k <= |responses|
      invariant |writes| == k + 1
      invariant writes[0] == SseWrite("meta", ContentType("text/markdown"))
      invariant forall i :: 0 <= i < k ==>
        writes[i + 1].data == Response(responses[i])
        && writes[i + 1].event == (if IsReplace(responses[i]) then "replace_response" else "text")
    {
      var it := responses[k];
      if IsReplace(it) {
        writes := writes + [SseWrite("replace_response", Response(it))];
      } else {
        writes := writes + [SseWrite("text", Response(it))];
      }
      k := k + 1;
    }
    writes := writes + [SseWrite("done", EmptyObject)];
    forall i | 0 <= i < |writes|
      ensures (writes[i].event == "meta" <==> i == 0) && (writes[i].event == "done" <==> i == |writes| - 1)
    {
      if 0 < i < |writes| - 1 {
        assert writes[i].event == (if IsReplace(responses[i - 1]) then "replace_response" else "text");
      }
    }
  }
}
