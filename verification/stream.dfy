/**
 * The event-stream client of `dmAPI.createMessageStream` (src/lib/api.ts):
 * text arrives in chunks, is cut into '\n'-terminated lines, and every
 * complete line that starts with "data: " is decoded and handed to the
 * payload callback. The unterminated rest is carried over in `buffer`.
 *
 * This is a narrowed form of the `text/event-stream` format of the WHATWG
 * HTML Living Standard, section 9.2: only '\n' ends a line, the field must
 * be exactly "data: " (with the space), and each data line is dispatched on
 * its own instead of on a blank line.
 */
module Stream {
  import opened Types
  import opened Strings

  /** The field marker a line must start with to carry a payload. */
  const DataPrefix: string := "data: "

  /** The name of the error an aborted fetch or read rejects with. */
  const AbortError: string := "AbortError"

  /** The payload of one line: the line minus its marker, if it has one. */
  function LinePayload(line: string): (r: seq<string>)
    ensures |r| <= 1
    ensures r != [] <==> StartsWith(line, DataPrefix)
    ensures r != [] ==> line == DataPrefix + r[0]
  {
    if StartsWith(line, DataPrefix) then [line[|DataPrefix|..]] else []
  }

  /** The payloads of the data lines among `lines`, in line order. */
  function DataPayloads(lines: seq<string>): (r: seq<string>)
    ensures |r| <= |lines|
  {
    if lines == [] then [] else DataPayloads(Init(lines)) + LinePayload(Last(lines))
  }

  /** Every payload is the rest of one of the lines after the marker. */
  lemma {:induction false} DataPayloadsFromLines(lines: seq<string>)
    ensures forall k :: 0 <= k < |DataPayloads(lines)| ==> DataPrefix + DataPayloads(lines)[k] in lines
    decreases |lines|
  {
    if lines != [] {
      var init := Init(lines);
      DataPayloadsFromLines(init);
      assert forall x :: x in init ==> x in lines;
      assert Last(lines) in lines;
    }
  }

  /**
   * The payloads that `JSON.parse` (the parameter `parse`) accepts, in
   * order; a payload it rejects is skipped.
   */
  function Decoded(payloads: seq<string>, parse: string -> Option<StreamEvent>): (r: seq<StreamEvent>)
    ensures |r| <= |payloads|
    ensures (forall k :: 0 <= k < |payloads| ==> parse(payloads[k]).Some?) ==> |r| == |payloads|
  {
    if payloads == [] then []
    else
      Decoded(Init(payloads), parse)
        + match parse(Last(payloads)) case Some(e) => [e] case None => []
  }

  /** Every delivered event is what `parse` gave for one of the payloads. */
  lemma {:induction false} DecodedFromPayloads(payloads: seq<string>, parse: string -> Option<StreamEvent>)
    ensures forall k :: 0 <= k < |Decoded(payloads, parse)| ==>
      exists j :: 0 <= j < |payloads| && parse(payloads[j]) == Some(Decoded(payloads, parse)[k])
    decreases |payloads|
  {
    if payloads == [] {
      assert |Decoded(payloads, parse)| == 0;
    } else {
      var init := Init(payloads);
      DecodedFromPayloads(init, parse);
      var d, r := Decoded(init, parse), Decoded(payloads, parse);
      var n := |payloads| - 1;
      assert r == d + match parse(payloads[n]) case Some(e) => [e] case None => [];
      forall k | 0 <= k < |r|
        ensures exists j :: 0 <= j < |payloads| && parse(payloads[j]) == Some(r[k])
      {
        if k < |d| {
          var j :| 0 <= j < |init| && parse(init[j]) == Some(d[k]);
          assert init[j] == payloads[j] && r[k] == d[k];
        } else {
          assert parse(payloads[n]) == Some(r[k]);
        }
      }
    }
  }

  lemma {:induction false} DataPayloadsAppend(a: seq<string>, b: seq<string>)
    ensures DataPayloads(a + b) == DataPayloads(a) + DataPayloads(b)
    decreases |b|
  {
    if b == [] {
      assert a + b == a;
    } else {
      assert Init(a + b) == a + Init(b);
      assert Last(a + b) == Last(b);
      DataPayloadsAppend(a, Init(b));
    }
  }

  lemma {:induction false} DecodedAppend(a: seq<string>, b: seq<string>, parse: string -> Option<StreamEvent>)
    ensures Decoded(a + b, parse) == Decoded(a, parse) + Decoded(b, parse)
    decreases |b|
  {
    if b == [] {
      assert a + b == a;
    } else {
      assert Init(a + b) == a + Init(b);
      assert Last(a + b) == Last(b);
      DecodedAppend(a, Init(b), parse);
    }
  }

  /** A text without '\n' is a single piece. */
  lemma SplitNoNewline(s: string)
    requires '\n' !in s
    ensures SplitLines(s) == [s]
  {
    SplitJoinLines([s]);
  }

  /** The complete lines of a text, and the unterminated text after them. */
  function CompleteLines(s: string): (r: seq<string>)
    ensures forall i :: 0 <= i < |r| ==> '\n' !in r[i]
  {
    Init(SplitLines(s))
  }

  function Unterminated(s: string): (r: string)
    ensures '\n' !in r
    ensures s == Terminated(CompleteLines(s)) + r
  {
    SplitTerminated(s);
    Last(SplitLines(s))
  }

  /**
   * What a reader that started with buffer `buffer` has delivered, and
   * holds, after receiving `chunks` one by one as the read loop does: the
   * payloads so far and the carried text.
   */
  function FeedAll(buffer: string, chunks: seq<string>): (r: (seq<string>, string))
    ensures chunks != [] ==> '\n' !in r.1
  {
    if chunks == [] then ([], buffer)
    else
      var before := FeedAll(buffer, Init(chunks));
      var text := before.1 + Last(chunks);
      (before.0 + DataPayloads(CompleteLines(text)), Unterminated(text))
  }

  /** A delivered payload never spans lines: it holds no '\n'. */
  lemma {:induction false} FeedAllPayloadsOneLine(buffer: string, chunks: seq<string>)
    ensures forall k :: 0 <= k < |FeedAll(buffer, chunks).0| ==> '\n' !in FeedAll(buffer, chunks).0[k]
    decreases |chunks|
  {
    if chunks != [] {
      FeedAllPayloadsOneLine(buffer, Init(chunks));
      var before := FeedAll(buffer, Init(chunks));
      var lines := CompleteLines(before.1 + Last(chunks));
      var now := DataPayloads(lines);
      DataPayloadsFromLines(lines);
      forall k | 0 <= k < |now| ensures '\n' !in now[k] {
        var line := DataPrefix + now[k];
        assert line in lines;
        assert forall c :: c in now[k] ==> c in line;
      }
    }
  }

  /** All the chunks' text, in order. */
  function Concat(chunks: seq<string>): string {
    if chunks == [] then "" else Concat(Init(chunks)) + Last(chunks)
  }

  /**
   * Receiving more text keeps the complete lines already there and only
   * splits the unterminated rest again together with the new text.
   */
  lemma CompleteLinesAppend(s: string, t: string)
    ensures CompleteLines(s + t) == CompleteLines(s) + CompleteLines(Unterminated(s) + t)
    ensures Unterminated(s + t) == Unterminated(Unterminated(s) + t)
  {
    SplitAppend(s, t);
    var later := SplitLines(Unterminated(s) + t);
    assert Init(CompleteLines(s) + later) == CompleteLines(s) + Init(later);
  }

  /**
   * Feeding chunks one by one delivers the payloads of the complete lines
   * of the buffer followed by all the chunks, and leaves exactly their
   * unterminated text in the buffer.
   */
  lemma {:induction false} FeedAllFramesWholeText(buffer: string, chunks: seq<string>)
    requires '\n' !in buffer
    ensures FeedAll(buffer, chunks)
      == (DataPayloads(CompleteLines(buffer + Concat(chunks))), Unterminated(buffer + Concat(chunks)))
    decreases |chunks|
  {
    if chunks == [] {
      SplitNoNewline(buffer);
      assert buffer + Concat(chunks) == buffer;
    } else {
      var s := buffer + Concat(Init(chunks));
      var c := Last(chunks);
      FeedAllFramesWholeText(buffer, Init(chunks));
      assert buffer + Concat(chunks) == s + c;
      CompleteLinesAppend(s, c);
      DataPayloadsAppend(CompleteLines(s), CompleteLines(Unterminated(s) + c));
    }
  }

  /** Splitting the same text into chunks differently delivers the same payloads. */
  lemma ChunkingIsIrrelevant(chunks1: seq<string>, chunks2: seq<string>)
    requires Concat(chunks1) == Concat(chunks2)
    ensures FeedAll("", chunks1) == FeedAll("", chunks2)
  {
    FeedAllFramesWholeText("", chunks1);
    FeedAllFramesWholeText("", chunks2);
  }

  /**
   * Text after the last newline is never delivered: appending text that
   * holds no newline adds no complete line.
   */
  lemma UnterminatedTextNotDelivered(s: string, tail: string)
    requires '\n' !in tail
    ensures DataPayloads(CompleteLines(s + tail)) == DataPayloads(CompleteLines(s))
    ensures Unterminated(s + tail) == Unterminated(s) + tail
  {
    SplitAppend(s, tail);
    var last := Unterminated(s);
    assert '\n' !in last + tail by {
      assert '\n' !in last;
      assert forall k :: 0 <= k < |last + tail| ==> (last + tail)[k] in last || (last + tail)[k] in tail;
    }
    SplitNoNewline(last + tail);
    assert SplitLines(s + tail) == CompleteLines(s) + [last + tail];
  }

  /** Each payload written as one terminated data line. */
  function EncodeEvents(payloads: seq<string>): string {
    if payloads == [] then "" else DataPrefix + payloads[0] + "\n" + EncodeEvents(payloads[1..])
  }

  /** A newline-free line followed by its newline splits into the line and nothing. */
  lemma TerminatedLineSplits(line: string)
    requires '\n' !in line
    ensures SplitLines(line + "\n") == [line, ""]
  {
    assert [line, ""][1..] == [""];
    assert JoinLines([line, ""]) == line + "\n" + "";
    SplitJoinLines([line, ""]);
    assert line + "\n" + "" == line + "\n";
  }

  /** A data line carries the text after its marker. */
  lemma DataLinePayload(p: string)
    ensures LinePayload(DataPrefix + p) == [p]
    ensures DataPayloads([DataPrefix + p]) == [p]
  {
    var line := DataPrefix + p;
    assert line[..|DataPrefix|] == DataPrefix;
    assert line[|DataPrefix|..] == p;
    assert Init([line]) == [];
  }

  /** Concatenating newline-free texts gives a newline-free text. */
  lemma NoNewlineConcat(a: string, b: string)
    requires '\n' !in a && '\n' !in b
    ensures '\n' !in a + b
  {
    assert forall k :: 0 <= k < |a + b| ==> (a + b)[k] in a || (a + b)[k] in b;
  }

  /**
   * Round trip: framing the encoding of newline-free payloads gives back
   * exactly those payloads and leaves nothing in the buffer.
   */
  lemma {:induction false} FrameEncoded(payloads: seq<string>)
    requires forall i :: 0 <= i < |payloads| ==> '\n' !in payloads[i]
    ensures DataPayloads(CompleteLines(EncodeEvents(payloads))) == payloads
    ensures Unterminated(EncodeEvents(payloads)) == ""
    decreases |payloads|
  {
    if payloads == [] {
    } else {
      var line := DataPrefix + payloads[0];
      var rest := EncodeEvents(payloads[1..]);
      assert CompleteLines(line + "\n") == [line] && Unterminated(line + "\n") == "" by {
        NoNewlineConcat(DataPrefix, payloads[0]);
        TerminatedLineSplits(line);
      }
      assert CompleteLines(EncodeEvents(payloads)) == [line] + CompleteLines(rest)
        && Unterminated(EncodeEvents(payloads)) == Unterminated(rest) by {
        assert EncodeEvents(payloads) == (line + "\n") + rest;
        CompleteLinesAppend(line + "\n", rest);
        assert "" + rest == rest;
      }
      FrameEncoded(payloads[1..]);
      assert DataPayloads([line] + CompleteLines(rest)) == [payloads[0]] + payloads[1..] by {
        DataPayloadsAppend([line], CompleteLines(rest));
        DataLinePayload(payloads[0]);
      }
    }
  }

  /** A line that does not start with the marker contributes nothing. */
  lemma {:induction false} NonDataLinesIgnored(lines: seq<string>)
    requires forall i :: 0 <= i < |lines| ==> !StartsWith(lines[i], DataPrefix)
    ensures DataPayloads(lines) == []
    decreases |lines|
  {
    if lines != [] {
      NonDataLinesIgnored(Init(lines));
    }
  }

  /** The outcome of the initial `fetch`. */
  datatype FetchResult =
    | FetchRejected(errorName: string)
    | Responded(ok: bool, hasBody: bool)

  /** The outcome of one `streamReader.read()`. */
  datatype ReadResult =
    | Chunk(text: string)
    | Done
    | ReadRejected(errorName: string)

  /** Where the connection's read loop stands. */
  datatype Phase = Connecting | Reading | Ended | Errored | Aborted

  /**
   * The loop over the complete lines of one chunk: every line that starts
   * with the marker yields its payload, and the payloads that parse are
   * delivered in order.
   */
  method DeliverLines(complete: seq<string>, parse: string -> Option<StreamEvent>)
    returns (payloads: seq<string>, events: seq<StreamEvent>)
    ensures payloads == DataPayloads(complete)
    ensures events == Decoded(payloads, parse)
  {
    payloads := [];
    events := [];
    for i := 0 to |complete|
      invariant payloads == DataPayloads(complete[..i])
      invariant events == Decoded(payloads, parse)
    {
      var line := complete[i];
      assert Init(complete[..i + 1]) == complete[..i];
      if StartsWith(line, DataPrefix) {
        var payload := line[|DataPrefix|..];
        assert Init(payloads + [payload]) == payloads;
        payloads := payloads + [payload];
        match parse(payload) {
          case Some(event) =>
            events := events + [event];
          case None =>
        }
      }
    }
    assert complete[..|complete|] == complete;
  }

  /**
   * One stream connection. `delivered` is everything handed to the payload
   * callback so far and `errorCalls` the number of error-callback calls.
   */
  class EventStream {
    const parse: string -> Option<StreamEvent>
    var buffer: string
    var phase: Phase
    var aborted: bool
    var delivered: seq<StreamEvent>
    var errorCalls: nat

    /** The carried text is never a complete line; the error callback runs at most once. */
    ghost predicate Valid()
      reads this
    {
      && '\n' !in buffer
      && errorCalls == (if phase == Errored then 1 else 0)
    }

    constructor (parse: string -> Option<StreamEvent>)
      ensures Valid()
      ensures this.parse == parse && buffer == "" && phase == Connecting && !aborted
      ensures delivered == [] && errorCalls == 0
    {
      this.parse := parse;
      buffer := "";
      phase := Connecting;
      aborted := false;
      delivered := [];
      errorCalls := 0;
    }

    /** `close()`: abort the request; whatever is awaited then rejects with an AbortError. */
    method Close()
      modifies this
      ensures aborted
      ensures buffer == old(buffer) && phase == old(phase) && delivered == old(delivered)
      ensures errorCalls == old(errorCalls)
    {
      aborted := true;
    }

    /** The awaited `fetch` settles. */
    method Open(response: FetchResult)
      requires Valid() && phase == Connecting
      modifies this
      ensures Valid()
      ensures buffer == old(buffer) && delivered == old(delivered) && aborted == old(aborted)
      ensures phase == (
        if aborted then Aborted
        else match response
          case FetchRejected(name) => if name == AbortError then Aborted else Errored
          case Responded(ok, hasBody) => if ok && hasBody then Reading else Errored)
    {
      if aborted {
        phase := Aborted;
      } else {
        match response
        case FetchRejected(name) =>
          Fail(name);
        case Responded(ok, hasBody) =>
          if !ok || !hasBody {
            Fail("Error");
          } else {
            phase := Reading;
          }
      }
    }

    /** The catch block: anything but an abort is reported, once. */
    method Fail(name: string)
      requires Valid() && phase in {Connecting, Reading}
      modifies this
      ensures Valid()
      ensures buffer == old(buffer) && delivered == old(delivered) && aborted == old(aborted)
      ensures phase == if name == AbortError then Aborted else Errored
      ensures errorCalls == if name == AbortError then 0 else 1
    {
      if name != AbortError {
        errorCalls := errorCalls + 1;
        phase := Errored;
      } else {
        phase := Aborted;
      }
    }

    /**
     * Append a decoded chunk to the buffer, split it on '\n', keep the last
     * piece, and deliver every complete data line that parses.
     */
    method Feed(chunk: string) returns (payloads: seq<string>)
      requires Valid()
      modifies this
      ensures Valid()
      ensures old(buffer) + chunk == Terminated(CompleteLines(old(buffer) + chunk)) + buffer
      ensures payloads == DataPayloads(CompleteLines(old(buffer) + chunk))
      ensures buffer == Unterminated(old(buffer) + chunk)
      ensures delivered == old(delivered) + Decoded(payloads, parse)
      ensures phase == old(phase) && aborted == old(aborted) && errorCalls == old(errorCalls)
    {
      var text := buffer + chunk;
      var lines := SplitLines(text);
      var complete := Init(lines);
      var events;
      payloads, events := DeliverLines(complete, parse);
      SplitTerminated(text);
      buffer := Last(lines);
      delivered := delivered + events;
    }

    /** One turn of the read loop: the awaited `read()` settles. */
    method OnRead(r: ReadResult) returns (payloads: seq<string>)
      requires Valid() && phase == Reading
      modifies this
      ensures Valid()
      ensures aborted == old(aborted)
      ensures phase == if old(aborted) then Aborted else AfterRead(r)
      ensures !old(aborted) && r.Chunk? ==>
        && payloads == DataPayloads(CompleteLines(old(buffer) + r.text))
        && buffer == Unterminated(old(buffer) + r.text)
      ensures old(aborted) || !r.Chunk? ==> payloads == [] && buffer == old(buffer)
      ensures delivered == old(delivered) + Decoded(payloads, parse)
    {
      payloads := [];
      if aborted {
        phase := Aborted;
      } else {
        match r
        case Chunk(text) =>
          payloads := Feed(text);
        case Done =>
          phase := Ended;
        case ReadRejected(name) =>
          Fail(name);
      }
    }

    /**
     * The `while (true)` read loop over the reads that have settled so
     * far; it stops at the end of the stream or at a rejected read. What
     * it delivers is the framing of the leading chunks.
     */
    method Run(results: seq<ReadResult>)
      requires Valid() && phase == Reading && !aborted
      modifies this
      ensures Valid() && !aborted
      ensures phase == StopPhase(results)
      ensures delivered == old(delivered) + Decoded(FeedAll(old(buffer), LeadingChunks(results)).0, parse)
      ensures buffer == FeedAll(old(buffer), LeadingChunks(results)).1
    {
      ghost var start, initial := delivered, buffer;
      ghost var fed: seq<string> := [];
      var i := 0;
      while i < |results| && phase == Reading
        invariant Valid() && !aborted
        invariant 0 <= i <= |results|
        invariant phase == Reading ==> StopPhase(results[i..]) == StopPhase(results)
        invariant phase == Reading ==> LeadingChunks(results) == fed + LeadingChunks(results[i..])
        invariant phase != Reading ==> phase == StopPhase(results) && LeadingChunks(results) == fed
        invariant delivered == start + Decoded(FeedAll(initial, fed).0, parse)
        invariant buffer == FeedAll(initial, fed).1
      {
        var r := results[i];
        var payloads := OnRead(r);
        if r.Chunk? {
          ReadChunkStep(results, i, fed);
          FeedOneMore(initial, fed, r.text, start, parse);
          fed := fed + [r.text];
        } else {
          ReadStopStep(results, i, fed);
        }
        i := i + 1;
      }
      if phase == Reading {
        assert fed + LeadingChunks(results[i..]) == fed;
      }
    }
  }

  /** A chunk read extends the chunks fed so far by its text. */
  lemma ReadChunkStep(results: seq<ReadResult>, i: nat, fed: seq<string>)
    requires i < |results| && results[i].Chunk?
    requires LeadingChunks(results) == fed + LeadingChunks(results[i..])
    requires StopPhase(results[i..]) == StopPhase(results)
    ensures LeadingChunks(results) == (fed + [results[i].text]) + LeadingChunks(results[i + 1..])
    ensures StopPhase(results[i + 1..]) == StopPhase(results)
  {
    var rest, later := results[i..], results[i + 1..];
    var text := results[i].text;
    assert rest[0] == results[i] && rest[1..] == later;
    assert LeadingChunks(rest) == [text] + LeadingChunks(later);
    assert fed + ([text] + LeadingChunks(later)) == (fed + [text]) + LeadingChunks(later);
  }

  /**
   * What the reader holds and has delivered after one more chunk, in terms
   * of what it held and had delivered before it.
   */
  lemma FeedOneMore(
    initial: string, fed: seq<string>, chunk: string, start: seq<StreamEvent>,
    parse: string -> Option<StreamEvent>)
    ensures
      var before := FeedAll(initial, fed);
      var now := DataPayloads(CompleteLines(before.1 + chunk));
      && FeedAll(initial, fed + [chunk]).1 == Unterminated(before.1 + chunk)
      && start + Decoded(FeedAll(initial, fed + [chunk]).0, parse)
        == start + Decoded(before.0, parse) + Decoded(now, parse)
  {
    var before := FeedAll(initial, fed);
    var now := DataPayloads(CompleteLines(before.1 + chunk));
    FeedAllSnoc(initial, fed, chunk);
    DecodedAppend(before.0, now, parse);
    var d0, d1 := Decoded(before.0, parse), Decoded(now, parse);
    assert start + (d0 + d1) == start + d0 + d1;
  }

  /** Feeding one more chunk frames the carried text followed by that chunk. */
  lemma FeedAllSnoc(initial: string, fed: seq<string>, chunk: string)
    ensures
      var before := FeedAll(initial, fed);
      FeedAll(initial, fed + [chunk])
        == (before.0 + DataPayloads(CompleteLines(before.1 + chunk)), Unterminated(before.1 + chunk))
  {
    assert Init(fed + [chunk]) == fed && Last(fed + [chunk]) == chunk;
  }

  /** Any other read ends the loop: no further chunk is fed. */
  lemma ReadStopStep(results: seq<ReadResult>, i: nat, fed: seq<string>)
    requires i < |results| && !results[i].Chunk?
    requires LeadingChunks(results) == fed + LeadingChunks(results[i..])
    requires StopPhase(results[i..]) == StopPhase(results)
    ensures LeadingChunks(results) == fed
    ensures AfterRead(results[i]) == StopPhase(results)
  {
    assert results[i..][0] == results[i];
    assert fed + [] == fed;
  }

  /** The phase the loop is in after one read settles. */
  function AfterRead(r: ReadResult): Phase {
    match r
    case Chunk(_) => Reading
    case Done => Ended
    case ReadRejected(name) => if name == AbortError then Aborted else Errored
  }

  /** The texts of the leading chunk reads, up to the first other read. */
  function LeadingChunks(results: seq<ReadResult>): seq<string> {
    if results == [] || !results[0].Chunk? then [] else [results[0].text] + LeadingChunks(results[1..])
  }

  /** Where the read loop stands after the settled reads. */
  function StopPhase(results: seq<ReadResult>): Phase {
    if results == [] then Reading
    else if results[0].Chunk? then StopPhase(results[1..])
    else AfterRead(results[0])
  }
}
