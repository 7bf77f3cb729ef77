/** The decoding rules of the streaming completion reader in
    `sendOpenAIRequest` (build/background.js): each decoded text chunk is
    split on newlines by itself, blank lines are dropped, only `data: `
    lines count, `[DONE]` ends the stream, and every other payload yields at
    most one non-empty content fragment. This module states those rules as
    functions; the loop that applies them is `Dispatcher.SendOpenAIRequest`. */
module StreamDecoder {
  import opened Wrappers
  import opened Text

  const DATA_PREFIX: string := "data: "
  const DONE_SENTINEL: string := "[DONE]"

  /** `JSON.parse(payload).choices[0].delta.content`, with `None` for a
      payload that does not parse or has no content. */
  type Extractor = string -> Option<string>

  /** What one non-blank line contributes. */
  datatype LineAction = Skip | Stop | Emit(content: string)

  /** A fragment is emitted only for a truthy `content`. */
  function Classify(line: string, extract: Extractor): (a: LineAction)
    ensures a == Stop <==> line == DATA_PREFIX + DONE_SENTINEL
    ensures !StartsWith(line, DATA_PREFIX) ==> a == Skip
    ensures a.Emit? ==> a.content != "" && Some(a.content) == extract(line[|DATA_PREFIX|..])
    ensures StartsWith(line, DATA_PREFIX) && line != DATA_PREFIX + DONE_SENTINEL ==>
              var parsed := extract(line[|DATA_PREFIX|..]);
              a == if Truthy(parsed) then Emit(parsed.value) else Skip
  {
    if !StartsWith(line, DATA_PREFIX) then Skip
    else
      assert line == DATA_PREFIX + line[|DATA_PREFIX|..];
      var data := line[|DATA_PREFIX|..];
      if data == DONE_SENTINEL then Stop
      else match extract(data)
        case Some(content) => if content != "" then Emit(content) else Skip
        case None => Skip
  }

  /** `chunk.split('\n').filter((line) => line.trim() !== '')` */
  function Lines(chunk: string): (lines: seq<string>)
    ensures forall i :: 0 <= i < |lines| ==> !IsBlank(lines[i]) && '\n' !in lines[i]
    ensures forall x :: x in lines <==> x in Split(chunk, '\n') && !IsBlank(x)
  {
    KeepNonBlank(Split(chunk, '\n'))
  }

  /** A first line without a newline is the first line of the chunk, if
      it is not blank; the other lines follow in order. */
  lemma LinesCons(line: string, rest: string)
    requires '\n' !in line
    ensures Lines(line + "\n" + rest) == (if IsBlank(line) then [] else [line]) + Lines(rest)
  {
    SplitAfterPiece(line, '\n', rest);
    KeepNonBlankAppend([line], Split(rest, '\n'));
  }

  /** Non-blank lines joined by newlines are read back exactly, in order
      and with repetitions. */
  lemma LinesOfJoin(lines: seq<string>)
    requires |lines| >= 1
    requires forall i :: 0 <= i < |lines| ==> '\n' !in lines[i] && !IsBlank(lines[i])
    ensures Lines(Join(lines, '\n')) == lines
  {
    SplitJoin(lines, '\n');
    KeepNonBlankAll(lines);
  }

  /** The fragments passed to `onProgress(content, false)` so far, and
      whether `[DONE]` has been seen. */
  datatype Decoded = Decoded(fragments: seq<string>, stopped: bool)

  /** Decoding a list of lines in order; once stopped, nothing changes. */
  function DecodeLines(lines: seq<string>, extract: Extractor): (d: Decoded)
    ensures forall i :: 0 <= i < |d.fragments| ==> d.fragments[i] != ""
    decreases |lines|
  {
    if |lines| == 0 then Decoded([], false)
    else
      var before := DecodeLines(lines[..|lines| - 1], extract);
      if before.stopped then before
      else match Classify(lines[|lines| - 1], extract)
        case Skip => before
        case Stop => Decoded(before.fragments, true)
        case Emit(content) => Decoded(before.fragments + [content], false)
  }

  /** Decoding chunk after chunk, each split into lines on its own: no part
      of a line is carried from one chunk to the next. */
  function DecodeChunks(chunks: seq<string>, extract: Extractor): (d: Decoded)
    ensures forall i :: 0 <= i < |d.fragments| ==> d.fragments[i] != ""
    decreases |chunks|
  {
    if |chunks| == 0 then Decoded([], false)
    else
      var before := DecodeChunks(chunks[..|chunks| - 1], extract);
      if before.stopped then before
      else
        var last := DecodeLines(Lines(chunks[|chunks| - 1]), extract);
        Decoded(before.fragments + last.fragments, last.stopped)
  }

  // ---------------------------------------------------------------------
  // A reference description of the decoder: the emitted fragments are the
  // contents of every line up to the first `[DONE]` line.

  /** Every line that has content, in order, ignoring `[DONE]`. */
  function Emitted(lines: seq<string>, extract: Extractor): seq<string>
    decreases |lines|
  {
    if |lines| == 0 then []
    else
      Emitted(lines[..|lines| - 1], extract) +
      match Classify(lines[|lines| - 1], extract)
        case Emit(content) => [content]
        case _ => []
  }

  ghost predicate HasStop(lines: seq<string>, extract: Extractor) {
    exists j :: 0 <= j < |lines| && Classify(lines[j], extract) == Stop
  }

  /** Without a `[DONE]` line every content is emitted and the decoder does
      not stop; with one, exactly the contents before the first `[DONE]`
      line are emitted and the decoder stops. */
  lemma {:induction false} DecodeLinesReference(lines: seq<string>, extract: Extractor)
    ensures !HasStop(lines, extract) ==> DecodeLines(lines, extract) == Decoded(Emitted(lines, extract), false)
    ensures forall j :: 0 <= j < |lines| && Classify(lines[j], extract) == Stop && !HasStop(lines[..j], extract) ==>
              DecodeLines(lines, extract) == Decoded(Emitted(lines[..j], extract), true)
    decreases |lines|
  {
    if |lines| > 0 {
      var n := |lines| - 1;
      var init := lines[..n];
      DecodeLinesReference(init, extract);
      if !HasStop(lines, extract) {
        assert !HasStop(init, extract) by {
          forall j | 0 <= j < |init| ensures Classify(init[j], extract) != Stop {
            assert init[j] == lines[j];
          }
        }
      }
      forall j | 0 <= j < |lines| && Classify(lines[j], extract) == Stop && !HasStop(lines[..j], extract)
        ensures DecodeLines(lines, extract) == Decoded(Emitted(lines[..j], extract), true)
      {
        if j == n {
          assert lines[..j] == init;
        } else {
          assert init[j] == lines[j];
          assert init[..j] == lines[..j];
        }
      }
    }
  }

  /** Decoding `a + b` decodes `a`, then, unless it stopped, `b`. */
  lemma {:induction false} DecodeLinesAppend(a: seq<string>, b: seq<string>, extract: Extractor)
    ensures DecodeLines(a + b, extract) ==
              var da := DecodeLines(a, extract);
              var db := DecodeLines(b, extract);
              if da.stopped then da else Decoded(da.fragments + db.fragments, db.stopped)
    decreases |b|
  {
    if |b| == 0 {
      assert a + b == a;
    } else {
      var n := |b| - 1;
      assert (a + b)[..|a + b| - 1] == a + b[..n];
      assert (a + b)[|a + b| - 1] == b[n];
      DecodeLinesAppend(a, b[..n], extract);
    }
  }

  /** One more line, when the decoder has not stopped yet. */
  lemma DecodeNextLine(lines: seq<string>, j: nat, extract: Extractor)
    requires j < |lines| && !DecodeLines(lines[..j], extract).stopped
    ensures DecodeLines(lines[..j + 1], extract) ==
              var before := DecodeLines(lines[..j], extract).fragments;
              match Classify(lines[j], extract)
                case Skip => Decoded(before, false)
                case Stop => Decoded(before, true)
                case Emit(content) => Decoded(before + [content], false)
  {
    assert lines[..j + 1][..j] == lines[..j];
  }

  /** A line that is blank, lacks the `data: ` prefix, does not parse or has
      empty content neither emits anything nor stops the stream. */
  lemma SkippedLineIsInvisible(a: seq<string>, line: string, b: seq<string>, extract: Extractor)
    requires Classify(line, extract) == Skip
    ensures DecodeLines(a + [line] + b, extract) == DecodeLines(a + b, extract)
  {
    DecodeLinesAppend(a + [line], b, extract);
    DecodeLinesAppend(a, b, extract);
    assert (a + [line])[..|a|] == a;
  }

  /** Once the decoder has stopped on a prefix of the lines, the remaining
      lines change nothing. */
  lemma StoppedLinesPrefix(lines: seq<string>, k: nat, extract: Extractor)
    requires k <= |lines| && DecodeLines(lines[..k], extract).stopped
    ensures DecodeLines(lines, extract) == DecodeLines(lines[..k], extract)
  {
    DecodeLinesAppend(lines[..k], lines[k..], extract);
    assert lines[..k] + lines[k..] == lines;
  }

  /** One more chunk, when the decoder has not stopped yet. */
  lemma DecodeNextChunk(chunks: seq<string>, k: nat, extract: Extractor)
    requires k < |chunks| && !DecodeChunks(chunks[..k], extract).stopped
    ensures DecodeChunks(chunks[..k + 1], extract) ==
              var here := DecodeLines(Lines(chunks[k]), extract);
              Decoded(DecodeChunks(chunks[..k], extract).fragments + here.fragments, here.stopped)
  {
    assert chunks[..k + 1][..k] == chunks[..k];
  }

  /** All lines of all chunks, chunk by chunk. */
  function AllLines(chunks: seq<string>): seq<string>
    decreases |chunks|
  {
    if |chunks| == 0 then []
    else AllLines(chunks[..|chunks| - 1]) + Lines(chunks[|chunks| - 1])
  }

  /** Chunk boundaries matter only through where lines are cut: decoding the
      chunks is decoding the concatenation of their lines. */
  lemma {:induction false} DecodeChunksFlatten(chunks: seq<string>, extract: Extractor)
    ensures DecodeChunks(chunks, extract) == DecodeLines(AllLines(chunks), extract)
    decreases |chunks|
  {
    if |chunks| > 0 {
      var n := |chunks| - 1;
      DecodeChunksFlatten(chunks[..n], extract);
      DecodeLinesAppend(AllLines(chunks[..n]), Lines(chunks[n]), extract);
    }
  }

  /** A `[DONE]` line stops everything: no later chunk contributes. */
  lemma {:induction false} StoppedChunksIgnoreRest(chunks: seq<string>, more: seq<string>, extract: Extractor)
    requires DecodeChunks(chunks, extract).stopped
    ensures DecodeChunks(chunks + more, extract) == DecodeChunks(chunks, extract)
    decreases |more|
  {
    if |more| == 0 {
      assert chunks + more == chunks;
    } else {
      var n := |more| - 1;
      assert (chunks + more)[..|chunks + more| - 1] == chunks + more[..n];
      StoppedChunksIgnoreRest(chunks, more[..n], extract);
    }
  }

  /** The fragments of a stream are the contents of its lines up to the
      first `[DONE]` line, wherever the chunk boundaries fall. */
  lemma DecodeChunksReference(chunks: seq<string>, extract: Extractor)
    ensures var lines := AllLines(chunks);
      (!HasStop(lines, extract) ==> DecodeChunks(chunks, extract) == Decoded(Emitted(lines, extract), false)) &&
      (forall j :: 0 <= j < |lines| && Classify(lines[j], extract) == Stop && !HasStop(lines[..j], extract) ==>
         DecodeChunks(chunks, extract) == Decoded(Emitted(lines[..j], extract), true))
  {
    DecodeChunksFlatten(chunks, extract);
    DecodeLinesReference(AllLines(chunks), extract);
  }

  /** A chunk that holds a single non-blank line and no newline is that
      one line. */
  lemma SingleLineChunk(line: string)
    requires '\n' !in line && !IsBlank(line)
    ensures Lines(line) == [line]
  {
    SplitWithoutSeparator(line, '\n');
  }

  /** Decoding one more chunk made of a single line. */
  lemma DecodeOneMoreLine(chunks: seq<string>, line: string, extract: Extractor)
    requires '\n' !in line && !IsBlank(line)
    ensures DecodeChunks(chunks + [line], extract) ==
              var before := DecodeChunks(chunks, extract);
              if before.stopped then before
              else match Classify(line, extract)
                case Skip => before
                case Stop => Decoded(before.fragments, true)
                case Emit(content) => Decoded(before.fragments + [content], false)
  {
    SingleLineChunk(line);
    var none: seq<string> := [];
    assert [line][..0] == none;
    assert (chunks + [line])[..|chunks|] == chunks;
    var before := DecodeChunks(chunks, extract);
    assert before.fragments + none == before.fragments;
    match Classify(line, extract)
    case Skip =>
      assert DecodeLines([line], extract) == Decoded(none, false);
    case Stop =>
      assert DecodeLines([line], extract) == Decoded(none, true);
    case Emit(content) =>
      assert DecodeLines([line], extract) == Decoded(none + [content], false);
  }

  /** A complete `data: ` frame in one chunk yields its content. */
  lemma WholeFrameDecoded(payload: string, extract: Extractor)
    requires '\n' !in payload && payload != DONE_SENTINEL
    requires Truthy(extract(payload))
    ensures DecodeChunks([DATA_PREFIX + payload], extract) == Decoded([extract(payload).value], false)
  {
    var none: seq<string> := [];
    var whole := DATA_PREFIX + payload;
    assert !IsWhitespace(whole[0]);
    assert whole[|DATA_PREFIX|..] == payload;
    DecodeOneMoreLine(none, whole, extract);
    assert none + [whole] == [whole];
  }

  /** The same frame twice in one chunk yields its content twice. */
  lemma RepeatedFrameDecodedTwice(payload: string, extract: Extractor)
    requires '\n' !in payload && payload != DONE_SENTINEL
    requires Truthy(extract(payload))
    ensures var frame := DATA_PREFIX + payload;
            var v := extract(payload).value;
            DecodeChunks([frame + "\n" + frame], extract) == Decoded([v, v], false)
  {
    var frame := DATA_PREFIX + payload;
    var v := extract(payload).value;
    assert !IsWhitespace(frame[0]);
    assert frame[|DATA_PREFIX|..] == payload;
    assert Classify(frame, extract) == Emit(v);
    LinesOfJoin([frame, frame]);
    assert Join([frame, frame], '\n') == frame + "\n" + frame;
    var none: seq<string> := [];
    assert [frame, frame][..1] == [frame];
    assert [frame][..0] == none;
    assert DecodeLines([frame], extract) == Decoded([v], false);
    assert DecodeLines([frame, frame], extract) == Decoded([v, v], false);
    var chunks := [frame + "\n" + frame];
    assert chunks[..0] == none;
  }

  /** A chunk made of one line that does not count changes nothing. */
  lemma SkippedChunk(chunks: seq<string>, line: string, extract: Extractor)
    requires '\n' !in line && !IsBlank(line) && !StartsWith(line, DATA_PREFIX)
    ensures DecodeChunks(chunks + [line], extract) == DecodeChunks(chunks, extract)
  {
    assert Classify(line, extract) == Skip;
    DecodeOneMoreLine(chunks, line, extract);
  }

  /** The second half of a cut frame is a line that does not count. */
  lemma CutTailIsPlainLine(payload: string)
    requires '\n' !in payload
    ensures var tail := ": " + payload;
            '\n' !in tail && !IsBlank(tail) && !StartsWith(tail, DATA_PREFIX)
  {
    var tail := ": " + payload;
    assert !IsWhitespace(tail[0]);
    assert tail[0] != DATA_PREFIX[0];
    assert tail == [':'] + ([' '] + payload);
  }

  /** The same frame cut in two by a chunk boundary is lost: lines are
      never reassembled across chunks. */
  lemma SplitFrameIsLost(payload: string, extract: Extractor)
    requires '\n' !in payload
    ensures DecodeChunks(["data", ": " + payload], extract) == Decoded([], false)
  {
    var none: seq<string> := [];
    var head := "data";
    assert !IsWhitespace(head[0]);
    SkippedChunk(none, head, extract);
    assert none + [head] == [head];
    CutTailIsPlainLine(payload);
    SkippedChunk([head], ": " + payload, extract);
    assert [head] + [": " + payload] == [head, ": " + payload];
  }

  // ---------------------------------------------------------------------
  // The calls made to `onProgress` and the value returned.

  datatype Progress = Partial(content: string) | Done

  /** How the response body ends if no `[DONE]` line stops the reader first:
      `reader.read()` resolves with `done: true`, or rejects. */
  datatype End = Closed | ReadFailed(message: string)

  /** A response body as the decoded text of each chunk read from it. */
  datatype Body = Body(chunks: seq<string>, end: End)

  /** The value (or error) `sendOpenAIRequest` settles with, and the
      `onProgress` calls it made, in order. */
  datatype Outcome = Outcome(result: Result<string, string>, progress: seq<Progress>)

  /** One `onProgress(content, false)` call per fragment. */
  function Partials(fragments: seq<string>): seq<Progress>
    decreases |fragments|
  {
    if |fragments| == 0 then []
    else Partials(fragments[..|fragments| - 1]) + [Partial(fragments[|fragments| - 1])]
  }

  lemma PartialsSnoc(fragments: seq<string>, x: string)
    ensures Partials(fragments + [x]) == Partials(fragments) + [Partial(x)]
  {
    assert (fragments + [x])[..|fragments|] == fragments;
  }

  lemma {:induction false} PartialsAppend(a: seq<string>, b: seq<string>)
    ensures Partials(a + b) == Partials(a) + Partials(b)
    decreases |b|
  {
    if |b| == 0 {
      assert a + b == a;
    } else {
      var n := |b| - 1;
      assert (a + b)[..|a + b| - 1] == a + b[..n];
      PartialsAppend(a, b[..n]);
    }
  }

  lemma {:induction false} PartialsShape(fragments: seq<string>)
    ensures |Partials(fragments)| == |fragments|
    ensures forall i :: 0 <= i < |fragments| ==> Partials(fragments)[i] == Partial(fragments[i])
    decreases |fragments|
  {
    if |fragments| > 0 {
      PartialsShape(fragments[..|fragments| - 1]);
    }
  }

  /** The text carried by a list of `onProgress` calls. */
  function Streamed(progress: seq<Progress>): string
    decreases |progress|
  {
    if |progress| == 0 then ""
    else
      var last := progress[|progress| - 1];
      Streamed(progress[..|progress| - 1]) + (if last.Partial? then last.content else "")
  }

  lemma {:induction false} StreamedPartials(fragments: seq<string>)
    ensures Streamed(Partials(fragments)) == Concat(fragments)
    decreases |fragments|
  {
    if |fragments| > 0 {
      var n := |fragments| - 1;
      PartialsShape(fragments[..n]);
      assert Partials(fragments)[..n] == Partials(fragments[..n]);
      StreamedPartials(fragments[..n]);
    }
  }

  /** The read loop and its epilogue: the stream succeeds if `[DONE]` was
      seen or the body closed, and only then is `onProgress(null, true)`
      called; a rejected read propagates after the fragments already sent. */
  function StreamOutcome(body: Body, extract: Extractor): (o: Outcome)
    ensures var d := DecodeChunks(body.chunks, extract);
            && (o.result.Success? <==> d.stopped || body.end.Closed?)
            && (o.result.Success? ==> o.progress == Partials(d.fragments) + [Done])
            && (o.result.Failure? ==> o.result.error == body.end.message && o.progress == Partials(d.fragments))
  {
    var d := DecodeChunks(body.chunks, extract);
    if d.stopped || body.end.Closed? then Outcome(Success(Concat(d.fragments)), Partials(d.fragments) + [Done])
    else Outcome(Failure(body.end.message), Partials(d.fragments))
  }

  /** The promises of the dispatcher's callback protocol: every partial call
      carries non-empty content; on success the single `Done` call comes
      last and the returned text is the concatenation of the partial
      contents; on failure `Done` is never called. */
  ghost predicate WellFormed(o: Outcome) {
    var p := o.progress;
    && (forall i :: 0 <= i < |p| && p[i].Partial? ==> p[i].content != "")
    && (o.result.Success? ==>
          && |p| > 0 && p[|p| - 1] == Done
          && (forall i :: 0 <= i < |p| - 1 ==> p[i].Partial?)
          && o.result.value == Streamed(p))
    && (o.result.Failure? ==> forall i :: 0 <= i < |p| ==> p[i].Partial?)
  }

  lemma StreamedDone(progress: seq<Progress>)
    ensures Streamed(progress + [Done]) == Streamed(progress)
  {
    assert (progress + [Done])[..|progress|] == progress;
  }

  /** The outcome of every body meets the callback protocol. */
  lemma StreamOutcomeWellFormed(body: Body, extract: Extractor)
    ensures WellFormed(StreamOutcome(body, extract))
  {
    var d := DecodeChunks(body.chunks, extract);
    PartialsShape(d.fragments);
    var p := Partials(d.fragments);
    if d.stopped || body.end.Closed? {
      StreamedPartials(d.fragments);
      assert StreamOutcome(body, extract) == Outcome(Success(Streamed(p)), p + [Done]);
      FinishedWellFormed(p);
    }
  }

  /** Partial calls with non-empty content, then `Done`, form a successful
      outcome that meets the protocol. */
  lemma FinishedWellFormed(p: seq<Progress>)
    requires forall i :: 0 <= i < |p| ==> p[i].Partial? && p[i].content != ""
    ensures WellFormed(Outcome(Success(Streamed(p)), p + [Done]))
  {
    var q := p + [Done];
    assert Streamed(q) == Streamed(p) by { StreamedDone(p); }
    assert forall i :: 0 <= i < |q| - 1 ==> q[i].Partial? && q[i].content != "" by {
      assert forall i :: 0 <= i < |p| ==> q[i] == p[i];
    }
    assert forall i :: 0 <= i < |q| && q[i].Partial? ==> q[i].content != "" by {
      assert q[|q| - 1] == Done;
    }
  }
}
