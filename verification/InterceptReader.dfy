/** The streaming intercept: a reader that passes bytes through and feeds the data lines it sees to an accumulator. */
module InterceptReader {
  import opened ByteText
  import opened Options

  datatype Provider = OpenAI | Anthropic | Custom

  /** The decoded parts of a chunk that the accumulator looks at. */
  datatype OpenAIChunk = OpenAIChunk(contents: seq<Bytes>, hasUsage: bool)

  datatype AnthropicChunk = AnthropicChunk(isBlockDelta: bool, text: Option<Bytes>)

  /** JSON decoding is a parameter; `None` is a decoding error. */
  datatype Decoder = Decoder(openAI: Bytes -> Option<OpenAIChunk>, anthropic: Bytes -> Option<AnthropicChunk>)

  datatype TokenMetrics = TokenMetrics(prompt: nat, completion: nat, total: nat)

  datatype ReadError = NoError | EOF | OtherError

  /** `data: ` */
  const DATA_PREFIX: Bytes := [100, 97, 116, 97, 58, 32]
  /** `[DONE]` */
  const DONE: Bytes := [91, 68, 79, 78, 69, 93]

  // ----- what a body means, chunks or no chunks -----

  /** What a line hands to the accumulator: the rest of it, if it trims to something that starts with `data: `. */
  function Payload(line: Bytes): Option<Bytes> {
    var s := TrimSpace(line);
    if DATA_PREFIX <= s then Some(s[|DATA_PREFIX|..]) else None
  }

  function Payloads(lines: seq<Bytes>): seq<Bytes> {
    if lines == [] then []
    else
      Payloads(lines[..|lines| - 1])
      + (match Payload(lines[|lines| - 1]) case Some(p) => [p] case None => [])
  }

  /** One payload's effect on the completion text. A usage chunk throws the text away. */
  function Absorb(provider: Provider, d: Decoder, completion: Bytes, data: Bytes): Bytes {
    if data == DONE then completion
    else if provider == Anthropic then
      match d.anthropic(data)
      case None => completion
      case Some(chunk) => if chunk.isBlockDelta && chunk.text.Some? then completion + chunk.text.value else completion
    else
      match d.openAI(data)
      case None => completion
      case Some(chunk) => if chunk.hasUsage then [] else completion + Concat(chunk.contents)
  }

  function AbsorbAll(provider: Provider, d: Decoder, payloads: seq<Bytes>): Bytes {
    if payloads == [] then []
    else Absorb(provider, d, AbsorbAll(provider, d, payloads[..|payloads| - 1]), payloads[|payloads| - 1])
  }

  /** The payloads of a body, read whole. */
  function BodyPayloads(body: Bytes): seq<Bytes> {
    Payloads(CompleteLines(body))
  }

  function MetricsOf(completion: Bytes): TokenMetrics {
    TokenMetrics(0, |Fields(completion)|, |Fields(completion)|)
  }

  function BodyMetrics(provider: Provider, d: Decoder, body: Bytes): TokenMetrics {
    MetricsOf(AbsorbAll(provider, d, BodyPayloads(body)))
  }

  // ----- the reader's state and one read -----

  predicate DetectSSE(body: Bytes) {
    Contains(body, DATA_PREFIX)
  }

  /** `payloads` is what `processData` was given, in order; `finals` what `onFinal` was given. */
  datatype ReaderState = ReaderState(
    buf: Bytes,
    payloads: seq<Bytes>,
    completion: Bytes,
    done: bool,
    finals: seq<TokenMetrics>)

  const FRESH: ReaderState := ReaderState([], [], [], false, [])

  datatype OneRead = OneRead(chunk: Bytes, err: ReadError)

  function Feed(provider: Provider, d: Decoder, st: ReaderState, payloads: seq<Bytes>): ReaderState {
    if payloads == [] then st
    else
      var before := Feed(provider, d, st, payloads[..|payloads| - 1]);
      before.(payloads := before.payloads + [payloads[|payloads| - 1]],
              completion := Absorb(provider, d, before.completion, payloads[|payloads| - 1]))
  }

  predicate Gate(provider: Provider, buf: Bytes) {
    provider == Anthropic || DetectSSE(buf)
  }

  function Consume(provider: Provider, d: Decoder, st: ReaderState, chunk: Bytes): ReaderState {
    var buf := st.buf + chunk;
    if chunk == [] then st
    else if Gate(provider, buf) then Feed(provider, d, st, Payloads(CompleteLines(buf))).(buf := Rest(buf))
    else st.(buf := buf)
  }

  function Finish(st: ReaderState, err: ReadError): ReaderState {
    if err == EOF && !st.done then st.(done := true, finals := st.finals + [MetricsOf(st.completion)]) else st
  }

  function ReadStep(provider: Provider, d: Decoder, st: ReaderState, r: OneRead): ReaderState {
    Finish(Consume(provider, d, st, r.chunk), r.err)
  }

  function ReadAll(provider: Provider, d: Decoder, calls: seq<OneRead>): ReaderState {
    if calls == [] then FRESH
    else ReadStep(provider, d, ReadAll(provider, d, calls[..|calls| - 1]), calls[|calls| - 1])
  }

  function BytesRead(calls: seq<OneRead>): Bytes {
    if calls == [] then [] else BytesRead(calls[..|calls| - 1]) + calls[|calls| - 1].chunk
  }

  // ----- chunk independence -----

  lemma {:induction false} PayloadsAppend(a: seq<Bytes>, b: seq<Bytes>)
    ensures Payloads(a + b) == Payloads(a) + Payloads(b)
  {
    if b == [] {
      assert a + b == a;
    } else {
      var n := |b| - 1;
      PayloadsAppend(a, b[..n]);
      FrontOfSum(a, b);
      Associate(Payloads(a), Payloads(b[..n]), match Payload(b[n]) case Some(p) => [p] case None => []);
    }
  }

  lemma FeedAppends(provider: Provider, d: Decoder, st: ReaderState, payloads: seq<Bytes>)
    requires st.completion == AbsorbAll(provider, d, st.payloads)
    ensures var fed := Feed(provider, d, st, payloads);
            && fed.payloads == st.payloads + payloads
            && fed.completion == AbsorbAll(provider, d, fed.payloads)
            && fed.buf == st.buf && fed.done == st.done && fed.finals == st.finals
  {
    FeedKeepsRest(provider, d, st, payloads);
    FeedDelivers(provider, d, st, payloads);
    FeedAbsorbs(provider, d, st, payloads);
  }

  lemma {:induction false} FeedDelivers(provider: Provider, d: Decoder, st: ReaderState, payloads: seq<Bytes>)
    ensures Feed(provider, d, st, payloads).payloads == st.payloads + payloads
  {
    if payloads != [] {
      var front, last := payloads[..|payloads| - 1], payloads[|payloads| - 1];
      FeedDelivers(provider, d, st, front);
      assert payloads == front + [last];
      Associate(st.payloads, front, [last]);
    }
  }

  lemma {:induction false} FeedAbsorbs(provider: Provider, d: Decoder, st: ReaderState, payloads: seq<Bytes>)
    requires st.completion == AbsorbAll(provider, d, st.payloads)
    ensures var fed := Feed(provider, d, st, payloads); fed.completion == AbsorbAll(provider, d, fed.payloads)
  {
    if payloads != [] {
      var front := payloads[..|payloads| - 1];
      FeedAbsorbs(provider, d, st, front);
      AbsorbOneMore(provider, d, Feed(provider, d, st, front).payloads, payloads[|payloads| - 1]);
    }
  }

  lemma AbsorbOneMore(provider: Provider, d: Decoder, payloads: seq<Bytes>, p: Bytes)
    ensures AbsorbAll(provider, d, payloads + [p]) == Absorb(provider, d, AbsorbAll(provider, d, payloads), p)
  {
    assert (payloads + [p])[..|payloads + [p]| - 1] == payloads;
  }

  /** A line that carries data contains the text the gate looks for. */
  lemma DataLineOpensGate(line: Bytes)
    requires Payload(line).Some?
    ensures Contains(line, DATA_PREFIX)
  {
    var s := TrimSpace(line);
    assert OccursAt(s, DATA_PREFIX, 0);
    TrimKeeps(line, DATA_PREFIX);
  }

  lemma {:induction false} NoDataInLines(lines: seq<Bytes>)
    requires forall i | 0 <= i < |lines| :: Payload(lines[i]).None?
    ensures Payloads(lines) == []
  {
    if lines != [] {
      NoDataInLines(lines[..|lines| - 1]);
    }
  }

  /** While the gate is shut no complete line in the buffer carries data. */
  lemma ShutGateHidesNothing(buf: Bytes)
    requires !DetectSSE(buf)
    ensures BodyPayloads(buf) == []
  {
    var lines := CompleteLines(buf);
    forall i | 0 <= i < |lines| ensures Payload(lines[i]).None? {
      if Payload(lines[i]).Some? {
        DataLineOpensGate(lines[i]);
        SplitPiecesAreWithin(buf, i, DATA_PREFIX);
        assert false;
      }
    }
    NoDataInLines(lines);
  }

  /** After the bytes `total` the reader has delivered their payloads, holds no undelivered one, and whatever follows
      will be read in its buffer as it would be in the whole body. */
  ghost predicate Tracks(total: Bytes, st: ReaderState) {
    && st.payloads == BodyPayloads(total)
    && BodyPayloads(st.buf) == []
    && forall more: Bytes :: BodyPayloads(total + more) == st.payloads + BodyPayloads(st.buf + more)
  }

  lemma CompleteLinesAppend(a: Bytes, b: Bytes)
    ensures BodyPayloads(a + b) == BodyPayloads(a) + BodyPayloads(Rest(a) + b)
  {
    LinesOfSum(a, b);
    PayloadsAppend(CompleteLines(a), CompleteLines(Rest(a) + b));
  }

  lemma LinesOfSum(a: Bytes, b: Bytes)
    ensures CompleteLines(a + b) == CompleteLines(a) + CompleteLines(Rest(a) + b)
  {
    SplitAppend(a, b);
    FrontOfSum(CompleteLines(a), Split(Rest(a) + b));
  }

  lemma FrontOfSum<T>(a: seq<T>, b: seq<T>)
    requires b != []
    ensures (a + b)[..|a + b| - 1] == a + b[..|b| - 1]
  {
  }

  lemma ConsumeTracks(provider: Provider, d: Decoder, total: Bytes, st: ReaderState, chunk: Bytes)
    requires Tracks(total, st) && st.completion == AbsorbAll(provider, d, st.payloads)
    ensures var st' := Consume(provider, d, st, chunk);
            && Tracks(total + chunk, st') && st'.completion == AbsorbAll(provider, d, st'.payloads)
            && st'.done == st.done && st'.finals == st.finals
  {
    if chunk == [] {
      assert total + chunk == total;
    } else if Gate(provider, st.buf + chunk) {
      OpenGateTracks(provider, d, total, st, chunk);
    } else {
      ShutGateTracks(total, st, chunk);
    }
  }

  /** What follows a chunk is read in the extended buffer as it would be in the whole body. */
  lemma TrackFurther(total: Bytes, st: ReaderState, chunk: Bytes, more: Bytes)
    requires Tracks(total, st)
    ensures BodyPayloads(total + chunk + more) == st.payloads + BodyPayloads(st.buf + chunk + more)
    ensures BodyPayloads(total + chunk) == st.payloads + BodyPayloads(st.buf + chunk)
  {
    Associate(total, chunk, more);
    Associate(st.buf, chunk, more);
  }

  lemma OpenGateTracks(provider: Provider, d: Decoder, total: Bytes, st: ReaderState, chunk: Bytes)
    requires Tracks(total, st) && st.completion == AbsorbAll(provider, d, st.payloads)
    ensures var buf := st.buf + chunk;
            var st' := Feed(provider, d, st, BodyPayloads(buf)).(buf := Rest(buf));
            && Tracks(total + chunk, st') && st'.completion == AbsorbAll(provider, d, st'.payloads)
            && st'.done == st.done && st'.finals == st.finals
  {
    var buf := st.buf + chunk;
    FeedAppends(provider, d, st, BodyPayloads(buf));
    TrackFurther(total, st, chunk, []);
    RestCarriesNothing(buf);
    forall more: Bytes
      ensures BodyPayloads(total + chunk + more) == st.payloads + BodyPayloads(buf) + BodyPayloads(Rest(buf) + more)
    {
      TrackThroughRest(total, st, chunk, more);
    }
  }

  lemma RestCarriesNothing(buf: Bytes)
    ensures BodyPayloads(Rest(buf)) == []
  {
    RestHasNoLine(buf);
  }

  lemma TrackThroughRest(total: Bytes, st: ReaderState, chunk: Bytes, more: Bytes)
    requires Tracks(total, st)
    ensures BodyPayloads(total + chunk + more)
         == st.payloads + BodyPayloads(st.buf + chunk) + BodyPayloads(Rest(st.buf + chunk) + more)
  {
    var buf := st.buf + chunk;
    assert BodyPayloads(total + chunk + more) == st.payloads + BodyPayloads(buf + more) by {
      TrackFurther(total, st, chunk, more);
    }
    assert BodyPayloads(buf + more) == BodyPayloads(buf) + BodyPayloads(Rest(buf) + more) by {
      CompleteLinesAppend(buf, more);
    }
    Associate(st.payloads, BodyPayloads(buf), BodyPayloads(Rest(buf) + more));
  }

  lemma Associate<T>(a: seq<T>, b: seq<T>, c: seq<T>)
    ensures a + (b + c) == a + b + c
  {
  }

  lemma ShutGateTracks(total: Bytes, st: ReaderState, chunk: Bytes)
    requires Tracks(total, st) && !DetectSSE(st.buf + chunk)
    ensures Tracks(total + chunk, st.(buf := st.buf + chunk))
  {
    ShutGateHidesNothing(st.buf + chunk);
    TrackFurther(total, st, chunk, []);
    forall more: Bytes
      ensures BodyPayloads(total + chunk + more) == st.payloads + BodyPayloads(st.buf + chunk + more)
    {
      TrackFurther(total, st, chunk, more);
    }
  }

  lemma {:induction false} ReadsTrack(provider: Provider, d: Decoder, calls: seq<OneRead>)
    ensures var st := ReadAll(provider, d, calls);
            Tracks(BytesRead(calls), st) && st.completion == AbsorbAll(provider, d, st.payloads)
  {
    if calls == [] {
      assert forall more: Bytes :: [] + more == more;
      assert CompleteLines([]) == [];
    } else {
      var front, last := calls[..|calls| - 1], calls[|calls| - 1];
      ReadsTrack(provider, d, front);
      ConsumeTracks(provider, d, BytesRead(front), ReadAll(provider, d, front), last.chunk);
    }
  }

  /** Whatever the provider and however the bytes were cut into calls, at every moment the payloads handed on are those
      of the newline-terminated data lines read so far, in order, once each: none is lost and none is late. */
  lemma ChunkIndependence(provider: Provider, d: Decoder, calls: seq<OneRead>)
    ensures var st := ReadAll(provider, d, calls);
            && st.payloads == BodyPayloads(BytesRead(calls))
            && st.completion == AbsorbAll(provider, d, BodyPayloads(BytesRead(calls)))
  {
    ReadsTrack(provider, d, calls);
  }

  /** The reads up to and including the first that reports EOF. */
  function UpToEOF(calls: seq<OneRead>): seq<OneRead> {
    if calls == [] then [] else if calls[0].err == EOF then [calls[0]] else [calls[0]] + UpToEOF(calls[1..])
  }

  ghost predicate SeesEOF(calls: seq<OneRead>) {
    exists i | 0 <= i < |calls| :: calls[i].err == EOF
  }

  lemma {:induction false} UpToEOFGrows(front: seq<OneRead>, last: OneRead)
    ensures SeesEOF(front) ==> UpToEOF(front + [last]) == UpToEOF(front)
    ensures !SeesEOF(front) ==> UpToEOF(front + [last]) == front + [last]
    ensures SeesEOF(front + [last]) <==> SeesEOF(front) || last.err == EOF
  {
    var calls := front + [last];
    if front == [] {
      assert calls[0] == last;
      assert calls[1..] == [];
    } else {
      UpToEOFGrows(front[1..], last);
      assert calls[1..] == front[1..] + [last];
      assert SeesEOF(front) <==> front[0].err == EOF || SeesEOF(front[1..]) by {
        if i: nat :| i < |front| && front[i].err == EOF && i > 0 { assert front[1..][i - 1].err == EOF; }
        if i: nat :| i < |front[1..]| && front[1..][i].err == EOF { assert front[i + 1].err == EOF; }
      }
      assert calls[0] == front[0];
    }
    if SeesEOF(front) {
      var i :| 0 <= i < |front| && front[i].err == EOF;
      assert calls[i].err == EOF;
    }
    if last.err == EOF { assert calls[|front|].err == EOF; }
    if SeesEOF(calls) {
      var i :| 0 <= i < |calls| && calls[i].err == EOF;
      if i < |front| { assert front[i].err == EOF; }
    }
  }

  /** `onFinal` fires exactly once, at the first EOF, with the metrics of all bytes read by then. */
  lemma {:induction false} FinalFiresOnce(provider: Provider, d: Decoder, calls: seq<OneRead>)
    ensures var st := ReadAll(provider, d, calls);
            && st.done == SeesEOF(calls)
            && st.finals == if SeesEOF(calls) then [BodyMetrics(provider, d, BytesRead(UpToEOF(calls)))] else []
  {
    if calls != [] {
      var front, last := calls[..|calls| - 1], calls[|calls| - 1];
      FinalFiresOnce(provider, d, front);
      assert front + [last] == calls;
      UpToEOFGrows(front, last);
      ReadsTrack(provider, d, front);
      ConsumeTracks(provider, d, BytesRead(front), ReadAll(provider, d, front), last.chunk);
    }
  }

  /** Two ways of cutting one body into reads that end in EOF deliver the same payloads and report the same metrics. */
  lemma CuttingDoesNotMatter(provider: Provider, d: Decoder, one: seq<OneRead>, other: seq<OneRead>)
    requires BytesRead(one) == BytesRead(other) && UpToEOF(one) == one && UpToEOF(other) == other
    requires SeesEOF(one) && SeesEOF(other)
    ensures ReadAll(provider, d, one).payloads == ReadAll(provider, d, other).payloads
    ensures ReadAll(provider, d, one).finals == ReadAll(provider, d, other).finals
         == [BodyMetrics(provider, d, BytesRead(one))]
  {
    ChunkIndependence(provider, d, one);
    ChunkIndependence(provider, d, other);
    FinalFiresOnce(provider, d, one);
    FinalFiresOnce(provider, d, other);
  }

  predicate IsUsage(provider: Provider, d: Decoder, data: Bytes) {
    provider != Anthropic && data != DONE && d.openAI(data).Some? && d.openAI(data).value.hasUsage
  }

  /** For the OpenAI format everything before the last usage chunk is forgotten, so a stream that ends with one reports no
      completion tokens at all. */
  lemma {:induction false} UsageForgets(provider: Provider, d: Decoder, before: seq<Bytes>, usage: Bytes, after: seq<Bytes>)
    requires IsUsage(provider, d, usage)
    ensures AbsorbAll(provider, d, before + [usage] + after) == AbsorbAll(provider, d, after)
  {
    var all := before + [usage] + after;
    if after == [] {
      assert all[|all| - 1] == usage;
    } else {
      UsageForgets(provider, d, before, usage, after[..|after| - 1]);
      assert all[..|all| - 1] == before + [usage] + after[..|after| - 1];
    }
  }

  /** The completion text that a payload carries: what it adds to an empty completion. */
  function TextOf(provider: Provider, d: Decoder, data: Bytes): Bytes {
    Absorb(provider, d, [], data)
  }

  /** All the completion text of a stream. */
  function Text(provider: Provider, d: Decoder, payloads: seq<Bytes>): Bytes {
    if payloads == [] then []
    else Text(provider, d, payloads[..|payloads| - 1]) + TextOf(provider, d, payloads[|payloads| - 1])
  }

  /** No usage chunk comes after any text. */
  ghost predicate UsageComesFirst(provider: Provider, d: Decoder, payloads: seq<Bytes>) {
    forall i | 0 <= i < |payloads| && IsUsage(provider, d, payloads[i]) :: Text(provider, d, payloads[..i]) == []
  }

  /** A stream keeps all its text exactly if no usage chunk comes after some. In particular a stream without usage
      chunks, and every stream in the Anthropic format, keeps it. */
  lemma {:induction false} TextSurvives(provider: Provider, d: Decoder, payloads: seq<Bytes>)
    ensures AbsorbAll(provider, d, payloads) == Text(provider, d, payloads) <==> UsageComesFirst(provider, d, payloads)
  {
    if payloads != [] {
      var front, last := payloads[..|payloads| - 1], payloads[|payloads| - 1];
      TextSurvives(provider, d, front);
      UsageComesFirstGrows(provider, d, payloads);
      AbsorbsOwnText(provider, d, AbsorbAll(provider, d, front), last);
      if IsUsage(provider, d, last) {
        NoTextBefore(provider, d, front);
      } else {
        SameEnd(AbsorbAll(provider, d, front), Text(provider, d, front), TextOf(provider, d, last));
      }
    }
  }

  lemma AbsorbsOwnText(provider: Provider, d: Decoder, completion: Bytes, data: Bytes)
    ensures IsUsage(provider, d, data) ==> TextOf(provider, d, data) == [] == Absorb(provider, d, completion, data)
    ensures !IsUsage(provider, d, data) ==>
              Absorb(provider, d, completion, data) == completion + TextOf(provider, d, data)
  {
  }

  lemma SameEnd(a: Bytes, b: Bytes, end: Bytes)
    ensures a + end == b + end <==> a == b
  {
    if a + end == b + end {
      assert a == (a + end)[..|a|] && b == (b + end)[..|b|];
    }
  }

  lemma UsageComesFirstGrows(provider: Provider, d: Decoder, payloads: seq<Bytes>)
    requires payloads != []
    ensures var front, last := payloads[..|payloads| - 1], payloads[|payloads| - 1];
            UsageComesFirst(provider, d, payloads) <==>
              UsageComesFirst(provider, d, front)
              && (IsUsage(provider, d, last) ==> Text(provider, d, front) == [])
  {
    var front := payloads[..|payloads| - 1];
    assert forall i | 0 <= i < |front| :: front[..i] == payloads[..i];
  }

  lemma {:induction false} NoTextBefore(provider: Provider, d: Decoder, payloads: seq<Bytes>)
    ensures Text(provider, d, payloads) == [] ==> UsageComesFirst(provider, d, payloads)
  {
    if payloads != [] {
      NoTextBefore(provider, d, payloads[..|payloads| - 1]);
      UsageComesFirstGrows(provider, d, payloads);
    }
  }

  // ----- the reader as an object -----

  class SSEAccumulator {
    const provider: Provider
    const decoder: Decoder
    var completion: Bytes
    ghost var payloads: seq<Bytes>

    constructor (provider: Provider, decoder: Decoder)
      ensures this.provider == provider && this.decoder == decoder && completion == [] && payloads == []
    {
      this.provider, this.decoder := provider, decoder;
      completion, payloads := [], [];
    }

    method FeedLine(line: Bytes)
      modifies this
      ensures payloads == old(payloads) + Payloads([line])
      ensures completion == match Payload(line)
                            case Some(p) => Absorb(provider, decoder, old(completion), p)
                            case None => old(completion)
      ensures var s := TrimSpace(line);
              if [100, 97, 116, 97, 58, 32] <= s then
                payloads == old(payloads) + [s[6..]] && completion == Absorb(provider, decoder, old(completion), s[6..])
              else payloads == old(payloads) && completion == old(completion)
    {
      var s := TrimSpace(line);
      assert [line][..0] == [];
      if DATA_PREFIX <= s {
        ProcessData(s[|DATA_PREFIX|..]);
      }
    }

    method ProcessData(data: Bytes)
      modifies this
      ensures payloads == old(payloads) + [data]
      ensures completion == Absorb(provider, decoder, old(completion), data)
    {
      payloads := payloads + [data];
      if data == DONE { return; }
      match provider {
        case Anthropic =>
          var chunk := decoder.anthropic(data);
          if chunk.None? { return; }
          if chunk.value.isBlockDelta {
            if chunk.value.text.Some? { completion := completion + chunk.value.text.value; }
          }
        case _ =>
          var chunk := decoder.openAI(data);
          if chunk.None? { return; }
          if chunk.value.hasUsage {
            completion := [];
            return;
          }
          var choices := chunk.value.contents;
          for i := 0 to |choices|
            invariant completion == old(completion) + Concat(choices[..i]) && payloads == old(payloads) + [data]
          {
            assert choices[..i + 1][..i] == choices[..i];
            completion := completion + choices[i];
          }
          assert choices[..|choices|] == choices;
      }
    }

    method FinalMetrics() returns (m: TokenMetrics)
      ensures m == MetricsOf(completion) == TokenMetrics(0, |Fields(completion)|, |Fields(completion)|)
    {
      var tokens := CountTokens(completion);
      m := TokenMetrics(0, tokens, tokens);
    }
  }

  method CountTokens(s: Bytes) returns (tokens: nat)
    ensures tokens == |Fields(s)|
  {
    if s == [] { return 0; }
    tokens := 0;
    var fields := Fields(s);
    for i := 0 to |fields|
      invariant tokens == i
    {
      tokens := tokens + 1;
    }
  }

  class Reader {
    const provider: Provider
    const sse: SSEAccumulator
    var buf: Bytes
    var done: bool
    /** What `onFinal` has been called with. */
    var finals: seq<TokenMetrics>

    ghost function View(): ReaderState
      reads this, sse
    {
      ReaderState(buf, sse.payloads, sse.completion, done, finals)
    }

    constructor (provider: Provider, decoder: Decoder)
      ensures View() == FRESH && fresh(sse)
      ensures this.provider == provider == sse.provider && sse.decoder == decoder
    {
      this.provider := provider;
      sse := new SSEAccumulator(provider, decoder);
      buf, done, finals := [], false, [];
    }

    /** Splits the buffer, feeds every line but the last and keeps the last. */
    method FeedLines()
      requires provider == sse.provider
      modifies this`buf, sse
      ensures View() == Feed(provider, sse.decoder, old(View()), BodyPayloads(old(buf))).(buf := Rest(old(buf)))
    {
      var lines := Split(buf);
      ghost var start := View().(buf := []);
      FeedIgnoresBuf(provider, sse.decoder, View(), Payloads(lines[..|lines| - 1]), []);
      buf := [];
      assert Payloads(lines[..0]) == [];
      for i := 0 to |lines| - 1
        invariant View() == Feed(provider, sse.decoder, start, Payloads(lines[..i]))
      {
        FeedNext(provider, sse.decoder, start, lines, i);
        FeedKeepsRest(provider, sse.decoder, start, Payloads(lines[..i]));
        FeedKeepsRest(provider, sse.decoder, start, Payloads(lines[..i + 1]));
        sse.FeedLine(lines[i]);
      }
      FeedKeepsRest(provider, sse.decoder, start, Payloads(lines[..|lines| - 1]));
      buf := buf + lines[|lines| - 1];
    }

    /** One call of the wrapped body's `Read` returned `chunk` and `err`; both are passed on unchanged. */
    method Read(chunk: Bytes, err: ReadError) returns (out: Bytes, outErr: ReadError)
      requires provider == sse.provider
      modifies this, sse
      ensures View() == ReadStep(provider, sse.decoder, old(View()), OneRead(chunk, err))
      ensures out == chunk && outErr == err
    {
      if |chunk| > 0 {
        buf := buf + chunk;
        if provider == Anthropic || DetectSSE(buf) {
          FeedIgnoresBuf(provider, sse.decoder, old(View()), BodyPayloads(buf), buf);
          FeedLines();
        }
      }
      if err == EOF && !done {
        done := true;
        var m := sse.FinalMetrics();
        finals := finals + [m];
      }
      return chunk, err;
    }
  }

  lemma FeedNext(provider: Provider, d: Decoder, st: ReaderState, lines: seq<Bytes>, i: nat)
    requires i < |lines|
    ensures var before := Feed(provider, d, st, Payloads(lines[..i]));
            && Payloads([lines[i]]) == (match Payload(lines[i]) case Some(p) => [p] case None => [])
            && Feed(provider, d, st, Payloads(lines[..i + 1]))
               == match Payload(lines[i])
                  case Some(p) => before.(payloads := before.payloads + [p],
                                          completion := Absorb(provider, d, before.completion, p))
                  case None => before
  {
    assert lines[..i + 1][..i] == lines[..i];
    assert [lines[i]][..0] == [];
    var before := Payloads(lines[..i]);
    match Payload(lines[i])
    case Some(p) => assert (before + [p])[..|before|] == before;
    case None => assert before + [] == before;
  }

  lemma {:induction false} FeedKeepsRest(provider: Provider, d: Decoder, st: ReaderState, payloads: seq<Bytes>)
    ensures var fed := Feed(provider, d, st, payloads);
            fed.buf == st.buf && fed.done == st.done && fed.finals == st.finals
  {
    if payloads != [] {
      FeedKeepsRest(provider, d, st, payloads[..|payloads| - 1]);
    }
  }

  lemma {:induction false} FeedIgnoresBuf(provider: Provider, d: Decoder, st: ReaderState, payloads: seq<Bytes>, b: Bytes)
    ensures Feed(provider, d, st.(buf := b), payloads) == Feed(provider, d, st, payloads).(buf := b)
  {
    if payloads != [] {
      FeedIgnoresBuf(provider, d, st, payloads[..|payloads| - 1], b);
    }
  }
}
