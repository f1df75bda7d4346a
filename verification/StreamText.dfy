/** Event streams as they are written, and what the reader makes of them. */
module StreamText {
  import opened ByteText
  import opened InterceptReader
  import opened Options

  /** A data line, perhaps with ASCII white space around it, or any other line. */
  datatype Part = DataLine(before: Bytes, payload: Bytes, after: Bytes) | OtherLine(line: Bytes)

  /** `data: ` and the payload. */
  function LineOf(part: Part): Bytes {
    match part
    case DataLine(before, payload, after) => before + ([100, 97, 116, 97, 58, 32] + payload) + after
    case OtherLine(line) => line
  }

  ghost predicate Blank(s: Bytes) {
    forall i | 0 <= i < |s| :: s[i] in {9, 11, 12, 13, 32}
  }

  /** No line is broken; a payload is not empty and does not end in white space; another line does not read `data: ` once
      white space is trimmed off it. */
  ghost predicate Proper(part: Part) {
    match part
    case DataLine(before, payload, after) =>
      Blank(before) && Blank(after) && payload != [] && SpaceAtEnd(payload) == 0 && 10 !in payload
    case OtherLine(line) => 10 !in line && !([100, 97, 116, 97, 58, 32] <= TrimSpace(line))
  }

  function Written(parts: seq<Part>): Bytes {
    if parts == [] then [] else Written(parts[..|parts| - 1]) + LineOf(parts[|parts| - 1]) + [10]
  }

  /** The payloads of the data lines, in order. */
  function Carried(parts: seq<Part>): seq<Bytes> {
    if parts == [] then []
    else
      var last := parts[|parts| - 1];
      Carried(parts[..|parts| - 1]) + if last.DataLine? then [last.payload] else []
  }

  /** What is written comes back: however the bytes are cut into reads, the reader hands on exactly the payloads of the
      data lines, in order, whatever other lines stand between them and whatever unfinished line follows. */
  lemma WrittenReadsBack(provider: Provider, d: Decoder, parts: seq<Part>, rest: Bytes, calls: seq<OneRead>)
    requires (forall i | 0 <= i < |parts| :: Proper(parts[i])) && 10 !in rest
    requires BytesRead(calls) == Written(parts) + rest
    ensures ReadAll(provider, d, calls).payloads == Carried(parts)
  {
    ChunkIndependence(provider, d, calls);
    LinesOfWritten(parts, rest);
    PayloadsOfWritten(parts);
  }

  function Lines(parts: seq<Part>): seq<Bytes> {
    seq(|parts|, i requires 0 <= i < |parts| => LineOf(parts[i]))
  }

  lemma {:induction false} LinesOfWritten(parts: seq<Part>, rest: Bytes)
    requires (forall i | 0 <= i < |parts| :: Proper(parts[i])) && 10 !in rest
    ensures Split(Written(parts) + rest) == Lines(parts) + [rest]
  {
    if parts == [] {
      assert Written(parts) + rest == rest;
      SplitUnbroken(rest);
    } else {
      var n := |parts| - 1;
      LinesOfWritten(parts[..n], []);
      LineHasNoBreak(parts[n]);
      SplitBroken(LineOf(parts[n]), rest);
      SplitAfter(Written(parts[..n]), Lines(parts[..n]), LineOf(parts[n]) + [10] + rest);
      Regroup(Written(parts[..n]), LineOf(parts[n]), rest);
      LinesGrow(parts, rest);
    }
  }

  lemma Regroup(a: Bytes, line: Bytes, rest: Bytes)
    ensures a + line + [10] + rest == a + (line + [10] + rest)
  {
  }

  lemma LinesGrow(parts: seq<Part>, rest: Bytes)
    requires parts != []
    ensures var n := |parts| - 1; Lines(parts) + [rest] == Lines(parts[..n]) + [LineOf(parts[n]), rest]
  {
  }

  lemma SplitAfter(front: Bytes, lines: seq<Bytes>, more: Bytes)
    requires Split(front + []) == lines + [[]]
    ensures Split(front + more) == lines + Split(more)
  {
    assert front + [] == front;
    SplitAppend(front, more);
    assert CompleteLines(front) == lines && Rest(front) == [] && [] + more == more;
  }

  lemma {:induction false} SplitUnbroken(s: Bytes)
    requires 10 !in s
    ensures Split(s) == [s]
  {
    if s != [] {
      SplitUnbroken(s[1..]);
      assert s == [s[0]] + s[1..];
    }
  }

  lemma SplitBroken(line: Bytes, rest: Bytes)
    requires 10 !in line && 10 !in rest
    ensures Split(line + [10] + rest) == [line, rest]
  {
    SplitUnbroken(line);
    SplitUnbroken(rest);
    SplitCons(10, rest);
    assert line + [10] + rest == line + ([10] + rest);
    SplitAppend(line, [10] + rest);
    BreakAfter(line, rest);
  }

  /** A line break ends the line before it. */
  lemma {:induction false} BreakAfter(line: Bytes, rest: Bytes)
    requires 10 !in line && Split([10] + rest) == [[], rest]
    ensures Split(line + ([10] + rest)) == [line, rest]
  {
    if line == [] {
      assert line + ([10] + rest) == [10] + rest;
    } else {
      BreakAfter(line[1..], rest);
      SplitCons(line[0], line[1..] + ([10] + rest));
      assert line + ([10] + rest) == [line[0]] + (line[1..] + ([10] + rest));
      assert line == [line[0]] + line[1..];
    }
  }

  lemma LineHasNoBreak(part: Part)
    requires Proper(part)
    ensures 10 !in LineOf(part)
  {
  }

  lemma {:induction false} PayloadsOfWritten(parts: seq<Part>)
    requires forall i | 0 <= i < |parts| :: Proper(parts[i])
    ensures Payloads(Lines(parts)) == Carried(parts)
  {
    if parts != [] {
      var n := |parts| - 1;
      PayloadsOfWritten(parts[..n]);
      assert Lines(parts)[..n] == Lines(parts[..n]);
      PayloadOfLine(parts[n]);
    }
  }

  lemma PayloadOfLine(part: Part)
    requires Proper(part)
    ensures Payload(LineOf(part)) == if part.DataLine? then Some(part.payload) else None
  {
    if part.DataLine? {
      var data := [100, 97, 116, 97, 58, 32] + part.payload;
      TrimBlanks(part.before, data, part.after);
      assert data[6..] == part.payload;
    }
  }

  /** Trimming takes exactly the white space around a data line. */
  lemma TrimBlanks(before: Bytes, data: Bytes, after: Bytes)
    requires Blank(before) && Blank(after) && |data| > 6 && data[..6] == [100, 97, 116, 97, 58, 32]
    requires SpaceAtEnd(data[6..]) == 0
    ensures TrimSpace(before + data + after) == data
  {
    TrimLeftBlanks(before, data + after);
    assert before + data + after == before + (data + after);
    assert (data + after)[0] == data[0] == 100;
    EndsAlike(data);
    TrimRightBlanks(data, after);
  }

  lemma {:induction false} TrimLeftBlanks(before: Bytes, s: Bytes)
    requires Blank(before) && s != [] && s[0] == 100
    ensures TrimLeft(before + s) == s
  {
    if before == [] {
      assert before + s == s;
    } else {
      TrimLeftBlanks(before[1..], s);
      TrimLeftOne(before[0], before[1..] + s);
      FirstOfSum(before, s);
    }
  }

  lemma FirstOfSum(a: Bytes, b: Bytes)
    requires a != []
    ensures a + b == [a[0]] + (a[1..] + b)
  {
  }

  lemma TrimLeftOne(c: byte, s: Bytes)
    requires c in {9, 11, 12, 13, 32}
    ensures TrimLeft([c] + s) == TrimLeft(s)
  {
    assert ([c] + s)[1..] == s;
  }

  lemma {:induction false} TrimRightBlanks(s: Bytes, after: Bytes)
    requires Blank(after) && SpaceAtEnd(s) == 0
    ensures TrimRight(s + after) == s
  {
    if after == [] {
      assert s + after == s;
    } else {
      var n := |after| - 1;
      TrimRightBlanks(s, after[..n]);
      TrimRightOne(s + after[..n], after[n]);
      LastOfSum(s, after);
    }
  }

  lemma LastOfSum(a: Bytes, b: Bytes)
    requires b != []
    ensures a + b == a + b[..|b| - 1] + [b[|b| - 1]]
  {
  }

  lemma TrimRightOne(s: Bytes, c: byte)
    requires c in {9, 11, 12, 13, 32}
    ensures TrimRight(s + [c]) == TrimRight(s)
  {
    assert (s + [c])[..|s + [c]| - 1] == s;
  }

  /** No white-space rune straddles the end of `data: `. */
  lemma EndsAlike(data: Bytes)
    requires |data| > 6 && data[..6] == [100, 97, 116, 97, 58, 32] && SpaceAtEnd(data[6..]) == 0
    ensures SpaceAtEnd(data) == 0
  {
    var p, k := data[6..], |data|;
    assert data[5] == data[..6][5] && data[4] == data[..6][4];
    assert p[|p| - 1] == data[k - 1] && (|p| >= 2 ==> p[|p| - 2] == data[k - 2]) && (|p| >= 3 ==> p[|p| - 3] == data[k - 3]);
  }

  // ----- what the payloads amount to -----

  /** A chunk that carries one piece of text, in the format of the provider. */
  ghost predicate Decodes(provider: Provider, d: Decoder, payload: Bytes, text: Bytes) {
    && payload != [91, 68, 79, 78, 69, 93]
    && if provider == Anthropic then d.anthropic(payload) == Some(AnthropicChunk(true, Some(text)))
       else d.openAI(payload) == Some(OpenAIChunk([text], false))
  }

  /** The text of a stream that sends a word at a time. */
  function WordAt(words: seq<Bytes>, i: nat): Bytes
    requires i < |words|
  {
    if i == 0 then words[0] else [32] + words[i]
  }

  /** A stream that sends n words, one a chunk, and then perhaps the end marker, is reported as n tokens. */
  lemma WordsAreCounted(provider: Provider, d: Decoder, parts: seq<Part>, rest: Bytes, calls: seq<OneRead>,
                        words: seq<Bytes>)
    requires (forall i | 0 <= i < |parts| :: Proper(parts[i])) && 10 !in rest
    requires BytesRead(calls) == Written(parts) + rest && UpToEOF(calls) == calls && SeesEOF(calls)
    requires forall i | 0 <= i < |words| :: IsWord(words[i])
    requires |Carried(parts)| == |words|
             || (|Carried(parts)| == |words| + 1 && Carried(parts)[|words|] == [91, 68, 79, 78, 69, 93])
    requires forall i | 0 <= i < |words| :: Decodes(provider, d, Carried(parts)[i], WordAt(words, i))
    ensures ReadAll(provider, d, calls).finals == [TokenMetrics(0, |words|, |words|)]
  {
    var sent := Carried(parts);
    WrittenReadsBack(provider, d, parts, rest, calls);
    ChunkIndependence(provider, d, calls);
    FinalFiresOnce(provider, d, calls);
    TextIsWords(provider, d, sent, words);
    FieldsOfJoin(words);
  }

  lemma TextIsWords(provider: Provider, d: Decoder, sent: seq<Bytes>, words: seq<Bytes>)
    requires |sent| == |words| || (|sent| == |words| + 1 && sent[|words|] == [91, 68, 79, 78, 69, 93])
    requires forall i | 0 <= i < |words| :: Decodes(provider, d, sent[i], WordAt(words, i))
    ensures AbsorbAll(provider, d, sent) == Join(words)
  {
    TextSoFar(provider, d, sent, words, |words|);
    assert words[..|words|] == words && sent[..|sent|] == sent;
    if |sent| > |words| {
      assert sent[..|sent| - 1] == sent[..|words|];
    }
  }

  lemma {:induction false} TextSoFar(provider: Provider, d: Decoder, sent: seq<Bytes>, words: seq<Bytes>, n: nat)
    requires n <= |words| <= |sent|
    requires forall i | 0 <= i < |words| :: Decodes(provider, d, sent[i], WordAt(words, i))
    ensures AbsorbAll(provider, d, sent[..n]) == Join(words[..n])
  {
    if n > 0 {
      TextSoFar(provider, d, sent, words, n - 1);
      assert sent[..n][..n - 1] == sent[..n - 1] && words[..n][..n - 1] == words[..n - 1];
      JoinOneMore(words[..n]);
      AbsorbsPiece(provider, d, AbsorbAll(provider, d, sent[..n - 1]), sent[n - 1], WordAt(words, n - 1));
    }
  }

  lemma AbsorbsPiece(provider: Provider, d: Decoder, completion: Bytes, payload: Bytes, text: Bytes)
    requires Decodes(provider, d, payload, text)
    ensures Absorb(provider, d, completion, payload) == completion + text
  {
    assert [text][..0] == [] && Concat([text]) == text;
  }

  lemma {:induction false} JoinOneMore(words: seq<Bytes>)
    requires words != []
    ensures Join(words) == Join(words[..|words| - 1]) + WordAt(words, |words| - 1)
    decreases |words|
  {
    var n := |words| - 1;
    if n > 0 {
      JoinOneMore(words[1..]);
      assert words[1..][..n - 1] == words[..n][1..];
      assert n == 1 ==> words[1..] == [words[1]];
    }
  }

  /** What a single payload does to the text. The end marker and what cannot be decoded do nothing; an Anthropic chunk
      adds the text of a block delta; any other chunk adds its contents one after another, or, if it reports usage,
      leaves nothing. */
  lemma AbsorbMeaning(provider: Provider, d: Decoder, completion: Bytes, payload: Bytes)
    ensures var after := Absorb(provider, d, completion, payload);
            && (payload == [91, 68, 79, 78, 69, 93] ==> after == completion)
            && (payload != [91, 68, 79, 78, 69, 93] && provider == Anthropic ==>
                  match d.anthropic(payload)
                  case Some(AnthropicChunk(true, Some(text))) => after == completion + text
                  case _ => after == completion)
            && (payload != [91, 68, 79, 78, 69, 93] && provider != Anthropic ==>
                  match d.openAI(payload)
                  case Some(OpenAIChunk(_, true)) => after == []
                  case Some(OpenAIChunk(contents, false)) => after == completion + Concat(contents)
                  case None => after == completion)
  {
  }
}
