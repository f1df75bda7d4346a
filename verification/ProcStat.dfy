/** The parser of /proc/[pid]/stat, against a printer of the line format of proc_pid_stat(5). */
module ProcStat {
  import opened ByteText
  import opened Numerals
  import opened Options

  const LPAREN: byte := 40
  const RPAREN: byte := 41
  const PAGE: nat := 4096

  datatype ProcMetrics = ProcMetrics(pid: int, comm: Bytes, utime: nat, stime: nat, rss: nat, vsize: nat)

  datatype Error = NoClosingParen | NoOpeningParen | TooFewFields(count: nat) | BadNumber(name: string)

  datatype Result = Ok(metrics: ProcMetrics) | Err(error: Error)

  /** The position of the first `c`, or -1. */
  function IndexByte(s: Bytes, c: byte): (i: int)
    ensures -1 <= i < |s| && (i >= 0 ==> s[i] == c)
    ensures forall k | 0 <= k < (if i >= 0 then i else |s|) :: s[k] != c
  {
    if s == [] then -1
    else if s[0] == c then 0
    else
      var i := IndexByte(s[1..], c);
      if i < 0 then -1 else i + 1
  }

  /** The position of the last `c`, or -1. */
  function LastIndexByte(s: Bytes, c: byte): (i: int)
    ensures -1 <= i < |s| && (i >= 0 ==> s[i] == c)
    ensures forall k | i < k < |s| :: s[k] != c
  {
    if s == [] then -1
    else if s[|s| - 1] == c then |s| - 1
    else LastIndexByte(s[..|s| - 1], c)
  }

  /** The closing and the opening parenthesis are there, in order. */
  predicate HasComm(buf: Bytes) {
    0 <= IndexByte(buf, LPAREN) < LastIndexByte(buf, RPAREN)
  }

  /** A line that ends right at the closing parenthesis would make the source panic. */
  predicate NotTruncated(buf: Bytes) {
    HasComm(buf) ==> LastIndexByte(buf, RPAREN) + 2 <= |buf|
  }

  /** What follows the command and a space. */
  function AfterComm(buf: Bytes): Bytes
    requires HasComm(buf) && NotTruncated(buf)
  {
    buf[LastIndexByte(buf, RPAREN) + 2..]
  }

  /** The first of the four numbers that is not one. */
  function FirstBad(fields: seq<Bytes>): Option<string>
    requires |fields| >= 22
  {
    if ParseUint(fields[11]).None? then Some("utime")
    else if ParseUint(fields[12]).None? then Some("stime")
    else if ParseUint(fields[20]).None? then Some("vsize")
    else if ParseUint(fields[21]).None? then Some("rss_pages")
    else None
  }

  function Parsed(buf: Bytes, pid: int): Result
    requires NotTruncated(buf)
  {
    if LastIndexByte(buf, RPAREN) < 0 then Err(NoClosingParen)
    else if !HasComm(buf) then Err(NoOpeningParen)
    else Metrics(pid, buf[IndexByte(buf, LPAREN) + 1..LastIndexByte(buf, RPAREN)], Fields(AfterComm(buf)))
  }

  function Metrics(pid: int, comm: Bytes, fields: seq<Bytes>): Result {
    if |fields| < 22 then Err(TooFewFields(|fields|))
    else if FirstBad(fields).Some? then Err(BadNumber(FirstBad(fields).value))
    else Ok(ProcMetrics(pid, comm, ParseUint(fields[11]).value, ParseUint(fields[12]).value,
                        ParseUint(fields[21]).value * PAGE % UINT64, ParseUint(fields[20]).value))
  }

  /** The closure that parses a field unless an earlier one failed. */
  method ParseField(field: Bytes, name: string, dest: nat, err: Option<string>)
    returns (dest': nat, err': Option<string>)
    ensures err.Some? ==> dest' == dest && err' == err
    ensures err.None? && ParseUint(field).Some? ==> dest' == ParseUint(field).value && err' == None
    ensures err.None? && ParseUint(field).None? ==> err' == Some(name)
  {
    if err.Some? {
      return dest, err;
    }
    var n := ParseUint(field);
    if n.None? {
      return 0, Some(name);
    }
    return n.value, None;
  }

  method ParseProcStat(buf: Bytes, pid: int) returns (r: Result)
    requires NotTruncated(buf)
    ensures r == Parsed(buf, pid)
  {
    var rparen := LastIndexByte(buf, RPAREN);
    if rparen < 0 {
      return Err(NoClosingParen);
    }
    var lparen := IndexByte(buf, LPAREN);
    if lparen < 0 || lparen >= rparen {
      return Err(NoOpeningParen);
    }
    var comm := buf[lparen + 1..rparen];
    var rest := buf[rparen + 2..];
    var fields := Fields(rest);
    if |fields| < 22 {
      return Err(TooFewFields(|fields|));
    }
    var utime, stime, vsize, rss := 0, 0, 0, 0;
    var err: Option<string> := None;
    utime, err := ParseField(fields[11], "utime", utime, err);
    stime, err := ParseField(fields[12], "stime", stime, err);
    vsize, err := ParseField(fields[20], "vsize", vsize, err);
    rss, err := ParseField(fields[21], "rss_pages", rss, err);
    if err.Some? {
      return Err(BadNumber(err.value));
    }
    rss := rss * PAGE % UINT64;
    return Ok(ProcMetrics(pid, comm, utime, stime, rss, vsize));
  }

  /** What goes wrong, in the order in which it is noticed: no closing parenthesis; no opening one before it; fewer than 22
      fields; and then the first of the four numbers that is not one. Only if nothing does are there metrics. */
  lemma ErrorsInOrder(buf: Bytes, pid: int)
    requires NotTruncated(buf)
    ensures var r := Parsed(buf, pid);
            if 41 !in buf then r == Err(NoClosingParen)
            else if !HasComm(buf) then r == Err(NoOpeningParen)
            else
              var fields := Fields(AfterComm(buf));
              if |fields| < 22 then r == Err(TooFewFields(|fields|))
              else if ParseUint(fields[11]).None? then r == Err(BadNumber("utime"))
              else if ParseUint(fields[12]).None? then r == Err(BadNumber("stime"))
              else if ParseUint(fields[20]).None? then r == Err(BadNumber("vsize"))
              else if ParseUint(fields[21]).None? then r == Err(BadNumber("rss_pages"))
              else r.Ok? && r.metrics.pid == pid
    ensures HasComm(buf) <==>
              exists i, j | 0 <= i < j < |buf| :: buf[i] == 40 && buf[j] == 41 && 41 !in buf[j + 1..] && 40 !in buf[..i]
  {
    if HasComm(buf) {
      var i, j := IndexByte(buf, LPAREN), LastIndexByte(buf, RPAREN);
      assert buf[i] == 40 && buf[j] == 41 && 41 !in buf[j + 1..] && 40 !in buf[..i];
    }
    if i, j :| 0 <= i < j < |buf| && buf[i] == 40 && buf[j] == 41 && 41 !in buf[j + 1..] && 40 !in buf[..i] {
      FirstIs(buf, LPAREN, i);
      LastIs(buf, RPAREN, j);
    }
  }

  // ----- printing, and the round trip -----

  /** A line: the pid, the command in parentheses, the other fields, a newline. */
  function Printed(pid: nat, comm: Bytes, fields: seq<Bytes>): Bytes {
    Digits(pid) + [SPACE, LPAREN] + comm + [RPAREN, SPACE] + Line(fields)
  }

  /** A field after the command: a printable word without a closing parenthesis, as letters and numbers are. */
  ghost predicate PlainField(f: Bytes) {
    IsWord(f) && RPAREN !in f
  }

  lemma {:induction false} JoinHas(words: seq<Bytes>, c: byte)
    requires c in Join(words) && c != SPACE
    ensures exists i | 0 <= i < |words| :: c in words[i]
  {
    if |words| == 1 {
      assert c in words[0];
    } else if |words| > 1 {
      if c in words[0] {
      } else {
        JoinHas(words[1..], c);
        var i :| 0 <= i < |words| - 1 && c in words[1..][i];
        assert c in words[i + 1];
      }
    }
  }

  lemma FirstAt(a: Bytes, c: byte, b: Bytes)
    requires c !in a
    ensures IndexByte(a + [c] + b, c) == |a|
  {
    var s := a + [c] + b;
    FirstIs(s, c, |a|);
  }

  lemma FirstIs(s: Bytes, c: byte, n: nat)
    requires n < |s| && s[n] == c && c !in s[..n]
    ensures IndexByte(s, c) == n
  {
    assert forall k | 0 <= k < n :: s[k] == s[..n][k];
  }

  lemma LastAt(a: Bytes, c: byte, b: Bytes)
    requires c !in b
    ensures LastIndexByte(a + [c] + b, c) == |a|
  {
    var s := a + [c] + b;
    assert s[|a| + 1..] == b;
    LastIs(s, c, |a|);
  }

  lemma LastIs(s: Bytes, c: byte, n: nat)
    requires n < |s| && s[n] == c && c !in s[n + 1..]
    ensures LastIndexByte(s, c) == n
  {
    assert forall k | n < k < |s| :: s[k] == s[n + 1..][k - n - 1];
  }

  function Head(pid: nat): Bytes {
    Digits(pid) + [SPACE]
  }

  function Tail(fields: seq<Bytes>): Bytes {
    [SPACE] + Line(fields)
  }

  lemma OpenOfPrinted(pid: nat, comm: Bytes, fields: seq<Bytes>)
    ensures IndexByte(Printed(pid, comm, fields), LPAREN) == |Head(pid)|
  {
    var rest := comm + [RPAREN] + Tail(fields);
    assert Printed(pid, comm, fields) == Head(pid) + [LPAREN] + rest;
    FirstAt(Head(pid), LPAREN, rest);
  }

  lemma CloseOfPrinted(pid: nat, comm: Bytes, fields: seq<Bytes>)
    requires forall i | 0 <= i < |fields| :: PlainField(fields[i])
    ensures LastIndexByte(Printed(pid, comm, fields), RPAREN) == |Head(pid)| + 1 + |comm|
  {
    var before, tail := Head(pid) + [LPAREN] + comm, Tail(fields);
    assert Printed(pid, comm, fields) == before + [RPAREN] + tail;
    assert RPAREN !in tail by {
      if RPAREN in Join(fields) {
        JoinHas(fields, RPAREN);
      }
    }
    LastAt(before, RPAREN, tail);
  }

  lemma SlicesOfPrinted(pid: nat, comm: Bytes, fields: seq<Bytes>)
    ensures var buf, open := Printed(pid, comm, fields), |Head(pid)|;
            && open + 1 + |comm| + 2 <= |buf|
            && buf[open + 1..open + 1 + |comm|] == comm
            && buf[open + 1 + |comm| + 2..] == Line(fields)
  {
    var open := |Head(pid)|;
    var before, after := Head(pid) + [LPAREN], [RPAREN, SPACE] + Line(fields);
    var buf := before + comm + after;
    assert Printed(pid, comm, fields) == buf;
    assert buf[|before| + |comm| + 2..] == after[2..];
  }

  /** The fields and the newline. */
  function Line(fields: seq<Bytes>): Bytes {
    Join(fields) + [NEWLINE]
  }

  lemma FieldsOfLine(fields: seq<Bytes>)
    requires forall i | 0 <= i < |fields| :: PlainField(fields[i])
    ensures Fields(Line(fields)) == fields
  {
    assert Line(fields) == Join(fields) + [NEWLINE] + [];
    FieldsJoin(Join(fields), NEWLINE, []);
    FieldsOfJoin(fields);
  }

  /** The parts of a line as the parser sees them. */
  ghost predicate HasParts(buf: Bytes, comm: Bytes, rest: Bytes) {
    && HasComm(buf) && NotTruncated(buf)
    && buf[IndexByte(buf, LPAREN) + 1..LastIndexByte(buf, RPAREN)] == comm
    && AfterComm(buf) == rest
  }

  lemma PartsFrom(buf: Bytes, open: nat, comm: Bytes, rest: Bytes)
    requires IndexByte(buf, LPAREN) == open && LastIndexByte(buf, RPAREN) == open + 1 + |comm|
    requires open + 1 + |comm| + 2 <= |buf| && buf[open + 1..open + 1 + |comm|] == comm
    requires buf[open + 1 + |comm| + 2..] == rest
    ensures HasParts(buf, comm, rest)
  {
  }

  /** Both parentheses are found whatever the command contains, and the rest of the line is its fields. */
  lemma PrintedParts(pid: nat, comm: Bytes, fields: seq<Bytes>)
    requires forall i | 0 <= i < |fields| :: PlainField(fields[i])
    ensures HasParts(Printed(pid, comm, fields), comm, Line(fields)) && Fields(Line(fields)) == fields
  {
    OpenOfPrinted(pid, comm, fields);
    CloseOfPrinted(pid, comm, fields);
    SlicesOfPrinted(pid, comm, fields);
    PartsFrom(Printed(pid, comm, fields), |Head(pid)|, comm, Line(fields));
    FieldsOfLine(fields);
  }

  /** The fields of a line that carries these numbers in its places 14, 15, 23 and 24. */
  ghost predicate Carries(fields: seq<Bytes>, utime: nat, stime: nat, vsize: nat, rss: nat) {
    && |fields| >= 22 && (forall i | 0 <= i < |fields| :: PlainField(fields[i]))
    && fields[11] == Digits(utime) && fields[12] == Digits(stime)
    && fields[20] == Digits(vsize) && fields[21] == Digits(rss)
    && utime < UINT64 && stime < UINT64 && vsize < UINT64 && rss < UINT64
  }

  /** Printing and then parsing gives back the command, whatever bytes it contains, and the four numbers; the
      resident size is the number of bytes exactly when that fits 64 bits. */
  lemma RoundTrip(pid: nat, comm: Bytes, fields: seq<Bytes>, utime: nat, stime: nat, vsize: nat, rss: nat)
    requires Carries(fields, utime, stime, vsize, rss)
    ensures NotTruncated(Printed(pid, comm, fields))
    ensures Parsed(Printed(pid, comm, fields), pid)
         == Ok(ProcMetrics(pid, comm, utime, stime, rss * 4096 % 18_446_744_073_709_551_616, vsize))
    ensures rss * 4096 % 18_446_744_073_709_551_616 == rss * 4096 <==> rss * 4096 < 18_446_744_073_709_551_616
  {
    PrintedParts(pid, comm, fields);
    PartsParse(Printed(pid, comm, fields), pid, comm, Line(fields), fields);
    MetricsOf(pid, comm, fields, utime, stime, vsize, rss);
    WrapsExactly(rss * PAGE);
  }

  lemma PartsParse(buf: Bytes, pid: int, comm: Bytes, rest: Bytes, fields: seq<Bytes>)
    requires HasParts(buf, comm, rest) && Fields(rest) == fields
    ensures NotTruncated(buf) && Parsed(buf, pid) == Metrics(pid, comm, fields)
  {
  }

  lemma WrapsExactly(n: nat)
    ensures n % UINT64 == n <==> n < UINT64
  {
  }

  lemma MetricsOf(pid: nat, comm: Bytes, fields: seq<Bytes>, utime: nat, stime: nat, vsize: nat, rss: nat)
    requires Carries(fields, utime, stime, vsize, rss)
    ensures Metrics(pid, comm, fields) == Ok(ProcMetrics(pid, comm, utime, stime, rss * PAGE % UINT64, vsize))
  {
    NumbersParse(fields, utime, stime, vsize, rss);
  }

  lemma NumbersParse(fields: seq<Bytes>, utime: nat, stime: nat, vsize: nat, rss: nat)
    requires Carries(fields, utime, stime, vsize, rss)
    ensures FirstBad(fields) == None
    ensures ParseUint(fields[11]) == Some(utime) && ParseUint(fields[12]) == Some(stime)
    ensures ParseUint(fields[20]) == Some(vsize) && ParseUint(fields[21]) == Some(rss)
  {
    ParsePrinted(utime);
    ParsePrinted(stime);
    ParsePrinted(vsize);
    ParsePrinted(rss);
  }

  /** The fields of a line from a state letter and the numbers that follow it; some of them may be negative. */
  function NumberFields(state: byte, numbers: seq<int>): seq<Bytes> {
    [[state]] + seq(|numbers|, i requires 0 <= i < |numbers| => Numerals.Printed(numbers[i]))
  }

  lemma NumbersArePlain(n: int)
    ensures PlainField(Numerals.Printed(n))
  {
    if n < 0 && n != MIN_INT64 {
      assert Numerals.Printed(n) == [MINUS] + Digits(-n);
    }
  }

  /** A line printed from a letter and numbers comes back, its times and sizes from their places. */
  lemma NumbersRoundTrip(pid: nat, comm: Bytes, state: byte, numbers: seq<int>)
    requires 65 <= state <= 122 && |numbers| >= 21
    requires forall i | i in {10, 11, 19, 20} :: 0 <= numbers[i] < 18_446_744_073_709_551_616
    ensures var line := Printed(pid, comm, NumberFields(state, numbers));
            && NotTruncated(line)
            && Parsed(line, pid) == Ok(ProcMetrics(pid, comm, numbers[10], numbers[11],
                                                   numbers[20] * 4096 % 18_446_744_073_709_551_616, numbers[19]))
  {
    var fields := NumberFields(state, numbers);
    forall i | 0 <= i < |fields| ensures PlainField(fields[i]) {
      if i > 0 {
        NumbersArePlain(numbers[i - 1]);
      }
    }
    RoundTrip(pid, comm, fields, numbers[10], numbers[11], numbers[19], numbers[20]);
  }
}
