/** Shortening a long conversation to its system message, a summary line and the latest messages. */
module Chopper {
  import opened ByteText
  import opened Numerals
  import opened Options

  datatype Message = Message(role: string, content: Bytes)

  const SYSTEM: string := "system"
  const BEFORE_COUNT: Bytes := Ascii("[... truncated ")
  const BEFORE_TOKENS: Bytes := Ascii(" historical messages (~")
  const AFTER_TOKENS: Bytes := Ascii(" tokens) ...]")

  function Max(a: int, b: int): int {
    if a >= b then a else b
  }

  function OrDefault(n: int, default: int): int {
    if n <= 0 then default else n
  }

  function Chars(s: seq<Message>): nat {
    if s == [] then 0 else Chars(s[..|s| - 1]) + |s[|s| - 1].content|
  }

  /** The position of the first system message, or -1. */
  function SystemIndex(s: seq<Message>): (i: int)
    ensures -1 <= i < |s|
    ensures i >= 0 ==> s[i].role == SYSTEM
    ensures forall k | 0 <= k < (if i >= 0 then i else |s|) :: s[k].role != SYSTEM
  {
    if s == [] then -1
    else
      var i := SystemIndex(s[..|s| - 1]);
      if i >= 0 then i else if s[|s| - 1].role == SYSTEM then |s| - 1 else -1
  }

  function SummaryLine(dropped: int, chars: int, divisor: int): Bytes
    requires divisor > 0
  {
    BEFORE_COUNT + Printed(dropped) + BEFORE_TOKENS + Printed(chars / divisor) + AFTER_TOKENS
  }

  /** What is kept of a conversation and how many messages the summary says are gone. */
  datatype Plan = Plan(lead: seq<Message>, dropped: nat, tail: seq<Message>)

  function PlanFor(s: seq<Message>, keepRecent: int): Plan
    requires keepRecent > 0
  {
    var n, i := |s|, SystemIndex(s);
    var recentFrom := Max(0, n - keepRecent);
    if i < 0 then Plan([], recentFrom, s[recentFrom..])
    else if i < n - keepRecent then Plan([s[i]], recentFrom - 1, s[recentFrom..])
    else Plan([s[i]], recentFrom, s[i + 1..])
  }

  function Summary(dropped: nat, chars: nat, divisor: int): Message
    requires divisor > 0
  {
    Message(SYSTEM, SummaryLine(dropped, chars, divisor))
  }

  function Assemble(p: Plan, chars: nat, divisor: int): seq<Message>
    requires divisor > 0
  {
    p.lead + (if p.dropped > 0 then [Summary(p.dropped, chars, divisor)] else []) + p.tail
  }

  /** The messages after chopping, with the defaults for limits that are not positive. */
  function Chopped(s: seq<Message>, maxMessages: int, keepRecent: int, divisor: int): seq<Message> {
    if |s| <= OrDefault(maxMessages, 20) then s
    else Assemble(PlanFor(s, OrDefault(keepRecent, 10)), Chars(s), OrDefault(divisor, 4))
  }

  /** The tokens saved: the quotient truncated toward zero, and never negative. */
  function TokensSaved(before: nat, after: nat, divisor: int): nat
    requires divisor > 0
  {
    if before <= after then 0 else (before - after) / divisor
  }

  /** The whole tokens in the characters freed, or none. */
  ghost predicate Saves(saved: int, freed: int, perToken: int) {
    if freed <= 0 then saved == 0 else saved >= 0 && saved * perToken <= freed < (saved + 1) * perToken
  }

  lemma SavedMeaning(before: nat, after: nat, perToken: int)
    requires perToken > 0
    ensures Saves(TokensSaved(before, after, perToken), before - after, perToken)
  {
    if before > after {
      QuotientBounds(before - after, perToken);
    }
  }

  lemma QuotientBounds(n: nat, d: int)
    requires d > 0
    ensures n / d >= 0 && n / d * d <= n < (n / d + 1) * d
  {
  }

  predicate Rewrites(request: Option<seq<Message>>, maxMessages: int) {
    request.Some? && |request.value| > OrDefault(maxMessages, 20)
  }

  /** The request as decoded, or none if the body is not a request; the result is the new messages, or none when the
      body stays as it is. */
  method ChopMessages(request: Option<seq<Message>>, maxMessages: int, keepRecent: int, divisor: int)
    returns (rewritten: Option<seq<Message>>, saved: int)
    requires request.Some? ==> Chars(request.value) < -MIN_INT64 && |request.value| < -MIN_INT64
    ensures rewritten == if Rewrites(request, maxMessages)
                         then Some(Chopped(request.value, maxMessages, keepRecent, divisor)) else None
    ensures saved == if rewritten.Some?
                     then TokensSaved(Chars(request.value), Chars(rewritten.value), OrDefault(divisor, 4)) else 0
    ensures rewritten.Some? <==> request.Some? && |request.value| > if maxMessages <= 0 then 20 else maxMessages
    ensures rewritten.Some? ==>
              var keep, perToken := if keepRecent <= 0 then 10 else keepRecent, if divisor <= 0 then 4 else divisor;
              ChoppedTo(request.value, keep, perToken, rewritten.value, saved)
    ensures rewritten.None? ==> saved == 0
  {
    var limit := if maxMessages <= 0 then 20 else maxMessages;
    var keep := if keepRecent <= 0 then 10 else keepRecent;
    var perToken := if divisor <= 0 then 4 else divisor;
    if request.None? || |request.value| <= limit {
      return None, 0;
    }
    var s := request.value;
    var originalLen := CountChars(s);
    var kept := Keep(s, keep, originalLen, perToken);
    var newLen := CountChars(kept);
    saved := Quotient(originalLen, newLen, perToken);
    ChoppingMeaning(s, keep, perToken);
    rewritten := Some(kept);
  }

  method Quotient(originalLen: nat, newLen: nat, divisor: int) returns (saved: int)
    requires divisor > 0
    ensures saved == TokensSaved(originalLen, newLen, divisor)
  {
    saved := if originalLen >= newLen then (originalLen - newLen) / divisor else -((newLen - originalLen) / divisor);
    if saved < 0 { saved := 0; }
  }

  method CountChars(s: seq<Message>) returns (total: nat)
    ensures total == Chars(s)
  {
    total := 0;
    for i := 0 to |s|
      invariant total == Chars(s[..i])
    {
      assert s[..i + 1][..i] == s[..i];
      total := total + |s[i].content|;
    }
    assert s[..|s|] == s;
  }

  method Keep(s: seq<Message>, keep: int, originalLen: nat, divisor: int) returns (kept: seq<Message>)
    requires keep > 0 && divisor > 0 && originalLen < -MIN_INT64 && |s| < -MIN_INT64
    ensures kept == Assemble(PlanFor(s, keep), originalLen, divisor)
  {
    var systemIdx := FindSystem(s);
    if systemIdx >= 0 {
      kept := KeepSystem(s, systemIdx, keep, originalLen, divisor);
    } else {
      kept := KeepLatest(s, keep, originalLen, divisor);
    }
  }

  method KeepSystem(s: seq<Message>, systemIdx: nat, keep: int, originalLen: nat, divisor: int)
    returns (kept: seq<Message>)
    requires keep > 0 && divisor > 0 && originalLen < -MIN_INT64 && |s| < -MIN_INT64
    requires systemIdx == SystemIndex(s)
    ensures kept == Assemble(PlanFor(s, keep), originalLen, divisor)
  {
    var n := |s|;
    kept := [s[systemIdx]];
    var dropped := n - keep;
    if systemIdx < n - keep { dropped := n - keep - 1; }
    if dropped < 0 { dropped := 0; }
    var tailStart := n - keep;
    if tailStart <= systemIdx { tailStart := systemIdx + 1; }
    ghost var plan := Plan([s[systemIdx]], dropped, s[tailStart..]);
    assert PlanFor(s, keep) == plan;
    kept := kept + s[tailStart..];
    if dropped > 0 {
      var summary := SummaryMessage(dropped, originalLen, divisor);
      var insertAt := 1;
      if insertAt > |kept| { insertAt := |kept|; }
      kept := kept[..insertAt] + [summary] + kept[insertAt..];
      assert kept == plan.lead + [summary] + plan.tail;
      WithSummary(plan, summary, originalLen, divisor);
    } else {
      WithoutSummary(plan, originalLen, divisor);
    }
  }

  lemma WithSummary(p: Plan, summary: Message, chars: nat, divisor: int)
    requires divisor > 0 && p.dropped > 0 && summary == Summary(p.dropped, chars, divisor)
    ensures Assemble(p, chars, divisor) == p.lead + [summary] + p.tail
  {
  }

  lemma WithoutSummary(p: Plan, chars: nat, divisor: int)
    requires divisor > 0 && p.dropped == 0
    ensures Assemble(p, chars, divisor) == p.lead + p.tail
  {
  }

  method KeepLatest(s: seq<Message>, keep: int, originalLen: nat, divisor: int) returns (kept: seq<Message>)
    requires keep > 0 && divisor > 0 && originalLen < -MIN_INT64 && |s| < -MIN_INT64
    requires SystemIndex(s) < 0
    ensures kept == Assemble(PlanFor(s, keep), originalLen, divisor)
  {
    var n := |s|;
    var start := n - keep;
    if start < 0 { start := 0; }
    kept := s[start..];
    ghost var plan := Plan([], start, s[start..]);
    assert PlanFor(s, keep) == plan;
    var dropped := n - keep;
    if dropped > 0 {
      var summary := SummaryMessage(dropped, originalLen, divisor);
      kept := [summary] + kept;
      assert kept == plan.lead + [summary] + plan.tail;
      WithSummary(plan, summary, originalLen, divisor);
    } else {
      assert kept == plan.lead + plan.tail;
      WithoutSummary(plan, originalLen, divisor);
    }
  }

  method FindSystem(s: seq<Message>) returns (systemIdx: int)
    ensures systemIdx == SystemIndex(s)
  {
    systemIdx := -1;
    for i := 0 to |s|
      invariant systemIdx == -1 && forall k | 0 <= k < i :: s[k].role != SYSTEM
    {
      if s[i].role == SYSTEM {
        systemIdx := i;
        break;
      }
    }
  }

  method SummaryMessage(dropped: int, chars: int, divisor: int) returns (summary: Message)
    requires divisor > 0 && 0 <= dropped < -MIN_INT64 && 0 <= chars < -MIN_INT64
    ensures summary == Summary(dropped, chars, divisor)
  {
    QuotientSmaller(chars, divisor);
    var count := Itoa(dropped);
    var tokens := Itoa(chars / divisor);
    summary := Message(SYSTEM, BEFORE_COUNT + count + BEFORE_TOKENS + tokens + AFTER_TOKENS);
  }

  lemma QuotientSmaller(a: nat, b: int)
    requires b > 0
    ensures 0 <= a / b <= a
  {
    if a / b > a {
      assert (a / b) * b >= (a + 1) * b >= a + 1 by {
        ProductGrows(a / b, a + 1, b);
      }
    }
  }

  lemma ProductGrows(p: nat, q: nat, b: nat)
    requires p >= q && b >= 1
    ensures p * b >= q * b >= q
  {
  }

  // ----- what chopping keeps -----

  /** The originals that survive and the number in the summary add up to the input exactly when the first system
      message is absent or not strictly inside the latest messages. */
  lemma ChopConserves(s: seq<Message>, keepRecent: int)
    requires keepRecent > 0
    ensures var p := PlanFor(s, keepRecent);
            |p.lead| + |p.tail| + p.dropped == |s| <==> SystemIndex(s) <= Max(0, |s| - keepRecent)
  {
  }

  /** In that case the system message comes first and the latest messages all survive, in order. */
  lemma RecentSurvive(s: seq<Message>, keepRecent: int)
    requires keepRecent > 0 && SystemIndex(s) <= Max(0, |s| - keepRecent)
    ensures var p, recent := PlanFor(s, keepRecent), s[Max(0, |s| - keepRecent)..];
            && (SystemIndex(s) >= 0 ==> p.lead == [s[SystemIndex(s)]])
            && (p.tail == recent || p.lead + p.tail == recent)
  {
    var i := SystemIndex(s);
    if i >= 0 && i == Max(0, |s| - keepRecent) {
      HeadAndTail(s, i);
    }
  }

  lemma HeadAndTail(s: seq<Message>, i: nat)
    requires i < |s|
    ensures [s[i]] + s[i + 1..] == s[i..]
  {
  }

  /** Otherwise messages before the system message vanish without being counted. */
  lemma MessagesVanish(s: seq<Message>, keepRecent: int)
    requires keepRecent > 0 && SystemIndex(s) > Max(0, |s| - keepRecent)
    ensures var p := PlanFor(s, keepRecent);
            |p.lead| + |p.tail| + p.dropped == |s| - (SystemIndex(s) - Max(0, |s| - keepRecent))
  {
  }

  /** At most `keepRecent + 2` messages come out of a rewrite, so a second chop finds nothing to do when that fits the
      limit. */
  lemma ChopIsIdempotent(s: seq<Message>, maxMessages: int, keepRecent: int, divisor: int)
    ensures var once, keep := Chopped(s, maxMessages, keepRecent, divisor), OrDefault(keepRecent, 10);
            && (|s| > OrDefault(maxMessages, 20) ==> |once| <= keep + 2)
            && (keep + 2 <= OrDefault(maxMessages, 20) ==> Chopped(once, maxMessages, keepRecent, divisor) == once)
  {
  }

  /** Every conversation is left alone by a second chop if and only if `keepRecent + 2 <= maxMessages`. */
  lemma SecondChopSettles(maxMessages: int, keepRecent: int, divisor: int)
    ensures (forall s :: Settled(s, maxMessages, keepRecent, divisor))
       <==> OrDefault(keepRecent, 10) + 2 <= OrDefault(maxMessages, 20)
  {
    if OrDefault(keepRecent, 10) + 2 <= OrDefault(maxMessages, 20) {
      forall s ensures Settled(s, maxMessages, keepRecent, divisor) {
        ChopIsIdempotent(s, maxMessages, keepRecent, divisor);
      }
    } else {
      SecondChopForgets(maxMessages, keepRecent, divisor);
    }
  }

  predicate Settled(s: seq<Message>, maxMessages: int, keepRecent: int, divisor: int) {
    var once := Chopped(s, maxMessages, keepRecent, divisor);
    Chopped(once, maxMessages, keepRecent, divisor) == once
  }

  /** A system message and three messages more than are kept. */
  function ThreeTooMany(keep: nat): seq<Message> {
    [Message(SYSTEM, [])] + seq(keep + 3, i => Message("user", []))
  }

  /** Otherwise a second chop can replace the count by a smaller one: three messages are gone, and the summary says
      one. */
  lemma SecondChopForgets(maxMessages: int, keepRecent: int, divisor: int)
    requires OrDefault(keepRecent, 10) + 2 > OrDefault(maxMessages, 20)
    ensures var once := Chopped(ThreeTooMany(OrDefault(keepRecent, 10)), maxMessages, keepRecent, divisor);
            var twice := Chopped(once, maxMessages, keepRecent, divisor);
            && once != twice && |once| >= 2 && |twice| >= 2
            && CountAfter(BEFORE_COUNT, once[1].content) == Some(3)
            && CountAfter(BEFORE_COUNT, twice[1].content) == Some(1)
    ensures !Settled(ThreeTooMany(OrDefault(keepRecent, 10)), maxMessages, keepRecent, divisor)
  {
    var s := ThreeTooMany(OrDefault(keepRecent, 10));
    TwoChops(s, Chopped(s, maxMessages, keepRecent, divisor), maxMessages, keepRecent, divisor);
  }

  lemma TwoChops(s: seq<Message>, once: seq<Message>, maxMessages: int, keepRecent: int, divisor: int)
    requires OrDefault(keepRecent, 10) + 2 > OrDefault(maxMessages, 20)
    requires |s| == OrDefault(keepRecent, 10) + 4 && s[0].role == SYSTEM
    requires once == Chopped(s, maxMessages, keepRecent, divisor)
    ensures var twice := Chopped(once, maxMessages, keepRecent, divisor);
            && once != twice && |once| >= 2 && |twice| >= 2
            && CountAfter(BEFORE_COUNT, once[1].content) == Some(3)
            && CountAfter(BEFORE_COUNT, twice[1].content) == Some(1)
  {
    ChopBehindSystem(s, maxMessages, keepRecent, divisor);
    ChopBehindSystem(once, maxMessages, keepRecent, divisor);
  }

  /** A conversation that starts with its system message and has more than one message too many. */
  lemma ChopBehindSystem(s: seq<Message>, maxMessages: int, keepRecent: int, divisor: int)
    requires s != [] && s[0].role == SYSTEM && |s| > OrDefault(maxMessages, 20) && |s| >= OrDefault(keepRecent, 10) + 2
    ensures var once, keep := Chopped(s, maxMessages, keepRecent, divisor), OrDefault(keepRecent, 10);
            && |once| == keep + 2 && once[0] == s[0]
            && CountAfter(BEFORE_COUNT, once[1].content) == Some(|s| - keep - 1)
  {
    var keep := OrDefault(keepRecent, 10);
    PlanBehindSystem(s, keep);
    SummaryAt(PlanFor(s, keep), Chars(s), OrDefault(divisor, 4));
    AssembledAt(PlanFor(s, keep), Chars(s), OrDefault(divisor, 4));
  }

  lemma PlanBehindSystem(s: seq<Message>, keep: int)
    requires s != [] && s[0].role == SYSTEM && 0 < keep < |s|
    ensures PlanFor(s, keep) == Plan([s[0]], |s| - keep - 1, s[|s| - keep..])
  {
    FirstIsSystem(s);
  }

  lemma FirstIsSystem(s: seq<Message>)
    requires s != [] && s[0].role == SYSTEM
    ensures SystemIndex(s) == 0
  {
  }

  // ----- the whole output, by position -----

  /** Message `i` is the first system message. */
  ghost predicate LeadsAt(s: seq<Message>, i: int) {
    0 <= i < |s| && s[i].role == "system" && forall k | 0 <= k < i :: s[k].role != "system"
  }

  /** What survives: the first system message, and of the latest `keep` messages those after it. */
  ghost predicate Survives(s: seq<Message>, keep: int, i: int) {
    LeadsAt(s, i) || (i >= |s| - keep && forall k | LeadsAt(s, k) :: i > k)
  }

  /** The survivors among the first `m` messages, in order. */
  ghost function Survivors(s: seq<Message>, keep: int, m: nat): seq<Message>
    requires m <= |s|
  {
    if m == 0 then [] else Survivors(s, keep, m - 1) + if Survives(s, keep, m - 1) then [s[m - 1]] else []
  }

  lemma LeaderIs(s: seq<Message>, i: int)
    ensures LeadsAt(s, i) <==> i >= 0 && i == SystemIndex(s)
  {
  }

  /** Where the tail of a plan begins. */
  function TailFrom(s: seq<Message>, keep: int): (k: nat)
    requires keep > 0
    ensures SystemIndex(s) < k <= |s|
  {
    if SystemIndex(s) >= |s| - keep then SystemIndex(s) + 1 else Max(0, |s| - keep)
  }

  lemma {:induction false} SurvivorsSoFar(s: seq<Message>, keep: int, m: nat)
    requires keep > 0 && m <= |s|
    ensures var i, from := SystemIndex(s), TailFrom(s, keep);
            Survivors(s, keep, m) == (if 0 <= i < m then [s[i]] else []) + if m <= from then [] else s[from..m]
  {
    if m > 0 {
      SurvivorsSoFar(s, keep, m - 1);
      SurvivesAt(s, keep, m - 1);
      var i, from := SystemIndex(s), TailFrom(s, keep);
      if m > from {
        SliceGrows(s, from, m);
      }
    }
  }

  lemma SliceGrows(s: seq<Message>, from: nat, m: nat)
    requires from < m <= |s|
    ensures (if m - 1 <= from then [] else s[from..m - 1]) + [s[m - 1]] == s[from..m]
  {
  }

  lemma SurvivesAt(s: seq<Message>, keep: int, i: nat)
    requires keep > 0 && i < |s|
    ensures Survives(s, keep, i) <==> i == SystemIndex(s) || i >= TailFrom(s, keep)
  {
    LeaderIs(s, i);
    LeaderIs(s, SystemIndex(s));
    forall k ensures LeadsAt(s, k) <==> k >= 0 && k == SystemIndex(s) {
      LeaderIs(s, k);
    }
  }

  /** A plan keeps exactly the survivors, in order. */
  lemma PlanKeepsSurvivors(s: seq<Message>, keep: int)
    requires keep > 0
    ensures PlanFor(s, keep).lead + PlanFor(s, keep).tail == Survivors(s, keep, |s|)
  {
    SurvivorsSoFar(s, keep, |s|);
    assert s[TailFrom(s, keep)..|s|] == s[TailFrom(s, keep)..];
  }

  /** The line announces the two numbers. */
  ghost predicate Announces(line: Bytes, dropped: nat, tokens: nat) {
    exists a, b | Numeral(a, dropped) && Numeral(b, tokens) ::
      line == Ascii("[... truncated ") + a + Ascii(" historical messages (~") + b + Ascii(" tokens) ...]")
  }

  ghost predicate Numeral(digits: Bytes, n: nat) {
    AllDigits(digits) && digits != [] && Value(digits) == n
  }

  lemma SummaryAnnounces(dropped: nat, chars: nat, divisor: int)
    requires divisor > 0
    ensures Summary(dropped, chars, divisor).role == "system"
    ensures Announces(Summary(dropped, chars, divisor).content, dropped, chars / divisor)
  {
    var a, b := Digits(dropped), Digits(chars / divisor);
    ValueOfDigits(dropped);
    ValueOfDigits(chars / divisor);
    assert Numeral(a, dropped) && Numeral(b, chars / divisor);
    assert Summary(dropped, chars, divisor).content
        == Ascii("[... truncated ") + a + Ascii(" historical messages (~") + b + Ascii(" tokens) ...]");
  }

  function Contents(s: seq<Message>): seq<Bytes> {
    seq(|s|, i requires 0 <= i < |s| => s[i].content)
  }

  /** The characters of a conversation are those of its contents put together. */
  lemma {:induction false} CharsAreContents(s: seq<Message>)
    ensures Chars(s) == |Concat(Contents(s))|
  {
    if s != [] {
      var n := |s| - 1;
      CharsAreContents(s[..n]);
      assert Contents(s)[..n] == Contents(s[..n]);
    }
  }

  /** How many messages the summary says are gone: all but the latest, and not the system message if it is among those. */
  ghost predicate Gone(s: seq<Message>, keep: int, gone: nat)
    requires keep > 0
  {
    var older := |s| - keep;
    gone == if older <= 0 then 0 else if exists i | 0 <= i < older :: s[i].role == "system" then older - 1 else older
  }

  /** A conversation and what is left of it: the survivors, and a summary behind the system message, or in front of all
      others, if anything is gone. */
  ghost predicate Shortened(s: seq<Message>, keep: int, divisor: int, out: seq<Message>)
    requires keep > 0 && divisor > 0
  {
    var kept, at := Survivors(s, keep, |s|), if exists i :: LeadsAt(s, i) then 1 else 0;
    exists gone: nat | Gone(s, keep, gone) ::
      if gone == 0 then out == kept
      else
        && at <= |kept| && |out| == |kept| + 1 && out[..at] == kept[..at] && out[at + 1..] == kept[at..]
        && out[at].role == "system" && Announces(out[at].content, gone, |Concat(Contents(s))| / divisor)
  }

  lemma DroppedAreGone(s: seq<Message>, keep: int)
    requires keep > 0
    ensures Gone(s, keep, PlanFor(s, keep).dropped)
  {
    var older, i := |s| - keep, SystemIndex(s);
    if 0 <= i < older {
      assert s[i].role == "system";
    }
  }

  lemma AssembledFromSurvivors(s: seq<Message>, keep: int, divisor: int)
    requires keep > 0 && divisor > 0
    ensures Shortened(s, keep, divisor, Assemble(PlanFor(s, keep), Chars(s), divisor))
  {
    var p := PlanFor(s, keep);
    var kept, out := Survivors(s, keep, |s|), Assemble(p, Chars(s), divisor);
    PlanKeepsSurvivors(s, keep);
    DroppedAreGone(s, keep);
    CharsAreContents(s);
    LeadCounts(s, keep);
    if p.dropped > 0 {
      var summary := Summary(p.dropped, Chars(s), divisor);
      SummaryAnnounces(p.dropped, Chars(s), divisor);
      SummaryBehindLead(p.lead, summary, p.tail);
      assert out == p.lead + [summary] + p.tail;
    } else {
      assert out == p.lead + p.tail;
    }
  }

  /** The new messages, and the whole tokens in the characters freed. */
  ghost predicate ChoppedTo(s: seq<Message>, keep: int, divisor: int, out: seq<Message>, saved: int)
    requires keep > 0 && divisor > 0
  {
    Shortened(s, keep, divisor, out) && Saves(saved, |Concat(Contents(s))| - |Concat(Contents(out))|, divisor)
  }

  lemma ChoppingMeaning(s: seq<Message>, keep: int, divisor: int)
    requires keep > 0 && divisor > 0
    ensures var out := Assemble(PlanFor(s, keep), Chars(s), divisor);
            ChoppedTo(s, keep, divisor, out, TokensSaved(Chars(s), Chars(out), divisor))
  {
    var out := Assemble(PlanFor(s, keep), Chars(s), divisor);
    AssembledFromSurvivors(s, keep, divisor);
    CharsAreContents(s);
    CharsAreContents(out);
    SavedMeaning(Chars(s), Chars(out), divisor);
  }

  lemma LeadCounts(s: seq<Message>, keep: int)
    requires keep > 0
    ensures |PlanFor(s, keep).lead| == if exists i :: LeadsAt(s, i) then 1 else 0
  {
    if i :| LeadsAt(s, i) {
      LeaderIs(s, i);
    }
    LeaderIs(s, SystemIndex(s));
  }

  lemma SummaryBehindLead(lead: seq<Message>, summary: Message, tail: seq<Message>)
    ensures var out, kept, at := lead + [summary] + tail, lead + tail, |lead|;
            && |out| == |kept| + 1 && out[..at] == kept[..at] && out[at] == summary && out[at + 1..] == kept[at..]
  {
  }

  // ----- the printed count -----

  /** The leading run of digits. */
  function LeadingDigits(s: Bytes): (d: Bytes)
    ensures |d| <= |s| && d == s[..|d|] && AllDigits(d)
  {
    if s != [] && IsDigit(s[0]) then [s[0]] + LeadingDigits(s[1..]) else []
  }

  lemma {:induction false} LeadingDigitsOf(d: Bytes, rest: Bytes)
    requires AllDigits(d) && (rest == [] || !IsDigit(rest[0]))
    ensures LeadingDigits(d + rest) == d
  {
    if d == [] {
      assert d + rest == rest;
    } else {
      LeadingDigitsOf(d[1..], rest);
      assert (d + rest)[1..] == d[1..] + rest;
    }
  }

  /** The number a reader finds after the opening words `before`. */
  function CountAfter(before: Bytes, line: Bytes): Option<nat> {
    if before <= line && LeadingDigits(line[|before|..]) != []
    then Some(Value(LeadingDigits(line[|before|..])))
    else None
  }

  lemma CountAfterWords(before: Bytes, n: nat, rest: Bytes)
    requires rest == [] || !IsDigit(rest[0])
    ensures CountAfter(before, before + Digits(n) + rest) == Some(n)
  {
    var line := before + Digits(n) + rest;
    assert line[|before|..] == Digits(n) + rest;
    LeadingDigitsOf(Digits(n), rest);
    ValueOfDigits(n);
  }

  lemma Regroup(a: Bytes, b: Bytes, c: Bytes, d: Bytes, e: Bytes)
    ensures a + b + c + d + e == a + b + (c + d + e)
  {
  }

  /** The number in the summary is the number of dropped messages. */
  lemma CountReadsBack(dropped: nat, chars: nat, divisor: int)
    requires divisor > 0
    ensures CountAfter(BEFORE_COUNT, SummaryLine(dropped, chars, divisor)) == Some(dropped)
  {
    var rest := BEFORE_TOKENS + Printed(chars / divisor) + AFTER_TOKENS;
    assert rest[0] == BEFORE_TOKENS[0] == 32;
    Regroup(BEFORE_COUNT, Printed(dropped), BEFORE_TOKENS, Printed(chars / divisor), AFTER_TOKENS);
    CountAfterWords(BEFORE_COUNT, dropped, rest);
  }

  /** The survivors in the output and the number printed in its summary, if it has one, add up to the input exactly when
      the first system message is absent or not strictly inside the latest messages. */
  lemma OutputAccountsForInput(s: seq<Message>, maxMessages: int, keepRecent: int, divisor: int)
    requires |s| > OrDefault(maxMessages, 20)
    ensures var out, at := Chopped(s, maxMessages, keepRecent, divisor), if SystemIndex(s) >= 0 then 1 else 0;
            var keep := OrDefault(keepRecent, 10);
            if PlanFor(s, keep).dropped == 0 then
              |out| == |s| <==> SystemIndex(s) <= Max(0, |s| - keep)
            else
              && at < |out| && CountAfter(BEFORE_COUNT, out[at].content).Some?
              && (|out| - 1 + CountAfter(BEFORE_COUNT, out[at].content).value == |s|
                  <==> SystemIndex(s) <= Max(0, |s| - keep))
  {
    var p := PlanFor(s, OrDefault(keepRecent, 10));
    ChopConserves(s, OrDefault(keepRecent, 10));
    if p.dropped > 0 {
      SummaryAt(p, Chars(s), OrDefault(divisor, 4));
    }
    LeadOf(s, OrDefault(keepRecent, 10));
  }

  lemma LeadOf(s: seq<Message>, keepRecent: int)
    requires keepRecent > 0
    ensures |PlanFor(s, keepRecent).lead| == if SystemIndex(s) >= 0 then 1 else 0
  {
  }

  lemma SummaryAt(p: Plan, chars: nat, divisor: int)
    requires divisor > 0 && p.dropped > 0
    ensures var out := Assemble(p, chars, divisor);
            && |out| == |p.lead| + 1 + |p.tail|
            && CountAfter(BEFORE_COUNT, out[|p.lead|].content) == Some(p.dropped)
  {
    CountReadsBack(p.dropped, chars, divisor);
    AssembledAt(p, chars, divisor);
  }

  lemma AssembledAt(p: Plan, chars: nat, divisor: int)
    requires divisor > 0 && p.dropped > 0
    ensures var out := Assemble(p, chars, divisor);
            && |out| == |p.lead| + 1 + |p.tail|
            && out[|p.lead|] == Summary(p.dropped, chars, divisor)
            && (p.lead != [] ==> out[0] == p.lead[0])
  {
  }
}
