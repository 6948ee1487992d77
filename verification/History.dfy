/**
 Fitting a conversation to its budget: which messages stay, and what the marker in place of the others says.
 The result is the conversation itself, or a marker and a verbatim suffix that starts an exchange; and no clean
 history file that was referenced before is lost.
 */
module History {
  import opened Common
  import opened ChunkKeys
  import opened HistoryFiles

  datatype Role = System | User | Assistant | Tool

  /** A message's content: a string, or parts of which the text parts are readable. */
  datatype Content = Plain(text: string) | Parts(texts: seq<string>, other: string)

  datatype Message = Message(role: Role, content: Content)

  function Concat(texts: seq<string>): string {
    if texts == [] then "" else Concat(texts[..|texts| - 1]) + texts[|texts| - 1]
  }

  /** `messageText`. */
  function TextOf(m: Message): string {
    if m.content.Plain? then m.content.text else Concat(m.content.texts)
  }

  /** `totalTokens`, over whatever one message is estimated to take. */
  function Total(ms: seq<Message>, tokens: Message -> nat): nat {
    if ms == [] then 0 else Total(ms[..|ms| - 1], tokens) + tokens(ms[|ms| - 1])
  }

  lemma {:induction false} TotalSplits(a: seq<Message>, b: seq<Message>, tokens: Message -> nat)
    ensures Total(a + b, tokens) == Total(a, tokens) + Total(b, tokens)
  {
    if b == [] {
      NoTail(a);
    } else {
      var n := |b| - 1;
      assert (a + b)[..|a| + n] == a + b[..n] && (a + b)[|a| + n] == b[n];
      TotalSplits(a, b[..n], tokens);
    }
  }

  // ---- Recent exchanges ----

  const MAX_RECENT_TOKENS: nat := 15_000

  /** The user message at or before `from`, or the start. */
  function ExchangeStart(ms: seq<Message>, from: nat): (r: nat)
    requires from <= |ms|
    ensures r <= from && (r > 0 ==> r < |ms| && ms[r].role == User)
    ensures forall k :: r < k <= from && k < |ms| ==> ms[k].role != User
  {
    if from == 0 then 0 else if from < |ms| && ms[from].role == User then from else ExchangeStart(ms, from - 1)
  }

  method ExchangeStartLoop(ms: seq<Message>, from: nat) returns (r: nat)
    requires from <= |ms|
    ensures r == ExchangeStart(ms, from)
  {
    var index: nat := from;
    while index > 0
      invariant index <= from && ExchangeStart(ms, index) == ExchangeStart(ms, from)
    {
      if index < |ms| && ms[index].role == User {
        return index;
      }
      index := index - 1;
    }
    return 0;
  }

  function Allowance(budget: int): int {
    if budget / 4 < MAX_RECENT_TOKENS then budget / 4 else MAX_RECENT_TOKENS
  }

  /** Exchanges are taken from the end while they fit; the last one whatever its size. */
  function RecentFrom(ms: seq<Message>, tokens: Message -> nat, allowance: int, start: nat, taken: nat): (r: nat)
    requires start <= |ms|
    ensures r <= start
  {
    if start == 0 then 0
    else
      var previous := ExchangeStart(ms, start - 1);
      var size := Total(ms[previous..start], tokens);
      if start < |ms| && taken + size > allowance then start
      else RecentFrom(ms, tokens, allowance, previous, taken + size)
  }

  function Max(a: int, b: int): int {
    if a > b then a else b
  }

  function RecentStart(ms: seq<Message>, tokens: Message -> nat, budget: int, keepRecent: Option<int>): (r: nat)
    ensures r <= |ms|
  {
    if keepRecent.Some? then ExchangeStart(ms, Max(0, |ms| - Max(1, keepRecent.value)))
    else RecentFrom(ms, tokens, Allowance(budget), |ms|, 0)
  }

  /** `recentHistoryStart`. */
  method RecentHistoryStart(ms: seq<Message>, tokens: Message -> nat, budget: int, keepRecent: Option<int>) returns (start: nat)
    ensures start == RecentStart(ms, tokens, budget, keepRecent)
  {
    if keepRecent.Some? {
      start := ExchangeStartLoop(ms, Max(0, |ms| - Max(1, keepRecent.value)));
      return;
    }
    var allowance := Allowance(budget);
    start := |ms|;
    var taken: nat := 0;
    while start > 0
      invariant start <= |ms| && RecentFrom(ms, tokens, allowance, start, taken) == RecentFrom(ms, tokens, allowance, |ms|, 0)
    {
      var previous := ExchangeStartLoop(ms, start - 1);
      var size := Total(ms[previous..start], tokens);
      RecentNext(ms, tokens, allowance, start, taken, previous, size);
      if start < |ms| && taken + size > allowance {
        break;
      }
      taken := taken + size;
      start := previous;
    }
  }

  lemma RecentNext(ms: seq<Message>, tokens: Message -> nat, allowance: int, start: nat, taken: nat, previous: nat, size: nat)
    requires 0 < start <= |ms| && previous == ExchangeStart(ms, start - 1) && size == Total(ms[previous..start], tokens)
    ensures RecentFrom(ms, tokens, allowance, start, taken) ==
      if start < |ms| && taken + size > allowance then start else RecentFrom(ms, tokens, allowance, previous, taken + size)
  {}

  /** Where the latest exchange starts. */
  function LatestExchange(ms: seq<Message>): nat
    requires ms != []
  {
    ExchangeStart(ms, |ms| - 1)
  }

  /**
   What is kept from `r` on starts an exchange; it is the latest exchange alone, or within the allowance; and with
   the exchange before it, it would not be.
   */
  ghost predicate RecentOk(ms: seq<Message>, tokens: Message -> nat, allowance: int, r: nat)
    requires ms != [] && r < |ms|
  {
    && (r == 0 || ms[r].role == User) && r <= LatestExchange(ms)
    && (r == LatestExchange(ms) || Total(ms[r..], tokens) <= allowance)
    && (r > 0 ==> Total(ms[ExchangeStart(ms, r - 1)..], tokens) > allowance)
  }

  ghost predicate RecentProved(ms: seq<Message>, tokens: Message -> nat, allowance: int, r: nat) {
    forall n {:trigger Look(n)} :: Look(n) ==> ms != [] && r < |ms| && RecentOk(ms, tokens, allowance, r)
  }

  lemma TotalFrom(ms: seq<Message>, tokens: Message -> nat, a: nat, b: nat)
    requires a <= b <= |ms|
    ensures Total(ms[a..], tokens) == Total(ms[a..b], tokens) + Total(ms[b..], tokens)
  {
    assert ms[a..] == ms[a..b] + ms[b..];
    TotalSplits(ms[a..b], ms[b..], tokens);
  }

  lemma RecentStops(ms: seq<Message>, tokens: Message -> nat, allowance: int, start: nat)
    requires start < |ms| && (start == 0 || ms[start].role == User) && start <= LatestExchange(ms)
    requires start == LatestExchange(ms) || Total(ms[start..], tokens) <= allowance
    requires start > 0 ==> Total(ms[ExchangeStart(ms, start - 1)..start], tokens) + Total(ms[start..], tokens) > allowance
    ensures RecentProved(ms, tokens, allowance, start)
  {
    if start > 0 {
      TotalFrom(ms, tokens, ExchangeStart(ms, start - 1), start);
    }
  }

  lemma {:induction false} RecentFromIs(ms: seq<Message>, tokens: Message -> nat, allowance: int, start: nat, taken: nat, r: nat)
    requires start < |ms| && taken == Total(ms[start..], tokens) && r == RecentFrom(ms, tokens, allowance, start, taken)
    requires start == 0 || ms[start].role == User
    requires start <= LatestExchange(ms)
    requires start == LatestExchange(ms) || taken <= allowance
    ensures RecentProved(ms, tokens, allowance, r)
    decreases start
  {
    if start == 0 {
      RecentStops(ms, tokens, allowance, 0);
    } else {
      var previous := ExchangeStart(ms, start - 1);
      var size := Total(ms[previous..start], tokens);
      RecentNext(ms, tokens, allowance, start, taken, previous, size);
      if taken + size <= allowance {
        TotalFrom(ms, tokens, previous, start);
        RecentFromIs(ms, tokens, allowance, previous, taken + size, r);
      } else {
        RecentStops(ms, tokens, allowance, start);
      }
    }
  }

  /**
   What is kept starts an exchange and holds the latest one; beyond that it holds as many whole exchanges as a
   quarter of the budget takes, 15,000 tokens at most, and not one more would fit.
   */
  lemma RecentIs(ms: seq<Message>, tokens: Message -> nat, budget: int)
    requires ms != []
    ensures var r, allowance := RecentStart(ms, tokens, budget, None), if budget / 4 < 15_000 then budget / 4 else 15_000;
            r < |ms| && RecentOk(ms, tokens, allowance, r)
  {
    var last := LatestExchange(ms);
    assert ms[last..|ms|] == ms[last..];
    RecentFromIs(ms, tokens, Allowance(budget), last, Total(ms[last..], tokens), RecentStart(ms, tokens, budget, None));
    assert Look(0);
  }

  /** With a count, the fewest messages are kept that are at least that many, at least one, and start an exchange. */
  lemma RecentCountIs(ms: seq<Message>, tokens: Message -> nat, budget: int, keep: int)
    requires ms != []
    ensures var r := RecentStart(ms, tokens, budget, Some(keep));
      && (r == 0 || ms[r].role == User) && r <= LatestExchange(ms)
      && (|ms| - r >= keep || r == 0)
      && (forall j :: r < j < |ms| && ms[j].role == User ==> |ms| - j < keep || |ms| - j < 1)
  {
    ExchangeMonotone(ms, Max(0, |ms| - Max(1, keep)), |ms| - 1);
  }

  lemma {:induction false} ExchangeMonotone(ms: seq<Message>, a: nat, b: nat)
    requires a <= b < |ms|
    ensures ExchangeStart(ms, a) <= ExchangeStart(ms, b)
    decreases b - a
  {
    if a < b {
      ExchangeMonotone(ms, a, b - 1);
    }
  }

  // ---- What the summarizer reads ----

  const BOUND_NOTE := "\n\n[middle omitted; the history file has the full transcript]\n\n"

  /** A third of the room, 24,000 characters at most, goes to the end of the text. */
  function TailChars(available: nat): (r: nat)
    ensures 2 * r <= available
  {
    if available / 3 < 24_000 then available / 3 else 24_000
  }

  function Cut(text: string, n: nat): (r: string)
    ensures |r| <= n && (|text| <= n ==> r == text) && (|text| >= n ==> |r| == n)
  {
    if |text| <= n then text else text[..n]
  }

  function BothEnds(full: string, note: string, head: nat, tail: nat): (r: string)
    requires head + tail <= |full|
    ensures |r| == head + |note| + tail
  {
    full[..head] + note + full[|full| - tail..]
  }

  function BoundWith(full: string, maxChars: nat, note: string): string {
    if |full| <= maxChars then full
    else
      var available := if maxChars > |note| then maxChars - |note| else 0;
      Cut(BothEnds(full, note, available - TailChars(available), TailChars(available)), maxChars)
  }

  /** `boundTranscript`. */
  function BoundTranscript(full: string, maxChars: nat): string {
    BoundWith(full, maxChars, BOUND_NOTE)
  }

  /** The first `h` characters, the note, the last `t`. */
  ghost predicate Ends(full: string, maxChars: nat, note: string, r: string, h: nat, t: nat) {
    && h + t < |full| && h + t + |note| == maxChars && r == full[..h] + note + full[|full| - t..]
    && t == if (maxChars - |note|) / 3 < 24_000 then (maxChars - |note|) / 3 else 24_000
  }

  /** Short texts are whole. */
  lemma BoundIsWhole(full: string, maxChars: nat)
    ensures |BoundTranscript(full, maxChars)| <= maxChars
    ensures |full| <= maxChars <==> BoundTranscript(full, maxChars) == full
    ensures |full| > maxChars ==> |BoundTranscript(full, maxChars)| == maxChars
  {}

  /** Long ones keep both ends, never overlapping, and use the limit up. */
  lemma BoundKeepsEnds(full: string, maxChars: nat, note: string) returns (h: nat, t: nat)
    requires |full| > maxChars > |note| && note == "\n\n[middle omitted; the history file has the full transcript]\n\n"
    ensures Ends(full, maxChars, note, BoundTranscript(full, maxChars), h, t)
  {
    var available: nat := maxChars - |note|;
    t := TailChars(available);
    h := available - t;
  }
}
