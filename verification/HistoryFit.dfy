/**
 `fitHistory`: the conversation as it was, or one marker in place of its older part. Over any run of growing and
 fitting, every clean history file ever referenced or archived stays referenced.
 */
module HistoryFit {
  import opened Common
  import opened ChunkKeys
  import opened HistoryFiles
  import opened History

  /** What a caller asks for, as far as the fit depends on it. */
  datatype Options = Options(budget: int, keepRecent: Option<int>, summarizes: bool)

  /** What the summarizer comes back with: a text, a refusal the fit can do without, or an error it passes on. */
  datatype Summary = Wrote(text: string) | Incomplete | Overflow | Failed

  /** What happens outside: the path the archive returned, if any, and the summarizer's answer. */
  datatype World = World(archived: Option<string>, summary: Summary)

  datatype Outcome = Unchanged | Compacted(marker: Message, split: nat) | Thrown

  // ---- Files of a conversation ----

  /** What `read` finds in each message, in order. */
  function Collect(ms: seq<Message>, read: Message -> seq<string>): seq<string> {
    if ms == [] then [] else Collect(ms[..|ms| - 1], read) + read(ms[|ms| - 1])
  }

  function Reader(): Message -> seq<string> {
    (m: Message) => FilesOf(TextOf(m))
  }

  function FilesIn(ms: seq<Message>): seq<string> {
    Collect(ms, Reader())
  }

  /** `historyFilesIn`. */
  method HistoryFilesIn(ms: seq<Message>) returns (out: seq<string>)
    ensures out == FilesIn(ms)
  {
    out := [];
    for i := 0 to |ms|
      invariant out == FilesIn(ms[..i])
    {
      LastStep(ms, i);
      var captures := Matches(TextOf(ms[i]), 0);
      ghost var before := out;
      NoTail(before);
      for j := 0 to |captures|
        invariant out == before + Paths(captures[..j])
      {
        LastStep(captures, j);
        var file := Trim(captures[j]);
        if file != "" {
          Regroup(before, Paths(captures[..j]), [file]);
          out := out + [file];
        }
      }
      assert captures[..|captures|] == captures;
    }
    assert ms[..|ms|] == ms;
  }

  lemma {:induction false} CollectSplits(a: seq<Message>, b: seq<Message>, read: Message -> seq<string>)
    ensures Collect(a + b, read) == Collect(a, read) + Collect(b, read)
  {
    if b == [] {
      NoTail(a);
      NoTail(Collect(a, read));
    } else {
      var n := |b| - 1;
      assert (a + b)[..|a| + n] == a + b[..n] && (a + b)[|a| + n] == b[n];
      CollectSplits(a, b[..n], read);
      Regroup(Collect(a, read), Collect(b[..n], read), read(b[n]));
    }
  }

  lemma FilesSplit(a: seq<Message>, b: seq<Message>)
    ensures FilesIn(a + b) == FilesIn(a) + FilesIn(b)
  {
    CollectSplits(a, b, Reader());
  }

  lemma {:induction false} CollectFrom(ms: seq<Message>, read: Message -> seq<string>, f: string)
    requires f in Collect(ms, read)
    ensures exists i :: 0 <= i < |ms| && f in read(ms[i])
  {
    var n := |ms| - 1;
    if f in Collect(ms[..n], read) {
      CollectFrom(ms[..n], read, f);
    }
  }

  lemma FilesInAreClean(ms: seq<Message>, f: string)
    requires f in FilesIn(ms)
    ensures Clean(f)
  {
    CollectFrom(ms, Reader(), f);
    var i :| 0 <= i < |ms| && f in Reader()(ms[i]);
    FilesAreClean(TextOf(ms[i]), f);
  }

  // ---- The marker ----

  const SUMMARY_OPEN := "<conversation_summary>"
  const SUMMARY_CLOSE := "</conversation_summary>"
  const OMITTED := " earlier message(s) omitted"
  const TO_FIT := " to fit the context window]"
  const FILES_NOTE := "\nThe summary omits detail. Search each history file with context_grep before treating a missing path, symbol, line range, command, or decision as unknown."

  function FileBlock(files: seq<string>, note: string): string {
    if files == [] then "" else "\n" + TagsText(files) + note
  }

  function MarkerHead(summary: Option<string>, omitted: nat): string {
    if summary.Some? then SUMMARY_OPEN + "\n" + summary.value + "\n" + SUMMARY_CLOSE
    else "[" + Dec(omitted) + (OMITTED + TO_FIT)
  }

  /** `historyMarker`. */
  function Marker(summary: Option<string>, omitted: nat, files: seq<string>): Message {
    Message(User, Plain(MarkerHead(summary, omitted) + FileBlock(files, FILES_NOTE)))
  }

  /** The marker's files are read back whatever the summary says, each exactly when it is clean. */
  lemma BlockIsRead(head: string, files: seq<string>, note: string, f: string)
    requires f in files
    ensures f in FilesOf(head + FileBlock(files, note)) <==> Clean(f)
  {
    var before, after := TagStands(files, f);
    Surround(head, before, Tag(f), after, note);
    TagIsReadIff(head + "\n" + before, f, after + note);
  }

  lemma Surround(head: string, before: string, tag: string, after: string, note: string)
    ensures head + ("\n" + (before + tag + after) + note) == (head + "\n" + before) + tag + (after + note)
  {}

  lemma MarkerKeeps(summary: Option<string>, omitted: nat, files: seq<string>, f: string)
    requires f in files
    ensures f in FilesOf(TextOf(Marker(summary, omitted, files))) <==> Clean(f)
  {
    BlockIsRead(MarkerHead(summary, omitted), files, FILES_NOTE, f);
  }

  // ---- The fit ----

  /** `archiveTranscript`: the trimmed path, if something is left of it. */
  function Archived(w: World): Option<string> {
    if w.archived.None? || Trim(w.archived.value) == "" then None else Some(Trim(w.archived.value))
  }

  /** `summarizeArchived`: Some(None) is an omission instead of a summary, None an error passed on. */
  function Summarized(s: Summary, files: seq<string>): Option<Option<string>> {
    match s
    case Wrote(text) => if Trim(text) != "" then Some(Some(text)) else if files != [] then Some(None) else None
    case Incomplete => if files != [] then Some(None) else None
    case Overflow => if files != [] then Some(None) else None
    case Failed => None
  }

  /** The files a marker lists: those of the older messages, and the new archive. */
  function FilesFor(older: seq<Message>, w: World): seq<string> {
    Dedupe(FilesIn(older) + if Archived(w).Some? then [Archived(w).value] else [])
  }

  /** `fitHistory`, whatever its markers look like. */
  function FitWith(ms: seq<Message>, o: Options, w: World, tokens: Message -> nat, mark: (Option<string>, nat, seq<string>) -> Message): (r: Outcome)
    ensures r.Compacted? ==> 0 < r.split <= |ms|
  {
    if Total(ms, tokens) <= o.budget then Unchanged
    else
      var split := RecentStart(ms, tokens, o.budget, o.keepRecent);
      if split == 0 then Unchanged
      else
        var files := FilesFor(ms[..split], w);
        var omission := mark(None, split, files);
        if !o.summarizes then Compacted(omission, split)
        else
          var summary := Summarized(w.summary, files);
          if summary.None? then Thrown
          else
            var marker := mark(summary.value, split, files);
            if Total([marker] + ms[split..], tokens) <= o.budget then Compacted(marker, split) else Compacted(omission, split)
  }

  /** `fitHistory`. */
  function Fit(ms: seq<Message>, o: Options, w: World, tokens: Message -> nat): (r: Outcome)
    ensures r.Compacted? ==> 0 < r.split <= |ms|
  {
    FitWith(ms, o, w, tokens, Marker)
  }

  /** The conversation an outcome leaves; an error leaves it as it was. */
  function After(ms: seq<Message>, r: Outcome): seq<Message>
    requires r.Compacted? ==> r.split <= |ms|
  {
    if r.Compacted? then [r.marker] + ms[r.split..] else ms
  }

  lemma FitParts(ms: seq<Message>, r: Outcome, o: Options, w: World, tokens: Message -> nat)
    requires r == Fit(ms, o, w, tokens)
    ensures r.Compacted? ==> r.split == RecentStart(ms, tokens, o.budget, o.keepRecent) && r.marker.role == User && r.marker.content.Plain?
    ensures r.Unchanged? <==> Total(ms, tokens) <= o.budget || RecentStart(ms, tokens, o.budget, o.keepRecent) == 0
  {}

  // ---- Which marker, and when none ----

  /** The message carries the summary, word for word, in its tags, and after it the files. */
  ghost predicate CarriesSummary(m: Message, text: string) {
    && m.role == User && m.content.Plain?
    && exists files: string :: m.content.text == "<conversation_summary>" + ("\n" + (text + ("\n" + ("</conversation_summary>" + files))))
  }

  /** The message says how many messages are left out, and after that the files. */
  ghost predicate SaysOmitted(m: Message, omitted: nat) {
    && m.role == User && m.content.Plain?
    && exists files: string :: m.content.text == "[" + (Dec(omitted) + (" earlier message(s) omitted" + (" to fit the context window]" + files)))
  }

  lemma SummaryMarker(text: string, omitted: nat, files: seq<string>)
    ensures CarriesSummary(Marker(Some(text), omitted, files), text)
  {
    var block := FileBlock(files, FILES_NOTE);
    HeadJoins(SUMMARY_OPEN, "\n", text, SUMMARY_CLOSE, block);
  }

  lemma HeadJoins(open: string, brk: string, text: string, close: string, block: string)
    ensures open + brk + text + brk + close + block == open + (brk + (text + (brk + (close + block))))
  {
    RegroupFour(open + brk + text, brk, close, block);
    RegroupFour(open, brk, text, brk + (close + block));
  }

  lemma OmissionMarker(omitted: nat, files: seq<string>)
    ensures SaysOmitted(Marker(None, omitted, files), omitted)
  {
    OmissionJoins("[", Dec(omitted), OMITTED, TO_FIT, FileBlock(files, FILES_NOTE));
  }

  lemma OmissionJoins(open: string, digits: string, omitted: string, fit: string, block: string)
    ensures open + digits + (omitted + fit) + block == open + (digits + (omitted + (fit + block)))
  {
    RegroupFour(open, digits, omitted + fit, block);
    Regroup(omitted, fit, block);
  }

  /** A compaction is due: the conversation is over budget, and something is older than what is kept. */
  ghost predicate Due(ms: seq<Message>, o: Options, tokens: Message -> nat) {
    Total(ms, tokens) > o.budget && RecentStart(ms, tokens, o.budget, o.keepRecent) > 0
  }

  /** There is a file to point to: one the older messages refer to, or the new archive. */
  ghost predicate HasFile(older: seq<Message>, w: World) {
    FilesIn(older) != [] || Archived(w).Some?
  }

  ghost predicate UsefulSummary(o: Options, w: World) {
    o.summarizes && w.summary.Wrote? && Trim(w.summary.text) != ""
  }

  lemma FilesForNone(older: seq<Message>, w: World)
    ensures FilesFor(older, w) == [] <==> !HasFile(older, w)
  {
    if HasFile(older, w) {
      var f := if FilesIn(older) != [] then FilesIn(older)[0] else Archived(w).value;
      FilesForHas(older, w, f);
    }
  }

  lemma SummarizedIs(s: Summary, files: seq<string>)
    ensures Summarized(s, files).None? <==> s.Failed? || (!(s.Wrote? && Trim(s.text) != "") && files == [])
  {}

  lemma FitThrows(ms: seq<Message>, r: Outcome, o: Options, w: World, tokens: Message -> nat, split: nat)
    requires r == Fit(ms, o, w, tokens) && split == RecentStart(ms, tokens, o.budget, o.keepRecent)
    ensures r.Thrown? <==> Due(ms, o, tokens) && o.summarizes && Summarized(w.summary, FilesFor(ms[..split], w)).None?
    ensures r.Unchanged? <==> !Due(ms, o, tokens)
  {}

  /** An error comes exactly when a due summary was asked for and failed, or came to nothing with no file to point to instead. */
  lemma ThrownIff(ms: seq<Message>, r: Outcome, o: Options, w: World, tokens: Message -> nat)
    requires r == Fit(ms, o, w, tokens)
    ensures r.Thrown? <==> Due(ms, o, tokens) && o.summarizes && !UsefulSummary(o, w)
                           && (w.summary.Failed? || !HasFile(ms[..RecentStart(ms, tokens, o.budget, o.keepRecent)], w))
    ensures r.Unchanged? <==> !Due(ms, o, tokens)
  {
    var split := RecentStart(ms, tokens, o.budget, o.keepRecent);
    FitThrows(ms, r, o, w, tokens, split);
    FilesForNone(ms[..split], w);
    SummarizedIs(w.summary, FilesFor(ms[..split], w));
  }

  lemma SummaryIs(o: Options, w: World, files: seq<string>)
    requires o.summarizes && Summarized(w.summary, files).Some?
    ensures Summarized(w.summary, files).value == if UsefulSummary(o, w) then Some(w.summary.text) else None
  {}

  lemma FitIs(ms: seq<Message>, r: Outcome, o: Options, w: World, tokens: Message -> nat, mark: (Option<string>, nat, seq<string>) -> Message,
              files: seq<string>, fits: bool)
    requires r == FitWith(ms, o, w, tokens, mark) && r.Compacted? && files == FilesFor(ms[..r.split], w)
    requires fits <==> UsefulSummary(o, w) && Total([mark(Some(w.summary.text), r.split, files)] + ms[r.split..], tokens) <= o.budget
    ensures r.marker == mark(if fits then Some(w.summary.text) else None, r.split, files)
  {
    if o.summarizes && Summarized(w.summary, files).Some? {
      SummaryIs(o, w, files);
    }
  }

  /**
   The marker of a compaction: a useful summary, if with it the result is within budget, and otherwise the count of
   the messages left out. So a result that carries a summary is within budget.
   */
  lemma MarkerIs(ms: seq<Message>, r: Outcome, o: Options, w: World, tokens: Message -> nat) returns (files: seq<string>)
    requires r == Fit(ms, o, w, tokens) && r.Compacted?
    ensures r.split == RecentStart(ms, tokens, o.budget, o.keepRecent) && r.split <= |ms|
    ensures forall f :: f in files <==> f in FilesIn(ms[..r.split]) || Some(f) == Archived(w)
    ensures UsefulSummary(o, w) && Total([Marker(Some(w.summary.text), r.split, files)] + ms[r.split..], tokens) <= o.budget ==>
              CarriesSummary(r.marker, w.summary.text) && Total(After(ms, r), tokens) <= o.budget
    ensures !(UsefulSummary(o, w) && Total([Marker(Some(w.summary.text), r.split, files)] + ms[r.split..], tokens) <= o.budget) ==>
              SaysOmitted(r.marker, r.split)
  {
    files := FilesFor(ms[..r.split], w);
    forall f
      ensures f in files <==> f in FilesIn(ms[..r.split]) || Some(f) == Archived(w)
    {
      FilesForHas(ms[..r.split], w, f);
    }
    var fits := UsefulSummary(o, w) && Total([Marker(Some(w.summary.text), r.split, files)] + ms[r.split..], tokens) <= o.budget;
    FitParts(ms, r, o, w, tokens);
    FitIs(ms, r, o, w, tokens, Marker, files, fits);
    if fits {
      SummaryMarker(w.summary.text, r.split, files);
    } else {
      OmissionMarker(r.split, files);
    }
  }

  lemma RecentKeepsLatest(ms: seq<Message>, r: nat, tokens: Message -> nat, budget: int, keepRecent: Option<int>)
    requires ms != [] && r == RecentStart(ms, tokens, budget, keepRecent)
    ensures r < |ms| && r <= LatestExchange(ms) && (r == 0 || ms[r].role == User)
  {
    if keepRecent.Some? {
      RecentCountIs(ms, tokens, budget, keepRecent.value);
    } else {
      RecentIs(ms, tokens, budget);
    }
  }

  /** What a compaction is: a marker in the user's name, then the messages from an exchange on, the latest exchange among them. */
  lemma FitShape(ms: seq<Message>, r: Outcome, o: Options, w: World, tokens: Message -> nat)
    requires r == Fit(ms, o, w, tokens) && r.Compacted?
    ensures r.split < |ms| && ms[r.split].role == User && r.split <= LatestExchange(ms)
    ensures r.marker.role == User && r.marker.content.Plain?
  {
    FitParts(ms, r, o, w, tokens);
    RecentKeepsLatest(ms, r.split, tokens, o.budget, o.keepRecent);
  }

  lemma FilesForHas(older: seq<Message>, w: World, f: string)
    ensures f in FilesFor(older, w) <==> f in FilesIn(older) || Some(f) == Archived(w)
  {
    DedupeKeeps(FilesIn(older) + if Archived(w).Some? then [Archived(w).value] else []);
  }

  /** A marker lists every file of the messages it stands for, and the archive if its path is clean. */
  lemma MarkerLists(summary: Option<string>, omitted: nat, older: seq<Message>, w: World, f: string)
    requires f in FilesIn(older) || (Archived(w) == Some(f) && Clean(f))
    ensures f in FilesIn([Marker(summary, omitted, FilesFor(older, w))])
  {
    var files := FilesFor(older, w);
    FilesForHas(older, w, f);
    if f in FilesIn(older) {
      FilesInAreClean(older, f);
    }
    MarkerKeeps(summary, omitted, files, f);
    OneMessage(Marker(summary, omitted, files));
  }

  lemma MarkerRefers(summary: Option<string>, omitted: nat, older: seq<Message>, w: World, f: string)
    ensures Refers(older, f) || (Archived(w) == Some(f) && Clean(f)) ==> Refers([Marker(summary, omitted, FilesFor(older, w))], f)
  {
    assert Look(0);
    if f in FilesIn(older) || (Archived(w) == Some(f) && Clean(f)) {
      MarkerLists(summary, omitted, older, w, f);
    }
  }

  lemma FitMarker(ms: seq<Message>, o: Options, w: World, tokens: Message -> nat) returns (summary: Option<string>)
    requires Fit(ms, o, w, tokens).Compacted?
    ensures var r := Fit(ms, o, w, tokens); r.marker == Marker(summary, r.split, FilesFor(ms[..r.split], w))
  {
    var r := Fit(ms, o, w, tokens);
    var files := FilesFor(ms[..r.split], w);
    if r.marker == Marker(None, r.split, files) {
      summary := None;
    } else {
      summary := Summarized(w.summary, files).value;
    }
  }

  /** A file is referenced in a conversation: a fact to carry, not to look into. */
  ghost predicate Refers(ms: seq<Message>, f: string) {
    forall n {:trigger Look(n)} :: Look(n) ==> f in FilesIn(ms)
  }

  lemma RefersSplit(a: seq<Message>, b: seq<Message>, f: string)
    ensures Refers(a + b, f) <==> Refers(a, f) || Refers(b, f)
  {
    assert Look(0);
    FilesSplit(a, b);
  }

  lemma SplitKeeps(ms: seq<Message>, marker: Message, split: nat, f: string)
    requires split <= |ms|
    requires Refers(ms[..split], f) ==> Refers([marker], f)
    requires Refers(ms, f) || Refers([marker], f)
    ensures Refers([marker] + ms[split..], f)
  {
    RefersSplit(ms[..split], ms[split..], f);
    assert ms == ms[..split] + ms[split..];
    RefersSplit([marker], ms[split..], f);
  }

  /** One fit loses no file: what was referenced still is, and so is the new archive if its path is clean. */
  lemma FitKeepsFiles(ms: seq<Message>, r: Outcome, o: Options, w: World, tokens: Message -> nat, f: string)
    requires r == Fit(ms, o, w, tokens)
    requires Refers(ms, f) || (r.Compacted? && Archived(w) == Some(f) && Clean(f))
    ensures Refers(After(ms, r), f)
  {
    if r.Compacted? {
      var summary := FitMarker(ms, o, w, tokens);
      MarkerRefers(summary, r.split, ms[..r.split], w, f);
      SplitKeeps(ms, r.marker, r.split, f);
    }
  }

  /** The archive of a compaction can be found again exactly when its path holds no '<'. */
  lemma ArchiveStaysIff(ms: seq<Message>, r: Outcome, o: Options, w: World, tokens: Message -> nat, f: string)
    requires r == Fit(ms, o, w, tokens) && r.Compacted? && Archived(w) == Some(f)
    ensures Refers(After(ms, r), f) <==> '<' !in f
  {
    TrimEnds(w.archived.value);
    if '<' !in f {
      FitKeepsFiles(ms, r, o, w, tokens, f);
    } else if Refers(After(ms, r), f) {
      assert Look(0);
      FilesInAreClean(After(ms, r), f);
    }
  }

  /** A compaction whose archive is lost: the path it was written to is "a<b". */
  lemma ArchiveCanBeLost(older: string, latest: string)
    ensures var (ms, o, w) := ([Message(User, Plain(older)), Message(User, Plain(latest))], Options(1, Some(1), false), World(Some("a<b"), Failed));
            var r := Fit(ms, o, w, _ => 1);
            r.Compacted? && Archived(w) == Some("a<b") && !Refers(After(ms, r), "a<b")
  {
    var ms, o, w := [Message(User, Plain(older)), Message(User, Plain(latest))], Options(1, Some(1), false), World(Some("a<b"), Failed);
    var tokens: Message -> nat := _ => 1;
    TwoExchanges(ms, tokens);
    FitThrows(ms, Fit(ms, o, w, tokens), o, w, tokens, 1);
    var path := "a<b";
    assert path[1] == '<';
    AlreadyTrim(path);
    ArchiveStaysIff(ms, Fit(ms, o, w, tokens), o, w, tokens, "a<b");
  }

  lemma AlreadyTrim(s: string)
    requires s != "" && !White(s[0]) && !White(s[|s| - 1])
    ensures Trim(s) == s
  {}

  lemma TwoExchanges(ms: seq<Message>, tokens: Message -> nat)
    requires |ms| == 2 && ms[1].role == User && forall m :: tokens(m) == 1
    ensures Total(ms, tokens) == 2 && RecentStart(ms, tokens, 1, Some(1)) == 1
  {
    assert ms[..1][..0] == [];
    assert Total(ms[..1], tokens) == 1;
    assert ExchangeStart(ms, 1) == 1;
  }

  lemma OneMessage(m: Message)
    ensures FilesIn([m]) == FilesOf(TextOf(m))
  {
    CollectOne(m, Reader());
  }

  lemma CollectOne(m: Message, read: Message -> seq<string>)
    ensures Collect([m], read) == read(m)
  {
    assert [m][..0] == [];
    NoTail(read(m));
  }

  // ---- Any run ----

  /** The conversation grows, and is fitted. */
  datatype Turn = Turn(added: seq<Message>, options: Options, world: World)

  function Grown(ms: seq<Message>, t: Turn, tokens: Message -> nat): seq<Message> {
    var whole := ms + t.added;
    var r := Fit(whole, t.options, t.world, tokens);
    After(whole, r)
  }

  function Run(ms: seq<Message>, turns: seq<Turn>, tokens: Message -> nat): seq<Message> {
    if turns == [] then ms else Grown(Run(ms, turns[..|turns| - 1], tokens), turns[|turns| - 1], tokens)
  }

  /** The turn compacted, and archived to a path that can be read back. */
  ghost predicate Archives(ms: seq<Message>, t: Turn, tokens: Message -> nat, f: string) {
    Fit(ms + t.added, t.options, t.world, tokens).Compacted? && Archived(t.world) == Some(f) && Clean(f)
  }

  /** What brings a file in: it stands in the first messages or in some turn's, or a turn archives to it. */
  ghost predicate Introduced(ms: seq<Message>, turns: seq<Turn>, tokens: Message -> nat, f: string) {
    Refers(ms, f) || exists i :: IntroducedAt(ms, turns, tokens, f, i)
  }

  ghost predicate IntroducedAt(ms: seq<Message>, turns: seq<Turn>, tokens: Message -> nat, f: string, i: int) {
    0 <= i < |turns| && (Refers(turns[i].added, f) || Archives(Run(ms, turns[..i], tokens), turns[i], tokens, f))
  }

  lemma GrownKeeps(ms: seq<Message>, t: Turn, tokens: Message -> nat, f: string)
    requires Refers(ms, f) || Refers(t.added, f) || Archives(ms, t, tokens, f)
    ensures Refers(Grown(ms, t, tokens), f)
  {
    var whole := ms + t.added;
    RefersSplit(ms, t.added, f);
    FitKeepsFiles(whole, Fit(whole, t.options, t.world, tokens), t.options, t.world, tokens, f);
  }

  /** Brought in before the last turn, or by it. */
  lemma IntroducedBy(ms: seq<Message>, turns: seq<Turn>, tokens: Message -> nat, f: string, n: nat)
    requires Introduced(ms, turns, tokens, f) && |turns| == n + 1
    ensures Introduced(ms, turns[..n], tokens, f) || Refers(turns[n].added, f) || Archives(Run(ms, turns[..n], tokens), turns[n], tokens, f)
  {
    if !Refers(ms, f) {
      var i :| IntroducedAt(ms, turns, tokens, f, i);
      if i < n {
        assert turns[..n][..i] == turns[..i];
        assert IntroducedAt(ms, turns[..n], tokens, f, i);
      }
    }
  }

  lemma {:induction false} RunRefers(ms: seq<Message>, turns: seq<Turn>, tokens: Message -> nat, f: string)
    requires Introduced(ms, turns, tokens, f)
    ensures Refers(Run(ms, turns, tokens), f)
  {
    if turns != [] {
      var n := |turns| - 1;
      var front := turns[..n];
      IntroducedBy(ms, turns, tokens, f, n);
      if Introduced(ms, front, tokens, f) {
        RunRefers(ms, front, tokens, f);
      }
      GrownKeeps(Run(ms, front, tokens), turns[n], tokens, f);
    }
  }

  /** Over any run of turns, every file ever introduced is still referenced at the end. */
  lemma RunKeepsFiles(ms: seq<Message>, turns: seq<Turn>, tokens: Message -> nat, f: string)
    requires Introduced(ms, turns, tokens, f)
    ensures f in FilesIn(Run(ms, turns, tokens))
  {
    RunRefers(ms, turns, tokens, f);
    assert Look(0);
  }
}
