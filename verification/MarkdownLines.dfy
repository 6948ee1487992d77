/**
 One line of Markdown: the ATX heading and fence scanners, as functions of the line and as the loops
 that compute them, and what a heading line is, read off the line.
 */
module MarkdownLines {
  import opened Common

  const MAX_DEPTH: nat := 6
  const TITLE_MAX: nat := 120

  datatype Heading = Heading(level: nat, title: string)

  /** Whether a code fence is open, and with what run it was opened. */
  datatype Fence = Closed | Opened(mark: char, run: nat)

  predicate Blank(c: char) {
    c == ' ' || c == '\t'
  }

  // ---- Runs ----

  /** The end of the run of `c` from `i`. */
  function RunEnd(line: string, i: nat, c: char): (r: nat)
    requires i <= |line|
    ensures i <= r <= |line| && (r < |line| ==> line[r] != c) && forall k :: i <= k < r ==> line[k] == c
    decreases |line| - i
  {
    if i < |line| && line[i] == c then RunEnd(line, i + 1, c) else i
  }

  function BlankEnd(line: string, i: nat): (r: nat)
    requires i <= |line|
    ensures i <= r <= |line| && (r < |line| ==> !Blank(line[r])) && forall k :: i <= k < r ==> Blank(line[k])
    decreases |line| - i
  {
    if i < |line| && Blank(line[i]) then BlankEnd(line, i + 1) else i
  }

  /** The start of the blanks before `e`, not before `t`. */
  function BlankStart(line: string, t: nat, e: nat): (r: nat)
    requires t <= e <= |line|
    ensures t <= r <= e && (r > t ==> !Blank(line[r - 1])) && forall k :: r <= k < e ==> Blank(line[k])
  {
    if e > t && Blank(line[e - 1]) then BlankStart(line, t, e - 1) else e
  }

  /** The start of the '#' run before `e`, not before `t`. */
  function HashStart(line: string, t: nat, e: nat): (r: nat)
    requires t <= e <= |line|
    ensures t <= r <= e && (r > t ==> line[r - 1] != '#') && forall k :: r <= k < e ==> line[k] == '#'
  {
    if e > t && line[e - 1] == '#' then HashStart(line, t, e - 1) else e
  }

  method RunLoop(line: string, i: nat, c: char) returns (r: nat)
    requires i <= |line|
    ensures r == RunEnd(line, i, c)
  {
    r := i;
    while r < |line| && line[r] == c
      invariant i <= r <= |line| && RunEnd(line, r, c) == RunEnd(line, i, c)
    {
      r := r + 1;
    }
  }

  method BlankStartLoop(line: string, t: nat, e: nat) returns (r: nat)
    requires t <= e <= |line|
    ensures r == BlankStart(line, t, e)
  {
    r := e;
    while r > t && Blank(line[r - 1])
      invariant t <= r <= e && BlankStart(line, t, r) == BlankStart(line, t, e)
    {
      r := r - 1;
    }
  }

  /** Up to three leading spaces. */
  function Indent(line: string): (r: nat)
    ensures r <= 3 && r <= |line| && (forall k :: 0 <= k < r ==> line[k] == ' ') && (r < 3 && r < |line| ==> line[r] != ' ')
  {
    var r := RunEnd(line, 0, ' ');
    if r < 3 then r else 3
  }

  method IndentLoop(line: string) returns (i: nat)
    ensures i == Indent(line)
  {
    i := 0;
    while i < |line| && i < 3 && line[i] == ' '
      invariant i <= 3 && i <= |line| && RunEnd(line, i, ' ') == RunEnd(line, 0, ' ')
    {
      i := i + 1;
    }
  }

  // ---- Headings ----

  /** Where the title ends: the closing '#' run goes when it is the whole text or stands after a blank. */
  function TitleEnd(line: string, t: nat): (e: nat)
    requires t <= |line|
    ensures t <= e <= |line|
  {
    var e := BlankStart(line, t, |line|);
    var c := HashStart(line, t, e);
    if c < e && (c == t || Blank(line[c - 1])) then BlankStart(line, t, c) else e
  }

  /** A title takes 119 bytes at most, and is read as a C string. */
  function TitleText(title: string): string {
    CutAtZero(if |title| < TITLE_MAX - 1 then title else title[..TITLE_MAX - 1])
  }

  /** The heading a line is, if it is one. */
  function HeadingOf(line: string): Option<Heading> {
    var i := Indent(line);
    var h := RunEnd(line, i, '#');
    if h == i || h - i > 6 || (h < |line| && !Blank(line[h])) then None
    else
      var t := BlankEnd(line, h);
      Some(Heading(h - i, TitleText(line[t..TitleEnd(line, t)])))
  }

  method TitleEndLoop(line: string, t: nat) returns (end: nat)
    requires t <= |line|
    ensures end == TitleEnd(line, t)
  {
    end := BlankStartLoop(line, t, |line|);
    var close := end;
    while close > t && line[close - 1] == '#'
      invariant t <= close <= end && HashStart(line, t, close) == HashStart(line, t, end)
    {
      close := close - 1;
    }
    if close < end && (close == t || line[close - 1] == ' ' || line[close - 1] == '\t') {
      end := BlankStartLoop(line, t, close);
    }
  }

  method BlankEndLoop(line: string, i: nat) returns (t: nat)
    requires i <= |line|
    ensures t == BlankEnd(line, i)
  {
    t := i;
    while t < |line| && (line[t] == ' ' || line[t] == '\t')
      invariant i <= t <= |line| && BlankEnd(line, t) == BlankEnd(line, i)
    {
      t := t + 1;
    }
  }

  /** `md_heading_level`: the level and the title's place, level 0 for no heading. */
  method HeadingLevel(line: string) returns (level: nat, t: nat, len: nat)
    ensures level == 0 <==> HeadingOf(line).None?
    ensures level > 0 ==> t + len <= |line| && HeadingOf(line) == Some(Heading(level, TitleText(line[t..t + len])))
  {
    t, len := 0, 0;
    var i := IndentLoop(line);
    var h := RunLoop(line, i, '#');
    level := h - i;
    if level == 0 || level > 6 {
      return 0, 0, 0;
    }
    if h < |line| && line[h] != ' ' && line[h] != '\t' {
      return 0, 0, 0;
    }
    t := BlankEndLoop(line, h);
    var end := TitleEndLoop(line, t);
    len := end - t;
  }

  predicate AllOf(line: string, a: nat, b: nat, c: char)
    requires b <= |line|
  {
    forall k :: a <= k < b ==> line[k] == c
  }

  predicate AllBlank(line: string, a: nat, b: nat)
    requires b <= |line|
  {
    forall k :: a <= k < b ==> Blank(line[k])
  }

  /** What an ATX heading of a level looks like: at most three spaces, the hashes, then a blank or nothing. */
  predicate HeadingShape(line: string, i: nat, level: nat) {
    && i <= 3 && 1 <= level <= 6 && i + level <= |line| && AllOf(line, 0, i, ' ') && AllOf(line, i, i + level, '#')
    && (i + level == |line| || line[i + level] == ' ' || line[i + level] == '\t')
  }

  lemma {:induction false} RunEndAt(line: string, i: nat, r: nat, c: char)
    requires i <= r <= |line| && AllOf(line, i, r, c) && (r < |line| ==> line[r] != c)
    ensures RunEnd(line, i, c) == r
    decreases r - i
  {
    if i < r {
      RunEndAt(line, i + 1, r, c);
    }
  }

  /** A line is a heading of a level exactly when it has that shape. */
  lemma HeadingIff(line: string, level: nat)
    ensures (HeadingOf(line).Some? && HeadingOf(line).value.level == level) <==> exists i: nat :: HeadingShape(line, i, level)
  {
    if exists i: nat :: HeadingShape(line, i, level) {
      var i: nat :| HeadingShape(line, i, level);
      RunEndAt(line, 0, i, ' ');
      RunEndAt(line, i, i + level, '#');
    } else if HeadingOf(line).Some? && HeadingOf(line).value.level == level {
      assert HeadingShape(line, Indent(line), level);
    }
  }

  /** What stands after a title: blanks alone, or blanks, one closing run of '#', and blanks. */
  ghost predicate TitleTail(line: string, t: nat, e: nat, c: nat, d: nat) {
    && t <= e <= c <= d <= |line| && AllBlank(line, e, c) && AllOf(line, c, d, '#') && AllBlank(line, d, |line|)
    && (e == t || !Blank(line[e - 1])) && (c < d ==> c == t || c > e)
  }

  /** Every run of '#' that ends here is glued to something before it. */
  predicate NoClosingRun(line: string, t: nat, e: nat)
    requires t <= e <= |line|
  {
    forall k: nat :: t <= k < e && AllOf(line, k, e, '#') ==> k > t && !Blank(line[k - 1])
  }

  /** The title is the text after the hashes without the blanks around it and without the closing run, if there is one. */
  lemma TitleMeans(line: string, t: nat)
    requires t <= |line|
    ensures exists c: nat, d: nat :: TitleTail(line, t, TitleEnd(line, t), c, d) && (c == d ==> NoClosingRun(line, t, d))
  {
    var e := BlankStart(line, t, |line|);
    var c := HashStart(line, t, e);
    if c < e && (c == t || Blank(line[c - 1])) {
      assert TitleTail(line, t, TitleEnd(line, t), c, e);
    } else {
      assert TitleTail(line, t, TitleEnd(line, t), e, e);
      forall k: nat | t <= k < e && AllOf(line, k, e, '#')
        ensures k > t && !Blank(line[k - 1])
      {
        assert k > c ==> line[k - 1] == '#';
      }
    }
  }

  /** A title of at most 119 bytes, up to its first zero byte. */
  lemma TitleIsCut(line: string, t: nat, e: nat)
    requires t <= e <= |line|
    ensures TitleText(line[t..e]) == CutAtZero(if e - t <= 119 then line[t..e] else line[t..t + 119])
  {
    if e - t >= 119 {
      assert line[t..e][..119] == line[t..t + 119];
    }
  }

  /** What `t` and `e` are of a heading's line: where its title starts, and where it ends. */
  ghost predicate TitleSpan(line: string, h: nat, t: nat, e: nat) {
    && h <= t <= e <= |line| && AllBlank(line, h, t) && (t == |line| || !Blank(line[t]))
    && exists c: nat, d: nat :: TitleTail(line, t, e, c, d) && (c == d ==> NoClosingRun(line, t, d))
  }

  lemma SpanOfTitle(line: string, h: nat, t: nat, e: nat)
    requires h <= |line| && t == BlankEnd(line, h) && e == TitleEnd(line, t)
    ensures TitleSpan(line, h, t, e)
  {
    TitleMeans(line, t);
  }

  lemma HeadingRun(line: string, i: nat, level: nat)
    requires HeadingShape(line, i, level)
    ensures Indent(line) == i && RunEnd(line, i, '#') == i + level
  {
    RunEndAt(line, 0, i, ' ');
    RunEndAt(line, i, i + level, '#');
  }

  lemma HeadingParts(line: string, i: nat, h: nat, t: nat, e: nat)
    requires i == Indent(line) && h == RunEnd(line, i, '#') && i < h <= i + 6 && (h == |line| || Blank(line[h]))
    requires t == BlankEnd(line, h) && e == TitleEnd(line, t)
    ensures HeadingOf(line) == Some(Heading(h - i, TitleText(line[t..e])))
  {}

  lemma HeadingHas(line: string, i: nat, level: nat, t: nat, e: nat)
    requires HeadingShape(line, i, level) && t == BlankEnd(line, i + level) && e == TitleEnd(line, t)
    ensures HeadingOf(line) == Some(Heading(level, TitleText(line[t..e])))
  {
    HeadingRun(line, i, level);
    HeadingParts(line, i, i + level, t, e);
  }

  /** The title of a heading: its text without the blanks around it and the closing run, 119 bytes of it at most. */
  lemma TitleIs(line: string, i: nat, level: nat) returns (t: nat, e: nat)
    requires HeadingShape(line, i, level)
    ensures TitleSpan(line, i + level, t, e)
    ensures HeadingOf(line).Some? && HeadingOf(line).value.level == level
    ensures HeadingOf(line).value.title == CutAtZero(if e - t <= 119 then line[t..e] else line[t..t + 119])
  {
    t := BlankEnd(line, i + level);
    e := TitleEnd(line, t);
    SpanOfTitle(line, i + level, t, e);
    HeadingHas(line, i, level, t, e);
    TitleIsCut(line, t, e);
  }

  lemma HeadingLimits(line: string)
    requires HeadingOf(line).Some?
    ensures 1 <= HeadingOf(line).value.level <= 6 && |HeadingOf(line).value.title| < TITLE_MAX
  {
    var t := BlankEnd(line, RunEnd(line, Indent(line), '#'));
    var title := line[t..TitleEnd(line, t)];
    CutIsPrefix(if |title| < TITLE_MAX - 1 then title else title[..TITLE_MAX - 1]);
  }

  // ---- Fences ----

  /** The run of '`' or '~' that opens or closes a fence, 0 if there is none of three or more. */
  function FenceRun(line: string): (r: nat)
    ensures r > 0 ==> r >= 3 && Indent(line) + r <= |line|
  {
    var i := Indent(line);
    if i == |line| || (line[i] != '`' && line[i] != '~') then 0
    else
      var r := RunEnd(line, i, line[i]) - i;
      if r < 3 then 0 else r
  }

  predicate ClosesFence(line: string, mark: char, run: nat) {
    var r := FenceRun(line);
    r > 0 && r >= run && line[Indent(line)] == mark && AllBlank(line, Indent(line) + r, |line|)
  }

  /** What a fence of `n` marks `c` looks like: at most three spaces, then the marks, three or more, and no further one. */
  predicate FenceShape(line: string, i: nat, c: char, n: nat) {
    && i <= 3 && n >= 3 && (c == '`' || c == '~') && i + n <= |line| && AllOf(line, 0, i, ' ') && AllOf(line, i, i + n, c)
    && (i + n == |line| || line[i + n] != c)
  }

  ghost predicate IsFence(line: string, c: char, n: nat) {
    exists i: nat :: FenceShape(line, i, c, n)
  }

  /** A line closes a fence of `run` marks `c`: a fence of that mark, at least as long, and only blanks after it. */
  ghost predicate IsClose(line: string, c: char, run: nat) {
    exists i: nat, n: nat :: FenceShape(line, i, c, n) && n >= run && AllBlank(line, i + n, |line|)
  }

  /** The scanner finds a run exactly where a line has that shape. */
  lemma FenceIff(line: string, c: char, n: nat)
    ensures (FenceRun(line) == n && n > 0 && line[Indent(line)] == c) <==> IsFence(line, c, n)
  {
    if IsFence(line, c, n) {
      var i: nat :| FenceShape(line, i, c, n);
      RunEndAt(line, 0, i, ' ');
      RunEndAt(line, i, i + n, c);
    } else if FenceRun(line) == n && n > 0 && line[Indent(line)] == c {
      assert FenceShape(line, Indent(line), c, n);
    }
  }

  lemma CloseIff(line: string, c: char, run: nat)
    requires c == '`' || c == '~'
    ensures ClosesFence(line, c, run) <==> IsClose(line, c, run)
  {
    if IsClose(line, c, run) {
      var i: nat, n: nat :| FenceShape(line, i, c, n) && n >= run && AllBlank(line, i + n, |line|);
      RunEndAt(line, 0, i, ' ');
      RunEndAt(line, i, i + n, c);
    } else if ClosesFence(line, c, run) {
      assert FenceShape(line, Indent(line), c, FenceRun(line));
    }
  }

  /** A heading is no fence. */
  lemma HeadingIsNoFence(line: string, i: nat, level: nat, c: char, n: nat)
    requires HeadingShape(line, i, level)
    ensures !IsFence(line, c, n)
  {
    RunEndAt(line, 0, i, ' ');
    forall j: nat | FenceShape(line, j, c, n)
      ensures RunEnd(line, 0, ' ') == j
    {
      RunEndAt(line, 0, j, ' ');
    }
  }

  /** `md_fence_run`. */
  method FenceRunLoop(line: string) returns (run: nat, mark: char, start: nat)
    ensures run == FenceRun(line) && start == Indent(line) && (run > 0 ==> mark == line[start])
  {
    start := IndentLoop(line);
    mark := '\0';
    if start >= |line| || (line[start] != '`' && line[start] != '~') {
      return 0, mark, start;
    }
    mark := line[start];
    var e := RunLoop(line, start, mark);
    run := e - start;
    if run < 3 {
      run := 0;
    }
  }

  /** `md_fence_close`. */
  method FenceClose(line: string, mark: char, run: nat) returns (closes: bool)
    requires run > 0
    ensures closes <==> ClosesFence(line, mark, run)
  {
    var r, c, start := FenceRunLoop(line);
    if r < run || c != mark {
      return false;
    }
    for j := start + r to |line|
      invariant AllBlank(line, start + r, j)
    {
      if line[j] != ' ' && line[j] != '\t' {
        return false;
      }
    }
    return true;
  }

  function FenceAfter(fence: Fence, line: string): Fence {
    if fence.Opened? then if ClosesFence(line, fence.mark, fence.run) then Closed else fence
    else if FenceRun(line) > 0 then Opened(line[Indent(line)], FenceRun(line))
    else Closed
  }

  /** The heading a line is where it stands: none inside a fence, none on the line that opens one. */
  function HeadingIn(fence: Fence, line: string): Option<Heading> {
    if fence.Opened? || FenceRun(line) > 0 then None else HeadingOf(line)
  }

  // ---- Content ----

  /** A byte the content test skips. */
  predicate Skipped(c: char) {
    c == ' ' || c == '\t' || c == '\r'
  }

  predicate HasContent(line: string) {
    exists k :: 0 <= k < |line| && !Skipped(line[k])
  }

  method ContentLoop(line: string) returns (found: bool)
    ensures found <==> HasContent(line)
  {
    for k := 0 to |line|
      invariant forall j :: 0 <= j < k ==> Skipped(line[j])
    {
      if !Skipped(line[k]) {
        return true;
      }
    }
    return false;
  }

  /** A line with nothing on it opens no fence and is no heading. */
  lemma BlankLine(line: string)
    requires !HasContent(line)
    ensures HeadingIn(Closed, line) == None && FenceAfter(Closed, line) == Closed
  {
    var i := Indent(line);
    assert i < |line| ==> Skipped(line[i]);
    assert RunEnd(line, i, '#') == i by {
      RunEndAt(line, i, i, '#');
    }
  }
}
