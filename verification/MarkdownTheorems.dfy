/**
 What Markdown sections are, for every text: each is filed under the headings open where it ends, no heading
 starts inside one, none is longer than 200 lines, and every byte that shows is in exactly one.
 */
module MarkdownTheorems {
  import opened Common
  import opened TableSync
  import opened ChunkLists
  import opened MarkdownLines
  import opened Markdown

  // ---- Lines ----

  /** Line breaks before `k`. */
  function Breaks(s: string, k: nat): nat
    requires k <= |s|
  {
    if k == 0 then 0 else Breaks(s, k - 1) + if s[k - 1] == '\n' then 1 else 0
  }

  /** Lines that start before `k`. */
  function LinesIn(s: string, k: nat): nat
    requires k <= |s|
  {
    Breaks(s, k) + if k > 0 && s[k - 1] != '\n' then 1 else 0
  }

  predicate LineStart(s: string, k: nat)
    requires k <= |s|
  {
    k == 0 || s[k - 1] == '\n'
  }

  lemma {:induction false} BreaksSame(s: string, a: nat, b: nat)
    requires a <= b <= |s| && forall k :: a <= k < b ==> s[k] != '\n'
    ensures Breaks(s, b) == Breaks(s, a)
  {
    if a < b {
      BreaksSame(s, a, b - 1);
    }
  }

  lemma NextLineCounts(s: string, pos: nat)
    requires pos < |s| && LineStart(s, pos)
    ensures var next := NextLine(s, pos); LinesIn(s, next) == LinesIn(s, pos) + 1 && (next < |s| ==> LineStart(s, next))
    ensures LinesIn(s, pos) == Breaks(s, pos)
  {
    BreaksSame(s, pos, BreakAt(s, pos));
  }

  // ---- Headings of the text ----

  /** A heading line and where it starts. */
  datatype Mark = Mark(pos: nat, heading: Heading)

  function MarkAt(s: string, pos: nat, fence: Fence): (r: seq<Mark>)
    requires pos < |s|
    ensures forall i :: 0 <= i < |r| ==> r[i].pos == pos
  {
    var h := HeadingIn(fence, LineText(s, pos));
    if h.None? then [] else [Mark(pos, h.value)]
  }

  /** The headings from a line on, outside fences. */
  function Marks(s: string, pos: nat, fence: Fence): (r: seq<Mark>)
    requires pos <= |s|
    ensures forall i :: 0 <= i < |r| ==> pos <= r[i].pos
    decreases |s| - pos
  {
    if pos == |s| then []
    else MarkAt(s, pos, fence) + Marks(s, NextLine(s, pos), FenceAfter(fence, LineText(s, pos)))
  }

  function AllMarks(s: string): seq<Mark> {
    Marks(s, 0, Closed)
  }

  /** Those that start before `b`. */
  function Before(marks: seq<Mark>, b: nat): seq<Mark> {
    if marks == [] || marks[0].pos >= b then [] else [marks[0]] + Before(marks[1..], b)
  }

  lemma {:induction false} BeforeSplits(heads: seq<Mark>, rest: seq<Mark>, b: nat)
    requires forall i :: 0 <= i < |heads| ==> heads[i].pos < b
    requires forall i :: 0 <= i < |rest| ==> b <= rest[i].pos
    ensures Before(heads + rest, b) == heads
  {
    if heads != [] {
      assert (heads + rest)[1..] == heads[1..] + rest;
      BeforeSplits(heads[1..], rest, b);
    } else {
      assert heads + rest == rest;
    }
  }

  // ---- What is a heading and what stands in a fence ----

  /** The first line after `a` that closes a fence of `n` marks `c` starts at `q`. */
  ghost predicate FirstClose(s: string, a: nat, q: nat, c: char, n: nat) {
    && a < q < |s| && LineStart(s, q) && IsClose(LineText(s, q), c, n)
    && forall r :: a < r < q && LineStart(s, r) ==> !IsClose(LineText(s, r), c, n)
  }

  ghost predicate OpensFence(line: string) {
    exists c: char, n: nat :: IsFence(line, c, n)
  }

  /**
   From the line at `a`, which stands in no fence, the line at `p` is reached without entering one: a line that is no
   fence is passed, and one that is a fence with everything up to the first line that closes it.
   */
  ghost predicate OutsideFrom(s: string, a: nat, p: nat)
    requires a <= |s|
    decreases |s| - a
  {
    a == p || (a < p && a < |s| &&
      if !OpensFence(LineText(s, a)) then OutsideFrom(s, NextLine(s, a), p)
      else exists q: nat, c: char, n: nat :: IsFence(LineText(s, a), c, n) && FirstClose(s, a, q, c, n) && OutsideFrom(s, NextLine(s, q), p))
  }

  /** Some heading of the list starts at `p` and has this level. */
  ghost predicate HasMark(marks: seq<Mark>, p: nat, level: nat) {
    exists i :: 0 <= i < |marks| && marks[i].pos == p && marks[i].heading.level == level
  }

  /** No line starts within a line. */
  lemma OneLineStart(s: string, pos: nat)
    requires pos < |s|
    ensures forall r :: pos < r < NextLine(s, pos) ==> !LineStart(s, r)
  {}

  lemma FencedHere(s: string, pos: nat, c: char, n: nat)
    requires pos < |s| && (c == '`' || c == '~')
    ensures Marks(s, pos, Opened(c, n)) == Marks(s, NextLine(s, pos), if IsClose(LineText(s, pos), c, n) then Closed else Opened(c, n))
  {
    CloseIff(LineText(s, pos), c, n);
    NoTail(Marks(s, NextLine(s, pos), FenceAfter(Opened(c, n), LineText(s, pos))));
  }

  lemma OneClose(s: string, a: nat, q: nat, q': nat, c: char, n: nat)
    requires FirstClose(s, a, q, c, n) && FirstClose(s, a, q', c, n)
    ensures q == q'
  {}

  /** Inside a fence there is no heading up to the line that closes it. */
  lemma {:induction false} FencedMarks(s: string, a: nat, pos: nat, c: char, n: nat)
    requires a < pos <= |s| && (pos < |s| ==> LineStart(s, pos)) && (c == '`' || c == '~')
    requires forall r :: a < r < pos && LineStart(s, r) ==> !IsClose(LineText(s, r), c, n)
    ensures forall q: nat :: FirstClose(s, a, q, c, n) ==> Marks(s, pos, Opened(c, n)) == Marks(s, NextLine(s, q), Closed)
    ensures (forall q: nat :: !FirstClose(s, a, q, c, n)) ==> Marks(s, pos, Opened(c, n)) == []
    decreases |s| - pos
  {
    if pos < |s| {
      FencedHere(s, pos, c, n);
      if IsClose(LineText(s, pos), c, n) {
        assert FirstClose(s, a, pos, c, n);
        forall q: nat | FirstClose(s, a, q, c, n)
          ensures q == pos
        {
          OneClose(s, a, q, pos, c, n);
        }
      } else {
        NextLineCounts(s, pos);
        OneLineStart(s, pos);
        FencedMarks(s, a, NextLine(s, pos), c, n);
      }
    }
  }

  lemma OneFence(line: string, c: char, n: nat, c': char, n': nat)
    requires IsFence(line, c, n) && IsFence(line, c', n')
    ensures c == c' && n == n' && FenceRun(line) == n && Indent(line) < |line| && line[Indent(line)] == c
  {
    FenceIff(line, c, n);
    FenceIff(line, c', n');
  }

  lemma NoFence(line: string)
    requires !OpensFence(line)
    ensures FenceRun(line) == 0
  {
    if FenceRun(line) > 0 {
      FenceIff(line, line[Indent(line)], FenceRun(line));
    }
  }

  /** The line at hand is a heading of a level exactly when it has the shape of one. */
  lemma HereIff(s: string, a: nat, level: nat)
    requires a < |s|
    ensures HasMark(MarkAt(s, a, Closed), a, level) <==> exists i: nat :: HeadingShape(LineText(s, a), i, level)
  {
    var line := LineText(s, a);
    HeadingIff(line, level);
    if exists i: nat :: HeadingShape(line, i, level) {
      var i: nat :| HeadingShape(line, i, level);
      if FenceRun(line) > 0 {
        FenceIff(line, line[Indent(line)], FenceRun(line));
        HeadingIsNoFence(line, i, level, line[Indent(line)], FenceRun(line));
      }
      assert MarkAt(s, a, Closed)[0].heading.level == level;
    }
  }

  lemma MarkSplit(a: seq<Mark>, b: seq<Mark>, p: nat, level: nat)
    ensures HasMark(a + b, p, level) <==> HasMark(a, p, level) || HasMark(b, p, level)
  {
    if HasMark(a, p, level) {
      var i :| 0 <= i < |a| && a[i].pos == p && a[i].heading.level == level;
      assert (a + b)[i] == a[i];
    }
    if HasMark(b, p, level) {
      var i :| 0 <= i < |b| && b[i].pos == p && b[i].heading.level == level;
      assert (a + b)[|a| + i] == b[i];
    }
  }

  /** Past a fence the headings go on from the line after the one that closes it. */
  lemma PastFence(s: string, a: nat, p: nat, c: char, n: nat)
    requires a < |s| && LineStart(s, a) && IsFence(LineText(s, a), c, n) && a < p
    ensures Marks(s, a, Closed) == Marks(s, NextLine(s, a), Opened(c, n))
    ensures forall q: nat :: FirstClose(s, a, q, c, n) ==>
              Marks(s, a, Closed) == Marks(s, NextLine(s, q), Closed) && (OutsideFrom(s, a, p) <==> OutsideFrom(s, NextLine(s, q), p))
    ensures (forall q: nat :: !FirstClose(s, a, q, c, n)) ==> Marks(s, a, Closed) == [] && !OutsideFrom(s, a, p)
  {
    var line := LineText(s, a);
    OneFence(line, c, n, c, n);
    NoTail(Marks(s, NextLine(s, a), Opened(c, n)));
    NextLineCounts(s, a);
    OneLineStart(s, a);
    FencedMarks(s, a, NextLine(s, a), c, n);
    forall q: nat | FirstClose(s, a, q, c, n)
      ensures OutsideFrom(s, a, p) <==> OutsideFrom(s, NextLine(s, q), p)
    {
      assert OpensFence(line);
      forall q': nat, c': char, n': nat | IsFence(line, c', n') && FirstClose(s, a, q', c', n')
        ensures q' == q
      {
        OneFence(line, c, n, c', n');
      }
    }
    if forall q: nat :: !FirstClose(s, a, q, c, n) {
      forall q': nat, c': char, n': nat | IsFence(line, c', n') && FirstClose(s, a, q', c', n')
        ensures false
      {
        OneFence(line, c, n, c', n');
      }
    }
  }

  /** The headings of a text are exactly the lines outside fences that have the shape of one. */
  lemma {:induction false} MarksIff(s: string, a: nat, p: nat, level: nat)
    requires a <= |s| && (a < |s| ==> LineStart(s, a))
    ensures HasMark(Marks(s, a, Closed), p, level) <==>
              p < |s| && OutsideFrom(s, a, p) && exists i: nat :: HeadingShape(LineText(s, p), i, level)
    decreases |s| - a
  {
    if a < |s| {
      var line, next := LineText(s, a), NextLine(s, a);
      NextLineCounts(s, a);
      HereIff(s, a, level);
      MarkSplit(MarkAt(s, a, Closed), Marks(s, next, FenceAfter(Closed, line)), p, level);
      if p > a {
        if !OpensFence(line) {
          NoFence(line);
          MarksIff(s, next, p, level);
        } else {
          var c: char, n: nat :| IsFence(line, c, n);
          PastFence(s, a, p, c, n);
          if exists q: nat :: FirstClose(s, a, q, c, n) {
            var q: nat :| FirstClose(s, a, q, c, n);
            NextLineCounts(s, q);
            MarksIff(s, NextLine(s, q), p, level);
          }
        }
      }
    }
  }

  /** So of the whole text. */
  lemma HeadingsOfText(s: string, p: nat, level: nat)
    ensures HasMark(AllMarks(s), p, level) <==>
              p < |s| && OutsideFrom(s, 0, p) && exists i: nat :: HeadingShape(LineText(s, p), i, level)
  {
    MarksIff(s, 0, p, level);
  }

  // ---- Open headings ----

  /** No later heading of this level or above closes it. */
  ghost predicate StaysOpen(heads: seq<Mark>, i: nat)
    requires i < |heads|
  {
    forall j :: i < j < |heads| ==> heads[j].heading.level > heads[i].heading.level
  }

  /** The headings from `i` on that nothing later closes, in order. */
  ghost function OpenFrom(heads: seq<Mark>, i: nat): seq<Heading>
    requires i <= |heads|
    decreases |heads| - i
  {
    if i == |heads| then []
    else (if StaysOpen(heads, i) then [heads[i].heading] else []) + OpenFrom(heads, i + 1)
  }

  ghost function OpenHeadings(heads: seq<Mark>): seq<Heading> {
    OpenFrom(heads, 0)
  }

  ghost predicate Leveled(heads: seq<Mark>) {
    forall i :: 0 <= i < |heads| ==> 1 <= heads[i].heading.level <= 6 && |heads[i].heading.title| < TITLE_MAX
  }

  /** The open headings are nested ever deeper, so there are never more than six. */
  lemma {:induction false} OpenIsRising(heads: seq<Mark>, i: nat)
    requires Leveled(heads) && i <= |heads|
    ensures Rising(OpenFrom(heads, i)) && |OpenFrom(heads, i)| <= MAX_DEPTH
    ensures forall k :: 0 <= k < |OpenFrom(heads, i)| ==> exists j :: i <= j < |heads| && heads[j].heading == OpenFrom(heads, i)[k]
    decreases |heads| - i
  {
    if i < |heads| {
      OpenIsRising(heads, i + 1);
    }
    AtMostSix(OpenFrom(heads, i));
  }

  /** The headings below a level. */
  function Above(stack: seq<Heading>, level: nat): seq<Heading> {
    if stack == [] then []
    else (if stack[0].level < level then [stack[0]] else []) + Above(stack[1..], level)
  }

  lemma {:induction false} AboveSplits(a: seq<Heading>, b: seq<Heading>, level: nat)
    ensures Above(a + b, level) == Above(a, level) + Above(b, level)
  {
    if a == [] {
      NoTail(b);
    } else {
      assert (a + b)[1..] == a[1..] + b;
      AboveSplits(a[1..], b, level);
    }
  }

  lemma StaysOpenNext(heads: seq<Mark>, m: Mark, i: nat)
    requires i < |heads|
    ensures StaysOpen(heads + [m], i) <==> StaysOpen(heads, i) && m.heading.level > heads[i].heading.level
  {
    var more := heads + [m];
    assert more[|heads|] == m;
    assert forall j :: 0 <= j < |heads| ==> more[j] == heads[j];
  }

  /** One more heading closes those at its level or below, and opens itself. */
  lemma {:induction false} OpenNext(heads: seq<Mark>, m: Mark, i: nat)
    requires i <= |heads|
    ensures OpenFrom(heads + [m], i) == Above(OpenFrom(heads, i), m.heading.level) + [m.heading]
    decreases |heads| - i
  {
    var more := heads + [m];
    if i == |heads| {
      assert StaysOpen(more, i);
      assert OpenFrom(more, i + 1) == [];
    } else {
      OpenNext(heads, m, i + 1);
      StaysOpenNext(heads, m, i);
      var one := if StaysOpen(heads, i) then [heads[i].heading] else [];
      AboveSplits(one, OpenFrom(heads, i + 1), m.heading.level);
      Regroup(Above(one, m.heading.level), Above(OpenFrom(heads, i + 1), m.heading.level), [m.heading]);
    }
  }

  lemma {:induction false} AboveAll(stack: seq<Heading>, level: nat)
    requires forall i :: 0 <= i < |stack| ==> stack[i].level < level
    ensures Above(stack, level) == stack
  {
    if stack != [] {
      AboveAll(stack[1..], level);
    }
  }

  /** Popping is enough: on a rising stack it closes everything at the level or below. */
  lemma {:induction false} PushCloses(stack: seq<Heading>, h: Heading)
    requires Rising(stack)
    ensures Push(stack, h) == Above(stack, h.level) + [h]
  {
    if stack != [] {
      var front, last := stack[..|stack| - 1], stack[|stack| - 1];
      assert stack == front + [last];
      if last.level >= h.level {
        PushCloses(front, h);
        AboveSplits(front, [last], h.level);
        NoTail(Above(front, h.level));
      } else {
        AboveAll(stack, h.level);
      }
    }
  }

  /** The stack the code keeps is the stack of headings still open. */
  lemma PushIsOpen(heads: seq<Mark>, m: Mark)
    requires Leveled(heads)
    ensures Push(OpenHeadings(heads), m.heading) == OpenHeadings(heads + [m])
  {
    OpenIsRising(heads, 0);
    PushCloses(OpenHeadings(heads), m.heading);
    OpenNext(heads, m, 0);
  }

  // ---- The breadcrumb reads back ----

  predicate ArrowAt(s: string, i: nat) {
    i + 3 <= |s| && s[i] == ' ' && s[i + 1] == '>' && s[i + 2] == ' '
  }

  function FirstArrow(s: string, i: nat): (r: nat)
    requires i <= |s|
    ensures i <= r <= |s| && (r < |s| ==> ArrowAt(s, r)) && forall j :: i <= j < r ==> !ArrowAt(s, j)
    decreases |s| - i
  {
    if i == |s| || ArrowAt(s, i) then i else FirstArrow(s, i + 1)
  }

  /** A text cut at every " > ". */
  function CutAtArrows(s: string): seq<string>
    decreases |s|
  {
    var f := FirstArrow(s, 0);
    if f == |s| then [s] else [s[..f]] + CutAtArrows(s[f + 3..])
  }

  function Titles(stack: seq<Heading>): (ts: seq<string>)
    ensures |ts| == |stack| && forall i :: 0 <= i < |stack| ==> ts[i] == stack[i].title
  {
    seq(|stack|, i requires 0 <= i < |stack| => stack[i].title)
  }

  lemma CrumbLast(front: seq<Heading>, h: Heading)
    ensures Crumb(front + [h]) == if front == [] then h.title else Crumb(front) + (" > " + h.title)
  {
    assert (front + [h])[..|front|] == front;
    if front != [] {
      Regroup(Crumb(front), " > ", h.title);
    }
  }

  lemma {:induction false} CrumbFirst(h: Heading, rest: seq<Heading>)
    requires rest != []
    ensures Crumb([h] + rest) == h.title + (" > " + Crumb(rest))
    decreases |rest|
  {
    var n := |rest| - 1;
    var front, last := rest[..n], rest[n];
    assert rest == front + [last] && [h] + rest == ([h] + front) + [last];
    CrumbLast([h] + front, last);
    CrumbLast(front, last);
    if n == 0 {
      CrumbLast([], h);
      assert [h] + front == [] + [h];
    } else {
      CrumbFirst(h, front);
      RegroupFour(h.title, " > ", Crumb(front), " > " + last.title);
      Regroup(h.title, " > ", Crumb(front));
    }
  }

  lemma CutFirst(title: string, rest: string)
    requires '>' !in title
    ensures CutAtArrows(title + (" > " + rest)) == [title] + CutAtArrows(rest)
  {
    var s := title + (" > " + rest);
    assert ArrowAt(s, |title|);
    forall j | 0 <= j < |title|
      ensures !ArrowAt(s, j)
    {
      assert s[j + 1] == if j + 1 < |title| then title[j + 1] else ' ';
    }
    assert FirstArrow(s, 0) == |title|;
    assert s[..|title|] == title && s[|title| + 3..] == rest;
  }

  lemma OneTitle(h: Heading)
    requires '>' !in h.title
    ensures CutAtArrows(Crumb([h])) == [h.title]
  {
    CrumbLast([], h);
    assert [] + [h] == [h];
    assert forall j :: 0 <= j < |h.title| ==> !ArrowAt(h.title, j);
  }

  lemma OneMoreTitle(h: Heading, rest: seq<Heading>)
    requires rest != [] && '>' !in h.title && CutAtArrows(Crumb(rest)) == Titles(rest)
    ensures CutAtArrows(Crumb([h] + rest)) == Titles([h] + rest)
  {
    CrumbFirst(h, rest);
    CutFirst(h.title, Crumb(rest));
    assert Titles([h] + rest) == [h.title] + Titles(rest);
  }

  /** A breadcrumb is the titles with " > " between them: where no title holds a '>', it cuts back into them, in order. */
  lemma {:induction false} CrumbReadsBack(stack: seq<Heading>)
    requires stack != [] && forall i :: 0 <= i < |stack| ==> '>' !in stack[i].title
    ensures CutAtArrows(Crumb(stack)) == Titles(stack)
    decreases |stack|
  {
    var h, rest := stack[0], stack[1..];
    if rest == [] {
      OneTitle(h);
      assert stack == [h] && Titles(stack) == [h.title];
    } else {
      CrumbReadsBack(rest);
      OneMoreTitle(h, rest);
      assert stack == [h] + rest;
    }
  }

  // ---- Every section ----

  ghost predicate NoneInside(marks: seq<Mark>, a: nat, b: nat) {
    forall i :: 0 <= i < |marks| ==> marks[i].pos <= a || b <= marks[i].pos
  }

  /**
   A section starts at a line, knows its first and last line, is at most 200 lines long, holds no heading
   past its first line, and is named after the headings open where it ends.
   */
  ghost predicate SectionOk(s: string, p: Piece) {
    var a, b := p.span.startByte, p.span.endByte;
    && a <= b <= |s| && LineStart(s, a)
    && p.span.startLine == Breaks(s, a) + 1 && p.span.endLine == LinesIn(s, b) && p.span.endLine < p.span.startLine + MAX_SECTION_LINES
    && NoneInside(AllMarks(s), a, b)
    && p.symbol == SymbolOf(OpenHeadings(Before(AllMarks(s), b)))
  }

  ghost predicate Proved(s: string, p: Piece) {
    forall n {:trigger Look(n)} :: Look(n) ==> SectionOk(s, p)
  }

  ghost predicate SectionsOk(s: string, ps: seq<Piece>) {
    forall i :: 0 <= i < |ps| ==> Proved(s, ps[i])
  }

  lemma OneOk(s: string, p: Piece)
    requires Proved(s, p)
    ensures SectionsOk(s, [p])
  {}

  /** The section open so far. */
  ghost predicate SectionSoFar(s: string, m: State, heads: seq<Mark>) {
    && m.start <= m.pos <= |s| && m.lines + m.startLine == m.line + 1
    && (m.start < |s| ==> LineStart(s, m.start) && m.startLine == Breaks(s, m.start) + 1)
    && (forall i :: 0 <= i < |heads| ==> heads[i].pos <= m.start)
    && m.stack == OpenHeadings(heads) && Leveled(heads)
  }

  /** Between two lines. */
  ghost predicate Placed(s: string, m: State, heads: seq<Mark>) {
    forall n {:trigger Look(n)} :: Look(n) ==>
      && SectionSoFar(s, m, heads) && m.lines < MAX_SECTION_LINES
      && (m.pos < |s| ==> LineStart(s, m.pos)) && m.line == LinesIn(s, m.pos)
      && (forall i :: 0 <= i < |heads| ==> heads[i].pos < m.pos)
      && AllMarks(s) == heads + Marks(s, m.pos, m.fence)
  }

  /** The line's heading, if any, has been taken; the line itself has not. */
  ghost predicate Entered(s: string, m: State, heads: seq<Mark>) {
    forall n {:trigger Look(n)} :: Look(n) ==>
      && SectionSoFar(s, m, heads) && m.lines < MAX_SECTION_LINES && m.pos < |s|
      && LineStart(s, m.pos) && m.line == LinesIn(s, m.pos)
      && AllMarks(s) == heads + Marks(s, NextLine(s, m.pos), FenceAfter(m.fence, LineText(s, m.pos)))
  }

  lemma AtStart(s: string)
    ensures Placed(s, INITIAL, [])
  {
    NoTail(AllMarks(s));
  }

  /** The section that ends here is as promised. */
  lemma SectionEnds(s: string, m: State, heads: seq<Mark>, rest: seq<Mark>, end: nat)
    requires SectionSoFar(s, m, heads) && m.start < |s| && m.start <= end <= |s|
    requires AllMarks(s) == heads + rest && forall i :: 0 <= i < |rest| ==> end <= rest[i].pos
    requires forall i :: 0 <= i < |heads| ==> heads[i].pos < end
    requires m.line == LinesIn(s, end) && m.lines <= MAX_SECTION_LINES
    ensures Proved(s, Section(m, end))
  {
    BeforeSplits(heads, rest, end);
  }

  lemma OpenAndLeveled(heads: seq<Mark>, mark: Mark)
    requires Leveled(heads) && 1 <= mark.heading.level <= 6 && |mark.heading.title| < TITLE_MAX
    ensures Push(OpenHeadings(heads), mark.heading) == OpenHeadings(heads + [mark]) && Leveled(heads + [mark])
  {
    PushIsOpen(heads, mark);
  }

  /** The section a heading opens holds nothing yet. */
  lemma FreshSection(s: string, m: State, heads: seq<Mark>, mark: Mark)
    requires SectionSoFar(s, m, heads) && m.pos < |s| && LineStart(s, m.pos) && m.line == LinesIn(s, m.pos)
    requires HeadingIn(m.fence, LineText(s, m.pos)) == Some(mark.heading) && mark.pos == m.pos
    ensures SectionSoFar(s, OpenSection(s, m), heads + [mark]) && OpenSection(s, m).lines == 0
  {
    NextLineCounts(s, m.pos);
    HeadingLimits(LineText(s, m.pos));
    OpenAndLeveled(heads, mark);
  }

  lemma HeadingTaken(s: string, m: State, heads: seq<Mark>)
    requires Placed(s, m, heads) && m.pos < |s|
    ensures Entered(s, OpenSection(s, m), heads + MarkAt(s, m.pos, m.fence))
  {
    assert Look(0);
    var marks, rest := MarkAt(s, m.pos, m.fence), Marks(s, NextLine(s, m.pos), FenceAfter(m.fence, LineText(s, m.pos)));
    Regroup(heads, marks, rest);
    var m1 := OpenSection(s, m);
    assert AllMarks(s) == (heads + marks) + rest;
    if marks == [] {
      NoTail(heads);
      assert m1 == m;
    } else {
      FreshSection(s, m, heads, marks[0]);
      assert marks == [marks[0]];
    }
    EnterAs(s, m1, heads + marks, rest);
  }

  lemma EnterAs(s: string, m: State, heads: seq<Mark>, rest: seq<Mark>)
    requires SectionSoFar(s, m, heads) && m.lines < MAX_SECTION_LINES && m.pos < |s| && LineStart(s, m.pos) && m.line == LinesIn(s, m.pos)
    requires AllMarks(s) == heads + rest && rest == Marks(s, NextLine(s, m.pos), FenceAfter(m.fence, LineText(s, m.pos)))
    ensures Entered(s, m, heads)
  {}

  lemma ClosedIsOk(s: string, m: State, heads: seq<Mark>)
    requires Placed(s, m, heads) && m.pos < |s|
    ensures SectionsOk(s, ClosedBy(s, m))
  {
    assert Look(0);
    if ClosedBy(s, m) != [] {
      SectionEnds(s, m, heads, Marks(s, m.pos, m.fence), m.pos);
      OneOk(s, Section(m, m.pos));
    }
  }

  /** The line has joined the section. */
  ghost predicate Joined(s: string, m: State, heads: seq<Mark>) {
    && SectionSoFar(s, m, heads) && m.lines <= MAX_SECTION_LINES && m.start < m.pos
    && (m.pos < |s| ==> LineStart(s, m.pos)) && m.line == LinesIn(s, m.pos)
    && AllMarks(s) == heads + Marks(s, m.pos, m.fence)
  }

  lemma LineJoins(s: string, m: State, heads: seq<Mark>)
    requires Entered(s, m, heads)
    ensures m.pos < |s| && Joined(s, TakeLine(s, m), heads)
  {
    assert Look(0);
    NextLineCounts(s, m.pos);
  }

  lemma SectionRestarts(s: string, m: State, heads: seq<Mark>)
    requires Joined(s, m, heads)
    ensures SectionSoFar(s, m.(start := m.pos, startLine := m.line + 1, lines := 0), heads)
  {}

  lemma PlacedAs(s: string, m: State, heads: seq<Mark>)
    requires SectionSoFar(s, m, heads) && m.lines < MAX_SECTION_LINES
    requires m.pos < |s| ==> LineStart(s, m.pos)
    requires m.line == LinesIn(s, m.pos)
    requires forall i :: 0 <= i < |heads| ==> heads[i].pos < m.pos
    requires AllMarks(s) == heads + Marks(s, m.pos, m.fence)
    ensures Placed(s, m, heads)
  {}

  lemma JoinedSplits(s: string, m: State, heads: seq<Mark>)
    requires Joined(s, m, heads)
    ensures Placed(s, Split(m), heads)
  {
    if m.lines >= MAX_SECTION_LINES {
      SectionRestarts(s, m, heads);
    }
    PlacedAs(s, Split(m), heads);
  }

  lemma LineTaken(s: string, m: State, heads: seq<Mark>)
    requires Entered(s, m, heads)
    ensures m.pos < |s| && Placed(s, Split(TakeLine(s, m)), heads) && SectionsOk(s, SplitOff(TakeLine(s, m)))
  {
    LineJoins(s, m, heads);
    var m2 := TakeLine(s, m);
    JoinedSplits(s, m2, heads);
    SectionEnds(s, m2, heads, Marks(s, m2.pos, m2.fence), m2.pos);
    OneOk(s, Section(m2, m2.pos));
  }

  lemma {:induction false} RestIsOk(s: string, m: State, heads: seq<Mark>)
    requires Placed(s, m, heads) && m.pos <= |s|
    ensures SectionsOk(s, Rest(s, m))
    decreases |s| - m.pos
  {
    if m.pos == |s| {
      assert Look(0);
      if m.start < |s| {
        NoTail(heads);
        SectionEnds(s, m, heads, [], |s|);
        OneOk(s, Section(m, |s|));
      }
    } else {
      HeadingTaken(s, m, heads);
      ClosedIsOk(s, m, heads);
      LineTaken(s, OpenSection(s, m), heads + MarkAt(s, m.pos, m.fence));
      RestIsOk(s, Step(s, m), heads + MarkAt(s, m.pos, m.fence));
    }
  }

  /** Every section of every text is as promised. */
  lemma AllSectionsOk(s: string)
    ensures forall i :: 0 <= i < |Pieces(s)| ==> SectionOk(s, Pieces(s)[i])
  {
    AtStart(s);
    RestIsOk(s, INITIAL, []);
    assert Look(0);
  }

  // ---- Where sections start ----

  /** A section starts with the text, at a heading, or where one of 200 lines before it ends. */
  ghost predicate StartsAt(s: string, before: seq<Piece>, a: nat) {
    || a == 0
    || (exists i :: 0 <= i < |AllMarks(s)| && AllMarks(s)[i].pos == a)
    || exists j :: 0 <= j < |before| && before[j].span.endByte == a && before[j].span.endLine + 1 == before[j].span.startLine + 200
  }

  ghost predicate StartsOk(s: string, before: seq<Piece>, ps: seq<Piece>) {
    forall i :: 0 <= i < |ps| ==> StartsAt(s, before + ps[..i], ps[i].span.startByte)
  }

  lemma StartsMore(s: string, before: seq<Piece>, more: seq<Piece>, a: nat)
    requires StartsAt(s, before, a)
    ensures StartsAt(s, before + more, a)
  {
    if j :| 0 <= j < |before| && before[j].span.endByte == a && before[j].span.endLine + 1 == before[j].span.startLine + 200 {
      assert (before + more)[j] == before[j];
    }
  }

  lemma StartsJoin(s: string, before: seq<Piece>, a: seq<Piece>, b: seq<Piece>)
    requires StartsOk(s, before, a) && StartsOk(s, before + a, b)
    ensures StartsOk(s, before, a + b)
  {
    var ps := a + b;
    forall i | 0 <= i < |ps|
      ensures StartsAt(s, before + ps[..i], ps[i].span.startByte)
    {
      if i < |a| {
        assert ps[..i] == a[..i];
      } else {
        assert ps[..i] == a + b[..i - |a|];
        Regroup(before, a, b[..i - |a|]);
      }
    }
  }

  lemma StartsOne(s: string, before: seq<Piece>, p: Piece)
    requires StartsAt(s, before, p.span.startByte)
    ensures StartsOk(s, before, [p])
  {
    assert [p][..0] == [];
    NoTail(before);
  }

  /** The open section has a reason to start where it does. */
  ghost predicate Reasoned(s: string, m: State, before: seq<Piece>) {
    StartsAt(s, before, m.start)
  }

  lemma HeadingIsReason(s: string, m: State, heads: seq<Mark>, before: seq<Piece>)
    requires Placed(s, m, heads) && m.pos < |s| && Reasoned(s, m, before)
    ensures Reasoned(s, OpenSection(s, m), before + ClosedBy(s, m)) && StartsOk(s, before, ClosedBy(s, m))
  {
    assert Look(0);
    var h := HeadingIn(m.fence, LineText(s, m.pos));
    if h.Some? {
      var marks := AllMarks(s);
      assert marks[|heads|] == Mark(m.pos, h.value);
    } else {
      NoTail(before);
    }
    if ClosedBy(s, m) != [] {
      StartsOne(s, before, Section(m, m.pos));
    }
  }

  lemma SplitIsReason(s: string, m: State, heads: seq<Mark>, before: seq<Piece>)
    requires Joined(s, m, heads) && Reasoned(s, m, before)
    ensures Reasoned(s, Split(m), before + SplitOff(m)) && StartsOk(s, before, SplitOff(m))
  {
    if m.lines >= MAX_SECTION_LINES {
      var p := Section(m, m.pos);
      StartsOne(s, before, p);
      assert (before + [p])[|before|] == p;
    } else {
      NoTail(before);
    }
  }

  lemma {:induction false} RestStarts(s: string, m: State, heads: seq<Mark>, before: seq<Piece>)
    requires Placed(s, m, heads) && m.pos <= |s| && Reasoned(s, m, before)
    ensures StartsOk(s, before, Rest(s, m))
    decreases |s| - m.pos
  {
    if m.pos == |s| {
      if Rest(s, m) != [] {
        StartsOne(s, before, Section(m, |s|));
      }
    } else {
      var m1, heads1 := OpenSection(s, m), heads + MarkAt(s, m.pos, m.fence);
      var m2 := TakeLine(s, m1);
      HeadingTaken(s, m, heads);
      HeadingIsReason(s, m, heads, before);
      LineTaken(s, m1, heads1);
      LineJoins(s, m1, heads1);
      var before1 := before + ClosedBy(s, m);
      SplitIsReason(s, m2, heads1, before1);
      RestStarts(s, Step(s, m), heads1, before1 + SplitOff(m2));
      StartsJoin(s, before1, SplitOff(m2), Rest(s, Step(s, m)));
      StartsJoin(s, before, ClosedBy(s, m), SplitOff(m2) + Rest(s, Step(s, m)));
      Regroup(ClosedBy(s, m), SplitOff(m2), Rest(s, Step(s, m)));
    }
  }

  /** Every section starts with the text, at a heading, or where a section of exactly 200 lines before it ends. */
  lemma SectionStarts(s: string, i: nat)
    requires i < |Pieces(s)|
    ensures StartsAt(s, Pieces(s)[..i], Pieces(s)[i].span.startByte)
  {
    AtStart(s);
    RestStarts(s, INITIAL, [], []);
    assert [] + Pieces(s)[..i] == Pieces(s)[..i];
  }

  // ---- Every byte ----

  predicate Unseen(c: char) {
    c == ' ' || c == '\t' || c == '\r' || c == '\n'
  }

  ghost predicate UnseenFrom(s: string, a: nat, b: nat) {
    b <= |s| && forall k :: a <= k < b ==> Unseen(s[k])
  }

  /** Sections that follow one another from `a` to `b` with nothing that shows between them. */
  ghost predicate Covers(s: string, ps: seq<Piece>, a: nat, b: nat) {
    if ps == [] then a <= b && UnseenFrom(s, a, b)
    else
      && a <= ps[0].span.startByte <= ps[0].span.endByte && UnseenFrom(s, a, ps[0].span.startByte)
      && Covers(s, ps[1..], ps[0].span.endByte, b)
  }

  lemma BlankLineIsUnseen(s: string, pos: nat)
    requires pos < |s| && !HasContent(LineText(s, pos))
    ensures UnseenFrom(s, pos, NextLine(s, pos))
  {
    var text := LineText(s, pos);
    var line := s[pos..BreakAt(s, pos)];
    forall k | pos <= k < NextLine(s, pos)
      ensures Unseen(s[k])
    {
      if k < BreakAt(s, pos) {
        assert s[k] == line[k - pos];
        assert k - pos < |text| ==> Skipped(text[k - pos]);
      }
    }
  }

  lemma {:induction false} CoversFrom(s: string, ps: seq<Piece>, a: nat, mid: nat, b: nat)
    requires Covers(s, ps, mid, b) && a <= mid && UnseenFrom(s, a, mid)
    ensures Covers(s, ps, a, b)
  {}

  lemma CoversOne(s: string, p: Piece, ps: seq<Piece>, b: nat)
    requires p.span.startByte <= p.span.endByte && Covers(s, ps, p.span.endByte, b)
    ensures Covers(s, [p] + ps, p.span.startByte, b)
  {
    HeadAndTail(p, ps);
  }

  /** A state whose open section, if it would not count, has nothing in it that shows. */
  ghost predicate Sound(s: string, m: State) {
    m.start <= m.pos <= |s| && (m.stack == [] && !m.content ==> UnseenFrom(s, m.start, m.pos))
  }

  lemma {:induction false} PushIsNotEmpty(stack: seq<Heading>, h: Heading)
    ensures Push(stack, h) != []
  {
    if stack != [] && stack[|stack| - 1].level >= h.level {
      PushIsNotEmpty(stack[..|stack| - 1], h);
    }
  }

  lemma SoundNext(s: string, m: State)
    requires Sound(s, m) && m.pos < |s|
    ensures Sound(s, OpenSection(s, m)) && Sound(s, TakeLine(s, OpenSection(s, m))) && Sound(s, Step(s, m))
  {
    var text := LineText(s, m.pos);
    var h := HeadingIn(m.fence, text);
    if h.Some? {
      PushIsNotEmpty(m.stack, h.value);
    }
    if !HasContent(text) {
      BlankLineIsUnseen(s, m.pos);
    }
  }

  lemma {:induction false} RestCovers(s: string, m: State)
    requires Sound(s, m)
    ensures Covers(s, Rest(s, m), m.start, |s|)
    decreases |s| - m.pos
  {
    if m.pos == |s| {
      if m.start < |s| && Close(m, |s|) != [] {
        CoversOne(s, Section(m, |s|), [], |s|);
        NoTail([Section(m, |s|)]);
      }
    } else {
      SoundNext(s, m);
      var m1 := OpenSection(s, m);
      var m2 := TakeLine(s, m1);
      var rest := Rest(s, Step(s, m));
      RestCovers(s, Step(s, m));
      CoverSplit(s, m2, rest);
      CoverClose(s, m, SplitOff(m2) + rest);
      Regroup(ClosedBy(s, m), SplitOff(m2), rest);
    }
  }

  lemma CoverSplit(s: string, m: State, rest: seq<Piece>)
    requires m.start <= m.pos <= |s| && Covers(s, rest, Split(m).start, |s|)
    ensures Covers(s, SplitOff(m) + rest, m.start, |s|)
  {
    if m.lines >= MAX_SECTION_LINES {
      CoversOne(s, Section(m, m.pos), rest, |s|);
    } else {
      NoTail(rest);
    }
  }

  lemma CoverClose(s: string, m: State, rest: seq<Piece>)
    requires Sound(s, m) && m.pos < |s| && Covers(s, rest, OpenSection(s, m).start, |s|)
    ensures Covers(s, ClosedBy(s, m) + rest, m.start, |s|)
  {
    if ClosedBy(s, m) == [] {
      NoTail(rest);
      if HeadingIn(m.fence, LineText(s, m.pos)).Some? {
        CoversFrom(s, rest, m.start, m.pos, |s|);
      }
    } else {
      CoversOne(s, Section(m, m.pos), rest, |s|);
    }
  }

  predicate Holds(p: Piece, k: nat) {
    p.span.startByte <= k < p.span.endByte
  }

  lemma {:induction false} HeldOnce(s: string, ps: seq<Piece>, a: nat, b: nat, k: nat)
    requires Covers(s, ps, a, b) && a <= k < b <= |s| && !Unseen(s[k])
    ensures exists i :: HeldOnlyBy(ps, k, i)
  {
    if ps == [] {
      assert false;
    } else if k < ps[0].span.endByte {
      LaterStart(s, ps[1..], ps[0].span.endByte, b);
      assert forall j :: 0 < j < |ps| ==> ps[j] == ps[1..][j - 1];
      assert Holds(ps[0], k);
      assert HeldOnlyBy(ps, k, 0);
    } else {
      HeldOnce(s, ps[1..], ps[0].span.endByte, b, k);
      var i :| HeldOnlyBy(ps[1..], k, i);
      assert forall j :: 0 < j < |ps| ==> ps[j] == ps[1..][j - 1];
      assert HeldOnlyBy(ps, k, i + 1);
    }
  }

  /** One section holds byte `k`, and no other does. */
  ghost predicate HeldOnlyBy(ps: seq<Piece>, k: nat, i: int) {
    0 <= i < |ps| && Holds(ps[i], k) && forall j :: 0 <= j < |ps| && Holds(ps[j], k) ==> j == i
  }

  lemma {:induction false} LaterStart(s: string, ps: seq<Piece>, a: nat, b: nat)
    requires Covers(s, ps, a, b)
    ensures forall i :: 0 <= i < |ps| ==> a <= ps[i].span.startByte
  {
    if ps != [] {
      LaterStart(s, ps[1..], ps[0].span.endByte, b);
      assert forall i :: 0 < i < |ps| ==> ps[i] == ps[1..][i - 1];
    }
  }

  /** Every byte that is not a space, tab, carriage return or line break is in exactly one section. */
  lemma EveryByteOnce(s: string, k: nat)
    requires k < |s| && !Unseen(s[k])
    ensures exists i :: HeldOnlyBy(Pieces(s), k, i)
  {
    RestCovers(s, INITIAL);
    HeldOnce(s, Pieces(s), 0, |s|, k);
  }

  // ---- Adjacent sections ----

  /** Each section starts where the one before it ends, the first at `a`. */
  ghost predicate Chained(ps: seq<Piece>, a: nat) {
    ps == [] || (ps[0].span.startByte == a && Chained(ps[1..], ps[0].span.endByte))
  }

  ghost predicate Adjacent(ps: seq<Piece>) {
    ps == [] || Chained(ps, ps[0].span.startByte)
  }

  /** How many lines from `pos` on have nothing on them. */
  function BlankLines(s: string, pos: nat): nat
    requires pos <= |s|
    decreases |s| - pos
  {
    if pos == |s| || HasContent(LineText(s, pos)) then 0 else 1 + BlankLines(s, NextLine(s, pos))
  }

  /** The first line from `pos` on with something on it is a heading. */
  predicate HeadingFirst(s: string, pos: nat)
    requires pos <= |s|
    decreases |s| - pos
  {
    pos < |s| &&
    if HasContent(LineText(s, pos)) then HeadingIn(Closed, LineText(s, pos)).Some? else HeadingFirst(s, NextLine(s, pos))
  }

  /** Once a section counts, every section starts where the last one ended. */
  lemma {:induction false} CountingIsChained(s: string, m: State)
    requires m.start <= m.pos <= |s| && (m.stack != [] || m.content)
    ensures Chained(Rest(s, m), m.start) && (m.start < |s| ==> Rest(s, m) != [])
    decreases |s| - m.pos
  {
    if m.pos < |s| {
      var m1 := OpenSection(s, m);
      var m2 := TakeLine(s, m1);
      var rest := Rest(s, Step(s, m));
      if HeadingIn(m.fence, LineText(s, m.pos)).Some? {
        PushIsNotEmpty(m.stack, HeadingIn(m.fence, LineText(s, m.pos)).value);
      }
      CountingIsChained(s, Step(s, m));
      ChainedSplit(m2, rest);
      ChainedClose(s, m, SplitOff(m2) + rest);
      Regroup(ClosedBy(s, m), SplitOff(m2), rest);
    }
  }

  lemma ChainedSplit(m: State, rest: seq<Piece>)
    requires Chained(rest, Split(m).start)
    ensures Chained(SplitOff(m) + rest, m.start)
  {
    if m.lines >= MAX_SECTION_LINES {
      HeadAndTail(Section(m, m.pos), rest);
    } else {
      NoTail(rest);
    }
  }

  lemma ChainedClose(s: string, m: State, rest: seq<Piece>)
    requires m.pos < |s| && (m.stack != [] || m.content) && Chained(rest, OpenSection(s, m).start)
    ensures Chained(ClosedBy(s, m) + rest, m.start)
  {
    if ClosedBy(s, m) == [] {
      NoTail(rest);
    } else {
      HeadAndTail(Section(m, m.pos), rest);
    }
  }

  /** Nothing has shown yet. */
  predicate Quiet(m: State) {
    m.stack == [] && !m.content && m.fence == Closed && m.lines < MAX_SECTION_LINES
  }

  lemma QuietNext(s: string, m: State)
    requires Quiet(m) && m.pos < |s| && !HasContent(LineText(s, m.pos))
    ensures Quiet(Step(s, m)) && Step(s, m).pos == NextLine(s, m.pos) && ClosedBy(s, m) == [] && OpenSection(s, m) == m
    ensures Step(s, m).lines == if m.lines + 1 == MAX_SECTION_LINES then 0 else m.lines + 1
    ensures Step(s, m).start == if m.lines + 1 == MAX_SECTION_LINES then NextLine(s, m.pos) else m.start
  {
    BlankLine(LineText(s, m.pos));
  }

  lemma OneStart(ps: seq<Piece>, a: nat, b: nat)
    requires ps != [] && Chained(ps, b)
    ensures ps[0].span.startByte == b && (Chained(ps, a) <==> a == b)
  {}

  lemma SplitMod(lines: nat, blank: nat)
    requires lines < MAX_SECTION_LINES
    ensures (lines + (1 + blank)) % MAX_SECTION_LINES == ((if lines + 1 == MAX_SECTION_LINES then 0 else lines + 1) + blank) % MAX_SECTION_LINES
    ensures lines % MAX_SECTION_LINES == lines
  {}

  /** The lines left over when a first heading comes. */
  function LeftOver(s: string, m: State): nat
    requires m.pos <= |s|
  {
    (m.lines + BlankLines(s, m.pos)) % MAX_SECTION_LINES
  }

  lemma LeftOverNext(s: string, m: State)
    requires Quiet(m) && m.pos < |s|
    ensures HasContent(LineText(s, m.pos)) ==> LeftOver(s, m) == m.lines
    ensures !HasContent(LineText(s, m.pos)) ==> LeftOver(s, Step(s, m)) == LeftOver(s, m)
  {
    SplitMod(m.lines, 0);
    if !HasContent(LineText(s, m.pos)) {
      QuietNext(s, m);
      SplitMod(m.lines, BlankLines(s, NextLine(s, m.pos)));
    }
  }

  lemma QuietSplit(s: string, m: State)
    requires Quiet(m) && m.start <= m.pos < |s| && !HasContent(LineText(s, m.pos))
    ensures Chained(Rest(s, m), m.start) <==> Chained(Rest(s, Step(s, m)), Step(s, m).start)
    ensures m.lines + 1 < MAX_SECTION_LINES ==> Rest(s, m) == Rest(s, Step(s, m))
    ensures m.lines + 1 == MAX_SECTION_LINES ==> Rest(s, m) != [] && Rest(s, m)[0].span.startByte == m.start
  {
    QuietNext(s, m);
    var m2 := TakeLine(s, OpenSection(s, m));
    var rest := Rest(s, Step(s, m));
    NoTail(SplitOff(m2));
    if m.lines + 1 == MAX_SECTION_LINES {
      HeadAndTail(Section(m2, m2.pos), rest);
    } else {
      NoTail(rest);
    }
  }

  /** From a quiet state the sections follow on exactly unless a heading comes first and cuts blank lines off. */
  lemma {:induction false} QuietIsChained(s: string, m: State)
    requires Quiet(m) && m.start <= m.pos <= |s| && (m.lines == 0 <==> m.start == m.pos)
    ensures Chained(Rest(s, m), m.start) <==> !(HeadingFirst(s, m.pos) && LeftOver(s, m) != 0)
    decreases |s| - m.pos
  {
    if m.pos < |s| {
      LeftOverNext(s, m);
      if HasContent(LineText(s, m.pos)) {
        FirstLine(s, m);
      } else {
        QuietNext(s, m);
        QuietSplit(s, m);
        QuietIsChained(s, Step(s, m));
      }
    }
  }

  /** What the first line that shows brings starts at it, if it is a heading, and otherwise where the section did. */
  lemma FirstRest(s: string, m: State)
    requires Quiet(m) && m.start <= m.pos < |s| && HasContent(LineText(s, m.pos))
    ensures Rest(s, m) != []
    ensures Chained(Rest(s, m), if HeadingIn(Closed, LineText(s, m.pos)).Some? then m.pos else m.start)
  {
    var m1 := OpenSection(s, m);
    var m2 := TakeLine(s, m1);
    var rest := Rest(s, Step(s, m));
    if HeadingIn(Closed, LineText(s, m.pos)).Some? {
      PushIsNotEmpty(m.stack, HeadingIn(Closed, LineText(s, m.pos)).value);
    }
    assert m2.stack != [] || m2.content;
    CountingIsChained(s, Step(s, m));
    ChainedSplit(m2, rest);
    NoTail(SplitOff(m2));
    assert Emitted(s, m) == SplitOff(m2);
  }

  /** The first line that shows: a heading leaves out what came before it. */
  lemma FirstLine(s: string, m: State)
    requires Quiet(m) && m.start <= m.pos < |s| && (m.lines == 0 <==> m.start == m.pos) && HasContent(LineText(s, m.pos))
    ensures HeadingFirst(s, m.pos) <==> HeadingIn(Closed, LineText(s, m.pos)).Some?
    ensures Chained(Rest(s, m), m.start) <==> !(HeadingFirst(s, m.pos) && m.lines != 0)
    ensures Rest(s, m) != [] && (HeadingFirst(s, m.pos) ==> Adjacent(Rest(s, m)))
    ensures !HeadingFirst(s, m.pos) ==> Rest(s, m)[0].span.startByte == m.start
  {
    FirstRest(s, m);
    OneStart(Rest(s, m), m.start, if HeadingIn(Closed, LineText(s, m.pos)).Some? then m.pos else m.start);
  }

  lemma QuietIsAdjacent(s: string, m: State)
    requires Quiet(m) && m.pos == m.start <= |s| && m.start == 0 && m.lines == 0
    ensures Adjacent(Rest(s, m)) <==>
      !(HeadingFirst(s, m.pos) && BlankLines(s, m.pos) >= MAX_SECTION_LINES && BlankLines(s, m.pos) % MAX_SECTION_LINES != 0)
  {
    QuietIsChained(s, m);
    FirstSection(s, m);
    LeftOverIs(s, m);
    AdjacentWhen(Rest(s, m), HeadingFirst(s, m.pos) && BlankLines(s, m.pos) < MAX_SECTION_LINES, HeadingFirst(s, m.pos) && LeftOver(s, m) != 0);
  }

  lemma LeftOverIs(s: string, m: State)
    requires m.pos <= |s| && m.lines == 0
    ensures LeftOver(s, m) == BlankLines(s, m.pos) % MAX_SECTION_LINES
  {}

  /**
   Sections are adjacent except in one case: the text opens with 200 blank lines or more, which are split off
   as sections, their number is no multiple of 200, and a heading comes next, which drops the remaining ones.
   */
  lemma AdjacentIff(s: string)
    ensures Adjacent(Pieces(s)) <==>
      !(HeadingFirst(s, 0) && BlankLines(s, 0) >= MAX_SECTION_LINES && BlankLines(s, 0) % MAX_SECTION_LINES != 0)
  {
    QuietIsAdjacent(s, INITIAL);
  }

  /** Empty lines, then a heading. */
  function BlanksThenHeading(n: nat): string {
    seq(n, _ => '\n') + "# a"
  }

  lemma HeadingAfterBlanks(s: string, n: nat)
    requires s == BlanksThenHeading(n)
    ensures LineText(s, n) == "# a" && HasContent(LineText(s, n)) && HeadingIn(Closed, LineText(s, n)).Some?
  {
    assert s[n] == '#' && s[n + 1] == ' ' && s[n + 2] == 'a';
    assert BreakAt(s, n) == |s|;
    var line := LineText(s, n);
    assert line == "# a";
    assert line[0] == '#' && !Skipped(line[0]);
    assert HeadingShape(line, 0, 1);
    HeadingIff(line, 1);
  }

  lemma BlankAt(s: string, n: nat, k: nat)
    requires s == BlanksThenHeading(n) && k < n
    ensures !HasContent(LineText(s, k)) && NextLine(s, k) == k + 1
  {
    assert BreakAt(s, k) == k && LineText(s, k) == [];
  }

  lemma {:induction false} CountBlanks(s: string, n: nat, k: nat)
    requires s == BlanksThenHeading(n) && k <= n
    ensures BlankLines(s, k) == n - k && HeadingFirst(s, k)
    decreases n - k
  {
    if k < n {
      BlankAt(s, n, k);
      CountBlanks(s, n, k + 1);
    } else {
      HeadingAfterBlanks(s, n);
    }
  }

  /** On such texts sections are adjacent exactly when few lines, or whole sections of them, come first. */
  lemma AdjacentBlanksIff(n: nat)
    ensures Adjacent(Pieces(BlanksThenHeading(n))) <==> n < MAX_SECTION_LINES || n % MAX_SECTION_LINES == 0
  {
    CountBlanks(BlanksThenHeading(n), n, 0);
    AdjacentIff(BlanksThenHeading(n));
  }

  /** A text whose sections are not adjacent: 201 empty lines, then a heading. */
  lemma AdjacentCanFail()
    ensures !Adjacent(Pieces(BlanksThenHeading(201)))
  {
    AdjacentBlanksIff(201);
  }

  lemma AdjacentWhen(ps: seq<Piece>, short: bool, cut: bool)
    requires Chained(ps, 0) <==> !cut
    requires if short then Adjacent(ps) else ps == [] || ps[0].span.startByte == 0
    ensures Adjacent(ps) <==> short || !cut
  {}

  /** With fewer than 200 lines before it, a first heading starts the first section; otherwise that starts where the text does. */
  lemma {:induction false} FirstSection(s: string, m: State)
    requires Quiet(m) && m.start <= m.pos <= |s| && (m.lines == 0 <==> m.start == m.pos)
    ensures HeadingFirst(s, m.pos) && m.lines + BlankLines(s, m.pos) < MAX_SECTION_LINES ==> Adjacent(Rest(s, m))
    ensures !(HeadingFirst(s, m.pos) && m.lines + BlankLines(s, m.pos) < MAX_SECTION_LINES) ==>
      Rest(s, m) == [] || Rest(s, m)[0].span.startByte == m.start
    decreases |s| - m.pos
  {
    if m.pos < |s| {
      if HasContent(LineText(s, m.pos)) {
        FirstLine(s, m);
      } else {
        QuietNext(s, m);
        QuietSplit(s, m);
        if m.lines + 1 < MAX_SECTION_LINES {
          FirstSection(s, Step(s, m));
        }
      }
    }
  }
}
