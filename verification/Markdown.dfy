/**
 Markdown sections: a machine that takes one line at a time, and the loop of `markdown_chunk` proved
 against it. What its sections are is in MarkdownTheorems.dfy.
 */
module Markdown {
  import opened Common
  import opened StrMaps
  import opened TableSync
  import opened ChunkKeys
  import opened ChunkLists
  import opened MarkdownLines

  // ---- Lines of the text ----

  /** Where the next line break is, or the end. */
  function BreakAt(s: string, i: nat): (r: nat)
    requires i <= |s|
    ensures i <= r <= |s| && (r < |s| ==> s[r] == '\n') && forall k :: i <= k < r ==> s[k] != '\n'
    decreases |s| - i
  {
    if i == |s| || s[i] == '\n' then i else BreakAt(s, i + 1)
  }

  function NextLine(s: string, i: nat): (r: nat)
    requires i <= |s|
    ensures i <= r <= |s| && (i < |s| ==> i < r)
  {
    var nl := BreakAt(s, i);
    if nl < |s| then nl + 1 else nl
  }

  /** The line without its break and without one carriage return before it. */
  function LineText(s: string, i: nat): string
    requires i <= |s|
  {
    var line := s[i..BreakAt(s, i)];
    if line != [] && line[|line| - 1] == '\r' then line[..|line| - 1] else line
  }

  method FindBreak(s: string, i: nat) returns (r: nat)
    requires i <= |s|
    ensures r == BreakAt(s, i)
  {
    r := i;
    while r < |s| && s[r] != '\n'
      invariant i <= r <= |s| && BreakAt(s, r) == BreakAt(s, i)
    {
      r := r + 1;
    }
  }

  // ---- The stack of headings ----

  /** Headings at the new level or below close; the new one opens. */
  function Push(stack: seq<Heading>, h: Heading): seq<Heading> {
    if stack != [] && stack[|stack| - 1].level >= h.level then Push(stack[..|stack| - 1], h) else stack + [h]
  }

  /** The breadcrumb: the titles with " > " between them. */
  function Crumb(stack: seq<Heading>): string {
    if stack == [] then ""
    else
      var n := |stack| - 1;
      Crumb(stack[..n]) + (if n > 0 then " > " else "") + stack[n].title
  }

  ghost predicate Rising(stack: seq<Heading>) {
    && (forall i :: 0 <= i < |stack| ==> 1 <= stack[i].level <= 6 && |stack[i].title| < TITLE_MAX)
    && forall i, j :: 0 <= i < j < |stack| ==> stack[i].level < stack[j].level
  }

  lemma {:induction false} RisingIsShallow(stack: seq<Heading>, k: nat)
    requires Rising(stack) && k < |stack|
    ensures stack[k].level >= k + 1
  {
    if k > 0 {
      RisingIsShallow(stack, k - 1);
    }
  }

  /** Never more than six headings are open, so the array of six holds them. */
  lemma AtMostSix(stack: seq<Heading>)
    requires Rising(stack)
    ensures |stack| <= MAX_DEPTH
  {
    if stack != [] {
      RisingIsShallow(stack, |stack| - 1);
    }
  }

  lemma {:induction false} PushRises(stack: seq<Heading>, h: Heading)
    requires Rising(stack) && 1 <= h.level <= 6 && |h.title| < TITLE_MAX
    ensures Rising(Push(stack, h)) && Push(stack, h) != [] && Push(stack, h)[|Push(stack, h)| - 1] == h
  {
    if stack != [] && stack[|stack| - 1].level >= h.level {
      PushRises(stack[..|stack| - 1], h);
    }
  }

  /** A breadcrumb of six titles at most fits the buffer it is built in. */
  lemma {:induction false} CrumbLength(stack: seq<Heading>)
    requires forall i :: 0 <= i < |stack| ==> |stack[i].title| < TITLE_MAX
    ensures |Crumb(stack)| <= 122 * |stack|
  {
    if stack != [] {
      CrumbLength(stack[..|stack| - 1]);
    }
  }

  /** `md_build_crumb`: it would stop at the first title that does not fit, and none ever fails to. */
  method BuildCrumb(stack: seq<Heading>, depth: nat, cap: nat) returns (crumb: string)
    requires depth <= |stack| && Rising(stack[..depth]) && cap == IDENT_MAX
    ensures crumb == Crumb(stack[..depth])
  {
    crumb := "";
    AtMostSix(stack[..depth]);
    for i := 0 to depth
      invariant crumb == Crumb(stack[..i])
    {
      var more := (if i > 0 then " > " else "") + stack[i].title;
      assert stack[..i + 1][..i] == stack[..i];
      assert stack[i] == stack[..depth][i];
      CrumbLength(stack[..i]);
      if |more| >= cap - |crumb| {
        return;
      }
      Regroup(crumb, if i > 0 then " > " else "", stack[i].title);
      crumb := crumb + more;
    }
  }

  // ---- The machine ----

  /** The state between two lines: the open section, and what has been emitted. */
  datatype State = State(stack: seq<Heading>, fence: Fence, content: bool, start: nat, startLine: nat, lines: nat, line: nat, pos: nat)

  const INITIAL := State([], Closed, false, 0, 1, 0, 0, 0)

  function SymbolOf(stack: seq<Heading>): Option<string> {
    if stack == [] || Crumb(stack) == "" then None else Some(Crumb(stack))
  }

  /** The open section, ending at `end`. */
  function Section(m: State, end: nat): Piece {
    Piece(SymbolOf(m.stack), Span(m.start, end, m.startLine, m.line))
  }

  /** A section under a heading is always emitted, one before the first heading only with content. */
  function Close(m: State, end: nat): seq<Piece> {
    if m.stack != [] || m.content then [Section(m, end)] else []
  }

  /** A heading line opens a section. */
  function OpenSection(s: string, m: State): State
    requires m.pos < |s|
  {
    var h := HeadingIn(m.fence, LineText(s, m.pos));
    if h.None? then m
    else m.(stack := Push(m.stack, h.value), content := false, start := m.pos, startLine := m.line + 1, lines := 0)
  }

  function ClosedBy(s: string, m: State): seq<Piece>
    requires m.pos < |s|
  {
    if HeadingIn(m.fence, LineText(s, m.pos)).None? then [] else Close(m, m.pos)
  }

  /** The line joins the open section. */
  function TakeLine(s: string, m: State): State
    requires m.pos < |s|
  {
    var text := LineText(s, m.pos);
    m.(fence := FenceAfter(m.fence, text), content := m.content || HasContent(text), lines := m.lines + 1, line := m.line + 1,
       pos := NextLine(s, m.pos))
  }

  /** A section that has grown to 200 lines is emitted, and the next one continues it. */
  function Split(m: State): State {
    if m.lines >= MAX_SECTION_LINES then m.(start := m.pos, startLine := m.line + 1, lines := 0) else m
  }

  function SplitOff(m: State): seq<Piece> {
    if m.lines >= MAX_SECTION_LINES then [Section(m, m.pos)] else []
  }

  function Step(s: string, m: State): (m': State)
    requires m.pos < |s|
    ensures m.pos < m'.pos <= |s|
  {
    Split(TakeLine(s, OpenSection(s, m)))
  }

  function Emitted(s: string, m: State): seq<Piece>
    requires m.pos < |s|
  {
    ClosedBy(s, m) + SplitOff(TakeLine(s, OpenSection(s, m)))
  }

  /** What is emitted from a state on. */
  function Rest(s: string, m: State): seq<Piece>
    requires m.pos <= |s|
    decreases |s| - m.pos
  {
    if m.pos == |s| then if m.start < |s| then Close(m, |s|) else []
    else Emitted(s, m) + Rest(s, Step(s, m))
  }

  function Pieces(s: string): seq<Piece> {
    Rest(s, INITIAL)
  }

  lemma StackRises(s: string, m: State)
    requires m.pos < |s| && Rising(m.stack)
    ensures Rising(Step(s, m).stack)
  {
    var text := LineText(s, m.pos);
    if HeadingIn(m.fence, text).Some? {
      HeadingLimits(text);
      PushRises(m.stack, HeadingOf(text).value);
    }
  }

  // ---- The code ----

  /** What the list must come to. */
  ghost predicate OnTrack(s: string, list: seq<Item>, m: State, goal: seq<Piece>) {
    forall n {:trigger Look(n)} :: Look(n) ==> m.pos <= |s| && goal == PiecesOf(list) + Rest(s, m)
  }

  lemma KeptSymbol(stack: seq<Heading>)
    ensures ChunkLists.Kept(if stack != [] then Some(Crumb(stack)) else None) == SymbolOf(stack)
  {}

  lemma WriteTop(stack: seq<Heading>, depth: nat, h: Heading)
    requires depth < |stack|
    ensures stack[depth := h][..depth + 1] == stack[..depth] + [h]
  {}

  lemma PopTop(stack: seq<Heading>, depth: nat)
    requires 0 < depth <= |stack|
    ensures stack[..depth][..depth - 1] == stack[..depth - 1] && stack[..depth][depth - 1] == stack[depth - 1]
  {}

  lemma RisingFront(stack: seq<Heading>, n: nat)
    requires Rising(stack) && n <= |stack|
    ensures Rising(stack[..n])
  {}

  /** The loop that closes headings, and the new entry: the six places are enough. */
  method PushHeading(stack: seq<Heading>, depth: nat, h: Heading) returns (stack': seq<Heading>, depth': nat)
    requires |stack| == MAX_DEPTH && depth <= MAX_DEPTH && Rising(stack[..depth])
    requires 1 <= h.level <= 6 && |h.title| < TITLE_MAX
    ensures |stack'| == MAX_DEPTH && 0 < depth' <= MAX_DEPTH
    ensures stack'[..depth'] == Push(stack[..depth], h) && Rising(stack'[..depth'])
  {
    depth' := depth;
    PushRises(stack[..depth], h);
    ghost var whole := Push(stack[..depth], h);
    while depth' > 0 && stack[depth' - 1].level >= h.level
      invariant depth' <= depth && Rising(stack[..depth']) && Push(stack[..depth'], h) == whole
    {
      PopTop(stack, depth');
      RisingFront(stack[..depth'], depth' - 1);
      depth' := depth' - 1;
    }
    AtMostSix(whole);
    WriteTop(stack, depth', h);
    stack' := stack[depth' := h];
    depth' := depth' + 1;
  }

  /** The local variables of the loop, the array of six headings among them. */
  datatype Vars = Vars(stack: seq<Heading>, depth: nat, crumb: string, content: bool, start: nat, startLine: nat, lines: nat, line: nat, pos: nat, fence: Fence)

  /** The variables spell a state of the machine. */
  ghost predicate Spells(m: State, v: Vars) {
    forall n {:trigger Look(n)} :: Look(n) ==>
      && |v.stack| == MAX_DEPTH && v.depth <= MAX_DEPTH && Rising(v.stack[..v.depth]) && v.crumb == Crumb(v.stack[..v.depth])
      && m == State(v.stack[..v.depth], v.fence, v.content, v.start, v.startLine, v.lines, v.line, v.pos)
      && (v.fence.Opened? ==> v.fence.run > 0)
  }

  /** The list so far has its keys, and the tracker knows them. */
  ghost predicate Filed(occ: StrMap, list: seq<Item>, path: string, idents: seq<string>)
    reads occ, occ.Repr()
  {
    forall n {:trigger Look(n)} :: Look(n) ==> Tracked(occ, idents) && AllFiled(list, path, idents, 7)
  }

  /** `md_emit` for the open section. */
  method EmitSection(list: seq<Item>, occ: StrMap, path: string, v: Vars, end: nat, ghost m: State, ghost idents: seq<string>)
    returns (st: Status, list': seq<Item>, ghost idents': seq<string>)
    requires Filed(occ, list, path, idents) && Spells(m, v)
    modifies occ.Repr()
    ensures fresh(occ.Repr() - old(occ.Repr()))
    ensures st == Ok ==> Filed(occ, list', path, idents') && PiecesOf(list') == PiecesOf(list) + [Section(m, end)]
  {
    assert Look(0);
    KeptSymbol(m.stack);
    var span := Span(v.start, end, v.startLine, v.line);
    st, list', idents' := Emit(list, occ, path, KIND_SECTION, if v.depth > 0 then Some(v.crumb) else None, span, idents);
  }

  /** Ends the open section, if it counts. */
  method CloseSection(list: seq<Item>, occ: StrMap, path: string, v: Vars, end: nat, ghost m: State, ghost idents: seq<string>)
    returns (st: Status, list': seq<Item>, ghost idents': seq<string>)
    requires Filed(occ, list, path, idents) && Spells(m, v)
    modifies occ.Repr()
    ensures fresh(occ.Repr() - old(occ.Repr()))
    ensures st == Ok ==> Filed(occ, list', path, idents') && PiecesOf(list') == PiecesOf(list) + Close(m, end)
  {
    assert Look(0);
    if v.depth > 0 || v.content {
      st, list', idents' := EmitSection(list, occ, path, v, end, m, idents);
    } else {
      st, list', idents' := Ok, list, idents;
      NoTail(PiecesOf(list));
    }
  }

  /** Emits a section that has grown to its limit, and goes on with the next. */
  method SplitSection(list: seq<Item>, occ: StrMap, path: string, v: Vars, ghost m: State, ghost idents: seq<string>)
    returns (st: Status, list': seq<Item>, v': Vars, ghost idents': seq<string>)
    requires Filed(occ, list, path, idents) && Spells(m, v) && v.lines >= MAX_SECTION_LINES
    modifies occ.Repr()
    ensures fresh(occ.Repr() - old(occ.Repr()))
    ensures st == Ok ==> Filed(occ, list', path, idents') && PiecesOf(list') == PiecesOf(list) + SplitOff(m) && Spells(Split(m), v')
    ensures v'.depth == v.depth && v'.pos == v.pos
  {
    assert Look(0);
    st, list', idents' := EmitSection(list, occ, path, v, v.pos, m, idents);
    v' := v.(start := v.pos, startLine := v.line + 1, lines := 0);
  }

  lemma SliceFront(s: string, a: nat, b: nat)
    requires a <= b <= |s|
    ensures a < b ==> s[a..b][..b - a - 1] == s[a..b - 1] && s[a..b][b - a - 1] == s[b - 1]
  {}

  /** The line at `pos` without its ending, and where the next one starts. */
  method ReadLine(s: string, pos: nat) returns (text: string, next: nat)
    requires pos < |s|
    ensures text == LineText(s, pos) && next == NextLine(s, pos)
  {
    var nl := FindBreak(s, pos);
    var len: nat := nl - pos;
    if len > 0 && s[pos + len - 1] == '\r' {
      len := len - 1;
    }
    text := s[pos..pos + len];
    SliceFront(s, pos, nl);
    next := if nl < |s| then nl + 1 else |s|;
  }

  /** What a line does to the fence, and the heading it is. */
  method ScanLine(text: string, fence: Fence) returns (fence': Fence, heading: Option<Heading>)
    requires fence.Opened? ==> fence.run > 0
    ensures fence' == FenceAfter(fence, text) && heading == HeadingIn(fence, text) && (fence'.Opened? ==> fence'.run > 0)
  {
    fence', heading := fence, None;
    if fence.Opened? {
      var closes := FenceClose(text, fence.mark, fence.run);
      if closes {
        fence' := Closed;
      }
    } else {
      var run, mark, start := FenceRunLoop(text);
      if run > 0 {
        fence' := Opened(mark, run);
      } else {
        var level, t, len := HeadingLevel(text);
        if level > 0 {
          heading := Some(Heading(level, TitleText(text[t..t + len])));
        }
      }
    }
  }

  lemma TrackNext(s: string, list: seq<Item>, list1: seq<Item>, list2: seq<Item>, m: State, goal: seq<Piece>)
    requires m.pos < |s| && OnTrack(s, list, m, goal)
    requires PiecesOf(list1) == PiecesOf(list) + ClosedBy(s, m)
    requires PiecesOf(list2) == PiecesOf(list1) + SplitOff(TakeLine(s, OpenSection(s, m)))
    ensures OnTrack(s, list2, Step(s, m), goal)
  {
    assert Look(0);
    var a, b, c, d := PiecesOf(list), ClosedBy(s, m), SplitOff(TakeLine(s, OpenSection(s, m))), Rest(s, Step(s, m));
    RegroupFour(a, b, c, d);
    Regroup(b, c, d);
  }

  /** A heading line ends the open section and opens its own. */
  method TakeHeading(s: string, list: seq<Item>, occ: StrMap, path: string, v: Vars, heading: Heading, ghost m: State, ghost idents: seq<string>)
    returns (st: Status, list': seq<Item>, v': Vars, ghost idents': seq<string>)
    requires Filed(occ, list, path, idents) && Spells(m, v)
    requires m.pos == v.pos < |s| && HeadingIn(m.fence, LineText(s, v.pos)) == Some(heading)
    modifies occ.Repr()
    ensures fresh(occ.Repr() - old(occ.Repr()))
    ensures st == Ok ==> Filed(occ, list', path, idents') && PiecesOf(list') == PiecesOf(list) + ClosedBy(s, m)
    ensures st == Ok ==> Spells(OpenSection(s, m), v') && v'.pos == v.pos && v'.lines == 0
  {
    assert Look(0);
    v' := v;
    HeadingLimits(LineText(s, v.pos));
    st, list', idents' := CloseSection(list, occ, path, v, v.pos, m, idents);
    var stack, depth := PushHeading(v.stack, v.depth, heading);
    var crumb := BuildCrumb(stack, depth, IDENT_MAX);
    v' := Vars(stack, depth, crumb, false, v.pos, v.line + 1, 0, v.line, v.pos, v.fence);
  }

  lemma SpelledPlace(m: State, v: Vars)
    requires Spells(m, v)
    ensures m.pos == v.pos && m.fence == v.fence && m.start == v.start && m.lines == v.lines && (v.fence.Opened? ==> v.fence.run > 0)
  {
    assert Look(0);
  }

  /** The variables after the line has joined the section. */
  function WithLine(s: string, v: Vars): Vars
    requires v.pos < |s|
  {
    var text := LineText(s, v.pos);
    v.(fence := FenceAfter(v.fence, text), content := v.content || HasContent(text), lines := v.lines + 1, line := v.line + 1,
       pos := NextLine(s, v.pos))
  }

  lemma TookLine(s: string, m: State, v: Vars)
    requires Spells(m, v) && m.pos == v.pos < |s|
    ensures Spells(TakeLine(s, m), WithLine(s, v))
  {
    assert Look(0);
  }

  /** The rest of a round: the line joins the section, which is emitted if it has grown to its limit. */
  method FinishLine(s: string, list: seq<Item>, occ: StrMap, path: string, v: Vars, text: string, next: nat, fence: Fence, ghost m: State,
                    ghost idents: seq<string>)
    returns (st: Status, list': seq<Item>, v': Vars, ghost idents': seq<string>)
    requires Filed(occ, list, path, idents) && Spells(m, v) && m.pos == v.pos < |s|
    requires text == LineText(s, v.pos) && next == NextLine(s, v.pos) && fence == FenceAfter(v.fence, text)
    modifies occ.Repr()
    ensures fresh(occ.Repr() - old(occ.Repr())) && (v.lines == 0 ==> occ.Repr() == old(occ.Repr()))
    ensures st == Ok ==> Filed(occ, list', path, idents') && PiecesOf(list') == PiecesOf(list) + SplitOff(TakeLine(s, m))
    ensures st == Ok ==> Spells(Split(TakeLine(s, m)), v') && v'.pos == next
  {
    var found := ContentLoop(text);
    TookLine(s, m, v);
    v' := v.(fence := fence, content := v.content || found, lines := v.lines + 1, line := v.line + 1, pos := next);
    SpelledPlace(TakeLine(s, m), v');
    if v'.lines >= MAX_SECTION_LINES {
      st, list', v', idents' := SplitSection(list, occ, path, v', TakeLine(s, m), idents);
    } else {
      st, list', idents' := Ok, list, idents;
      NoTail(PiecesOf(list));
    }
  }

  /** The front of a round: the line's heading, if it is one. */
  method TakeAnyHeading(s: string, list: seq<Item>, occ: StrMap, path: string, v: Vars, heading: Option<Heading>, ghost m: State,
                        ghost idents: seq<string>)
    returns (st: Status, list': seq<Item>, v': Vars, ghost idents': seq<string>)
    requires Filed(occ, list, path, idents) && Spells(m, v)
    requires m.pos == v.pos < |s| && HeadingIn(m.fence, LineText(s, v.pos)) == heading
    modifies occ.Repr()
    ensures fresh(occ.Repr() - old(occ.Repr()))
    ensures st == Ok ==> Filed(occ, list', path, idents') && PiecesOf(list') == PiecesOf(list) + ClosedBy(s, m)
    ensures st == Ok ==> Spells(OpenSection(s, m), v') && v'.pos == v.pos && OpenSection(s, m).pos == v.pos && v'.fence == v.fence
    ensures st == Ok ==> v'.lines == 0 || occ.Repr() == old(occ.Repr())
  {
    SpelledPlace(m, v);
    if heading.Some? {
      st, list', v', idents' := TakeHeading(s, list, occ, path, v, heading.value, m, idents);
      if st == Ok {
        SpelledPlace(OpenSection(s, m), v');
      }
    } else {
      st, list', v', idents' := Ok, list, v, idents;
      NoTail(PiecesOf(list));
    }
  }

  /** One round of the loop. */
  method TakeOneLine(s: string, list: seq<Item>, occ: StrMap, path: string, v: Vars, ghost m: State, ghost goal: seq<Piece>, ghost idents: seq<string>)
    returns (st: Status, list': seq<Item>, v': Vars, ghost m': State, ghost idents': seq<string>)
    requires Filed(occ, list, path, idents) && Spells(m, v) && m.pos == v.pos < |s| && OnTrack(s, list, m, goal)
    modifies occ.Repr()
    ensures fresh(occ.Repr() - old(occ.Repr()))
    ensures st == Ok ==> Filed(occ, list', path, idents') && OnTrack(s, list', m', goal)
    ensures st == Ok ==> Spells(m', v') && v.pos < v'.pos == m'.pos <= |s|
    ensures m' == Step(s, m)
  {
    m' := Step(s, m);
    SpelledPlace(m, v);
    var text, next := ReadLine(s, v.pos);
    var fence, heading := ScanLine(text, v.fence);
    st, list', v', idents' := TakeAnyHeading(s, list, occ, path, v, heading, m, idents);
    ghost var list1 := list';
    if st != Ok {
      return;
    }
    st, list', v', idents' := FinishLine(s, list', occ, path, v', text, next, fence, OpenSection(s, m), idents');
    if st == Ok {
      TrackNext(s, list, list1, list', m, goal);
    }
  }

  function StartVars(): Vars {
    var unused := Heading(0, "");
    Vars([unused, unused, unused, unused, unused, unused], 0, "", false, 0, 1, 0, 0, 0, Closed)
  }

  lemma StartSpells(s: string)
    ensures Spells(INITIAL, StartVars()) && OnTrack(s, [], INITIAL, Pieces(s)) && StartVars().pos == 0
  {
    NoTail(Rest(s, INITIAL));
  }

  lemma NothingFiled(occ: StrMap, path: string)
    requires Tracked(occ, [])
    ensures Filed(occ, [], path, [])
  {}

  /** After the loop: what is left of the text closes the last section. */
  method EndSections(s: string, list: seq<Item>, occ: StrMap, path: string, v: Vars, ghost m: State, ghost goal: seq<Piece>, ghost idents: seq<string>)
    returns (st: Status, list': seq<Item>, ghost idents': seq<string>)
    requires Filed(occ, list, path, idents) && Spells(m, v) && m.pos == v.pos == |s| && OnTrack(s, list, m, goal)
    modifies occ.Repr()
    ensures st == Ok ==> AllFiled(list', path, idents', 7) && PiecesOf(list') == goal
  {
    assert Look(0);
    if v.start < |s| {
      st, list', idents' := CloseSection(list, occ, path, v, |s|, m, idents);
    } else {
      st, list', idents' := Ok, list, idents;
      NoTail(PiecesOf(list));
    }
  }

  /** The loop of `markdown_chunk`. */
  method TakeLines(s: string, start: Vars, occ: StrMap, path: string, ghost goal: seq<Piece>)
    returns (st: Status, list: seq<Item>, v: Vars, ghost m: State, ghost idents: seq<string>)
    requires Filed(occ, [], path, []) && Spells(INITIAL, start) && start.pos == 0 && OnTrack(s, [], INITIAL, goal)
    modifies occ.Repr()
    ensures fresh(occ.Repr() - old(occ.Repr()))
    ensures st == Ok ==> Filed(occ, list, path, idents) && Spells(m, v) && m.pos == v.pos == |s| && OnTrack(s, list, m, goal)
  {
    st, list, v, m, idents := Ok, [], start, INITIAL, [];
    while v.pos < |s|
      invariant Filed(occ, list, path, idents) && fresh(occ.Repr() - old(occ.Repr())) && Spells(m, v)
      invariant m.pos == v.pos <= |s| && OnTrack(s, list, m, goal) && st == Ok
      decreases |s| - v.pos
    {
      st, list, v, m, idents := TakeOneLine(s, list, occ, path, v, m, goal, idents);
      if st != Ok {
        return;
      }
    }
  }

  /** `markdown_chunk`: on success the list holds exactly the sections, each under a key of its own. */
  method MarkdownChunk(s: string, occ: StrMap, path: string) returns (st: Status, list: seq<Item>, ghost idents: seq<string>)
    requires Tracked(occ, [])
    modifies occ.Repr()
    ensures st == Ok ==> AllFiled(list, path, idents, 7) && PiecesOf(list) == Pieces(s)
  {
    StartSpells(s);
    NothingFiled(occ, path);
    ghost var goal, m := Pieces(s), INITIAL;
    var v;
    st, list, v, m, idents := TakeLines(s, StartVars(), occ, path, goal);
    if st == Ok {
      st, list, idents := EndSections(s, list, occ, path, v, m, goal, idents);
    }
  }
}
