/**
 The 50-line windows a text without a chunker of its own is cut into, and the choice `config_chunk` makes between
 keys and windows.
 */
module Windows {
  import opened Common
  import opened StrMaps
  import opened TableSync
  import opened ChunkKeys
  import opened ChunkLists
  import opened JsonScan
  import T = MarkdownTheorems
  import opened ConfigLines

  const WINDOW_LINES: nat := 50

  /** The open window: where it starts, and the lines in it; and the line the scan is on. */
  datatype Window = Window(start: nat, startLine: nat, lines: nat, line: nat)

  function Closed(w: Window, end: nat, endLine: nat): Piece {
    Piece(None, Span(w.start, end, w.startLine, endLine))
  }

  /** After one byte. */
  function Pass(s: string, i: nat, w: Window): Window
    requires i < |s|
  {
    if s[i] != '\n' then w
    else if w.lines + 1 >= WINDOW_LINES then Window(i + 1, w.line + 1, 0, w.line + 1)
    else w.(lines := w.lines + 1, line := w.line + 1)
  }

  predicate Ends(s: string, i: nat, w: Window)
    requires i < |s|
  {
    s[i] == '\n' && w.lines + 1 >= WINDOW_LINES
  }

  /** The windows from byte `i` on. */
  function WindowsFrom(s: string, i: nat, w: Window): seq<Piece>
    requires i <= |s|
    decreases |s| - i
  {
    if i == |s| then if w.start < |s| then [Closed(w, |s|, w.line)] else []
    else (if Ends(s, i, w) then [Closed(w, i + 1, w.line)] else []) + WindowsFrom(s, i + 1, Pass(s, i, w))
  }

  const FIRST := Window(0, 1, 0, 1)

  function WindowsOf(s: string): seq<Piece> {
    WindowsFrom(s, 0, FIRST)
  }

  // ---- Every text is cut without a gap ----

  /**
   Windows from `a` to the end: each starts where the last ended, with its own line, all but the last have 50
   lines, and one of 50 ends with the last of them, a shorter one with the line the text ends on.
   */
  ghost predicate Tiled(s: string, ps: seq<Piece>, a: nat)
    requires a <= |s|
  {
    if ps == [] then a == |s|
    else
      var p := ps[0].span;
      && ps[0].symbol == None && p.startByte == a < p.endByte <= |s| && T.LineStart(s, a) && p.startLine == T.Breaks(s, a) + 1
      && T.Breaks(s, p.endByte) <= T.Breaks(s, a) + 50
      && (p.endByte < |s| ==> T.Breaks(s, p.endByte) == T.Breaks(s, a) + 50)
      && p.endLine == T.Breaks(s, p.endByte) + (if T.Breaks(s, p.endByte) == T.Breaks(s, a) + 50 then 0 else 1)
      && Tiled(s, ps[1..], p.endByte)
  }

  ghost predicate Inside(s: string, i: nat, w: Window) {
    && w.start <= i <= |s| && w.lines < WINDOW_LINES && T.LineStart(s, w.start)
    && w.startLine == T.Breaks(s, w.start) + 1 && T.Breaks(s, i) == T.Breaks(s, w.start) + w.lines && w.line == T.Breaks(s, i) + 1
  }

  lemma InsideNext(s: string, i: nat, w: Window)
    requires i < |s| && Inside(s, i, w)
    ensures Inside(s, i + 1, Pass(s, i, w)) && T.Breaks(s, i + 1) == T.Breaks(s, i) + (if s[i] == '\n' then 1 else 0)
    ensures Pass(s, i, w).start == if Ends(s, i, w) then i + 1 else w.start
  {}

  lemma TiledFirst(s: string, p: Piece, rest: seq<Piece>, a: nat)
    requires p.symbol == None && p.span.startByte == a < p.span.endByte <= |s| && T.LineStart(s, a)
    requires p.span.startLine == T.Breaks(s, a) + 1
    requires T.Breaks(s, p.span.endByte) == T.Breaks(s, a) + 50 || (p.span.endByte == |s| && T.Breaks(s, |s|) < T.Breaks(s, a) + 50)
    requires p.span.endLine == T.Breaks(s, p.span.endByte) + (if T.Breaks(s, p.span.endByte) == T.Breaks(s, a) + 50 then 0 else 1)
    requires Tiled(s, rest, p.span.endByte)
    ensures Tiled(s, [p] + rest, a)
  {
    HeadAndTail(p, rest);
  }

  lemma {:induction false} WindowsTile(s: string, i: nat, w: Window)
    requires i <= |s| && Inside(s, i, w)
    ensures Tiled(s, WindowsFrom(s, i, w), w.start)
    decreases |s| - i
  {
    if i < |s| {
      InsideNext(s, i, w);
      WindowsTile(s, i + 1, Pass(s, i, w));
      var rest := WindowsFrom(s, i + 1, Pass(s, i, w));
      if Ends(s, i, w) {
        TiledFirst(s, Closed(w, i + 1, w.line), rest, w.start);
      } else {
        NoTail(rest);
      }
    } else if w.start < |s| {
      TiledFirst(s, Closed(w, |s|, w.line), [], w.start);
      NoTail([Closed(w, |s|, w.line)]);
    }
  }

  /** The windows of a text are the text, cut after every 50th line. */
  lemma WindowsAreText(s: string)
    ensures Tiled(s, WindowsOf(s), 0)
  {
    WindowsTile(s, 0, FIRST);
  }

  // ---- The code ----

  /** As many windows, as many times their one identity. */
  function Same(ident: string, n: nat): (r: seq<string>)
    ensures |r| == n && forall i :: 0 <= i < n ==> r[i] == ident
  {
    seq(n, i => ident)
  }

  lemma {:induction false} CountSame(ident: string, n: nat)
    ensures Count(Same(ident, n), ident) == n
  {
    if n > 0 {
      assert Same(ident, n)[..n - 1] == Same(ident, n - 1);
      CountSame(ident, n - 1);
    }
  }

  /** `list_push` of a window under the number of windows before it. */
  method PushWindow(list: seq<Item>, path: string, span: Span) returns (st: Status, list': seq<Item>)
    requires AllFiled(list, path, Same(IdentOf(path, 6, ""), |list|), 6)
    ensures st == Ok ==> AllFiled(list', path, Same(IdentOf(path, 6, ""), |list'|), 6) && PiecesOf(list') == PiecesOf(list) + [Piece(None, span)]
    ensures FormatIdent(path, KIND_WINDOW, "").None? ==> st == InvalidArgument
  {
    ghost var ident := IdentOf(path, KIND_WINDOW, "");
    list' := list;
    var key := FormatKey(KEY_MAX, path, KIND_WINDOW, "", |list|);
    if key.None? {
      return InvalidArgument, list;
    }
    var ok := TryAlloc(|list| + 1);
    if !ok {
      return OutOfMemory, list;
    }
    var item := Item(key.value, path, None, KIND_WINDOW, span);
    CountSame(ident, |list|);
    KeyedNext(list, path, Same(ident, |list|), item);
    assert Same(ident, |list|) + [ident] == Same(ident, |list| + 1);
    st, list' := Ok, list + [item];
  }

  /** The list and the windows to come make the goal. */
  ghost predicate Owes(list: seq<Item>, s: string, i: nat, w: Window, goal: seq<Piece>) {
    forall n {:trigger Look(n)} :: Look(n) ==> i <= |s| && goal == PiecesOf(list) + WindowsFrom(s, i, w)
  }

  lemma OwesNext(list: seq<Item>, list': seq<Item>, s: string, i: nat, w: Window, goal: seq<Piece>)
    requires i < |s| && Owes(list, s, i, w, goal)
    requires PiecesOf(list') == PiecesOf(list) + if Ends(s, i, w) then [Closed(w, i + 1, w.line)] else []
    ensures Owes(list', s, i + 1, Pass(s, i, w), goal)
  {
    assert Look(0);
    Regroup(PiecesOf(list), if Ends(s, i, w) then [Closed(w, i + 1, w.line)] else [], WindowsFrom(s, i + 1, Pass(s, i, w)));
  }

  /** `window_chunk`. */
  method WindowChunk(s: string, path: string) returns (st: Status, list: seq<Item>)
    ensures st == Ok ==> PiecesOf(list) == WindowsOf(s) && AllFiled(list, path, Same(IdentOf(path, 6, ""), |list|), 6)
  {
    st, list := Ok, [];
    var w := FIRST;
    ghost var goal := WindowsOf(s);
    NoTail(goal);
    for i := 0 to |s|
      invariant AllFiled(list, path, Same(IdentOf(path, 6, ""), |list|), 6) && Owes(list, s, i, w, goal) && st == Ok
    {
      ghost var before := list;
      if s[i] == '\n' && w.lines + 1 >= WINDOW_LINES {
        st, list := PushWindow(list, path, Span(w.start, i + 1, w.startLine, w.line));
        if st != Ok {
          return;
        }
      } else {
        NoTail(PiecesOf(list));
      }
      OwesNext(before, list, s, i, w, goal);
      w := Pass(s, i, w);
    }
    assert Look(0);
    if w.start < |s| {
      st, list := PushWindow(list, path, Span(w.start, |s|, w.startLine, w.line));
    } else {
      NoTail(PiecesOf(list));
    }
  }

  datatype Config = Json | Yaml | Toml

  /** The keys or tables of a configuration file. */
  function KeyedPieces(s: string, lang: Config): seq<Piece> {
    if lang.Json? then if ObjectSections(s).Some? && InText(s, ObjectSections(s).value) then AllPieces(s, ObjectSections(s).value) else []
    else if InText(s, LineSections(s, Boundary(lang.Toml?))) then AllPieces(s, LineSections(s, Boundary(lang.Toml?))) else []
  }

  /** `config_chunk`: keys and tables where there are any, windows otherwise. */
  method ConfigChunk(s: string, path: string, lang: Config, occ: StrMap) returns (st: Status, list: seq<Item>, ghost idents: seq<string>)
    requires Tracked(occ, [])
    modifies occ.Repr()
    ensures st == Ok && KeyedPieces(s, lang) != [] ==> AllFiled(list, path, idents, 8) && PiecesOf(list) == KeyedPieces(s, lang)
    ensures st == Ok && KeyedPieces(s, lang) == [] ==> AllFiled(list, path, idents, 6) && PiecesOf(list) == WindowsOf(s)
  {
    var handled := true;
    if lang.Json? {
      st, handled, list, idents := JsonObjectChunks(s, occ, path);
    } else {
      st, list, idents := LineChunks(s, occ, path, lang.Toml?);
    }
    if st != Ok {
      return;
    }
    if (lang.Json? && !handled) || |list| == 0 {
      st, list := WindowChunk(s, path);
      idents := Same(IdentOf(path, KIND_WINDOW, ""), |list|);
    }
  }
}
