/**
 YAML and TOML files, cut at top-level keys and table headers, and the 50-line windows every other text falls
 back to. Either way every byte that shows is in exactly one chunk.
 */
module ConfigLines {
  import opened Common
  import opened StrMaps
  import opened TableSync
  import opened ChunkKeys
  import opened ChunkLists
  import opened JsonScan
  import L = MarkdownLines
  import M = Markdown

  // ---- Boundary lines ----

  /** The colon that ends a YAML key: outside quotes and comments, before a blank or the end; the length if there is none. */
  function ColonAt(line: string, i: nat, quote: Option<char>): (r: nat)
    requires i <= |line|
    ensures i <= r <= |line| && (r < |line| ==> line[r] == ':' && (r + 1 == |line| || L.Blank(line[r + 1])))
    decreases |line| - i
  {
    if i == |line| then i
    else if quote.Some? then ColonAt(line, i + 1, if line[i] == quote.value then None else quote)
    else if line[i] == '"' || line[i] == '\'' then ColonAt(line, i + 1, Some(line[i]))
    else if line[i] == '#' then |line|
    else if line[i] == ':' && (i + 1 == |line| || L.Blank(line[i + 1])) then i
    else ColonAt(line, i + 1, None)
  }

  predicate Quoted(line: string, e: nat)
    requires e <= |line|
  {
    e >= 2 && ((line[0] == '"' && line[e - 1] == '"') || (line[0] == '\'' && line[e - 1] == '\''))
  }

  /** The key a YAML line starts at column 0, without its quotes. */
  function YamlName(line: string): Option<string> {
    if line == "" || L.Blank(line[0]) || line[0] == '#' || line[0] == '-' then None
    else
      var colon := ColonAt(line, 0, None);
      if colon == |line| || colon == 0 then None
      else
        var e := L.BlankStart(line, 0, colon);
        var (a, b) := if Quoted(line, e) then (1, e - 1) else (0, e);
        if b <= a then None else Some(line[a..b])
  }

  /** `yaml_key_line`. */
  method YamlKeyLine(line: string) returns (name: Option<string>)
    ensures name == YamlName(line)
  {
    if |line| == 0 {
      return None;
    }
    var c0 := line[0];
    if c0 == ' ' || c0 == '\t' || c0 == '#' || c0 == '-' {
      return None;
    }
    var colon := FindColon(line);
    if colon == |line| || colon == 0 {
      return None;
    }
    var e := L.BlankStartLoop(line, 0, colon);
    var a := 0;
    if e >= 2 && ((line[0] == '"' && line[e - 1] == '"') || (line[0] == '\'' && line[e - 1] == '\'')) {
      a := 1;
      e := e - 1;
    }
    if e <= a {
      return None;
    }
    name := Some(line[a..e]);
  }

  method FindColon(line: string) returns (colon: nat)
    ensures colon == ColonAt(line, 0, None)
  {
    var i: nat := 0;
    var quote: Option<char> := None;
    while i < |line|
      invariant i <= |line| && ColonAt(line, i, quote) == ColonAt(line, 0, None)
    {
      var c := line[i];
      if quote.Some? {
        if c == quote.value {
          quote := None;
        }
        i := i + 1;
        continue;
      }
      if c == '"' || c == '\'' {
        quote := Some(c);
        i := i + 1;
        continue;
      }
      if c == '#' {
        return |line|;
      }
      if c == ':' && (i + 1 == |line| || line[i + 1] == ' ' || line[i + 1] == '\t') {
        return i;
      }
      i := i + 1;
    }
    return |line|;
  }

  function BracketAt(line: string, i: nat): (r: nat)
    requires i <= |line|
    ensures i <= r <= |line| && (r < |line| ==> line[r] == ']') && forall k :: i <= k < r ==> line[k] != ']'
    decreases |line| - i
  {
    if i == |line| || line[i] == ']' then i else BracketAt(line, i + 1)
  }

  /** The text from `s` to the closing bracket, without the blanks around it. */
  function NameInside(line: string, s: nat): Option<string>
    requires s <= |line|
  {
    var e := BracketAt(line, s);
    if e == |line| then None
    else
      var a := if L.BlankEnd(line, s) < e then L.BlankEnd(line, s) else e;
      var b := L.BlankStart(line, a, e);
      if b <= a then None else Some(line[a..b])
  }

  /** The table a TOML header line names. */
  function TomlName(line: string): Option<string> {
    var i := L.BlankEnd(line, 0);
    if i == |line| || line[i] != '[' then None
    else NameInside(line, if i + 1 < |line| && line[i + 1] == '[' then i + 2 else i + 1)
  }

  method FindBracket(line: string, s: nat) returns (e: nat)
    requires s <= |line|
    ensures e == BracketAt(line, s)
  {
    e := s;
    while e < |line| && line[e] != ']'
      invariant s <= e <= |line| && BracketAt(line, e) == BracketAt(line, s)
    {
      e := e + 1;
    }
  }

  /** Past the blanks from `s` on, not past `e`. */
  method SkipBlanks(line: string, s: nat, e: nat) returns (a: nat)
    requires s <= e <= |line|
    ensures a == if L.BlankEnd(line, s) < e then L.BlankEnd(line, s) else e
  {
    a := s;
    while a < e && (line[a] == ' ' || line[a] == '\t')
      invariant s <= a <= e && L.BlankEnd(line, a) == L.BlankEnd(line, s)
    {
      a := a + 1;
    }
  }

  method ReadInside(line: string, s: nat) returns (name: Option<string>)
    requires s <= |line|
    ensures name == NameInside(line, s)
  {
    var e := FindBracket(line, s);
    if e >= |line| {
      return None;
    }
    var a := SkipBlanks(line, s, e);
    var b := L.BlankStartLoop(line, a, e);
    if b <= a {
      return None;
    }
    name := Some(line[a..b]);
  }

  /** `toml_table_line`. */
  method TomlTableLine(line: string) returns (name: Option<string>)
    ensures name == TomlName(line)
  {
    var i := SkipBlanks(line, 0, |line|);
    if i >= |line| || line[i] != '[' {
      return None;
    }
    var s: nat := i + 1;
    if s < |line| && line[s] == '[' {
      s := s + 1;
    }
    name := ReadInside(line, s);
  }

  /** Lines that are indented, list items, comments and separators never start a YAML chunk; a key has text and stands before its colon. */
  lemma YamlNameIs(line: string)
    requires YamlName(line).Some?
    ensures line != "" && !L.Blank(line[0]) && line[0] != '#' && line[0] != '-' && YamlName(line).value != ""
    ensures var c := ColonAt(line, 0, None);
      0 < c < |line| && line[c] == ':' && (c + 1 == |line| || L.Blank(line[c + 1])) && |YamlName(line).value| <= c
  {}

  /** A TOML name has text, no closing bracket, and no blank at either end. */
  lemma TomlNameIs(line: string)
    requires TomlName(line).Some?
    ensures var n := TomlName(line).value; n != "" && ']' !in n && !L.Blank(n[0]) && !L.Blank(n[|n| - 1])
  {}

  // ---- What a boundary line is ----

  /** The quote that is open before byte `i`, if one is. */
  function QuoteBefore(line: string, i: nat): Option<char>
    requires i <= |line|
  {
    if i == 0 then None
    else
      var q, c := QuoteBefore(line, i - 1), line[i - 1];
      if q.Some? then if c == q.value then None else q
      else if c == '"' || c == '\'' then Some(c) else None
  }

  /** A colon that could end a key: a blank or the end comes next. */
  predicate ColonHere(line: string, i: nat) {
    i < |line| && line[i] == ':' && (i + 1 == |line| || line[i + 1] == ' ' || line[i + 1] == '\t')
  }

  /** The first such colon outside quotes, with no comment before it. */
  ghost predicate KeyColon(line: string, c: nat) {
    && ColonHere(line, c) && QuoteBefore(line, c) == None
    && forall k :: 0 <= k < c && QuoteBefore(line, k) == None ==> line[k] != '#' && !ColonHere(line, k)
  }

  lemma {:induction false} ColonIff(line: string, i: nat, c: nat)
    requires i <= |line|
    requires forall k :: 0 <= k < i && QuoteBefore(line, k) == None ==> line[k] != '#' && !ColonHere(line, k)
    ensures ColonAt(line, i, QuoteBefore(line, i)) == c < |line| <==> c >= i && KeyColon(line, c)
    decreases |line| - i
  {
    if i < |line| {
      var q := QuoteBefore(line, i);
      if q.None? && (line[i] == '#' || ColonHere(line, i)) {
        assert c > i ==> !KeyColon(line, c);
      } else {
        ColonIff(line, i + 1, c);
      }
    }
  }

  /** A text without the pair of equal quotes around it, if there is one. */
  function Unquoted(t: string): string {
    if |t| >= 2 && t[0] == t[|t| - 1] && (t[0] == '"' || t[0] == '\'') then t[1..|t| - 1] else t
  }

  /**
   A key line: at column 0, no comment, list item or separator; the key is the text before its colon, without the
   blanks before that and one pair of quotes.
   */
  ghost predicate YamlShape(line: string, c: nat, e: nat, name: string) {
    && 0 < e <= c && KeyColon(line, c) && c < |line|
    && line[0] != ' ' && line[0] != '\t' && line[0] != '#' && line[0] != '-'
    && L.AllBlank(line, e, c) && !L.Blank(line[e - 1]) && name == Unquoted(line[..e]) && name != ""
  }

  lemma KeyIsUnquoted(line: string, e: nat)
    requires 0 < e <= |line|
    ensures var (a, b) := if Quoted(line, e) then (1, e - 1) else (0, e);
            a <= b && line[a..b] == Unquoted(line[..e])
  {
    if Quoted(line, e) {
      assert line[..e][1..e - 1] == line[1..e - 1];
    }
  }

  /** A line starts a YAML chunk of this name exactly when it has that shape. */
  lemma YamlNameIff(line: string, name: string)
    ensures YamlName(line) == Some(name) <==> exists c: nat, e: nat :: YamlShape(line, c, e, name)
  {
    var colon := ColonAt(line, 0, None);
    ColonIff(line, 0, colon);
    if colon < |line| && colon > 0 && line != "" && !L.Blank(line[0]) {
      var e := L.BlankStart(line, 0, colon);
      KeyIsUnquoted(line, e);
      assert YamlName(line) == Some(name) ==> YamlShape(line, colon, e, name);
    }
    forall c: nat, e: nat | YamlShape(line, c, e, name)
      ensures YamlName(line) == Some(name)
    {
      ColonIff(line, 0, c);
      assert L.BlankStart(line, 0, c) == e;
      KeyIsUnquoted(line, e);
    }
  }

  /** A table header: after blanks an opening bracket or two, then the name up to the first closing one, without the blanks around it. */
  ghost predicate TomlShape(line: string, i: nat, s: nat, a: nat, b: nat, e: nat, name: string) {
    && i < s <= a < b <= e < |line| && L.AllBlank(line, 0, i) && line[i] == '['
    && s == (if line[i + 1] == '[' then i + 2 else i + 1)
    && line[e] == ']' && (forall k :: s <= k < e ==> line[k] != ']')
    && L.AllBlank(line, s, a) && L.AllBlank(line, b, e) && !L.Blank(line[a]) && !L.Blank(line[b - 1])
    && name == line[a..b]
  }

  lemma BracketIs(line: string, s: nat, e: nat)
    requires s <= e < |line| && line[e] == ']' && forall k :: s <= k < e ==> line[k] != ']'
    ensures BracketAt(line, s) == e
  {}

  lemma BlankRunIs(line: string, s: nat, a: nat)
    requires s <= a < |line| && L.AllBlank(line, s, a) && !L.Blank(line[a])
    ensures L.BlankEnd(line, s) == a
  {}

  lemma BlankTailIs(line: string, a: nat, b: nat, e: nat)
    requires a < b <= e <= |line| && L.AllBlank(line, b, e) && !L.Blank(line[b - 1])
    ensures L.BlankStart(line, a, e) == b
  {}

  /** The name between the brackets, from its shape. */
  lemma InsideIs(line: string, s: nat, a: nat, b: nat, e: nat)
    requires s <= a < b <= e < |line| && line[e] == ']' && forall k :: s <= k < e ==> line[k] != ']'
    requires L.AllBlank(line, s, a) && L.AllBlank(line, b, e) && !L.Blank(line[a]) && !L.Blank(line[b - 1])
    ensures NameInside(line, s) == Some(line[a..b])
  {
    BracketIs(line, s, e);
    BlankRunIs(line, s, a);
    BlankTailIs(line, a, b, e);
  }

  lemma InsideHas(line: string, s: nat, name: string) returns (a: nat, b: nat, e: nat)
    requires s <= |line| && NameInside(line, s) == Some(name)
    ensures s <= a < b <= e < |line| && line[e] == ']' && forall k :: s <= k < e ==> line[k] != ']'
    ensures L.AllBlank(line, s, a) && L.AllBlank(line, b, e) && !L.Blank(line[a]) && !L.Blank(line[b - 1]) && name == line[a..b]
  {
    e := BracketAt(line, s);
    a := L.BlankEnd(line, s);
    b := L.BlankStart(line, a, e);
  }

  /** A line heads a TOML table of this name exactly when it has that shape. */
  lemma TomlNameIff(line: string, name: string)
    ensures TomlName(line) == Some(name) <==>
              exists i: nat, s: nat, a: nat, b: nat, e: nat :: TomlShape(line, i, s, a, b, e, name)
  {
    if TomlName(line) == Some(name) {
      var i := L.BlankEnd(line, 0);
      var s: nat := if i + 1 < |line| && line[i + 1] == '[' then i + 2 else i + 1;
      var a, b, e := InsideHas(line, s, name);
      assert TomlShape(line, i, s, a, b, e, name);
    }
    forall i: nat, s: nat, a: nat, b: nat, e: nat | TomlShape(line, i, s, a, b, e, name)
      ensures TomlName(line) == Some(name)
    {
      BlankRunIs(line, 0, i);
      InsideIs(line, s, a, b, e);
    }
  }

  // ---- Sections between boundaries ----

  function Boundary(toml: bool): string -> Option<string> {
    if toml then (line: string) => TomlName(line) else (line: string) => YamlName(line)
  }

  /** The boundary at a line, with its name as the section's symbol keeps it. */
  function NameAt(s: string, pos: nat, boundary: string -> Option<string>): Option<string>
    requires pos <= |s|
  {
    var name := boundary(M.LineText(s, pos));
    if name.None? then None else Some(CopySym(name.value))
  }

  /** `cfg_flush_section`: what stands before the first boundary counts only if it shows. */
  function Flushed(s: string, symbol: Option<string>, start: nat, end: nat, line: nat): seq<Section>
    requires start <= end <= |s|
  {
    if symbol.Some? || !Blank(s, start, end) then [Section(symbol, start, end, line)] else []
  }

  /** The open section, and where the scan stands: its byte, and the lines it has read. */
  datatype Scan = Scan(symbol: Option<string>, start: nat, startLine: nat, pos: nat, line: nat)

  const START := Scan(None, 0, 1, 0, 0)

  /** After a line, which starts a section if it has a name. */
  function Pass(s: string, m: Scan, name: Option<string>): Scan
    requires m.pos <= |s|
  {
    if name.None? then m.(pos := M.NextLine(s, m.pos), line := m.line + 1)
    else Scan(name, m.pos, m.line + 1, M.NextLine(s, m.pos), m.line + 1)
  }

  /** The sections from here on, the open one among them. */
  function SectionsFrom(s: string, boundary: string -> Option<string>, m: Scan): seq<Section>
    requires m.start <= m.pos <= |s|
    decreases |s| - m.pos
  {
    if m.pos == |s| then if m.start < |s| then Flushed(s, m.symbol, m.start, |s|, m.startLine) else []
    else
      var name := NameAt(s, m.pos, boundary);
      (if name.None? then [] else Flushed(s, m.symbol, m.start, m.pos, m.startLine)) + SectionsFrom(s, boundary, Pass(s, m, name))
  }

  function LineSections(s: string, boundary: string -> Option<string>): seq<Section> {
    SectionsFrom(s, boundary, START)
  }

  // ---- The code ----

  lemma {:induction false} SectionsInText(s: string, boundary: string -> Option<string>, m: Scan)
    requires m.start <= m.pos <= |s|
    ensures InText(s, SectionsFrom(s, boundary, m))
    decreases |s| - m.pos
  {
    if m.pos < |s| {
      SectionsInText(s, boundary, Pass(s, m, NameAt(s, m.pos, boundary)));
    }
  }

  /** What is still to be emitted. */
  function PiecesFrom(s: string, boundary: string -> Option<string>, m: Scan): seq<Piece>
    requires m.start <= m.pos <= |s|
  {
    SectionsInText(s, boundary, m);
    AllPieces(s, SectionsFrom(s, boundary, m))
  }

  function FlushedPieces(s: string, symbol: Option<string>, start: nat, end: nat, line: nat): seq<Piece>
    requires start <= end <= |s|
  {
    if symbol.Some? || !Blank(s, start, end) then Pieces(s, symbol, start, end, line) else []
  }

  lemma FlushThen(s: string, symbol: Option<string>, start: nat, end: nat, line: nat, rest: seq<Section>)
    requires start <= end <= |s| && InText(s, rest)
    ensures InText(s, Flushed(s, symbol, start, end, line) + rest)
    ensures AllPieces(s, Flushed(s, symbol, start, end, line) + rest) == FlushedPieces(s, symbol, start, end, line) + AllPieces(s, rest)
  {
    if symbol.Some? || !Blank(s, start, end) {
      HeadAndTail(Section(symbol, start, end, line), rest);
    } else {
      NoTail(rest);
      NoTail(AllPieces(s, rest));
    }
  }

  /** One line leaves the pieces to come as they are, or takes the finished section's off their front. */
  lemma PiecesNext(s: string, boundary: string -> Option<string>, m: Scan)
    requires m.start <= m.pos < |s|
    ensures var name := NameAt(s, m.pos, boundary);
      PiecesFrom(s, boundary, m) ==
        (if name.None? then [] else FlushedPieces(s, m.symbol, m.start, m.pos, m.startLine)) + PiecesFrom(s, boundary, Pass(s, m, name))
  {
    var name := NameAt(s, m.pos, boundary);
    var rest := SectionsFrom(s, boundary, Pass(s, m, name));
    SectionsInText(s, boundary, Pass(s, m, name));
    if name.Some? {
      FlushThen(s, m.symbol, m.start, m.pos, m.startLine, rest);
    } else {
      NoTail(rest);
      NoTail(AllPieces(s, rest));
    }
  }

  lemma PiecesLast(s: string, boundary: string -> Option<string>, m: Scan)
    requires m.start <= m.pos == |s|
    ensures PiecesFrom(s, boundary, m) == if m.start < |s| then FlushedPieces(s, m.symbol, m.start, |s|, m.startLine) else []
  {
    if m.start < |s| {
      FlushThen(s, m.symbol, m.start, |s|, m.startLine, []);
      NoTail(Flushed(s, m.symbol, m.start, |s|, m.startLine));
      NoTail(FlushedPieces(s, m.symbol, m.start, |s|, m.startLine));
    }
  }

  /** The list and what is to come make the goal: a fact to carry, not to look into. */
  ghost predicate Owes(list: seq<Item>, s: string, boundary: string -> Option<string>, m: Scan, goal: seq<Piece>) {
    forall n {:trigger Look(n)} :: Look(n) ==> m.start <= m.pos <= |s| && goal == PiecesOf(list) + PiecesFrom(s, boundary, m)
  }

  lemma OwesAll(s: string, boundary: string -> Option<string>)
    ensures Owes([], s, boundary, START, PiecesFrom(s, boundary, START))
  {
    NoTail(PiecesFrom(s, boundary, START));
  }

  /** A line that starts nothing. */
  lemma OwesSame(list: seq<Item>, s: string, boundary: string -> Option<string>, m: Scan, goal: seq<Piece>)
    requires Owes(list, s, boundary, m, goal) && m.start <= m.pos < |s| && NameAt(s, m.pos, boundary).None?
    ensures Owes(list, s, boundary, Pass(s, m, None), goal)
  {
    assert Look(0);
    PiecesNext(s, boundary, m);
    NoTail(PiecesFrom(s, boundary, Pass(s, m, None)));
  }

  /** `cfg_flush_section`. */
  method FlushSection(s: string, list: seq<Item>, occ: StrMap, path: string, symbol: Option<string>, start: nat, end: nat, line: nat, ghost idents: seq<string>)
    returns (st: Status, list': seq<Item>, ghost idents': seq<string>)
    requires start <= end <= |s| && Tracked(occ, idents) && AllFiled(list, path, idents, 8)
    modifies occ.Repr()
    ensures Tracked(occ, idents') && fresh(occ.Repr() - old(occ.Repr()))
    ensures st == Ok ==> AllFiled(list', path, idents', 8) && PiecesOf(list') == PiecesOf(list) + FlushedPieces(s, symbol, start, end, line)
  {
    var blank := false;
    if symbol.None? {
      blank := SpanBlank(s, start, end);
    }
    if blank {
      st, list', idents' := Ok, list, idents;
      NoTail(PiecesOf(list));
    } else {
      st, list', idents' := CfgEmit(s, list, occ, path, symbol, start, end, line, idents);
    }
  }

  method BoundaryName(text: string, toml: bool) returns (name: Option<string>)
    ensures name == Boundary(toml)(text)
  {
    if toml {
      name := TomlTableLine(text);
    } else {
      name := YamlKeyLine(text);
    }
  }

  /** Flushing a section moves its pieces from what is to come to what is listed. */
  method FlushBefore(s: string, list: seq<Item>, occ: StrMap, path: string, m: Scan, ghost boundary: string -> Option<string>, ghost idents: seq<string>,
                     ghost goal: seq<Piece>)
    returns (st: Status, list': seq<Item>, ghost idents': seq<string>)
    requires m.start <= m.pos < |s| && Tracked(occ, idents) && AllFiled(list, path, idents, 8)
    requires Owes(list, s, boundary, m, goal) && NameAt(s, m.pos, boundary).Some?
    modifies occ.Repr()
    ensures Tracked(occ, idents') && fresh(occ.Repr() - old(occ.Repr()))
    ensures st == Ok ==> AllFiled(list', path, idents', 8) && Owes(list', s, boundary, Pass(s, m, NameAt(s, m.pos, boundary)), goal)
  {
    st, list', idents' := FlushSection(s, list, occ, path, m.symbol, m.start, m.pos, m.startLine, idents);
    if st == Ok {
      OwesNext(list, list', s, boundary, m, goal);
    }
  }

  lemma OwesNext(list: seq<Item>, list': seq<Item>, s: string, boundary: string -> Option<string>, m: Scan, goal: seq<Piece>)
    requires m.start <= m.pos < |s| && Owes(list, s, boundary, m, goal) && NameAt(s, m.pos, boundary).Some?
    requires PiecesOf(list') == PiecesOf(list) + FlushedPieces(s, m.symbol, m.start, m.pos, m.startLine)
    ensures Owes(list', s, boundary, Pass(s, m, NameAt(s, m.pos, boundary)), goal)
  {
    assert Look(0);
    PiecesNext(s, boundary, m);
    Regroup(PiecesOf(list), FlushedPieces(s, m.symbol, m.start, m.pos, m.startLine), PiecesFrom(s, boundary, Pass(s, m, NameAt(s, m.pos, boundary))));
  }

  ghost predicate IsBoundary(boundary: string -> Option<string>, toml: bool) {
    forall n {:trigger Look(n)} :: Look(n) ==> boundary == Boundary(toml)
  }

  /** Where the scan is after the line, and whether the line opens a section. */
  method ReadName(s: string, m: Scan, toml: bool, ghost boundary: string -> Option<string>) returns (opens: bool, m': Scan)
    requires m.start <= m.pos < |s| && IsBoundary(boundary, toml)
    ensures m' == Pass(s, m, NameAt(s, m.pos, boundary)) && (opens <==> NameAt(s, m.pos, boundary).Some?)
    ensures m.pos < m'.pos && m'.start <= m'.pos <= |s|
  {
    assert Look(0);
    var text, next := M.ReadLine(s, m.pos);
    var name := BoundaryName(text, toml);
    opens := name.Some?;
    m' := if opens then Scan(Some(CopySym(name.value)), m.pos, m.line + 1, next, m.line + 1) else m.(pos := next, line := m.line + 1);
  }

  /** One round of the loop. */
  method TakeLine(s: string, list: seq<Item>, occ: StrMap, path: string, toml: bool, m: Scan, ghost boundary: string -> Option<string>,
                  ghost idents: seq<string>, ghost goal: seq<Piece>)
    returns (st: Status, list': seq<Item>, m': Scan, ghost idents': seq<string>)
    requires m.start <= m.pos < |s| && Tracked(occ, idents) && AllFiled(list, path, idents, 8)
    requires Owes(list, s, boundary, m, goal) && IsBoundary(boundary, toml)
    modifies occ.Repr()
    ensures Tracked(occ, idents') && fresh(occ.Repr() - old(occ.Repr())) && m.pos < m'.pos && m'.start <= m'.pos <= |s|
    ensures st == Ok ==> AllFiled(list', path, idents', 8) && Owes(list', s, boundary, m', goal)
  {
    st, list', idents' := Ok, list, idents;
    var opens;
    opens, m' := ReadName(s, m, toml, boundary);
    if opens {
      st, list', idents' := FlushBefore(s, list, occ, path, m, boundary, idents, goal);
    } else {
      OwesSame(list, s, boundary, m, goal);
    }
  }

  /** `cfg_line_chunks`. */
  method LineChunks(s: string, occ: StrMap, path: string, toml: bool) returns (st: Status, list: seq<Item>, ghost idents: seq<string>)
    requires Tracked(occ, [])
    modifies occ.Repr()
    ensures st == Ok ==> InText(s, LineSections(s, Boundary(toml))) && AllFiled(list, path, idents, 8)
    ensures st == Ok ==> PiecesOf(list) == AllPieces(s, LineSections(s, Boundary(toml)))
  {
    st, list, idents := Ok, [], [];
    var m := START;
    ghost var goal := PiecesFrom(s, Boundary(toml), m);
    OwesAll(s, Boundary(toml));
    SectionsInText(s, Boundary(toml), m);
    while m.pos < |s|
      invariant m.start <= m.pos <= |s| && Tracked(occ, idents) && fresh(occ.Repr() - old(occ.Repr())) && AllFiled(list, path, idents, 8)
      invariant Owes(list, s, Boundary(toml), m, goal)
      decreases |s| - m.pos
    {
      st, list, m, idents := TakeLine(s, list, occ, path, toml, m, Boundary(toml), idents, goal);
      if st != Ok {
        return;
      }
    }
    st, list, idents := FlushLast(s, list, occ, path, toml, m, idents, goal);
  }

  /** After the loop: what is left of the text is the last section. */
  method FlushLast(s: string, list: seq<Item>, occ: StrMap, path: string, toml: bool, m: Scan, ghost idents: seq<string>, ghost goal: seq<Piece>)
    returns (st: Status, list': seq<Item>, ghost idents': seq<string>)
    requires m.start <= m.pos == |s| && Tracked(occ, idents) && AllFiled(list, path, idents, 8)
    requires Owes(list, s, Boundary(toml), m, goal)
    modifies occ.Repr()
    ensures st == Ok ==> AllFiled(list', path, idents', 8) && PiecesOf(list') == goal
  {
    PiecesLast(s, Boundary(toml), m);
    assert Look(0);
    if m.start < |s| {
      st, list', idents' := FlushSection(s, list, occ, path, m.symbol, m.start, |s|, m.startLine, idents);
    } else {
      st, list', idents' := Ok, list, idents;
      NoTail(PiecesOf(list));
    }
  }
}
