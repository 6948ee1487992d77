/**
 The JSON scanner as functions of position and line, and its loops proved against them. What
 the scan means on real JSON is in JsonTheorems.dfy.
 */
module JsonScan {
  import opened Common
  import opened StrMaps
  import opened TableSync
  import opened ChunkKeys
  import opened ChunkLists

  /** Where a scan stands: a byte offset and the line counter. */
  datatype At = At(pos: nat, line: nat)

  predicate Space(c: char) {
    c == ' ' || c == '\t' || c == '\n' || c == '\r'
  }

  predicate CommentAt(s: string, i: nat, c: char) {
    i + 1 < |s| && s[i] == '/' && s[i + 1] == c
  }

  // ---- Strings ----

  /** From inside a string to just past its closing quote, or the end. */
  function StringEnd(s: string, i: nat, line: nat): (r: At)
    requires i <= |s|
    ensures i <= r.pos <= |s|
    decreases |s| - i
  {
    if i == |s| then At(i, line)
    else if s[i] == '\\' then
      if i + 1 < |s| then StringEnd(s, i + 2, line) else At(|s|, line)
    else if s[i] == '"' then At(i + 1, line)
    else StringEnd(s, i + 1, if s[i] == '\n' then line + 1 else line)
  }

  /** `json_skip_string`, from the opening quote. */
  method SkipString(s: string, start: nat, startLine: nat) returns (i: nat, line: nat)
    requires start < |s|
    ensures At(i, line) == StringEnd(s, start + 1, startLine)
  {
    i, line := start + 1, startLine;
    while i < |s|
      invariant i <= |s| && StringEnd(s, i, line) == StringEnd(s, start + 1, startLine)
    {
      var c := s[i];
      if c == '\\' {
        if i + 1 < |s| {
          i := i + 2;
        } else {
          i := |s|;
        }
        continue;
      }
      if c == '\n' {
        line := line + 1;
      }
      if c == '"' {
        i := i + 1;
        return;
      }
      i := i + 1;
    }
  }

  // ---- Whitespace, commas and comments ----

  /** To the end of a `//` comment's line, not past it. */
  function LineCommentEnd(s: string, i: nat): (r: nat)
    requires i <= |s|
    ensures i <= r <= |s|
    decreases |s| - i
  {
    if i == |s| || s[i] == '\n' then i else LineCommentEnd(s, i + 1)
  }

  /** Past the end of a block comment, or the end. */
  function BlockCommentEnd(s: string, i: nat, line: nat): (r: At)
    requires i <= |s|
    ensures i <= r.pos <= |s|
    decreases |s| - i
  {
    if i + 1 >= |s| then At(|s|, line)
    else if s[i] == '*' && s[i + 1] == '/' then At(i + 2, line)
    else BlockCommentEnd(s, i + 1, if s[i] == '\n' then line + 1 else line)
  }

  /** `json_skip_ws` as a function. */
  function WsEnd(s: string, i: nat, line: nat, comma: bool): (r: At)
    requires i <= |s|
    ensures i <= r.pos <= |s|
    decreases |s| - i
  {
    if i < |s| && (Space(s[i]) || (comma && s[i] == ',')) then WsEnd(s, i + 1, if s[i] == '\n' then line + 1 else line, comma)
    else if CommentAt(s, i, '/') then WsEnd(s, LineCommentEnd(s, i + 2), line, comma)
    else if CommentAt(s, i, '*') then
      var e := BlockCommentEnd(s, i + 2, line);
      WsEnd(s, e.pos, e.line, comma)
    else At(i, line)
  }

  /** The first inner loop of `json_skip_ws`. */
  method SkipSpaces(s: string, start: nat, startLine: nat, comma: bool) returns (i: nat, line: nat)
    requires start <= |s|
    ensures start <= i <= |s| && WsEnd(s, i, line, comma) == WsEnd(s, start, startLine, comma)
    ensures i < |s| ==> !Space(s[i]) && !(comma && s[i] == ',')
  {
    i, line := start, startLine;
    while i < |s| && (Space(s[i]) || (comma && s[i] == ','))
      invariant start <= i <= |s| && WsEnd(s, i, line, comma) == WsEnd(s, start, startLine, comma)
    {
      if s[i] == '\n' {
        line := line + 1;
      }
      i := i + 1;
    }
  }

  method SkipLineComment(s: string, start: nat) returns (i: nat)
    requires start <= |s|
    ensures i == LineCommentEnd(s, start)
  {
    i := start;
    while i < |s| && s[i] != '\n'
      invariant i <= |s| && LineCommentEnd(s, i) == LineCommentEnd(s, start)
    {
      i := i + 1;
    }
  }

  method SkipBlockComment(s: string, start: nat, startLine: nat) returns (i: nat, line: nat)
    requires start <= |s|
    ensures At(i, line) == BlockCommentEnd(s, start, startLine)
  {
    i, line := start, startLine;
    while i + 1 < |s| && !(s[i] == '*' && s[i + 1] == '/')
      invariant i <= |s| && BlockCommentEnd(s, i, line) == BlockCommentEnd(s, start, startLine)
    {
      if s[i] == '\n' {
        line := line + 1;
      }
      i := i + 1;
    }
    if i + 1 < |s| {
      i := i + 2;
    } else {
      i := |s|;
    }
  }

  /** `json_skip_ws`. */
  method SkipWs(s: string, start: nat, startLine: nat, comma: bool) returns (i: nat, line: nat)
    requires start <= |s|
    ensures At(i, line) == WsEnd(s, start, startLine, comma)
  {
    i, line := start, startLine;
    while true
      invariant i <= |s| && WsEnd(s, i, line, comma) == WsEnd(s, start, startLine, comma)
      decreases |s| - i
    {
      i, line := SkipSpaces(s, i, line, comma);
      if i + 1 < |s| && s[i] == '/' && s[i + 1] == '/' {
        i := SkipLineComment(s, i + 2);
        continue;
      }
      if i + 1 < |s| && s[i] == '/' && s[i + 1] == '*' {
        i, line := SkipBlockComment(s, i + 2, line);
        continue;
      }
      return;
    }
  }

  // ---- Values ----

  /** From after a member's colon to where its value stops: a comma or closing bracket at depth 0, or past the bracket that closes it. */
  function ValueEnd(s: string, i: nat, depth: nat, line: nat): (r: At)
    requires i <= |s|
    ensures i <= r.pos <= |s|
    decreases |s| - i
  {
    if i == |s| then At(i, line)
    else
      var c := s[i];
      if c == '"' then
        var e := StringEnd(s, i + 1, line);
        ValueEnd(s, e.pos, depth, e.line)
      else
        var line' := if c == '\n' then line + 1 else line;
        if c == '{' || c == '[' then ValueEnd(s, i + 1, depth + 1, line')
        else if c == '}' || c == ']' then
          if depth == 0 then At(i, line')
          else if depth == 1 then At(i + 1, line')
          else ValueEnd(s, i + 1, depth - 1, line')
        else if c == ',' && depth == 0 then At(i, line')
        else ValueEnd(s, i + 1, depth, line')
  }

  /** The value loop of `json_object_chunks`. */
  method SkipValue(s: string, start: nat, startLine: nat) returns (i: nat, line: nat)
    requires start <= |s|
    ensures At(i, line) == ValueEnd(s, start, 0, startLine)
  {
    i, line := start, startLine;
    var depth := 0;
    while i < |s|
      invariant i <= |s| && 0 <= depth && ValueEnd(s, i, depth, line) == ValueEnd(s, start, 0, startLine)
      decreases |s| - i
    {
      var c := s[i];
      if c == '"' {
        i, line := SkipString(s, i, line);
        continue;
      }
      if c == '\n' {
        line := line + 1;
      }
      if c == '{' || c == '[' {
        depth := depth + 1;
      } else if c == '}' || c == ']' {
        if depth == 0 {
          return;
        }
        depth := depth - 1;
        if depth == 0 {
          i := i + 1;
          return;
        }
      } else if c == ',' && depth == 0 {
        return;
      }
      i := i + 1;
    }
  }

  /** Back over trailing whitespace, not before `lo`. */
  function TrimEnd(s: string, lo: nat, e: nat): (r: nat)
    requires lo <= e <= |s|
    ensures lo <= r <= e
    ensures lo < e && !Space(s[lo]) ==> lo < r
  {
    if e > lo && Space(s[e - 1]) then TrimEnd(s, lo, e - 1) else e
  }

  method TrimValue(s: string, lo: nat, e: nat) returns (vend: nat)
    requires lo <= e <= |s|
    ensures vend == TrimEnd(s, lo, e)
  {
    vend := e;
    while vend > lo && Space(s[vend - 1])
      invariant lo <= vend <= e && TrimEnd(s, lo, vend) == TrimEnd(s, lo, e)
    {
      vend := vend - 1;
    }
  }

  // ---- Sections and their pieces ----

  /** A stretch to emit under one symbol: None is text that belongs to no key. */
  datatype Section = Section(symbol: Option<string>, start: nat, end: nat, line: nat)

  function Newlines(t: string): nat {
    if t == "" then 0 else Newlines(t[..|t| - 1]) + if t[|t| - 1] == '\n' then 1 else 0
  }

  /** Where a piece that starts at `e` with `nl` lines to its name ends. */
  function PieceEnd(s: string, e: nat, end: nat, nl: nat): (r: (nat, nat))
    requires e <= end <= |s| && nl <= MAX_SECTION_LINES
    ensures e <= r.0 <= end && nl <= r.1 <= MAX_SECTION_LINES
    ensures r.0 == end || (r.1 == MAX_SECTION_LINES && (nl < MAX_SECTION_LINES ==> r.0 > e && s[r.0 - 1] == '\n'))
    ensures e < end && nl < MAX_SECTION_LINES ==> e < r.0
    decreases end - e
  {
    if e == end || nl == MAX_SECTION_LINES then (e, nl)
    else PieceEnd(s, e + 1, end, if s[e] == '\n' then nl + 1 else nl)
  }

  function LastLine(s: string, e: nat, bline: nat, nl: nat): nat
    requires 0 < e <= |s|
  {
    if nl == 0 then bline else if s[e - 1] == '\n' then bline + nl - 1 else bline + nl
  }

  /** `cfg_emit`: the pieces of one section, at most 200 lines each. */
  function Pieces(s: string, symbol: Option<string>, b: nat, end: nat, bline: nat): seq<Piece>
    requires b <= end <= |s|
    decreases end - b
  {
    if b == end then []
    else
      var r := PieceEnd(s, b, end, 0);
      var eline := LastLine(s, r.0, bline, r.1);
      [Piece(Kept(symbol), Span(b, r.0, bline, eline))] + Pieces(s, symbol, r.0, end, eline + 1)
  }

  method FindPieceEnd(s: string, b: nat, end: nat) returns (e: nat, nl: nat)
    requires b <= end <= |s|
    ensures (e, nl) == PieceEnd(s, b, end, 0)
  {
    e, nl := b, 0;
    while e < end && nl < MAX_SECTION_LINES
      invariant b <= e <= end && nl <= MAX_SECTION_LINES && PieceEnd(s, e, end, nl) == PieceEnd(s, b, end, 0)
    {
      if s[e] == '\n' {
        nl := nl + 1;
      }
      e := e + 1;
    }
  }

  lemma PiecesStep(s: string, symbol: Option<string>, b: nat, end: nat, bline: nat, e: nat, nl: nat, eline: nat)
    requires b < end <= |s| && (e, nl) == PieceEnd(s, b, end, 0) && eline == LastLine(s, e, bline, nl)
    ensures Pieces(s, symbol, b, end, bline) == [Piece(Kept(symbol), Span(b, e, bline, eline))] + Pieces(s, symbol, e, end, eline + 1)
  {}

  /** One round of `cfg_emit`. */
  method EmitPiece(s: string, list: seq<Item>, occ: StrMap, path: string, symbol: Option<string>, b: nat, end: nat, bline: nat, ghost idents: seq<string>)
    returns (st: Status, list': seq<Item>, e: nat, eline: nat, ghost idents': seq<string>)
    requires b < end <= |s| && Tracked(occ, idents) && AllFiled(list, path, idents, 8)
    modifies occ.Repr()
    ensures Tracked(occ, idents') && fresh(occ.Repr() - old(occ.Repr())) && b < e <= end
    ensures st == Ok ==> AllFiled(list', path, idents', 8)
    ensures st == Ok ==> PiecesOf(list') + Pieces(s, symbol, e, end, eline + 1) == PiecesOf(list) + Pieces(s, symbol, b, end, bline)
    ensures FormatIdent(path, KIND_KEY, SymbolText(symbol)).None? ==> st == InvalidArgument
    ensures st == Ok || st == OutOfMemory || FormatIdent(path, KIND_KEY, SymbolText(symbol)).None? || |list| >= INDEX_END
  {
    var nl;
    e, nl := FindPieceEnd(s, b, end);
    eline := if nl == 0 then bline else if s[e - 1] == '\n' then bline + nl - 1 else bline + nl;
    st, list', idents' := Emit(list, occ, path, KIND_KEY, symbol, Span(b, e, bline, eline), idents);
    PiecesStep(s, symbol, b, end, bline, e, nl, eline);
    Regroup(PiecesOf(list), [Piece(Kept(symbol), Span(b, e, bline, eline))], Pieces(s, symbol, e, end, eline + 1));
  }

  /** `cfg_emit`. */
  method CfgEmit(s: string, list: seq<Item>, occ: StrMap, path: string, symbol: Option<string>, start: nat, end: nat, startLine: nat, ghost idents: seq<string>)
    returns (st: Status, list': seq<Item>, ghost idents': seq<string>)
    requires start <= end <= |s| && Tracked(occ, idents) && AllFiled(list, path, idents, 8)
    modifies occ.Repr()
    ensures Tracked(occ, idents') && fresh(occ.Repr() - old(occ.Repr()))
    ensures st == Ok ==> AllFiled(list', path, idents', 8) && PiecesOf(list') == PiecesOf(list) + Pieces(s, symbol, start, end, startLine)
    ensures start < end && FormatIdent(path, KIND_KEY, SymbolText(symbol)).None? ==> st == InvalidArgument
    ensures st == Ok || st == OutOfMemory || (start < end && FormatIdent(path, KIND_KEY, SymbolText(symbol)).None?)
              || |list| + |Pieces(s, symbol, start, end, startLine)| >= INDEX_END
  {
    st, list', idents' := Ok, list, idents;
    ghost var all := PiecesOf(list) + Pieces(s, symbol, start, end, startLine);
    var b, bline := start, startLine;
    while b < end
      invariant start <= b <= end && Tracked(occ, idents') && fresh(occ.Repr() - old(occ.Repr()))
      invariant AllFiled(list', path, idents', 8) && PiecesOf(list') + Pieces(s, symbol, b, end, bline) == all
      invariant st == Ok && (b > start ==> FormatIdent(path, KIND_KEY, SymbolText(symbol)).Some?)
    {
      var eline;
      st, list', b, eline, idents' := EmitPiece(s, list', occ, path, symbol, b, end, bline, idents');
      if st != Ok {
        return;
      }
      bline := eline + 1;
    }
  }

  // ---- The object ----

  predicate Blank(s: string, start: nat, end: nat)
    requires start <= end <= |s|
  {
    forall i :: start <= i < end ==> Space(s[i])
  }

  /** `cfg_span_blank`. */
  method SpanBlank(s: string, start: nat, end: nat) returns (blank: bool)
    requires start <= end <= |s|
    ensures blank <==> Blank(s, start, end)
  {
    for i := start to end
      invariant forall j :: start <= j < i ==> Space(s[j])
    {
      if !Space(s[i]) {
        return false;
      }
    }
    blank := true;
  }

  /** `cfg_copy_sym`: at most 1023 bytes, read back as a C string. */
  function CopySym(t: string): (sym: string)
    ensures |sym| < IDENT_MAX
    ensures |t| < IDENT_MAX && (forall i :: 0 <= i < |t| ==> t[i] as nat != 0) ==> sym == t
  {
    var copy := if |t| < IDENT_MAX then t else t[..IDENT_MAX - 1];
    CutIsPrefix(copy);
    CutAtZero(copy)
  }

  /** What one round of the loop finds: a member, the end of the object with any text after it, or not an object at all. */
  datatype Found = Member(section: Section, next: At) | Done(tail: Option<Section>) | Unhandled

  function TailOf(s: string, i: nat, line: nat): Found
    requires i <= |s|
  {
    var t := WsEnd(s, i, line, false);
    if t.pos < |s| && !Blank(s, t.pos, |s|) then Done(Some(Section(None, t.pos, |s|, t.line))) else Done(None)
  }

  function MemberOf(s: string, w: At): (f: Found)
    requires w.pos < |s|
    ensures f.Member? ==> w.pos < f.next.pos <= |s| && f.section.start == w.pos < f.section.end <= f.next.pos
  {
    if s[w.pos] != '"' then Unhandled
    else
      var k := StringEnd(s, w.pos + 1, w.line);
      var text := if k.pos > w.pos + 1 then s[w.pos + 1..k.pos - 1] else "";
      var c := WsEnd(s, k.pos, k.line, false);
      if c.pos == |s| || s[c.pos] != ':' then Unhandled
      else
        var v := ValueEnd(s, c.pos + 1, 0, c.line);
        Member(Section(Some(CopySym(text)), w.pos, TrimEnd(s, w.pos, v.pos), w.line), v)
  }

  function FindNext(s: string, i: nat, line: nat): (f: Found)
    requires i <= |s|
    ensures f.Member? ==> i <= f.section.start < f.section.end <= f.next.pos <= |s|
    ensures f.Done? && f.tail.Some? ==> i <= f.tail.value.start < f.tail.value.end == |s|
  {
    var w := WsEnd(s, i, line, true);
    if w.pos == |s| then TailOf(s, w.pos, w.line)
    else if s[w.pos] == '}' then TailOf(s, w.pos + 1, w.line)
    else MemberOf(s, w)
  }

  /** The sections of the object from `i` on; None when it is not one after all. */
  function Members(s: string, i: nat, line: nat): Option<seq<Section>>
    requires i <= |s|
    decreases |s| - i
  {
    match FindNext(s, i, line)
    case Unhandled => None
    case Done(tail) => Some(if tail.Some? then [tail.value] else [])
    case Member(section, next) =>
      match Members(s, next.pos, next.line)
      case None => None
      case Some(rest) => Some([section] + rest)
  }

  /** The sections of a file; None when its root is not an object. */
  function ObjectSections(s: string): Option<seq<Section>> {
    var w := WsEnd(s, 0, 1, false);
    if w.pos == |s| || s[w.pos] != '{' then None else Members(s, w.pos + 1, w.line)
  }

  /** After the object: text that is not blank is one more section. */
  method FindTail(s: string, start: nat, startLine: nat) returns (f: Found)
    requires start <= |s|
    ensures f == TailOf(s, start, startLine)
  {
    var i, line := SkipWs(s, start, startLine, false);
    if i < |s| {
      var blank := SpanBlank(s, i, |s|);
      if !blank {
        return Done(Some(Section(None, i, |s|, line)));
      }
    }
    f := Done(None);
  }

  /** A key, its colon, its value. */
  method ReadMember(s: string, keyByte: nat, keyLine: nat) returns (f: Found)
    requires keyByte < |s|
    ensures f == MemberOf(s, At(keyByte, keyLine))
  {
    if s[keyByte] != '"' {
      return Unhandled;
    }
    var txtStart := keyByte + 1;
    var keyEnd, line := SkipString(s, keyByte, keyLine);
    var text := if keyEnd > txtStart then s[txtStart..keyEnd - 1] else "";
    var i;
    i, line := SkipWs(s, keyEnd, line, false);
    if i >= |s| || s[i] != ':' {
      return Unhandled;
    }
    i, line := SkipValue(s, i + 1, line);
    var vend := TrimValue(s, keyByte, i);
    f := Member(Section(Some(CopySym(text)), keyByte, vend, keyLine), At(i, line));
  }

  /** One round of the loop of `json_object_chunks`, up to the emission. */
  method NextMember(s: string, start: nat, startLine: nat) returns (f: Found)
    requires start <= |s|
    ensures f == FindNext(s, start, startLine)
  {
    var i, line := SkipWs(s, start, startLine, true);
    if i >= |s| || s[i] == '}' {
      if i < |s| && s[i] == '}' {
        i := i + 1;
      }
      f := FindTail(s, i, line);
      return;
    }
    f := ReadMember(s, i, line);
  }

  predicate InText(s: string, secs: seq<Section>) {
    forall k :: 0 <= k < |secs| ==> secs[k].start <= secs[k].end <= |s|
  }

  /** All pieces of a list of sections. */
  function AllPieces(s: string, secs: seq<Section>): seq<Piece>
    requires InText(s, secs)
  {
    if secs == [] then []
    else Pieces(s, secs[0].symbol, secs[0].start, secs[0].end, secs[0].line) + AllPieces(s, secs[1..])
  }

  lemma {:induction false} MembersInText(s: string, i: nat, line: nat)
    requires i <= |s|
    ensures Members(s, i, line).Some? ==> InText(s, Members(s, i, line).value)
    decreases |s| - i
  {
    match FindNext(s, i, line)
    case Unhandled =>
    case Done(_) =>
    case Member(_, next) => MembersInText(s, next.pos, next.line);
  }

  /** What is still to be emitted from `i` on. */
  function Rest(s: string, i: nat, line: nat): Option<seq<Piece>>
    requires i <= |s|
  {
    MembersInText(s, i, line);
    match Members(s, i, line)
    case None => None
    case Some(secs) => Some(AllPieces(s, secs))
  }

  /** What is still to be emitted, given what one round finds. */
  function RestOf(s: string, f: Found): Option<seq<Piece>>
    requires f.Member? ==> f.section.start <= f.section.end <= |s| && f.next.pos <= |s|
    requires f.Done? && f.tail.Some? ==> f.tail.value.start <= f.tail.value.end <= |s|
  {
    match f
    case Unhandled => None
    case Done(None) => Some([])
    case Done(Some(sec)) => Some(Pieces(s, sec.symbol, sec.start, sec.end, sec.line))
    case Member(sec, next) =>
      var rest := Rest(s, next.pos, next.line);
      if rest.None? then None else Some(Pieces(s, sec.symbol, sec.start, sec.end, sec.line) + rest.value)
  }

  lemma RestNext(s: string, i: nat, line: nat)
    requires i <= |s|
    ensures Rest(s, i, line) == RestOf(s, FindNext(s, i, line))
  {
    MembersInText(s, i, line);
    match FindNext(s, i, line)
    case Unhandled =>
    case Done(None) =>
    case Done(Some(sec)) =>
      assert [sec][1..] == [] && AllPieces(s, []) == [];
      assert Members(s, i, line) == Some([sec]);
      var ps := Pieces(s, sec.symbol, sec.start, sec.end, sec.line);
      assert AllPieces(s, [sec]) == ps + [];
      assert ps + [] == ps;
    case Member(sec, next) =>
      MembersInText(s, next.pos, next.line);
      if Members(s, next.pos, next.line).Some? {
        assert ([sec] + Members(s, next.pos, next.line).value)[1..] == Members(s, next.pos, next.line).value;
      }
  }

  /**
   `json_object_chunks`: on success, either the root is not an object and nothing counts, or the list holds
   exactly the pieces of the object's sections. A key too long for an identity fails the file; if all fit, only
   memory can run out.
   */
  method JsonObjectChunks(s: string, occ: StrMap, path: string) returns (st: Status, handled: bool, list: seq<Item>, ghost idents: seq<string>)
    requires Tracked(occ, [])
    modifies occ.Repr()
    ensures st == Ok ==> AllFiled(list, path, idents, 8) && (handled <==> ObjectSections(s).Some?)
    ensures st == Ok && handled ==> InText(s, ObjectSections(s).value) && PiecesOf(list) == AllPieces(s, ObjectSections(s).value)
    ensures ObjectSections(s).Some? && InText(s, ObjectSections(s).value) && CanFile(AllPieces(s, ObjectSections(s).value), path, KIND_KEY) ==>
              st == Ok || st == OutOfMemory
  {
    st, handled, list, idents := Ok, true, [], [];
    var i, line := SkipWs(s, 0, 1, false);
    if i >= |s| || s[i] != '{' {
      return Ok, false, list, idents;
    }
    MembersInText(s, i + 1, line);
    st, handled, list, idents := MemberLoop(s, i + 1, line, occ, path);
  }

  /** The whole list is known and can be filed. */
  ghost predicate Fileable(goal: Option<seq<Piece>>, path: string) {
    goal.Some? && CanFile(goal.value, path, KIND_KEY)
  }

  /** One section of a list that can be filed. */
  lemma SectionCanFile(list: seq<Item>, s: string, sec: Section, rest: seq<Piece>, goal: seq<Piece>, path: string)
    requires sec.start <= sec.end <= |s| && CanFile(goal, path, KIND_KEY)
    requires goal == PiecesOf(list) + (Pieces(s, sec.symbol, sec.start, sec.end, sec.line) + rest)
    ensures |list| + |Pieces(s, sec.symbol, sec.start, sec.end, sec.line)| < INDEX_END
    ensures sec.start < sec.end ==> FormatIdent(path, KIND_KEY, SymbolText(sec.symbol)).Some?
  {
    var ps := Pieces(s, sec.symbol, sec.start, sec.end, sec.line);
    if sec.start < sec.end {
      assert goal[|list|] == ps[0] && ps[0].symbol == Kept(sec.symbol);
    }
  }

  /** What the list must come to if the object is handled. */
  ghost predicate OnTrack(s: string, list: seq<Item>, i: nat, line: nat, goal: Option<seq<Piece>>)
  {
    forall n {:trigger Look(n)} :: Look(n) ==>
      i <= |s| && goal == (if Rest(s, i, line).None? then None else Some(PiecesOf(list) + Rest(s, i, line).value))
  }

  /** Emitting a member moves its pieces from what is to come to what is listed. */
  method EmitMember(s: string, list: seq<Item>, occ: StrMap, path: string, sec: Section, next: At, ghost i: nat, ghost line: nat,
                    ghost goal: Option<seq<Piece>>, ghost idents: seq<string>)
    returns (st: Status, list': seq<Item>, ghost idents': seq<string>)
    requires i <= |s| && FindNext(s, i, line) == Member(sec, next) && OnTrack(s, list, i, line, goal)
    requires Tracked(occ, idents) && AllFiled(list, path, idents, 8)
    modifies occ.Repr()
    ensures Tracked(occ, idents') && fresh(occ.Repr() - old(occ.Repr()))
    ensures st == Ok ==> AllFiled(list', path, idents', 8) && OnTrack(s, list', next.pos, next.line, goal)
    ensures st == Ok || st == OutOfMemory || !Fileable(goal, path)
  {
    RestNext(s, i, line);
    assert Look(0);
    if Fileable(goal, path) {
      SectionCanFile(list, s, sec, Rest(s, next.pos, next.line).value, goal.value, path);
    }
    st, list', idents' := CfgEmit(s, list, occ, path, sec.symbol, sec.start, sec.end, sec.line, idents);
    if st == Ok && Rest(s, next.pos, next.line).Some? {
      Regroup(PiecesOf(list), Pieces(s, sec.symbol, sec.start, sec.end, sec.line), Rest(s, next.pos, next.line).value);
    }
  }

  /** Emitting the text after the object completes the list. */
  method EmitTail(s: string, list: seq<Item>, occ: StrMap, path: string, tail: Option<Section>, ghost i: nat, ghost line: nat,
                  ghost goal: Option<seq<Piece>>, ghost idents: seq<string>)
    returns (st: Status, list': seq<Item>, ghost idents': seq<string>)
    requires i <= |s| && FindNext(s, i, line) == Done(tail) && OnTrack(s, list, i, line, goal)
    requires Tracked(occ, idents) && AllFiled(list, path, idents, 8)
    modifies occ.Repr()
    ensures st == Ok ==> AllFiled(list', path, idents', 8) && goal == Some(PiecesOf(list'))
    ensures st == Ok || st == OutOfMemory || !Fileable(goal, path)
  {
    RestNext(s, i, line);
    assert Look(0);
    st, list', idents' := Ok, list, idents;
    if tail.Some? {
      var sec := tail.value;
      if Fileable(goal, path) {
        NoTail(Pieces(s, sec.symbol, sec.start, sec.end, sec.line));
        SectionCanFile(list, s, sec, [], goal.value, path);
      }
      st, list', idents' := CfgEmit(s, list, occ, path, sec.symbol, sec.start, sec.end, sec.line, idents);
    } else {
      assert PiecesOf(list) + [] == PiecesOf(list);
    }
  }

  lemma StartOnTrack(s: string, start: nat, line: nat)
    requires start <= |s|
    ensures OnTrack(s, [], start, line, Rest(s, start, line))
  {
    if Rest(s, start, line).Some? {
      NoTail(Rest(s, start, line).value);
    }
  }

  lemma NotHandled(s: string, list: seq<Item>, i: nat, line: nat, goal: Option<seq<Piece>>)
    requires i <= |s| && FindNext(s, i, line) == Unhandled && OnTrack(s, list, i, line, goal)
    ensures goal.None?
  {
    RestNext(s, i, line);
    assert Look(0);
  }

  /** The loop of `json_object_chunks`. */
  method MemberLoop(s: string, start: nat, startLine: nat, occ: StrMap, path: string)
    returns (st: Status, handled: bool, list: seq<Item>, ghost idents: seq<string>)
    requires start <= |s| && Tracked(occ, [])
    modifies occ.Repr()
    ensures st == Ok ==> AllFiled(list, path, idents, 8) && (handled <==> Rest(s, start, startLine).Some?)
    ensures st == Ok && handled ==> Rest(s, start, startLine) == Some(PiecesOf(list))
    ensures st == Ok || st == OutOfMemory || !Fileable(Rest(s, start, startLine), path)
  {
    st, handled, list, idents := Ok, true, [], [];
    ghost var goal := Rest(s, start, startLine);
    StartOnTrack(s, start, startLine);
    var i, line := start, startLine;
    while true
      invariant i <= |s| && Tracked(occ, idents) && fresh(occ.Repr() - old(occ.Repr())) && AllFiled(list, path, idents, 8)
      invariant OnTrack(s, list, i, line, goal)
      decreases |s| - i
    {
      var f := NextMember(s, i, line);
      if f.Unhandled? {
        NotHandled(s, list, i, line, goal);
        return Ok, false, list, idents;
      }
      if f.Done? {
        handled := true;
        st, list, idents := EmitTail(s, list, occ, path, f.tail, i, line, goal, idents);
        return;
      }
      st, list, idents := EmitMember(s, list, occ, path, f.section, f.next, i, line, goal, idents);
      if st != Ok {
        return;
      }
      i, line := f.next.pos, f.next.line;
    }
  }
}
