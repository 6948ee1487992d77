/**
 What YAML and TOML sections and the fallback windows are, on every text.
 */
module ConfigTheorems {
  import opened Common
  import opened StrMaps
  import opened TableSync
  import opened ChunkKeys
  import opened ChunkLists
  import opened JsonScan
  import J = JsonTheorems
  import M = Markdown
  import T = MarkdownTheorems
  import opened ConfigLines

  // ---- Sections ----

  /** No boundary line starts after `a` and before `b`. */
  ghost predicate NoBoundary(s: string, boundary: string -> Option<string>, a: int, b: nat) {
    forall q: nat {:trigger NameAt(s, q, boundary)} :: a < q < b && q <= |s| && T.LineStart(s, q) ==> NameAt(s, q, boundary) == None
  }

  /**
   A section starts at a boundary line and has its name, or stands before the first boundary and has none; it knows
   its first line, and no other boundary is inside it.
   */
  ghost predicate SectionIs(s: string, boundary: string -> Option<string>, sec: Section) {
    && sec.start < sec.end <= |s| && T.LineStart(s, sec.start) && sec.line == T.Breaks(s, sec.start) + 1
    && (sec.symbol.None? ==> sec.start == 0)
    && NameAt(s, sec.start, boundary) == sec.symbol
    && NoBoundary(s, boundary, sec.start, sec.end)
  }

  /** Sections that follow one another without a gap from `a` to the end of the text. */
  ghost predicate Abut(s: string, secs: seq<Section>, a: nat) {
    if secs == [] then a == |s| else secs[0].start == a && Abut(s, secs[1..], secs[0].end)
  }

  /** The scan between two lines. */
  ghost predicate Scanning(s: string, boundary: string -> Option<string>, m: Scan) {
    && m.start <= m.pos <= |s| && (m.pos < |s| ==> T.LineStart(s, m.pos)) && m.line == T.LinesIn(s, m.pos)
    && T.LineStart(s, m.start) && m.startLine == T.Breaks(s, m.start) + 1
    && (m.symbol.None? ==> m.start == 0) && (m.start < m.pos ==> NameAt(s, m.start, boundary) == m.symbol)
    && (m.start == m.pos ==> m.pos == 0 && m.symbol.None?) && NoBoundary(s, boundary, m.start, m.pos)
  }

  lemma NextBoundary(s: string, boundary: string -> Option<string>, a: nat, pos: nat)
    requires a <= pos < |s| && NoBoundary(s, boundary, a, pos)
    requires a == pos || NameAt(s, pos, boundary) == None
    ensures NoBoundary(s, boundary, a, M.NextLine(s, pos))
  {
    forall q: nat {:trigger NameAt(s, q, boundary)} | a < q < M.NextLine(s, pos) && q <= |s| && T.LineStart(s, q)
      ensures NameAt(s, q, boundary) == None
    {
      assert forall k :: pos <= k < M.BreakAt(s, pos) ==> s[k] != '\n';
    }
  }

  ghost predicate AllAre(s: string, boundary: string -> Option<string>, secs: seq<Section>) {
    forall i :: 0 <= i < |secs| ==> SectionIs(s, boundary, secs[i])
  }

  /** Nothing that shows before the first section; all of the rest is in sections. */
  ghost predicate AbutsAfterBlank(s: string, secs: seq<Section>, a: nat) {
    if secs == [] then a <= |s| && Blank(s, a, |s|)
    else a <= secs[0].start <= |s| && Blank(s, a, secs[0].start) && Abut(s, secs, secs[0].start)
  }

  lemma {:induction false} SectionsAre(s: string, boundary: string -> Option<string>, m: Scan)
    requires m.start <= m.pos && Scanning(s, boundary, m)
    ensures AllAre(s, boundary, SectionsFrom(s, boundary, m))
    ensures AbutsAfterBlank(s, SectionsFrom(s, boundary, m), m.start)
    ensures m.symbol.Some? && m.start < |s| ==> Abut(s, SectionsFrom(s, boundary, m), m.start)
    decreases |s| - m.pos
  {
    if m.pos < |s| {
      var name := NameAt(s, m.pos, boundary);
      var m' := Pass(s, m, name);
      var rest := SectionsFrom(s, boundary, m');
      T.NextLineCounts(s, m.pos);
      if name.None? {
        NextBoundary(s, boundary, m.start, m.pos);
        SectionsAre(s, boundary, m');
        NoTail(rest);
      } else {
        NextBoundary(s, boundary, m.pos, m.pos);
        SectionsAre(s, boundary, m');
        if m.symbol.Some? || !Blank(s, m.start, m.pos) {
          HeadAndTail(Section(m.symbol, m.start, m.pos, m.startLine), rest);
        } else {
          NoTail(rest);
        }
      }
    }
  }

  /** Every section of a text is as promised, and together they hold all of it but a blank front. */
  lemma AllSectionsAre(s: string, boundary: string -> Option<string>)
    ensures AllAre(s, boundary, LineSections(s, boundary)) && AbutsAfterBlank(s, LineSections(s, boundary), 0)
  {
    SectionsAre(s, boundary, START);
  }

  // ---- Pieces ----

  /** The pieces of one section stand before what follows it. */
  lemma {:induction false} TilesCover(s: string, ps: seq<Piece>, symbol: Option<string>, b: nat, end: nat, line: nat, rest: seq<Piece>, n: nat)
    requires b <= end <= |s| && J.Tiles(s, ps, symbol, b, end, line) && T.Covers(s, rest, end, n)
    ensures T.Covers(s, ps + rest, b, n)
    decreases |ps|
  {
    if ps == [] {
      NoTail(rest);
    } else {
      TilesCover(s, ps[1..], symbol, ps[0].span.endByte, end, line + Newlines(s[b..ps[0].span.endByte]), rest, n);
      HeadAndTail(ps[0], ps[1..] + rest);
      assert ps + rest == [ps[0]] + (ps[1..] + rest);
    }
  }

  lemma {:induction false} AbutCovers(s: string, secs: seq<Section>, a: nat)
    requires InText(s, secs) && Abut(s, secs, a)
    ensures T.Covers(s, AllPieces(s, secs), a, |s|)
  {
    if secs != [] {
      AbutCovers(s, secs[1..], secs[0].end);
      J.PiecesTile(s, secs[0].symbol, secs[0].start, secs[0].end, secs[0].line);
      TilesCover(s, Pieces(s, secs[0].symbol, secs[0].start, secs[0].end, secs[0].line), Kept(secs[0].symbol), secs[0].start, secs[0].end,
                 secs[0].line, AllPieces(s, secs[1..]), |s|);
    }
  }

  /** Every byte of a YAML or TOML text that shows is in exactly one chunk. */
  lemma EveryByteOnce(s: string, boundary: string -> Option<string>, k: nat)
    requires k < |s| && !T.Unseen(s[k])
    ensures InText(s, LineSections(s, boundary)) && exists i :: T.HeldOnlyBy(AllPieces(s, LineSections(s, boundary)), k, i)
  {
    var secs := LineSections(s, boundary);
    SectionsInText(s, boundary, START);
    AllSectionsAre(s, boundary);
    if secs != [] {
      AbutCovers(s, secs, secs[0].start);
      assert T.UnseenFrom(s, 0, secs[0].start);
      T.CoversFrom(s, AllPieces(s, secs), 0, secs[0].start, |s|);
      T.HeldOnce(s, AllPieces(s, secs), 0, |s|, k);
    }
  }
}
