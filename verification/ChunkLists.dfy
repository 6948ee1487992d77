/** The list a chunker fills: each chunk takes the next occurrence number of its identity, and so a key of its own. */
module ChunkLists {
  import opened Common
  import opened StrMaps
  import opened TableSync
  import opened ChunkKeys

  /** Chunk kinds, as `cberg_chunk_kind` numbers them. */
  const KIND_WINDOW: nat := 6
  const KIND_SECTION: nat := 7
  const KIND_KEY: nat := 8

  const MAX_SECTION_LINES: nat := 200

  /** Occurrence numbers are 32 bits wide. */
  const INDEX_END: nat := 0x1_0000_0000

  datatype Item = Item(key: string, path: string, symbol: Option<string>, kind: nat, span: Span)

  /** What a chunk covers, without the key it is filed under. */
  datatype Piece = Piece(symbol: Option<string>, span: Span)

  function SymbolText(symbol: Option<string>): string {
    if symbol.Some? then symbol.value else ""
  }

  /** An empty symbol is stored as none. */
  function Kept(symbol: Option<string>): Option<string> {
    if symbol == Some("") then None else symbol
  }

  function PiecesOf(list: seq<Item>): (ps: seq<Piece>)
    ensures |ps| == |list| && forall i :: 0 <= i < |list| ==> ps[i] == Piece(list[i].symbol, list[i].span)
  {
    seq(|list|, i requires 0 <= i < |list| => Piece(list[i].symbol, list[i].span))
  }

  /** Chunk `i` has the path of its file and the key its identity and its occurrence give it. */
  ghost predicate HasKey(list: seq<Item>, path: string, idents: seq<string>, i: nat)
    requires i < |list| == |idents|
  {
    && list[i].path == path && list[i].key == KeyAt(idents, i)
    && idents[i] == IdentOf(path, list[i].kind, SymbolText(list[i].symbol))
  }

  ghost predicate HasKeys(list: seq<Item>, path: string, idents: seq<string>) {
    |list| == |idents| && forall i {:trigger HasKey(list, path, idents, i)} :: 0 <= i < |list| ==> HasKey(list, path, idents, i)
  }

  /** All of one kind. */
  ghost predicate AllFiled(list: seq<Item>, path: string, idents: seq<string>, kind: nat) {
    HasKeys(list, path, idents) && forall i :: 0 <= i < |list| ==> list[i].kind == kind
  }

  lemma {:induction false} KeyedNext(list: seq<Item>, path: string, idents: seq<string>, item: Item)
    requires HasKeys(list, path, idents) && item.path == path
    requires var ident := IdentOf(path, item.kind, SymbolText(item.symbol));
             item.key == ChunkKeys.KeyOf(ident, Count(idents, ident))
    ensures HasKeys(list + [item], path, idents + [IdentOf(path, item.kind, SymbolText(item.symbol))])
  {
    var l, s := list + [item], idents + [IdentOf(path, item.kind, SymbolText(item.symbol))];
    forall i {:trigger HasKey(l, path, s, i)} | 0 <= i < |l|
      ensures HasKey(l, path, s, i)
    {
      if i < |list| {
        assert HasKey(list, path, idents, i);
        assert s[..i] == idents[..i];
      } else {
        assert s[..i] == idents;
      }
    }
  }

  /** No two chunks of one file share a key. */
  lemma ListKeysDistinct(list: seq<Item>, path: string, idents: seq<string>, i: nat, j: nat)
    requires HasKeys(list, path, idents) && i < j < |list|
    ensures list[i].key != list[j].key
  {
    assert HasKey(list, path, idents, i) && HasKey(list, path, idents, j);
    KeysDistinct(idents, i, j);
  }

  /** Every chunk of a file can be filed: there are fewer than the numbers for them, and each identity fits. */
  ghost predicate CanFile(ps: seq<Piece>, path: string, kind: nat) {
    |ps| < INDEX_END &&
    forall i {:trigger ps[i]} :: 0 <= i < |ps| ==> FormatIdent(path, kind, SymbolText(ps[i].symbol)).Some?
  }

  /** The tracker has counted exactly the chunks so far. */
  ghost predicate Tracked(occ: StrMap, idents: seq<string>)
    reads occ, occ.Repr()
  {
    forall n {:trigger Look(n)} :: Look(n) ==> occ.Valid() && CountsAre(occ.Contents, idents)
  }

  /** `chunk_occ_next` and then `list_push`. */
  method Emit(list: seq<Item>, occ: StrMap, path: string, kind: nat, symbol: Option<string>, span: Span, ghost idents: seq<string>)
    returns (st: Status, list': seq<Item>, ghost idents': seq<string>)
    requires Tracked(occ, idents) && AllFiled(list, path, idents, kind)
    modifies occ.Repr()
    ensures Tracked(occ, idents') && fresh(occ.Repr() - old(occ.Repr()))
    ensures st == Ok ==> AllFiled(list', path, idents', kind) && PiecesOf(list') == PiecesOf(list) + [Piece(Kept(symbol), span)]
    ensures FormatIdent(path, kind, SymbolText(symbol)).None? ==> st == InvalidArgument
    ensures st == Ok || st == OutOfMemory || FormatIdent(path, kind, SymbolText(symbol)).None? || |list| >= INDEX_END
  {
    idents', list' := idents, list;
    assert Look(0);
    var index;
    st, index := OccNext(occ, path, kind, SymbolText(symbol), idents);
    if st != Ok {
      return;
    }
    ghost var ident := IdentOf(path, kind, SymbolText(symbol));
    CountBound(idents, ident);
    if index < INDEX_END {
      KeyFits(path, kind, SymbolText(symbol), index);
    }
    idents' := idents + [ident];
    var key := FormatKey(KEY_MAX, path, kind, SymbolText(symbol), index);
    if key.None? {
      st := InvalidArgument;
      return;
    }
    var ok := TryAlloc(|list| + 1);
    if !ok {
      st := OutOfMemory;
      return;
    }
    var item := Item(key.value, path, Kept(symbol), kind, span);
    KeyedNext(list, path, idents, item);
    list' := list + [item];
  }
}
