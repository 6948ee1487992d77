/** Which trees the incremental re-indexing can tell apart: those whose files have paths no key can be misread from. */
module Homes {
  import opened Common
  import opened TableSync
  import opened ChunkLists
  import opened Incremental
  import ChunkKeys

  /** The chunks of one file: what a chunker listed for its path, each with the hash of its body. */
  ghost predicate Chunked(cs: seq<Chunk>, path: string) {
    exists list: seq<Item>, idents: seq<string> :: HasKeys(list, path, idents) && SameButHash(cs, list)
  }

  ghost predicate SameButHash(cs: seq<Chunk>, list: seq<Item>) {
    |cs| == |list| &&
    forall i :: 0 <= i < |cs| ==> cs[i].key == list[i].key && cs[i].path == list[i].path
  }

  /** A chunk a chunker listed names its own file exactly when the path is separable. */
  lemma ChunkHomeIff(cs: seq<Chunk>, path: string, i: nat)
    requires Chunked(cs, path) && i < |cs|
    ensures cs[i].path == path && (ChunkHome(cs[i], ChunkKeys.HomeOf) <==> ChunkKeys.Separable(path))
  {
    var list: seq<Item>, idents: seq<string> :| HasKeys(list, path, idents) && SameButHash(cs, list);
    assert HasKey(list, path, idents, i);
    ChunkKeys.HomeOfKey(path, list[i].kind, SymbolText(list[i].symbol), ChunkKeys.Count(idents[..i], idents[i]));
  }

  lemma FileHasHome(t: Tree, p: string)
    requires p in t ==> Chunked(t[p], p) && (t[p] != [] ==> ChunkKeys.Separable(p))
    ensures AllHome(FileOf(t, p), ChunkKeys.HomeOf) && forall i :: 0 <= i < |FileOf(t, p)| ==> FileOf(t, p)[i].path == p
  {
    forall i | 0 <= i < |FileOf(t, p)|
      ensures ChunkHome(FileOf(t, p)[i], ChunkKeys.HomeOf) && FileOf(t, p)[i].path == p
    {
      ChunkHomeIff(t[p], p, i);
    }
  }

  /**
   What incremental re-indexing asks of a tree, that every key gives its file back, holds of chunked files
   exactly when every file that has chunks has a separable path.
   */
  lemma TreeHasHomesIff(t: Tree)
    requires forall p :: p in t ==> Chunked(t[p], p)
    ensures TreeHome(t, ChunkKeys.HomeOf) <==> forall p :: p in t && t[p] != [] ==> ChunkKeys.Separable(p)
  {
    if forall p :: p in t && t[p] != [] ==> ChunkKeys.Separable(p) {
      forall p {:trigger FileOf(t, p)} | true
        ensures AllHome(FileOf(t, p), ChunkKeys.HomeOf) && forall i :: 0 <= i < |FileOf(t, p)| ==> FileOf(t, p)[i].path == p
      {
        FileHasHome(t, p);
      }
    } else {
      var p :| p in t && t[p] != [] && !ChunkKeys.Separable(p);
      ChunkHomeIff(t[p], p, 0);
      assert FileOf(t, p) == t[p] && !ChunkHome(t[p][0], ChunkKeys.HomeOf);
    }
  }
}
