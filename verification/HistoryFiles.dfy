/**
 History-file tags: how the paths in a text are found, and that the tags a marker writes are found again,
 whatever the summary around them says.
 */
module HistoryFiles {
  import opened Common

  const OPEN := "<history_file>"
  const CLOSE := "</history_file>"

  // ---- Trimming ----

  /** What `trim` removes: ECMAScript white space and line ends. */
  predicate White(c: char) {
    || c == ' ' || (9 as char <= c <= 13 as char) || c == 0xA0 as char || c == 0xFEFF as char || c == 0x1680 as char
    || (0x2000 as char <= c <= 0x200A as char) || c == 0x2028 as char || c == 0x2029 as char || c == 0x202F as char
    || c == 0x205F as char || c == 0x3000 as char
  }

  function TrimStart(s: string): (r: string)
    ensures r == "" || !White(r[0])
    ensures |r| <= |s| && s[|s| - |r|..] == r
  {
    if s == "" || !White(s[0]) then s else TrimStart(s[1..])
  }

  function TrimEnd(s: string): (r: string)
    ensures r == "" || !White(r[|r| - 1])
    ensures r <= s
  {
    if s == "" || !White(s[|s| - 1]) then s else TrimEnd(s[..|s| - 1])
  }

  function Trim(s: string): string {
    TrimEnd(TrimStart(s))
  }

  /** A path as it can be read back: trimmed, not empty, and without the character that ends a tag's text. */
  predicate Clean(f: string) {
    f != "" && '<' !in f && !White(f[0]) && !White(f[|f| - 1])
  }

  lemma TrimOfTag(s: string)
    requires '<' !in s
    ensures Trim(s) == "" || Clean(Trim(s))
  {
    var t := Trim(s);
    TrimIsSlice(s);
    if t != "" {
      TrimEnds(s);
    }
  }

  lemma TrimIsSlice(s: string)
    ensures forall c :: c in Trim(s) ==> c in s
  {
    var a := TrimStart(s);
    forall c | c in Trim(s)
      ensures c in s
    {
      var i :| 0 <= i < |Trim(s)| && Trim(s)[i] == c;
      assert a[i] == c;
      assert s[|s| - |a|..][i] == c;
    }
  }

  lemma TrimEnds(s: string)
    requires Trim(s) != ""
    ensures !White(Trim(s)[0]) && !White(Trim(s)[|Trim(s)| - 1])
  {
    assert Trim(s)[0] == TrimStart(s)[0];
  }

  lemma TrimClean(f: string)
    requires Clean(f)
    ensures Trim(f) == f
  {}

  // ---- Matching ----

  predicate At(s: string, i: nat, t: string) {
    i + |t| <= |s| && s[i..i + |t|] == t
  }

  /** The next '<', or the end. */
  function TextEnd(s: string, i: nat): (r: nat)
    requires i <= |s|
    ensures i <= r <= |s| && (r < |s| ==> s[r] == '<') && forall k :: i <= k < r ==> s[k] != '<'
    decreases |s| - i
  {
    if i == |s| || s[i] == '<' then i else TextEnd(s, i + 1)
  }

  /** The expression matches at `i`: an opening tag, text, a closing tag. */
  predicate MatchAt(s: string, i: nat) {
    At(s, i, OPEN) && TextEnd(s, i + |OPEN|) > i + |OPEN| && At(s, TextEnd(s, i + |OPEN|), CLOSE)
  }

  function MatchEnd(s: string, i: nat): (r: nat)
    requires MatchAt(s, i)
    ensures i < r <= |s|
  {
    TextEnd(s, i + |OPEN|) + |CLOSE|
  }

  function Captured(s: string, i: nat): string
    requires MatchAt(s, i)
  {
    s[i + |OPEN|..TextEnd(s, i + |OPEN|)]
  }

  /** `matchAll` from `i` on: what each match captured, leftmost first, none overlapping. */
  function Matches(s: string, i: nat): seq<string>
    requires i <= |s|
    decreases |s| - i
  {
    if i == |s| then []
    else if MatchAt(s, i) then [Captured(s, i)] + Matches(s, MatchEnd(s, i))
    else Matches(s, i + 1)
  }

  lemma AtChar(s: string, i: nat, t: string, k: nat)
    requires At(s, i, t) && k < |t|
    ensures s[i + k] == t[k]
  {
    assert s[i..i + |t|][k] == s[i + k];
  }

  /** Where a tag opens no match that began before is still going on. */
  lemma MatchStops(s: string, i: nat, p: nat)
    requires i < p && MatchAt(s, i) && At(s, p, OPEN)
    ensures MatchEnd(s, i) <= p
  {
    var e := TextEnd(s, i + |OPEN|);
    AtChar(s, p, OPEN, 0);
    AtChar(s, p, OPEN, 1);
    AtChar(s, e, CLOSE, 1);
    if i < p < i + |OPEN| {
      AtChar(s, i, OPEN, p - i);
    }
    if e < p < e + |CLOSE| {
      AtChar(s, e, CLOSE, p - e);
    }
  }

  /** So the matches from an opening tag on are matches of the whole text. */
  lemma {:induction false} MatchesReach(s: string, i: nat, p: nat)
    requires i <= p <= |s| && At(s, p, OPEN)
    ensures forall f :: f in Matches(s, p) ==> f in Matches(s, i)
    decreases |s| - i
  {
    if i < p {
      if MatchAt(s, i) {
        MatchStops(s, i, p);
        MatchesReach(s, MatchEnd(s, i), p);
      } else {
        MatchesReach(s, i + 1, p);
      }
    }
  }

  lemma {:induction false} MatchesAreText(s: string, i: nat, f: string)
    requires i <= |s| && f in Matches(s, i)
    ensures '<' !in f
    decreases |s| - i
  {
    if MatchAt(s, i) {
      if f != Captured(s, i) {
        MatchesAreText(s, MatchEnd(s, i), f);
      }
    } else {
      MatchesAreText(s, i + 1, f);
    }
  }

  lemma {:induction false} TextEndAt(s: string, i: nat, e: nat)
    requires i <= e <= |s| && (e < |s| ==> s[e] == '<') && forall k :: i <= k < e ==> s[k] != '<'
    ensures TextEnd(s, i) == e
    decreases e - i
  {
    if i < e {
      TextEndAt(s, i + 1, e);
    }
  }

  function Tag(f: string): string {
    OPEN + f + CLOSE
  }

  lemma PartAt(s: string, a: string, t: string, b: string)
    requires s == a + (t + b)
    ensures At(s, |a|, t)
  {}

  lemma TagParts(before: string, f: string, after: string)
    ensures var s := before + Tag(f) + after;
      At(s, |before|, OPEN) && At(s, |before| + |OPEN|, f) && At(s, |before| + |OPEN| + |f|, CLOSE)
  {
    var s := before + Tag(f) + after;
    assert s == before + (OPEN + (f + (CLOSE + after)));
    PartAt(s, before, OPEN, f + (CLOSE + after));
    assert s == (before + OPEN) + (f + (CLOSE + after));
    PartAt(s, before + OPEN, f, CLOSE + after);
    assert s == (before + OPEN + f) + (CLOSE + after);
    PartAt(s, before + OPEN + f, CLOSE, after);
  }

  /** A tag with text in it is matched wherever it stands, between whatever texts. */
  lemma TagIsMatched(before: string, f: string, after: string)
    requires f != "" && '<' !in f
    ensures f in Matches(before + Tag(f) + after, 0)
  {
    var s, p := before + Tag(f) + after, |before|;
    var a: nat := p + |OPEN|;
    var e: nat := a + |f|;
    TagParts(before, f, after);
    AtChar(s, e, CLOSE, 0);
    forall k | a <= k < e
      ensures s[k] != '<'
    {
      AtChar(s, a, f, k - a);
      assert f[k - a] in f;
    }
    TextEndAt(s, a, e);
    assert MatchAt(s, p) && Captured(s, p) == f;
    assert f in Matches(s, p);
    MatchesReach(s, 0, p);
  }

  // ---- Paths ----

  /** The trimmed paths of a list of captures, blank ones left out. */
  function Paths(captures: seq<string>): seq<string> {
    if captures == [] then []
    else
      var front, f := Paths(captures[..|captures| - 1]), Trim(captures[|captures| - 1]);
      if f == "" then front else front + [f]
  }

  lemma {:induction false} PathsHas(captures: seq<string>, f: string)
    requires f in captures && Trim(f) != ""
    ensures Trim(f) in Paths(captures)
  {
    var n := |captures| - 1;
    if captures[n] != f {
      assert f in captures[..n];
      PathsHas(captures[..n], f);
    }
  }

  lemma {:induction false} PathsFrom(captures: seq<string>, f: string)
    requires f in Paths(captures)
    ensures exists c :: c in captures && Trim(c) == f && f != ""
  {
    var n := |captures| - 1;
    if f in Paths(captures[..n]) {
      PathsFrom(captures[..n], f);
      var c :| c in captures[..n] && Trim(c) == f;
      assert c in captures;
    } else {
      assert captures[n] in captures;
    }
  }

  function FilesOf(text: string): seq<string> {
    Paths(Matches(text, 0))
  }

  /** A path read from a text is clean. */
  lemma FilesAreClean(text: string, f: string)
    requires f in FilesOf(text)
    ensures Clean(f)
  {
    PathsFrom(Matches(text, 0), f);
    var c :| c in Matches(text, 0) && Trim(c) == f && f != "";
    MatchesAreText(text, 0, c);
    TrimOfTag(c);
  }

  /** A tagged path is read back exactly when it is clean. */
  lemma TagIsReadIff(before: string, f: string, after: string)
    ensures Clean(f) ==> f in FilesOf(before + Tag(f) + after)
    ensures Tag(f) == "<history_file>" + f + "</history_file>"
    ensures !Clean(f) ==> forall text :: f !in FilesOf(text)
  {
    if Clean(f) {
      TagIsMatched(before, f, after);
      TrimClean(f);
      PathsHas(Matches(before + Tag(f) + after, 0), f);
    } else {
      forall text
        ensures f !in FilesOf(text)
      {
        if f in FilesOf(text) {
          FilesAreClean(text, f);
        }
      }
    }
  }

  // ---- Lists of paths ----

  function Dedupe(paths: seq<string>): seq<string> {
    if paths == [] then []
    else
      var front := Dedupe(paths[..|paths| - 1]);
      if paths[|paths| - 1] in front then front else front + [paths[|paths| - 1]]
  }

  /** The same paths, each once. */
  lemma {:induction false} DedupeKeeps(paths: seq<string>)
    ensures NoDuplicates(Dedupe(paths)) && forall f :: f in Dedupe(paths) <==> f in paths
  {
    if paths != [] {
      var n := |paths| - 1;
      DedupeKeeps(paths[..n]);
      assert paths == paths[..n] + [paths[n]];
    }
  }

  /** `dedupe`. */
  method DedupeLoop(paths: seq<string>) returns (out: seq<string>)
    ensures out == Dedupe(paths)
  {
    out := [];
    var seen: set<string> := {};
    for i := 0 to |paths|
      invariant out == Dedupe(paths[..i])
      invariant forall f :: f in seen <==> f in out
    {
      LastStep(paths, i);
      if paths[i] in seen {
        continue;
      }
      seen := seen + {paths[i]};
      out := out + [paths[i]];
    }
    assert paths[..|paths|] == paths;
  }

  function TagsText(files: seq<string>): string {
    if files == [] then ""
    else
      var n := |files| - 1;
      TagsText(files[..n]) + (if n > 0 then "\n" else "") + Tag(files[n])
  }

  /** Each path's tag stands in the list's text. */
  lemma {:induction false} TagStands(files: seq<string>, f: string) returns (before: string, after: string)
    requires f in files
    ensures TagsText(files) == before + Tag(f) + after
  {
    var n := |files| - 1;
    var front := TagsText(files[..n]) + if n > 0 then "\n" else "";
    if files[n] == f {
      before, after := front, "";
      NoTail(before + Tag(f));
    } else {
      assert f in files[..n];
      before, after := TagStands(files[..n], f);
      var more := (if n > 0 then "\n" else "") + Tag(files[n]);
      Regroup(TagsText(files[..n]), if n > 0 then "\n" else "", Tag(files[n]));
      Regroup(before + Tag(f), after, more);
      after := after + more;
    }
  }
}
