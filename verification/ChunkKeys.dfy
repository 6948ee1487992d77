/**
 Chunk keys: `path::kind::symbol#n`, where `n` counts the earlier chunks of the file with the
 same path, kind and symbol. Within a file no two keys agree; between files that takes a path
 without the separator.
 */
module ChunkKeys {
  import opened Common
  import opened StrMaps

  const IDENT_MAX: nat := 1024

  const KEY_MAX: nat := IDENT_MAX + 32

  function Digit(d: nat): char
    requires d < 10
  {
    "0123456789"[d]
  }

  /** `%u` and `%d` of a number that is not negative. */
  function Dec(n: nat): string {
    if n < 10 then [Digit(n)] else Dec(n / 10) + [Digit(n % 10)]
  }

  function ValueOf(c: char): nat {
    if '0' <= c <= '9' then (c - '0') as nat else 0
  }

  function Undec(s: string): nat {
    if s == "" then 0 else Undec(s[..|s| - 1]) * 10 + ValueOf(s[|s| - 1])
  }

  lemma DigitValue(d: nat)
    requires d < 10
    ensures ValueOf(Digit(d)) == d
  {}

  lemma UndecSnoc(s: string, c: char)
    ensures Undec(s + [c]) == Undec(s) * 10 + ValueOf(c)
  {
    assert (s + [c])[..|s|] == s;
  }

  lemma {:induction false} UndecDec(n: nat)
    ensures Undec(Dec(n)) == n && Dec(n) != ""
  {
    var q, r := n / 10, n % 10;
    assert n == q * 10 + r;
    DigitValue(r);
    if n < 10 {
      UndecSnoc("", Digit(n));
      assert "" + [Digit(n)] == [Digit(n)];
    } else {
      UndecDec(q);
      UndecSnoc(Dec(q), Digit(r));
    }
  }

  predicate AllDigits(s: string) {
    forall i :: 0 <= i < |s| ==> '0' <= s[i] <= '9'
  }

  lemma {:induction false} DecDigits(n: nat)
    ensures AllDigits(Dec(n))
  {
    if n >= 10 {
      DecDigits(n / 10);
    }
  }

  /** The text both formats print, before any buffer bound. */
  function IdentOf(path: string, kind: nat, symbol: string): string {
    path + "::" + Dec(kind) + "::" + symbol
  }

  function KeyOf(ident: string, index: nat): string {
    ident + "#" + Dec(index)
  }

  /** `chunk_format_ident`: nothing is ever truncated, an identity that does not fit is refused. */
  function FormatIdent(path: string, kind: nat, symbol: string): Option<string> {
    var s := IdentOf(path, kind, symbol);
    if |s| >= IDENT_MAX then None else Some(s)
  }

  /** `chunk_ident_fits`. */
  function IdentFits(path: string, kind: nat, symLen: nat): bool {
    |path + "::" + Dec(kind) + "::"| + symLen < IDENT_MAX
  }

  /** `chunk_format_key`. */
  function FormatKey(cap: nat, path: string, kind: nat, symbol: string, index: nat): Option<string> {
    match FormatIdent(path, kind, symbol)
    case None => None
    case Some(ident) =>
      var s := KeyOf(ident, index);
      if |s| >= cap then None else Some(s)
  }

  /** The cheap test and the real one agree. */
  lemma IdentFitsIff(path: string, kind: nat, symbol: string)
    ensures IdentFits(path, kind, |symbol|) <==> FormatIdent(path, kind, symbol).Some?
    ensures FormatIdent(path, kind, symbol).Some? <==> |path| + 2 + |Dec(kind)| + 2 + |symbol| < 1024
  {
    assert IdentOf(path, kind, symbol) == (path + "::" + Dec(kind) + "::") + symbol;
  }

  lemma {:induction false} DecLength(n: nat, digits: nat)
    requires digits > 0 && n < Pow10(digits)
    ensures |Dec(n)| <= digits
  {
    assert Pow10(1) == 10 * Pow10(0);
    if n >= 10 {
      DecLength(n / 10, digits - 1);
    }
  }

  function Pow10(d: nat): nat {
    if d == 0 then 1 else 10 * Pow10(d - 1)
  }

  /** A key whose identity fits always fits the key buffer, for every 32-bit occurrence number. */
  lemma KeyFits(path: string, kind: nat, symbol: string, index: nat)
    requires index < 0x1_0000_0000
    ensures FormatKey(KEY_MAX, path, kind, symbol, index).Some? <==> FormatIdent(path, kind, symbol).Some?
  {
    assert Pow10(5) == 100000;
    assert Pow10(10) == 100000 * Pow10(5);
    DecLength(index, 10);
  }

  // ---- Keys determine their parts ----

  lemma SplitAtHash(a: string, b: string, x: string, y: string)
    requires AllDigits(x) && AllDigits(y) && a + "#" + x == b + "#" + y
    ensures a == b && x == y
  {
    assert (b + "#" + y)[|b|] == '#' && (a + "#" + x)[|a|] == '#';
    HashAt(a, x, |b|);
    HashAt(b, y, |a|);
    assert (a + "#" + x)[..|a|] == a && (b + "#" + y)[..|b|] == b;
    assert (a + "#" + x)[|a| + 1..] == x && (b + "#" + y)[|b| + 1..] == y;
  }

  /** After the mark there are only digits. */
  lemma HashAt(a: string, x: string, i: nat)
    requires AllDigits(x) && i < |a + "#" + x| && (a + "#" + x)[i] == '#'
    ensures i <= |a|
  {}

  /** A key reads: path, "::", the kind in decimal, "::", symbol, "#", the occurrence number in decimal. */
  lemma KeyReads(path: string, kind: nat, symbol: string, index: nat) returns (k: string, i: string)
    ensures KeyOf(IdentOf(path, kind, symbol), index) == path + "::" + k + "::" + symbol + "#" + i
    ensures AllDigits(k) && Undec(k) == kind && AllDigits(i) && Undec(i) == index
  {
    k, i := Dec(kind), Dec(index);
    UndecDec(kind);
    UndecDec(index);
    DecDigits(kind);
    DecDigits(index);
  }

  /** One key, one identity and one occurrence number. */
  lemma KeyIsInjective(ident: string, index: nat, ident': string, index': nat)
    requires KeyOf(ident, index) == KeyOf(ident', index')
    ensures ident == ident' && index == index'
  {
    DecDigits(index);
    DecDigits(index');
    SplitAtHash(ident, ident', Dec(index), Dec(index'));
    UndecDec(index);
    UndecDec(index');
  }

  // ---- Occurrence numbers ----

  /** How often an identity occurs in a list. */
  function Count(idents: seq<string>, ident: string): nat {
    if idents == [] then 0
    else Count(idents[..|idents| - 1], ident) + if idents[|idents| - 1] == ident then 1 else 0
  }

  /** The key of the `i`th chunk of a file. */
  function KeyAt(idents: seq<string>, i: nat): string
    requires i < |idents|
  {
    KeyOf(idents[i], Count(idents[..i], idents[i]))
  }

  lemma {:induction false} CountGrows(idents: seq<string>, i: nat, j: nat, ident: string)
    requires i <= j <= |idents|
    ensures Count(idents[..i], ident) <= Count(idents[..j], ident)
    ensures i < j && idents[i] == ident ==> Count(idents[..i], ident) < Count(idents[..j], ident)
  {
    if i < j {
      assert idents[..j][..j - 1] == idents[..j - 1];
      CountGrows(idents, i, j - 1, ident);
    }
  }

  /** Whatever a file's symbols, no two of its chunks get one key. */
  lemma KeysDistinct(idents: seq<string>, i: nat, j: nat)
    requires i < j < |idents|
    ensures KeyAt(idents, i) != KeyAt(idents, j)
  {
    if KeyAt(idents, i) == KeyAt(idents, j) {
      KeyIsInjective(idents[i], Count(idents[..i], idents[i]), idents[j], Count(idents[..j], idents[j]));
      CountGrows(idents, i, j, idents[i]);
    }
  }

  lemma {:induction false} CountBound(idents: seq<string>, ident: string)
    ensures Count(idents, ident) <= |idents|
  {
    if idents != [] {
      CountBound(idents[..|idents| - 1], ident);
    }
  }

  /** The tracker's counters after a list of identities. */
  ghost predicate CountsAre(m: map<string, nat>, idents: seq<string>) {
    forall s {:trigger CountIs(m, idents, s)} :: CountIs(m, idents, s)
  }

  ghost predicate CountIs(m: map<string, nat>, idents: seq<string>, s: string) {
    if s in m then m[s] == Count(idents, s) && m[s] > 0 else Count(idents, s) == 0
  }

  lemma CountNext(m: map<string, nat>, idents: seq<string>, ident: string)
    requires CountsAre(m, idents)
    ensures CountsAre(m[ident := Count(idents, ident) + 1], idents + [ident])
  {
    var m', l := m[ident := Count(idents, ident) + 1], idents + [ident];
    assert l[..|idents|] == idents;
    forall s {:trigger CountIs(m', l, s)} | true
      ensures CountIs(m', l, s)
    {
      assert CountIs(m, idents, s);
    }
  }

  /** `chunk_occ_next`: the number of earlier chunks with this identity. */
  method OccNext(tracker: StrMap, path: string, kind: nat, symbol: string, ghost idents: seq<string>) returns (st: Status, index: nat)
    requires tracker.Valid() && CountsAre(tracker.Contents, idents)
    modifies tracker.Repr()
    ensures tracker.Valid() && fresh(tracker.Repr() - old(tracker.Repr()))
    ensures st == Ok || st == OutOfMemory || st == InvalidArgument
    ensures st == InvalidArgument <==> FormatIdent(path, kind, symbol).None?
    ensures st != Ok ==> tracker.Contents == old(tracker.Contents)
    ensures st == Ok ==>
              var ident := IdentOf(path, kind, symbol);
              && index == Count(idents, ident)
              && CountsAre(tracker.Contents, idents + [ident])
  {
    var ident := FormatIdent(path, kind, symbol);
    if ident.None? {
      return InvalidArgument, 0;
    }
    assert CountIs(tracker.Contents, idents, ident.value);
    CountNext(tracker.Contents, idents, ident.value);
    var count := tracker.Get(ident.value);
    if count.Some? {
      index := count.value;
      st := tracker.Set(ident.value, count.value + 1);
      return;
    }
    index := 0;
    st := tracker.Set(ident.value, 1);
  }

  // ---- Which file a key belongs to ----

  predicate SeparatorAt(s: string, i: nat) {
    i + 2 <= |s| && s[i] == ':' && s[i + 1] == ':'
  }

  /** Where the first "::" from `i` on is, or the end. */
  function FirstSeparator(s: string, i: nat): (r: nat)
    requires i <= |s|
    ensures i <= r <= |s| && (r < |s| ==> SeparatorAt(s, r))
    ensures forall j :: i <= j < r ==> !SeparatorAt(s, j)
    decreases |s| - i
  {
    if i == |s| || SeparatorAt(s, i) then i else FirstSeparator(s, i + 1)
  }

  /** The path a key names, reading up to the first separator. */
  function HomeOf(key: string): string {
    key[..FirstSeparator(key, 0)]
  }

  /** A path that no separator can be read into: it contains none and does not end half way into one. */
  predicate Separable(path: string) {
    && (forall i :: 0 <= i < |path| ==> !SeparatorAt(path, i))
    && (path == "" || path[|path| - 1] != ':')
  }

  /** A key gives its path back exactly when the path is separable, so keys of such files never meet. */
  lemma HomeOfKey(path: string, kind: nat, symbol: string, index: nat)
    ensures HomeOf(KeyOf(IdentOf(path, kind, symbol), index)) == path <==> Separable(path)
  {
    var rest := Dec(kind) + "::" + symbol + "#" + Dec(index);
    var key := KeyOf(IdentOf(path, kind, symbol), index);
    assert key == path + "::" + rest;
    var f := FirstSeparator(key, 0);
    assert SeparatorAt(key, |path|);
    assert f <= |path|;
    forall i | 0 <= i < |path|
      ensures SeparatorAt(key, i) <==> SeparatorAt(path, i) || (i == |path| - 1 && path[i] == ':')
    {
      assert key[i] == path[i] && key[i + 1] == if i + 1 < |path| then path[i + 1] else ':';
    }
    if !Separable(path) && path[|path| - 1] != ':' {
      var i :| 0 <= i < |path| && SeparatorAt(path, i);
      assert SeparatorAt(key, i);
    }
    assert |key[..f]| == f;
    assert key[..|path|] == path;
  }

  /** Two files, one key: a separator in a path can pass for the one after it. */
  lemma KeysCanCollide(kind: nat, symbol: string, index: nat)
    ensures var (p, q) := ("a", "a::" + Dec(kind) + "::b");
            p != q && KeyOf(IdentOf(p, kind, "b::" + Dec(kind) + "::" + symbol), index) == KeyOf(IdentOf(q, kind, symbol), index)
  {
    assert IdentOf("a", kind, "b::" + Dec(kind) + "::" + symbol) == IdentOf("a::" + Dec(kind) + "::b", kind, symbol);
  }
}
