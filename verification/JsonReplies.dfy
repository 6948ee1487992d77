/**
 List replies over the socket. The reply is built in a fixed buffer: an item that does not fit is rolled back
 whole, and the space kept for the trailer always suffices. Whatever is sent is one line of well-formed JSON.
 */
module JsonReplies {
  import opened Common
  import opened ChunkKeys
  import opened JsonScan
  import opened JsonTheorems
  import opened JsonEscape

  const TAIL_RESERVE: nat := 64

  // ---- Objects as the formats print them ----

  datatype Field = Field(key: string, value: Value)

  function FieldText(f: Field): string {
    "\"" + (f.key + ("\":" + ValueText(f.value)))
  }

  function FieldsText(fs: seq<Field>): string {
    if fs == [] then "" else if |fs| == 1 then FieldText(fs[0]) else FieldText(fs[0]) + ("," + FieldsText(fs[1..]))
  }

  function ObjectText(fs: seq<Field>): string {
    "{" + (FieldsText(fs) + "}")
  }

  function ItemsJoined(vs: seq<Value>): string {
    if vs == [] then "" else if |vs| == 1 then ValueText(vs[0]) else ValueText(vs[0]) + ("," + ItemsJoined(vs[1..]))
  }

  // ---- The same objects in the grammar ----

  function MemsOf(fs: seq<Field>): Mems
    requires fs != []
  {
    if |fs| == 1 then LastMem("", fs[0].key, "", "", fs[0].value, "")
    else MoreMems("", fs[0].key, "", "", fs[0].value, "", MemsOf(fs[1..]))
  }

  function ItemsOf(vs: seq<Value>): Items
    requires vs != []
  {
    if |vs| == 1 then LastItem("", vs[0], "") else MoreItems("", vs[0], "", ItemsOf(vs[1..]))
  }

  function Object(fs: seq<Field>): Value {
    if fs == [] then EmptyObj("") else Obj(MemsOf(fs))
  }

  function Array(vs: seq<Value>): Value {
    if vs == [] then EmptyArr("") else Arr(ItemsOf(vs))
  }

  lemma KeyIs(key: string)
    ensures KeyText(key, "", "") == "\"" + (key + "\":")
  {
    NoTail(":");
    NoTail("\":");
  }

  lemma PlainMember(f: Field)
    ensures "" + (KeyText(f.key, "", "") + (ValueText(f.value) + "")) == FieldText(f)
  {
    KeyIs(f.key);
    NoTail(ValueText(f.value));
    Regroup("\"", f.key + "\":", ValueText(f.value));
    Regroup(f.key, "\":", ValueText(f.value));
    NoTail(FieldText(f));
  }

  lemma Plain(k: string, v: string, more: string)
    ensures "" + (k + (v + ("" + more))) == (k + v) + more
  {}

  lemma MemberThen(f: Field, more: string)
    ensures "" + (KeyText(f.key, "", "") + (ValueText(f.value) + ("" + more))) == FieldText(f) + more
  {
    Plain(KeyText(f.key, "", ""), ValueText(f.value), more);
    PlainMember(f);
    NoTail(KeyText(f.key, "", "") + ValueText(f.value));
    NoTail(ValueText(f.value));
  }

  lemma {:induction false} FieldsAreMems(fs: seq<Field>)
    requires fs != []
    ensures MemsText(MemsOf(fs)) == FieldsText(fs)
  {
    if |fs| == 1 {
      PlainMember(fs[0]);
    } else {
      FieldsAreMems(fs[1..]);
      MemberThen(fs[0], "," + FieldsText(fs[1..]));
    }
  }

  lemma ObjectIsText(fs: seq<Field>)
    ensures ValueText(Object(fs)) == ObjectText(fs)
  {
    if fs != [] {
      FieldsAreMems(fs);
    }
  }

  lemma {:induction false} ItemsAreJoined(vs: seq<Value>)
    requires vs != []
    ensures ItemsText(ItemsOf(vs)) == ItemsJoined(vs)
  {
    NoTail(ValueText(vs[0]));
    if |vs| > 1 {
      ItemsAreJoined(vs[1..]);
      NoTail("," + ItemsJoined(vs[1..]));
      NoTail(ValueText(vs[0]) + ("," + ItemsJoined(vs[1..])));
    }
  }

  lemma ArrayIsText(vs: seq<Value>)
    ensures ValueText(Array(vs)) == "[" + (ItemsJoined(vs) + "]")
  {
    if vs != [] {
      ItemsAreJoined(vs);
    }
  }

  lemma {:induction false} JoinedNext(vs: seq<Value>, v: Value)
    ensures ItemsJoined(vs + [v]) == if vs == [] then ValueText(v) else ItemsJoined(vs) + ("," + ValueText(v))
  {
    if |vs| > 0 {
      assert (vs + [v])[1..] == vs[1..] + [v] && (vs + [v])[0] == vs[0];
      JoinedNext(vs[1..], v);
      if |vs| > 1 {
        Regroup(ValueText(vs[0]), "," + ItemsJoined(vs[1..]), "," + ValueText(v));
        Regroup(",", ItemsJoined(vs[1..]), "," + ValueText(v));
      }
    }
  }

  lemma {:induction false} FieldsNext(fs: seq<Field>, f: Field)
    ensures FieldsText(fs + [f]) == if fs == [] then FieldText(f) else FieldsText(fs) + ("," + FieldText(f))
  {
    if |fs| > 0 {
      assert (fs + [f])[1..] == fs[1..] + [f] && (fs + [f])[0] == fs[0];
      FieldsNext(fs[1..], f);
      if |fs| > 1 {
        Regroup(FieldText(fs[0]), "," + FieldsText(fs[1..]), "," + FieldText(f));
        Regroup(",", FieldsText(fs[1..]), "," + FieldText(f));
      }
    }
  }

  // ---- Well-formed ----

  /** Sections 6 and 3 of RFC 8259, without exponents: an optional minus, digits with no leading zero, an optional fraction. */
  predicate IsNumber(t: string) {
    t != "" && if t[0] == '-' then IsUnsigned(t[1..]) else IsUnsigned(t)
  }

  predicate IsUnsigned(t: string) {
    exists n: nat :: n <= |t| && IsWhole(t[..n]) && (n == |t| || (t[n] == '.' && n + 1 < |t| && AllDigits(t[n + 1..])))
  }

  predicate IsWhole(t: string) {
    t != "" && AllDigits(t) && (|t| > 1 ==> t[0] != '0')
  }

  /** A value of RFC 8259 with strings and numbers taken strictly, and no whitespace between its parts. */
  predicate WellFormed(v: Value) {
    match v
    case Lit(t) => t == "true" || t == "false" || t == "null" || IsNumber(t)
    case Str(b) => Decode(b).Some?
    case EmptyArr(ws) => ws == ""
    case Arr(items) => ItemsFine(items)
    case EmptyObj(ws) => ws == ""
    case Obj(mems) => MemsFine(mems)
  }

  predicate ItemsFine(it: Items) {
    it.before == it.after == "" && WellFormed(it.value) && (it.MoreItems? ==> ItemsFine(it.rest))
  }

  predicate MemsFine(m: Mems) {
    && m.before == m.afterKey == m.beforeValue == m.after == "" && Decode(m.key).Some? && WellFormed(m.value)
    && (m.MoreMems? ==> MemsFine(m.rest))
  }

  /** A well-formed member: a fact to carry, not to look into. */
  ghost predicate FieldFine(f: Field) {
    forall n {:trigger Look(n)} :: Look(n) ==> Decode(f.key).Some? && WellFormed(f.value)
  }

  ghost predicate FieldsFine(fs: seq<Field>) {
    forall i :: 0 <= i < |fs| ==> FieldFine(fs[i])
  }

  lemma {:induction false} ObjectIsFine(fs: seq<Field>)
    requires FieldsFine(fs)
    ensures WellFormed(Object(fs)) && (fs != [] ==> MemsFine(MemsOf(fs)))
  {
    assert Look(0);
    if |fs| > 1 {
      ObjectIsFine(fs[1..]);
    }
  }

  lemma {:induction false} ArrayIsFine(vs: seq<Value>)
    requires forall i :: 0 <= i < |vs| ==> WellFormed(vs[i])
    ensures WellFormed(Array(vs)) && (vs != [] ==> ItemsFine(ItemsOf(vs)))
  {
    if |vs| > 1 {
      ArrayIsFine(vs[1..]);
    }
  }

  lemma {:induction false} DecIsWhole(n: nat)
    ensures IsWhole(Dec(n)) && (n > 0 ==> Dec(n)[0] != '0')
  {
    DecDigits(n);
    if n >= 10 {
      DecIsWhole(n / 10);
    }
  }

  lemma DecIsNumber(n: nat)
    ensures IsNumber(Dec(n))
  {
    DecIsWhole(n);
    assert Dec(n)[..|Dec(n)|] == Dec(n);
  }

  // ---- One line ----

  lemma {:induction false} BodyHasNoBreak(b: string)
    requires IsStringBody(b)
    ensures '\n' !in b
  {
    if b != "" {
      BodyHasNoBreak(if b[0] == '\\' then b[2..] else b[1..]);
    }
  }

  lemma TextHasNoBreak(b: string)
    requires Decode(b).Some?
    ensures '\n' !in b
  {
    DecodedIsBody(b);
    BodyHasNoBreak(b);
  }

  lemma NumberHasNoBreak(t: string)
    requires IsNumber(t)
    ensures '\n' !in t
  {
    var u := if t[0] == '-' then t[1..] else t;
    var n: nat :| n <= |u| && IsWhole(u[..n]) && (n == |u| || (u[n] == '.' && n + 1 < |u| && AllDigits(u[n + 1..])));
    forall i | 0 <= i < |u|
      ensures u[i] != '\n'
    {
      assert i < n ==> u[..n][i] == u[i];
      assert i > n ==> u[n + 1..][i - n - 1] == u[i];
    }
  }

  /** A well-formed value is printed on one line, so a line break ends a reply and nothing else does. */
  lemma {:induction false} ValueHasNoBreak(v: Value)
    requires WellFormed(v)
    ensures '\n' !in ValueText(v)
  {
    match v
    case Lit(t) =>
      if IsNumber(t) {
        NumberHasNoBreak(t);
      }
    case Str(b) => TextHasNoBreak(b);
    case EmptyArr(_) =>
    case Arr(items) => ItemsHaveNoBreak(items);
    case EmptyObj(_) =>
    case Obj(mems) => MemsHaveNoBreak(mems);
  }

  lemma {:induction false} ItemsHaveNoBreak(it: Items)
    requires ItemsFine(it)
    ensures '\n' !in ItemsText(it)
  {
    ValueHasNoBreak(it.value);
    if it.MoreItems? {
      ItemsHaveNoBreak(it.rest);
    }
  }

  lemma {:induction false} MemsHaveNoBreak(m: Mems)
    requires MemsFine(m)
    ensures '\n' !in MemsText(m)
  {
    TextHasNoBreak(m.key);
    ValueHasNoBreak(m.value);
    KeyIs(m.key);
    if m.MoreMems? {
      MemsHaveNoBreak(m.rest);
    }
  }

  // ---- Appending ----

  /** `json_appendf`: all of the text or none of it; what stands before `off` never changes. */
  method Append(resp: array<char>, cap: nat, off: nat, text: string) returns (ok: bool, off': nat)
    requires cap <= resp.Length
    requires off <= cap
    modifies resp
    ensures ok <==> off + |text| < cap
    ensures off' == (if ok then off + |text| else off) && off' <= cap
    ensures resp[..off'] == old(resp[..off]) + if ok then text else ""
    ensures resp[cap..] == old(resp[cap..])
  {
    ok, off' := false, off;
    NoTail(resp[..off]);
    if off >= cap {
      return;
    }
    ghost var before := resp[..off];
    var room: nat := cap - off;
    forall k | 0 <= k < |text| && k < room - 1 {
      resp[off + k] := text[k];
    }
    if |text| >= room {
      resp[off] := '\0';
      assert resp[..off] == before;
      return;
    }
    ok, off' := true, off + |text|;
    resp[off'] := '\0';
    assert resp[..off'] == before + text;
  }
}
