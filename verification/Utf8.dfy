/**
 Where a bounded escape may cut a text: the bytes it writes are UTF-8 (RFC 3629, section 4) exactly when it does
 not stop inside a character.
 */
module Utf8 {
  import opened Common
  import opened JsonEscape

  /** How many continuation bytes are due, and what the next one may be. */
  datatype Due = Due(need: nat, lo: nat, hi: nat)

  const NONE_DUE := Due(0, 0x80, 0xBF)

  /** Section 4 of RFC 3629, one byte at a time; None once the bytes cannot be UTF-8. */
  function Take(d: Due, c: char): Option<Due> {
    var b := c as nat;
    if d.need > 0 then if d.lo <= b <= d.hi then Some(Due(d.need - 1, 0x80, 0xBF)) else None
    else if b < 0x80 then Some(NONE_DUE)
    else if 0xC2 <= b <= 0xDF then Some(Due(1, 0x80, 0xBF))
    else if b == 0xE0 then Some(Due(2, 0xA0, 0xBF))
    else if b == 0xED then Some(Due(2, 0x80, 0x9F))
    else if 0xE1 <= b <= 0xEF then Some(Due(2, 0x80, 0xBF))
    else if b == 0xF0 then Some(Due(3, 0x90, 0xBF))
    else if 0xF1 <= b <= 0xF3 then Some(Due(3, 0x80, 0xBF))
    else if b == 0xF4 then Some(Due(3, 0x80, 0x8F))
    else None
  }

  function TakeAll(d: Due, s: string): Option<Due>
    decreases |s|
  {
    if s == "" then Some(d) else
      var next := Take(d, s[0]);
      if next.None? then None else TakeAll(next.value, s[1..])
  }

  /** Whole characters, and nothing else. */
  predicate IsUtf8(s: string) {
    var d := TakeAll(NONE_DUE, s);
    d.Some? && d.value.need == 0
  }

  predicate Continues(c: char) {
    0x80 <= c as nat <= 0xBF
  }

  /** Only continuation bytes are ever due. */
  predicate DueOk(d: Due) {
    0x80 <= d.lo && d.hi <= 0xBF
  }

  /** A front of a whole text is whole exactly when the next byte does not continue a character. */
  lemma {:induction false} FrontIsWholeIff(d: Due, s: string, n: nat)
    requires DueOk(d) && n < |s| && TakeAll(d, s).Some?
    ensures TakeAll(d, s[..n]).Some? && (TakeAll(d, s[..n]).value.need == 0 <==> !Continues(s[n]))
    decreases |s|
  {
    assert Take(d, s[0]).Some?;
    if n > 0 {
      assert s[..n][1..] == s[1..][..n - 1];
      FrontIsWholeIff(Take(d, s[0]).value, s[1..], n - 1);
    }
  }

  lemma TakeFirst(d: Due, c: char, rest: string)
    ensures TakeAll(d, [c] + rest) == if Take(d, c).None? then None else TakeAll(Take(d, c).value, rest)
  {
    HeadAndTail(c, rest);
  }

  /** ASCII bytes change nothing between characters, and are wrong within one. */
  lemma {:induction false} TakeAscii(d: Due, e: string, rest: string)
    requires DueOk(d) && (d.need == 0 ==> d == NONE_DUE) && e != "" && forall i :: 0 <= i < |e| ==> e[i] as nat < 0x80
    ensures TakeAll(d, e + rest) == if d.need == 0 then TakeAll(NONE_DUE, rest) else None
  {
    TakeFirst(d, e[0], e[1..] + rest);
    assert e + rest == [e[0]] + (e[1..] + rest);
    if d.need == 0 {
      if |e| == 1 {
        assert e[1..] + rest == rest;
      } else {
        TakeAscii(NONE_DUE, e[1..], rest);
      }
    }
  }

  /** An escape takes the place of its byte. */
  lemma TakeEscape(d: Due, c: char, rest: string)
    requires DueOk(d) && (d.need == 0 ==> d == NONE_DUE)
    ensures TakeAll(d, Esc(c) + rest) == if Take(d, c).None? then None else TakeAll(Take(d, c).value, rest)
  {
    if c as nat < 0x80 {
      EscapeIsAscii(c);
      TakeAscii(d, Esc(c), rest);
    } else {
      TakeFirst(d, c, rest);
    }
  }

  lemma EscapeIsAscii(c: char)
    requires c as nat < 0x80
    ensures forall i :: 0 <= i < |Esc(c)| ==> Esc(c)[i] as nat < 0x80
  {}

  lemma FitStep(s: string, used: nat, cap: nat)
    requires s != "" && used + |Esc(s[0])| < cap
    ensures var rest := EscapeFit(s[1..], used + |Esc(s[0])|, cap);
            EscapeFit(s, used, cap) == Esc(s[0]) + rest
    ensures var n := FitCount(s[1..], used + |Esc(s[0])|, cap);
            s[..FitCount(s, used, cap)] == [s[0]] + s[1..][..n]
  {
    OneMore(s, FitCount(s[1..], used + |Esc(s[0])|, cap));
  }

  /** One byte and its escape leave what follows them to be taken alike. */
  lemma TakeBoth(d: Due, c: char, escaped: string, plain: string)
    requires DueOk(d) && (d.need == 0 ==> d == NONE_DUE)
    requires Take(d, c).Some? ==> TakeAll(Take(d, c).value, escaped) == TakeAll(Take(d, c).value, plain)
    ensures TakeAll(d, Esc(c) + escaped) == TakeAll(d, [c] + plain)
  {
    TakeEscape(d, c, escaped);
    TakeFirst(d, c, plain);
  }

  /** The escapes that fit are taken as the bytes they stand for. */
  lemma {:induction false} TakeFit(d: Due, s: string, used: nat, cap: nat)
    requires DueOk(d) && (d.need == 0 ==> d == NONE_DUE)
    ensures TakeAll(d, EscapeFit(s, used, cap)) == TakeAll(d, s[..FitCount(s, used, cap)])
    decreases |s|
  {
    if s != "" && used + |Esc(s[0])| < cap {
      var e := |Esc(s[0])|;
      FitStep(s, used, cap);
      if Take(d, s[0]).Some? {
        TakeFit(Take(d, s[0]).value, s[1..], used + e, cap);
      }
      TakeBoth(d, s[0], EscapeFit(s[1..], used + e, cap), s[1..][..FitCount(s[1..], used + e, cap)]);
    }
  }

  /** What is written of a UTF-8 text is UTF-8 exactly when nothing is cut, or the first byte cut does not continue a character. */
  lemma EscapeIsUtf8Iff(s: string, used: nat, cap: nat)
    requires IsUtf8(s)
    ensures var n := FitCount(s, used, cap);
            IsUtf8(EscapeFit(s, used, cap)) <==> n == |s| || !Continues(s[n])
  {
    var n := FitCount(s, used, cap);
    TakeFit(NONE_DUE, s, used, cap);
    if n == |s| {
      assert s[..n] == s;
    } else {
      FrontIsWholeIff(NONE_DUE, s, n);
    }
  }

  /** A two-byte character that stops at its first byte: room for one byte and the terminator. */
  lemma CutCanSplit()
    ensures var s := [0xC3 as char, 0xA9 as char];
            IsUtf8(s) && !IsUtf8(EscapeFit(s, 0, 2))
  {
    var s := [0xC3 as char, 0xA9 as char];
    TakeFirst(NONE_DUE, s[0], [s[1]]);
    TakeFirst(Due(1, 0x80, 0xBF), s[1], []);
    assert [s[0]] + [s[1]] == s && [s[1]] + [] == [s[1]];
    EscapeIsUtf8Iff(s, 0, 2);
  }
}
