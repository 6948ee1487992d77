/**
 `json_escape`: what it writes is always the inside of a JSON string (RFC 8259, section 7), and reads back as
 a front of the text, all of it exactly when the buffer is large enough.
 */
module JsonEscape {
  import opened Common
  import opened JsonTheorems

  /** `%x` of a number below 16. */
  function HexDigit(d: nat): char
    requires d < 16
  {
    "0123456789abcdef"[d]
  }

  /** What one byte is written as. */
  function Esc(c: char): (e: string)
    ensures 1 <= |e| <= 6
  {
    if c == '"' || c == '\\' then ['\\', c]
    else if c == '\n' then "\\n"
    else if c == '\r' then "\\r"
    else if c == '\t' then "\\t"
    else if c < ' ' then ['\\', 'u', '0', '0', HexDigit(c as nat / 16), HexDigit(c as nat % 16)]
    else [c]
  }

  function EscapeAll(s: string): string {
    if s == "" then "" else Esc(s[0]) + EscapeAll(s[1..])
  }

  /** What fits: whole escapes, and a byte to spare for the terminator. */
  function EscapeFit(s: string, used: nat, cap: nat): string {
    if s == "" || used + |Esc(s[0])| >= cap then "" else Esc(s[0]) + EscapeFit(s[1..], used + |Esc(s[0])|, cap)
  }

  /** How many bytes of the text fit. */
  function FitCount(s: string, used: nat, cap: nat): (n: nat)
    ensures n <= |s|
  {
    if s == "" || used + |Esc(s[0])| >= cap then 0 else 1 + FitCount(s[1..], used + |Esc(s[0])|, cap)
  }

  lemma CutHere(s: string, i: nat)
    requires i < |s|
    ensures s[i] == '\0' ==> CutAtZero(s[i..]) == ""
    ensures s[i] != '\0' ==> CutAtZero(s[i..]) == [s[i]] + CutAtZero(s[i + 1..])
  {
    assert s[i..][1..] == s[i + 1..];
  }

  /** What is written and what is to come make the goal. */
  ghost predicate OnWay(goal: string, written: string, rest: string, j: nat, cap: nat) {
    forall n {:trigger Look(n)} :: Look(n) ==> goal == written + EscapeFit(rest, j, cap)
  }

  lemma OnWayStart(s: string, cap: nat)
    ensures OnWay(EscapeFit(s, 0, cap), "", s, 0, cap)
  {}

  lemma OnWayNext(goal: string, written: string, s: string, i: nat, j: nat, cap: nat)
    requires i < |s| && s[i] != '\0' && OnWay(goal, written, CutAtZero(s[i..]), j, cap)
    ensures j + |Esc(s[i])| < cap ==> OnWay(goal, written + Esc(s[i]), CutAtZero(s[i + 1..]), j + |Esc(s[i])|, cap)
    ensures j + |Esc(s[i])| >= cap ==> goal == written
  {
    assert Look(0);
    CutHere(s, i);
    HeadAndTail(s[i], CutAtZero(s[i + 1..]));
    Regroup(written, Esc(s[i]), EscapeFit(CutAtZero(s[i + 1..]), j + |Esc(s[i])|, cap));
  }

  lemma OnWayEnd(goal: string, written: string, s: string, i: nat, j: nat, cap: nat)
    requires i <= |s| && (i < |s| ==> s[i] == '\0') && OnWay(goal, written, CutAtZero(s[i..]), j, cap)
    ensures goal == written
  {
    assert Look(0);
    if i < |s| {
      CutHere(s, i);
    }
  }

  /** `json_escape`, on the bytes before the first zero. */
  method Escape(s: string, out: array<char>) returns (j: nat)
    requires out.Length > 0
    modifies out
    ensures j < out.Length && out[j] == '\0' && out[..j] == EscapeFit(CutAtZero(s), 0, out.Length)
  {
    j := 0;
    var i := 0;
    ghost var goal := EscapeFit(CutAtZero(s), 0, out.Length);
    OnWayStart(CutAtZero(s), out.Length);
    assert s[0..] == s && out[..0] == "";
    while i < |s| && s[i] != '\0'
      invariant i <= |s| && j < out.Length && OnWay(goal, out[..j], CutAtZero(s[i..]), j, out.Length)
      decreases |s| - i
    {
      var e := Esc(s[i]);
      OnWayNext(goal, out[..j], s, i, j, out.Length);
      if j + |e| >= out.Length {
        out[j] := '\0';
        return;
      }
      CopyAt(out, j, e);
      j := j + |e|;
      i := i + 1;
    }
    OnWayEnd(goal, out[..j], s, i, j, out.Length);
    out[j] := '\0';
  }

  method CopyAt(out: array<char>, j: nat, e: string)
    requires j + |e| < out.Length
    modifies out
    ensures out[..j + |e|] == old(out[..j]) + e
  {
    forall k | 0 <= k < |e| {
      out[j + k] := e[k];
    }
  }

  // ---- Reading it back ----

  function HexValue(c: char): Option<nat> {
    if '0' <= c <= '9' then Some((c - '0') as nat)
    else if 'a' <= c <= 'f' then Some((c - 'a') as nat + 10)
    else if 'A' <= c <= 'F' then Some((c - 'A') as nat + 10)
    else None
  }

  /** Four hex digits, as a code below the surrogates. */
  function HexFour(s: string): Option<char>
    requires |s| == 4
  {
    var (a, b, c, d) := (HexValue(s[0]), HexValue(s[1]), HexValue(s[2]), HexValue(s[3]));
    if a.None? || b.None? || c.None? || d.None? then None
    else
      var n := a.value * 4096 + b.value * 256 + c.value * 16 + d.value;
      if n < 0xD800 then Some(n as char) else None
  }

  /** The eight two-character escapes of section 7. */
  function Named(c: char): Option<char> {
    if c == '"' || c == '\\' || c == '/' then Some(c)
    else if c == 'b' then Some(8 as char)
    else if c == 'f' then Some(12 as char)
    else if c == 'n' then Some('\n')
    else if c == 'r' then Some('\r')
    else if c == 't' then Some('\t')
    else None
  }

  function Prepend(c: char, s: Option<string>): Option<string> {
    if s.None? then None else Some([c] + s.value)
  }

  /** The text a string's inside stands for; None if it is not the inside of a JSON string. */
  function Decode(b: string): Option<string> {
    if b == "" then Some("")
    else if b[0] == '\\' then
      if |b| >= 6 && b[1] == 'u' then
        var c := HexFour(b[2..6]);
        if c.None? then None else Prepend(c.value, Decode(b[6..]))
      else if |b| >= 2 && Named(b[1]).Some? then Prepend(Named(b[1]).value, Decode(b[2..]))
      else None
    else if b[0] == '"' || b[0] < ' ' then None
    else Prepend(b[0], Decode(b[1..]))
  }

  lemma HexDigitValue(d: nat)
    requires d < 16
    ensures HexValue(HexDigit(d)) == Some(d)
  {}

  /** One byte's escape reads back as the byte, whatever follows. */
  lemma DecodeOne(c: char, rest: string)
    ensures Decode(Esc(c) + rest) == Prepend(c, Decode(rest))
  {
    var e := Esc(c);
    TakeDrop(e, rest);
    if c == '"' || c == '\\' || c == '\n' || c == '\r' || c == '\t' {
      assert (e + rest)[2..] == rest;
    } else if c < ' ' {
      var n := c as nat;
      HexDigitValue(n / 16);
      HexDigitValue(n % 16);
      assert (e + rest)[6..] == rest;
      assert (e + rest)[2..6] == ['0', '0', HexDigit(n / 16), HexDigit(n % 16)];
      assert n / 16 * 16 + n % 16 == n;
    } else {
      assert (e + rest)[1..] == rest;
    }
  }

  /** `b` reads as `t`: a fact to carry, not to look into. */
  ghost predicate Reads(b: string, t: string) {
    forall n {:trigger Look(n)} :: Look(n) ==> Decode(b) == Some(t)
  }

  lemma ReadsMore(c: char, rest: string, text: string)
    requires Reads(rest, text)
    ensures Reads(Esc(c) + rest, [c] + text)
  {
    assert Look(0);
    DecodeOne(c, rest);
  }

  lemma OneMore(s: string, n: nat)
    requires s != "" && n < |s|
    ensures s[..n + 1] == [s[0]] + s[1..][..n]
  {}

  lemma {:induction false} FitReads(s: string, used: nat, cap: nat)
    ensures Reads(EscapeFit(s, used, cap), s[..FitCount(s, used, cap)])
  {
    if s != "" && used + |Esc(s[0])| < cap {
      var e := |Esc(s[0])|;
      var n := FitCount(s[1..], used + e, cap);
      FitReads(s[1..], used + e, cap);
      ReadsMore(s[0], EscapeFit(s[1..], used + e, cap), s[1..][..n]);
      OneMore(s, n);
    }
  }

  /** What was written is the inside of a JSON string, and reads back as the front of the text that fitted. */
  lemma EscapeReadsBack(s: string, used: nat, cap: nat)
    ensures Decode(EscapeFit(s, used, cap)) == Some(s[..FitCount(s, used, cap)])
  {
    FitReads(s, used, cap);
    assert Look(0);
  }

  /** All of the text fits exactly when its escapes and the terminator do. */
  lemma {:induction false} AllFitsIff(s: string, used: nat, cap: nat)
    requires used < cap
    ensures FitCount(s, used, cap) == |s| <==> used + |EscapeAll(s)| < cap
    ensures FitCount(s, used, cap) == |s| ==> EscapeFit(s, used, cap) == EscapeAll(s)
  {
    if s != "" && used + |Esc(s[0])| < cap {
      AllFitsIff(s[1..], used + |Esc(s[0])|, cap);
    }
  }

  /** Where the text is cut, not one more byte of it would have fitted. */
  lemma {:induction false} CutIsForced(s: string, used: nat, cap: nat)
    requires used < cap && FitCount(s, used, cap) < |s|
    ensures used + |EscapeFit(s, used, cap)| + |Esc(s[FitCount(s, used, cap)])| >= cap
  {
    if used + |Esc(s[0])| < cap {
      CutIsForced(s[1..], used + |Esc(s[0])|, cap);
    }
  }

  lemma {:induction false} FitIsShort(s: string, used: nat, cap: nat)
    requires used < cap
    ensures used + |EscapeFit(s, used, cap)| < cap
  {
    if s != "" && used + |Esc(s[0])| < cap {
      FitIsShort(s[1..], used + |Esc(s[0])|, cap);
    }
  }

  /** A strict string is one the chunker's grammar takes. */
  lemma {:induction false} DecodedIsBody(b: string)
    requires Decode(b).Some?
    ensures IsStringBody(b)
    decreases |b|
  {
    if b != "" {
      if b[0] == '\\' {
        if |b| >= 6 && b[1] == 'u' {
          HexIsPlain(b);
          DecodedIsBody(b[6..]);
          PlainFront(b[2..], 4);
        } else {
          DecodedIsBody(b[2..]);
        }
      } else {
        DecodedIsBody(b[1..]);
      }
    }
  }

  lemma HexIsPlain(b: string)
    requires |b| >= 6 && HexFour(b[2..6]).Some?
    ensures forall k :: 2 <= k < 6 ==> b[k] != '\\' && b[k] != '"' && b[k] >= ' '
  {
    assert forall k :: 2 <= k < 6 ==> b[k] == b[2..6][k - 2];
  }

  lemma {:induction false} PlainFront(b: string, n: nat)
    requires n <= |b| && IsStringBody(b[n..]) && forall k :: 0 <= k < n ==> b[k] != '\\' && b[k] != '"' && b[k] >= ' '
    ensures IsStringBody(b)
    decreases n
  {
    if n > 0 {
      assert b[1..][n - 1..] == b[n..];
      PlainFront(b[1..], n - 1);
    } else {
      assert b[0..] == b;
    }
  }
}
