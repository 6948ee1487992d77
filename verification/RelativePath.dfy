/**
 Resolving a relative import: `relative_path` edits one buffer in place, and means a stack of path
 components; `cberg_graph_relative_file` then picks a file, or none where the choice is ambiguous.
 */
module RelativePath {
  import opened Common

  /** The size of both buffers. */
  const CAPACITY: nat := 4096

  predicate Separator(c: char) {
    c == '/' || c == '\\'
  }

  // ---- The parts of a path, as `strtok_r` takes them ----

  function SkipSeparators(s: string, i: nat): (r: nat)
    requires i <= |s|
    ensures i <= r <= |s| && (r < |s| ==> !Separator(s[r]))
    decreases |s| - i
  {
    if i < |s| && Separator(s[i]) then SkipSeparators(s, i + 1) else i
  }

  function PartEnd(s: string, i: nat): (r: nat)
    requires i <= |s|
    ensures i <= r <= |s| && (i < |s| && !Separator(s[i]) ==> i < r) && forall k :: i <= k < r ==> !Separator(s[k])
    ensures r < |s| ==> Separator(s[r])
    decreases |s| - i
  {
    if i < |s| && !Separator(s[i]) then PartEnd(s, i + 1) else i
  }

  function Parts(s: string, i: nat): seq<string>
    requires i <= |s|
    decreases |s| - i
  {
    var a := SkipSeparators(s, i);
    if a == |s| then [] else [s[a..PartEnd(s, a)]] + Parts(s, PartEnd(s, a))
  }

  /** `strtok_r`: the next part and where it ends. */
  method NextPart(s: string, start: nat) returns (found: bool, a: nat, e: nat)
    requires start <= |s|
    ensures start <= a <= e <= |s| && a == SkipSeparators(s, start) && (found <==> a < |s|) && (found ==> a < e && e == PartEnd(s, a))
  {
    a := start;
    while a < |s| && Separator(s[a])
      invariant start <= a <= |s| && SkipSeparators(s, a) == SkipSeparators(s, start)
    {
      a := a + 1;
    }
    e := a;
    found := a < |s|;
    while e < |s| && !Separator(s[e])
      invariant a <= e <= |s| && PartEnd(s, e) == PartEnd(s, a) && (e > a ==> found)
    {
      e := e + 1;
    }
  }

  // ---- The component stack ----

  /** A component that names something: not empty, not "." or "..", and without a separator. */
  predicate Name(p: string) {
    p != "" && p != "." && p != ".." && forall k :: 0 <= k < |p| ==> !Separator(p[k])
  }

  predicate Names(stack: seq<string>) {
    forall k :: 0 <= k < |stack| ==> Name(stack[k])
  }

  /** What the buffer holds for a stack. */
  function Join(stack: seq<string>): string {
    if stack == [] then ""
    else
      var (front, last) := (stack[..|stack| - 1], stack[|stack| - 1]);
      if front == [] then last else Join(front) + "/" + last
  }

  /** One part: skipped, one level up, or one level down. None: above the root, or out of room. */
  function Enter(stack: seq<string>, part: string, capacity: nat): Option<seq<string>> {
    if part == "." then Some(stack)
    else if part == ".." then if stack == [] then None else Some(stack[..|stack| - 1])
    else if |Join(stack)| + (if stack == [] then 0 else 1) + |part| >= capacity then None
    else Some(stack + [part])
  }

  function EnterAll(stack: seq<string>, parts: seq<string>, capacity: nat): Option<seq<string>>
    decreases |parts|
  {
    if parts == [] then Some(stack)
    else
      var next := Enter(stack, parts[0], capacity);
      if next.None? then None else EnterAll(next.value, parts[1..], capacity)
  }

  lemma {:induction false} JoinIsEmptyIff(stack: seq<string>)
    requires Names(stack)
    ensures Join(stack) == "" <==> stack == []
  {
    if stack != [] {
      assert Name(stack[|stack| - 1]);
    }
  }

  lemma JoinPush(stack: seq<string>, part: string)
    ensures Join(stack + [part]) == if stack == [] then part else Join(stack) + "/" + part
  {
    assert (stack + [part])[..|stack|] == stack;
  }

  /** The parts of a text hold no separator and are not empty. */
  lemma {:induction false} PartsAreClean(s: string, i: nat, k: nat)
    requires i <= |s| && k < |Parts(s, i)|
    ensures Parts(s, i)[k] != "" && forall j :: 0 <= j < |Parts(s, i)[k]| ==> !Separator(Parts(s, i)[k][j])
    ensures '/' !in Parts(s, i)[k] && '\\' !in Parts(s, i)[k]
    decreases |s| - i
  {
    var a := SkipSeparators(s, i);
    var e := PartEnd(s, a);
    if k > 0 {
      PartsAreClean(s, e, k - 1);
    }
  }

  /** The text without its slashes, of either kind. */
  function Unslashed(s: string, i: nat): string
    requires i <= |s|
    decreases |s| - i
  {
    if i == |s| then "" else if s[i] == '/' || s[i] == '\\' then Unslashed(s, i + 1) else [s[i]] + Unslashed(s, i + 1)
  }

  function Glued(parts: seq<string>): string {
    if parts == [] then "" else parts[0] + Glued(parts[1..])
  }

  lemma {:induction false} UnslashedSkips(s: string, i: nat)
    requires i <= |s|
    ensures Unslashed(s, i) == Unslashed(s, SkipSeparators(s, i))
    decreases |s| - i
  {
    if i < |s| && Separator(s[i]) {
      UnslashedSkips(s, i + 1);
    }
  }

  lemma {:induction false} UnslashedTakes(s: string, i: nat)
    requires i <= |s|
    ensures Unslashed(s, i) == s[i..PartEnd(s, i)] + Unslashed(s, PartEnd(s, i))
    decreases |s| - i
  {
    var e := PartEnd(s, i);
    if i < |s| && !Separator(s[i]) {
      UnslashedTakes(s, i + 1);
      assert s[i..e] == [s[i]] + s[i + 1..e];
      Regroup([s[i]], s[i + 1..e], Unslashed(s, e));
    } else {
      NoTail(Unslashed(s, i));
    }
  }

  /** Splitting loses the slashes and nothing else. */
  lemma {:induction false} PartsKeepText(s: string, i: nat)
    requires i <= |s|
    ensures Glued(Parts(s, i)) == Unslashed(s, i)
    decreases |s| - i
  {
    var a := SkipSeparators(s, i);
    UnslashedSkips(s, i);
    if a < |s| {
      UnslashedTakes(s, a);
      PartsKeepText(s, PartEnd(s, a));
    }
  }

  // ---- The buffer ----

  /** The loop that takes the last component off: back to the slash before it, or to the start. */
  method PopComponent(out: array<char>, used: nat, ghost stack: seq<string>) returns (used': nat)
    requires 0 < used <= out.Length && Names(stack) && stack != [] && out[..used] == Join(stack)
    ensures used' <= used && out[..used'] == Join(stack[..|stack| - 1])
  {
    ghost var front, last := stack[..|stack| - 1], stack[|stack| - 1];
    assert Name(last);
    ghost var n: nat := used - |last|;
    assert out[..used][n..] == last;
    assert forall k :: n <= k < used ==> out[k] == last[k - n];
    assert front != [] ==> n > 0 && out[..used][n - 1] == '/';
    used' := used;
    while used' > 0 && out[used' - 1] != '/'
      invariant n <= used' <= used
    {
      used' := used' - 1;
    }
    if used' > 0 {
      used' := used' - 1;
      assert out[..used][..used'] == out[..used'];
    }
  }

  /** Writing one more component. */
  method PushComponent(out: array<char>, used: nat, part: string, ghost stack: seq<string>) returns (used': nat)
    requires used + (if used == 0 then 0 else 1) + |part| < out.Length && Names(stack) && out[..used] == Join(stack)
    modifies out
    ensures used' == used + (if used == 0 then 0 else 1) + |part| && out[..used'] == Join(stack + [part])
  {
    JoinIsEmptyIff(stack);
    JoinPush(stack, part);
    ghost var text := out[..used];
    used' := used;
    if used != 0 {
      out[used'] := '/';
      used' := used' + 1;
      assert out[..used'] == text + "/";
    }
    ghost var front := out[..used'];
    forall k | 0 <= k < |part| {
      out[used' + k] := part[k];
    }
    used' := used' + |part|;
    assert out[..used'] == front + part;
  }

  /** One round of the loop: the buffer moves as the stack does. */
  method EnterPart(out: array<char>, used: nat, part: string, ghost stack: seq<string>) returns (ok: bool, used': nat, ghost stack': seq<string>)
    requires used < out.Length && Names(stack) && out[..used] == Join(stack)
    requires part != "" && forall k :: 0 <= k < |part| ==> !Separator(part[k])
    modifies out
    ensures ok <==> Enter(stack, part, out.Length).Some?
    ensures ok ==> stack' == Enter(stack, part, out.Length).value && Names(stack') && used' < out.Length && out[..used'] == Join(stack')
  {
    JoinIsEmptyIff(stack);
    ok, used', stack' := true, used, stack;
    if part == "." {
      return;
    }
    if part == ".." {
      if used == 0 {
        ok := false;
        return;
      }
      used' := PopComponent(out, used, stack);
      stack' := stack[..|stack| - 1];
      return;
    }
    if used + (if used != 0 then 1 else 0) + |part| >= out.Length {
      ok := false;
      return;
    }
    used' := PushComponent(out, used, part, stack);
    stack' := stack + [part];
  }

  /** The last slash of the importing file, and what precedes the file's own name. */
  function DirectoryOf(source: string): (d: string)
    ensures d <= source && (d == "" || d[|d| - 1] == '/') && '/' !in source[|d|..]
  {
    if source == "" then ""
    else if source[|source| - 1] == '/' then source
    else DirectoryOf(source[..|source| - 1])
  }

  /** The components a relative import stands for; None: outside the repository, no path at all, or too long. */
  function Resolved(source: string, target: string, capacity: nat): Option<seq<string>> {
    var combined := DirectoryOf(source) + target;
    if |combined| >= CAPACITY then None
    else
      var stack := EnterAll([], Parts(combined, 0), capacity);
      if stack == Some([]) then None else stack
  }

  /** `relative_path`: the buffer ends as the joined components, or the call fails exactly when they do. */
  method NormalizePath(source: string, target: string, out: array<char>) returns (ok: bool, used: nat)
    requires out.Length > 0
    modifies out
    ensures ok <==> Resolved(source, target, out.Length).Some?
    ensures ok ==> used < out.Length && out[..used] == Join(Resolved(source, target, out.Length).value)
  {
    used := 0;
    var combined := DirectoryOf(source) + target;
    if |combined| >= CAPACITY {
      return false, 0;
    }
    ghost var stack: seq<string> := [];
    var i := 0;
    while true
      invariant i <= |combined| && used < out.Length && Names(stack) && out[..used] == Join(stack)
      invariant EnterAll([], Parts(combined, 0), out.Length) == EnterAll(stack, Parts(combined, i), out.Length)
      decreases |combined| - i
    {
      var found, a, e := NextPart(combined, i);
      if !found {
        break;
      }
      PartsAreClean(combined, i, 0);
      assert Parts(combined, i)[1..] == Parts(combined, e);
      ok, used, stack := EnterPart(out, used, combined[a..e], stack);
      if !ok {
        return;
      }
      i := e;
    }
    JoinIsEmptyIff(stack);
    ok := used != 0;
  }

  // ---- When it fails, and what it yields ----

  /** Names entered less levels climbed. */
  function Net(parts: seq<string>): int {
    if parts == [] then 0
    else
      var p := parts[|parts| - 1];
      Net(parts[..|parts| - 1]) + if p == "." then 0 else if p == ".." then -1 else 1
  }

  /** The parts climb above where they started. */
  ghost predicate Climbs(parts: seq<string>) {
    exists k :: 0 <= k <= |parts| && Net(parts[..k]) < 0
  }

  /** The bytes the parts take in any buffer that holds them all at once. */
  function Room(parts: seq<string>): nat {
    if parts == [] then 0 else |parts[0]| + 1 + Room(parts[1..])
  }

  lemma {:induction false} NetFirst(p: string, rest: seq<string>)
    ensures Net([p] + rest) == Net([p]) + Net(rest)
  {
    if rest == [] {
      NoTail([p]);
    } else {
      var n := |rest| - 1;
      NetFirst(p, rest[..n]);
      assert ([p] + rest)[..|rest|] == [p] + rest[..n];
    }
  }

  lemma NetOne(p: string)
    ensures Net([p]) == if p == "." then 0 else if p == ".." then -1 else 1
  {
    assert [p][..0] == [];
  }

  lemma {:induction false} JoinPop(stack: seq<string>)
    requires stack != []
    ensures |Join(stack[..|stack| - 1])| <= |Join(stack)|
  {}

  /** With room for everything, parts entered from a stack fail exactly when some front of them climbs past its depth. */
  lemma {:induction false} EnterAllIff(stack: seq<string>, parts: seq<string>, capacity: nat)
    requires |Join(stack)| + (if stack == [] then 0 else 1) + Room(parts) <= capacity
    ensures EnterAll(stack, parts, capacity).None? <==> exists k :: 0 <= k <= |parts| && |stack| + Net(parts[..k]) < 0
    ensures EnterAll(stack, parts, capacity).Some? ==> |EnterAll(stack, parts, capacity).value| == |stack| + Net(parts)
    decreases |parts|
  {
    if parts == [] {
      assert forall k :: 0 <= k <= |parts| ==> parts[..k] == [];
    } else {
      var p, rest := parts[0], parts[1..];
      assert parts == [p] + rest;
      NetOne(p);
      NetFirst(p, rest);
      var next := Enter(stack, p, capacity);
      JoinPush(stack, p);
      if p == ".." && stack != [] {
        JoinPop(stack);
      }
      if next.None? {
        assert parts[..1] == [p];
        assert |stack| + Net(parts[..1]) < 0;
      } else {
        EnterAllIff(next.value, rest, capacity);
        ShiftFronts(|stack|, |next.value|, p, rest);
      }
    }
  }

  lemma ShiftFronts(depth: nat, next: nat, p: string, rest: seq<string>)
    requires next == depth + Net([p])
    ensures (exists k :: 0 <= k <= |[p] + rest| && depth + Net(([p] + rest)[..k]) < 0)
       <==> (exists k :: 0 <= k <= |rest| && next + Net(rest[..k]) < 0)
  {
    var parts := [p] + rest;
    forall k | 0 <= k <= |rest|
      ensures parts[..k + 1] == [p] + rest[..k] && depth + Net(parts[..k + 1]) == next + Net(rest[..k])
    {
      assert parts[..k + 1] == [p] + rest[..k];
      NetFirst(p, rest[..k]);
    }
    if exists k :: 0 <= k <= |parts| && depth + Net(parts[..k]) < 0 {
      var k :| 0 <= k <= |parts| && depth + Net(parts[..k]) < 0;
      assert k > 0 by {
        assert parts[..0] == [];
      }
      var j: nat := k - 1;
      assert next + Net(rest[..j]) == depth + Net(parts[..j + 1]);
    }
    if exists k :: 0 <= k <= |rest| && next + Net(rest[..k]) < 0 {
      var k :| 0 <= k <= |rest| && next + Net(rest[..k]) < 0;
      assert depth + Net(parts[..k + 1]) < 0;
    }
  }

  /** The parts of a text fit in as many bytes as the text. */
  lemma {:induction false} RoomOfParts(s: string, i: nat)
    requires i <= |s|
    ensures Room(Parts(s, i)) <= |s| - i + 1
    ensures SkipSeparators(s, i) == |s| ==> Parts(s, i) == []
    decreases |s| - i
  {
    var a := SkipSeparators(s, i);
    if a < |s| {
      var e := PartEnd(s, a);
      assert Parts(s, i)[1..] == Parts(s, e);
      RoomAfter(s, e);
    }
  }

  /** After a part there is a separator before the next one, so the rest needs no extra byte. */
  lemma {:induction false} RoomAfter(s: string, e: nat)
    requires e <= |s| && (e < |s| ==> Separator(s[e]))
    ensures Room(Parts(s, e)) <= |s| - e
    decreases |s| - e
  {
    if e < |s| {
      assert SkipSeparators(s, e) == SkipSeparators(s, e + 1) && Parts(s, e) == Parts(s, e + 1);
      RoomOfParts(s, e + 1);
    }
  }

  /** With the buffer the code has, length is never a second reason to fail: only the climb and the empty result are. */
  lemma ResolvedIff(source: string, target: string)
    ensures var combined := DirectoryOf(source) + target;
      Resolved(source, target, CAPACITY).None? <==>
        |combined| >= 4096 || Climbs(Parts(combined, 0)) || Net(Parts(combined, 0)) == 0
  {
    var combined := DirectoryOf(source) + target;
    if |combined| < CAPACITY {
      var parts := Parts(combined, 0);
      RoomOfParts(combined, 0);
      EnterAllIff([], parts, CAPACITY);
      assert Climbs(parts) <==> exists k :: 0 <= k <= |parts| && 0 + Net(parts[..k]) < 0;
    }
  }

  lemma {:induction false} EnterAllNames(stack: seq<string>, parts: seq<string>, capacity: nat)
    requires Names(stack)
    requires forall k :: 0 <= k < |parts| ==> parts[k] != "" && forall j :: 0 <= j < |parts[k]| ==> !Separator(parts[k][j])
    ensures EnterAll(stack, parts, capacity).Some? ==> Names(EnterAll(stack, parts, capacity).value)
    decreases |parts|
  {
    if parts != [] {
      var next := Enter(stack, parts[0], capacity);
      if next.Some? {
        EnterAllNames(next.value, parts[1..], capacity);
      }
    }
  }

  /** No component of a resolved path is empty, "." or "..", and none holds a separator. */
  lemma ResolvedNames(source: string, target: string, capacity: nat)
    ensures Resolved(source, target, capacity).Some? ==>
      Resolved(source, target, capacity).value != [] && Names(Resolved(source, target, capacity).value)
  {
    var combined := DirectoryOf(source) + target;
    forall k | 0 <= k < |Parts(combined, 0)|
      ensures Parts(combined, 0)[k] != ""
      ensures forall j :: 0 <= j < |Parts(combined, 0)[k]| ==> !Separator(Parts(combined, 0)[k][j])
    {
      PartsAreClean(combined, 0, k);
    }
    EnterAllNames([], Parts(combined, 0), capacity);
  }

  lemma {:induction false} EnterAllSplit(stack: seq<string>, a: seq<string>, b: seq<string>, capacity: nat)
    ensures EnterAll(stack, a + b, capacity) ==
      if EnterAll(stack, a, capacity).None? then None else EnterAll(EnterAll(stack, a, capacity).value, b, capacity)
    decreases |a|
  {
    if a == [] {
      assert a + b == b;
    } else {
      assert (a + b)[1..] == a[1..] + b;
      var next := Enter(stack, a[0], capacity);
      if next.Some? {
        EnterAllSplit(next.value, a[1..], b, capacity);
      }
    }
  }

  lemma DownAndUp(stack: seq<string>, name: string, capacity: nat)
    requires Name(name) && JoinRoom(stack) + |name| < capacity
    ensures EnterAll(stack, [name, ".."], capacity) == Some(stack)
  {
    var deeper := stack + [name];
    assert Enter(stack, name, capacity) == Some(deeper);
    assert deeper[..|stack|] == stack;
    assert Enter(deeper, "..", capacity) == Some(stack);
    assert [name, ".."][1..] == [".."] && [".."][1..] == [];
    assert EnterAll(deeper, [".."], capacity) == EnterAll(stack, [], capacity);
  }

  /** Going into a directory and back out changes nothing, wherever it stands in the path. */
  lemma DownAndUpCancels(before: seq<string>, name: string, after: seq<string>, capacity: nat)
    requires Name(name)
    requires Room(before + [name, ".."] + after) <= capacity
    ensures EnterAll([], before + [name, ".."] + after, capacity) == EnterAll([], before + after, capacity)
  {
    var both := [name, ".."];
    EnterAllSplit([], before, both + after, capacity);
    assert before + both + after == before + (both + after);
    EnterAllSplit([], before, after, capacity);
    var at := EnterAll([], before, capacity);
    if at.Some? {
      RoomSplit(before, both + after);
      EnteredRoom([], before, capacity);
      EnterAllSplit(at.value, both, after, capacity);
      assert Room(both + after) >= |name| + 1 by {
        assert (both + after)[0] == name;
      }
      DownAndUp(at.value, name, capacity);
    }
  }

  lemma {:induction false} RoomSplit(a: seq<string>, b: seq<string>)
    ensures Room(a + b) == Room(a) + Room(b)
  {
    if a == [] {
      assert a + b == b;
    } else {
      assert (a + b)[1..] == a[1..] + b;
      RoomSplit(a[1..], b);
    }
  }

  lemma {:induction false} EnteredRoom(stack: seq<string>, parts: seq<string>, capacity: nat)
    ensures EnterAll(stack, parts, capacity).Some? ==>
      JoinRoom(EnterAll(stack, parts, capacity).value) <= JoinRoom(stack) + Room(parts)
    decreases |parts|
  {
    if parts != [] {
      var next := Enter(stack, parts[0], capacity);
      if next.Some? {
        JoinPush(stack, parts[0]);
        EnteredRoom(next.value, parts[1..], capacity);
      }
    }
  }

  /** The bytes a stack takes with a slash after it, when there is something to put a slash after. */
  function JoinRoom(stack: seq<string>): nat {
    |Join(stack)| + if stack == [] then 0 else 1
  }

  // ---- Resolving twice ----

  lemma {:induction false} PartEndAt(s: string, i: nat, e: nat)
    requires i <= e <= |s| && (forall k :: i <= k < e ==> !Separator(s[k])) && (e < |s| ==> Separator(s[e]))
    ensures PartEnd(s, i) == e
    decreases e - i
  {
    if i < e {
      PartEndAt(s, i + 1, e);
    }
  }

  /** A name that ends the text or stands before a slash is the part read there. */
  lemma NamedPart(s: string, i: nat, head: string, e: nat)
    requires Name(head) && i + |head| == e <= |s|
    requires forall k :: i <= k < e ==> s[k] == head[k - i]
    requires e < |s| ==> s[e] == '/'
    ensures Parts(s, i) == [head] + Parts(s, e)
  {
    PartEndAt(s, i, e);
    assert s[i..e] == head;
  }

  lemma LastPart(s: string, i: nat, head: string)
    requires i <= |s| && s[i..] == head && Name(head)
    ensures Parts(s, i) == [head]
  {
    assert forall k :: i <= k < |s| ==> s[k] == s[i..][k - i];
    NamedPart(s, i, head, |s|);
  }

  lemma PartBeforeSlash(s: string, i: nat, head: string, rest: string, e: nat)
    requires i <= |s| && s[i..] == head + "/" + rest && Name(head) && e == i + |head|
    ensures e < |s| && s[e + 1..] == rest && Parts(s, i) == [head] + Parts(s, e + 1)
  {
    var text := s[i..];
    assert forall k :: i <= k < |s| ==> s[k] == text[k - i];
    assert s[e] == '/';
    NamedPart(s, i, head, e);
    assert Parts(s, e) == Parts(s, e + 1);
  }

  lemma FirstName(stack: seq<string>) returns (head: string, rest: seq<string>)
    requires Names(stack) && stack != []
    ensures stack == [head] + rest && |rest| < |stack| && Name(head) && Names(rest)
    ensures Join(stack) == if rest == [] then head else head + "/" + Join(rest)
  {
    head, rest := stack[0], stack[1..];
    assert stack == [head] + rest;
    JoinFirst(head, rest);
  }

  /** The joined names come apart into the same names. */
  lemma {:induction false} PartsOfJoin(s: string, i: nat, stack: seq<string>)
    requires Names(stack) && i <= |s| && s[i..] == Join(stack)
    ensures Parts(s, i) == stack
    decreases |stack|
  {
    if stack != [] {
      var head, rest := FirstName(stack);
      if rest == [] {
        LastPart(s, i, head);
      } else {
        var e := i + |head|;
        PartBeforeSlash(s, i, head, Join(rest), e);
        PartsOfJoin(s, e + 1, rest);
      }
    }
  }

  lemma {:induction false} JoinFirst(head: string, rest: seq<string>)
    ensures Join([head] + rest) == if rest == [] then head else head + "/" + Join(rest)
    decreases |rest|
  {
    if rest == [] {
      assert [head] + rest == [head];
    } else {
      var front, last := rest[..|rest| - 1], rest[|rest| - 1];
      JoinFirst(head, front);
      assert rest == front + [last];
      Regroup([head], front, [last]);
      JoinPush([head] + front, last);
      JoinPush(front, last);
      Regroup(head + "/", Join(front), "/" + last);
      Regroup(Join(front), "/", last);
    }
  }

  lemma {:induction false} NamesEnter(stack: seq<string>, names: seq<string>, capacity: nat)
    requires Names(names) && |Join(stack + names)| < capacity
    ensures EnterAll(stack, names, capacity) == Some(stack + names)
    decreases |names|
  {
    if names == [] {
      assert stack + names == stack;
    } else {
      assert Name(names[0]);
      assert stack + names == (stack + [names[0]]) + names[1..];
      JoinPush(stack, names[0]);
      JoinGrows(stack + [names[0]], names[1..]);
      NamesEnter(stack + [names[0]], names[1..], capacity);
    }
  }

  lemma {:induction false} JoinGrows(stack: seq<string>, more: seq<string>)
    ensures |Join(stack)| <= |Join(stack + more)|
    decreases |more|
  {
    if more == [] {
      assert stack + more == stack;
    } else {
      var n := |more| - 1;
      assert stack + more == (stack + more[..n]) + [more[n]];
      JoinPush(stack + more[..n], more[n]);
      JoinGrows(stack, more[..n]);
    }
  }

  /** Normalisation is idempotent: a resolved path, imported from the top directory, resolves to itself. */
  lemma ResolvingAgain(source: string, target: string, capacity: nat)
    requires Resolved(source, target, capacity).Some?
    requires |Join(Resolved(source, target, capacity).value)| < capacity <= CAPACITY
    ensures Resolved("", Join(Resolved(source, target, capacity).value), capacity) == Resolved(source, target, capacity)
  {
    var stack := Resolved(source, target, capacity).value;
    var text := Join(stack);
    ResolvedNames(source, target, capacity);
    assert DirectoryOf("") + text == text && "" + text == text;
    PartsOfJoin(text, 0, stack);
    assert [] + stack == stack;
    NamesEnter([], stack, capacity);
  }

  // ---- The choice of a file ----

  /** `strncmp` finds the stem at the front, a dot follows it, and the rest names no directory. */
  predicate ExtensionOf(stem: string, file: string) {
    stem <= file && |stem| < |file| && file[|stem|] == '.' && '/' !in file[|stem|..]
  }

  predicate TypeScriptOf(stem: string, file: string) {
    stem <= file && (file[|stem|..] == ".ts" || file[|stem|..] == ".tsx")
  }

  predicate EntryOf(path: string, file: string) {
    || ExtensionOf(path + "/index", file)
    || (path <= file && (file[|path|..] == "/__init__.py" || file[|path|..] == "/mod.rs"))
  }

  /** `strrchr`: one past the last occurrence, or 0. */
  function AfterLast(s: string, c: char): (r: nat)
    ensures r <= |s| && (r > 0 ==> s[r - 1] == c) && c !in s[r..]
  {
    if s == "" then 0
    else if s[|s| - 1] == c then |s|
    else
      var r := AfterLast(s[..|s| - 1], c);
      assert s[r..] == s[..|s| - 1][r..] + [s[|s| - 1]];
      r
  }

  /** Where the explicit extension starts, if the last component has one. */
  function DotOf(path: string): (dot: Option<nat>)
    ensures dot.Some? ==> dot.value < |path| && path[dot.value] == '.' && '/' !in path[dot.value..] && '.' !in path[dot.value + 1..]
    ensures dot.None? ==> forall k :: 0 <= k < |path| && path[k] == '.' ==> '/' in path[k..]
  {
    var d, s := AfterLast(path, '.'), AfterLast(path, '/');
    if d > s then
      assert path[d - 1..] == ['.'] + path[d..];
      assert forall k :: d <= k < |path| ==> path[s..][k - s] == path[k];
      Some(d - 1)
    else
      assert forall k :: 0 <= k < |path| && path[k] == '.' ==> k < d by {
        assert forall k :: d <= k < |path| ==> path[d..][k - d] == path[k];
      }
      assert forall k :: 0 <= k < d ==> path[k..][s - 1 - k] == '/';
      None
  }

  function TypeScriptFor(stem: string): string -> bool {
    file => TypeScriptOf(stem, file)
  }

  function ExtensionFor(path: string): string -> bool {
    file => ExtensionOf(path, file)
  }

  function EntryFor(path: string): string -> bool {
    file => EntryOf(path, file)
  }

  function Matching(files: seq<string>, accept: string -> bool): seq<string> {
    if files == [] then []
    else
      var front := Matching(files[..|files| - 1], accept);
      if accept(files[|files| - 1]) then front + [files[|files| - 1]] else front
  }

  function Only(files: seq<string>, accept: string -> bool): Option<string> {
    var m := Matching(files, accept);
    if |m| == 1 then Some(m[0]) else None
  }

  /** `cberg_graph_relative_file`, once the path is resolved. */
  function Chosen(path: string, files: seq<string>): Option<string> {
    var dot := DotOf(path);
    if path in files then Some(path)
    else if dot.Some? then
      if path[dot.value..] == ".js" || path[dot.value..] == ".jsx"
      then Only(files, TypeScriptFor(path[..dot.value]))
      else None
    else if |Matching(files, ExtensionFor(path))| > 0 then Only(files, ExtensionFor(path))
    else if |path| + 6 >= CAPACITY then None
    else Only(files, EntryFor(path))
  }

  /** One loop over the list: a second match ends it. */
  method FindOnly(files: seq<string>, accept: string -> bool) returns (found: Option<string>, ambiguous: bool)
    ensures found == Only(files, accept)
    ensures ambiguous <==> |Matching(files, accept)| > 1
  {
    found, ambiguous := None, false;
    for i := 0 to |files|
      invariant |Matching(files[..i], accept)| <= 1 && found == Only(files[..i], accept)
    {
      assert files[..i + 1][..i] == files[..i];
      if accept(files[i]) {
        if found.Some? {
          MatchingGrows(files, accept, i + 1);
          return None, true;
        }
        found := Some(files[i]);
      }
    }
    assert files[..|files|] == files;
  }

  method FileFor(source: string, target: string, files: seq<string>) returns (file: Option<string>)
    ensures file == if Resolved(source, target, CAPACITY).None? then None
                    else Chosen(Join(Resolved(source, target, CAPACITY).value), files)
  {
    var buffer := new char[CAPACITY];
    var ok, used := NormalizePath(source, target, buffer);
    if !ok {
      return None;
    }
    var path := buffer[..used];
    for i := 0 to |files|
      invariant path !in files[..i]
    {
      if files[i] == path {
        return Some(files[i]);
      }
    }
    assert files[..|files|] == files;
    var ambiguous;
    var dot := DotOf(path);
    if dot.Some? {
      if path[dot.value..] != ".js" && path[dot.value..] != ".jsx" {
        return None;
      }
      file, ambiguous := FindOnly(files, TypeScriptFor(path[..dot.value]));
      return;
    }
    file, ambiguous := FindOnly(files, ExtensionFor(path));
    if ambiguous || file.Some? {
      return;
    }
    if |path| + 6 >= CAPACITY {
      return None;
    }
    file, ambiguous := FindOnly(files, EntryFor(path));
  }

  // ---- What the choice means ----

  lemma {:induction false} MatchingGrows(files: seq<string>, accept: string -> bool, n: nat)
    requires n <= |files|
    ensures |Matching(files[..n], accept)| <= |Matching(files, accept)|
    decreases |files|
  {
    if n < |files| {
      MatchingGrows(files[..|files| - 1], accept, n);
      assert files[..|files| - 1][..n] == files[..n];
    } else {
      assert files[..n] == files;
    }
  }

  lemma {:induction false} MatchingCounts(files: seq<string>, accept: string -> bool, x: string)
    ensures multiset(Matching(files, accept))[x] == if accept(x) then multiset(files)[x] else 0
  {
    if files != [] {
      var front := files[..|files| - 1];
      MatchingCounts(front, accept, x);
      assert files == front + [files[|files| - 1]];
    }
  }

  /** Only the files counted with their repetitions matter, never their order. */
  lemma OnlyIgnoresOrder(files: seq<string>, other: seq<string>, accept: string -> bool)
    requires multiset(files) == multiset(other)
    ensures Only(files, accept) == Only(other, accept) && |Matching(files, accept)| == |Matching(other, accept)|
  {
    var a, b := Matching(files, accept), Matching(other, accept);
    forall x ensures multiset(a)[x] == multiset(b)[x] {
      MatchingCounts(files, accept, x);
      MatchingCounts(other, accept, x);
    }
    assert multiset(a) == multiset(b);
    assert |a| == |multiset(a)| == |multiset(b)| == |b|;
    if |a| == 1 {
      assert a == [a[0]] && b == [b[0]];
      assert b[0] in multiset(a);
    }
  }

  lemma ChoiceIgnoresOrder(path: string, files: seq<string>, other: seq<string>)
    requires multiset(files) == multiset(other)
    ensures Chosen(path, files) == Chosen(path, other)
  {
    assert path in files <==> path in multiset(files);
    assert path in other <==> path in multiset(other);
    var dot := DotOf(path);
    if dot.Some? {
      OnlyIgnoresOrder(files, other, TypeScriptFor(path[..dot.value]));
    }
    OnlyIgnoresOrder(files, other, ExtensionFor(path));
    OnlyIgnoresOrder(files, other, EntryFor(path));
  }

  /** A file is chosen by a pattern exactly when its one place in the list is the only place that matches. */
  lemma {:induction false} OnlyIff(files: seq<string>, accept: string -> bool, x: string)
    ensures Only(files, accept) == Some(x) <==> accept(x) && exists i :: SoleMatch(files, accept, x, i)
  {
    if exists i :: SoleMatch(files, accept, x, i) {
      var i :| SoleMatch(files, accept, x, i);
      SoleMatching(files, accept, x, i);
    } else if Only(files, accept) == Some(x) {
      var i := MatchAt(files, accept, x);
      assert SoleMatch(files, accept, x, i);
    }
  }

  ghost predicate SoleMatch(files: seq<string>, accept: string -> bool, x: string, i: int) {
    0 <= i < |files| && files[i] == x && accept(x) && forall j :: 0 <= j < |files| && j != i ==> !accept(files[j])
  }

  lemma {:induction false} NoneMatching(files: seq<string>, accept: string -> bool)
    ensures Matching(files, accept) == [] <==> forall j :: 0 <= j < |files| ==> !accept(files[j])
  {
    if files != [] {
      NoneMatching(files[..|files| - 1], accept);
    }
  }

  lemma {:induction false} SoleMatching(files: seq<string>, accept: string -> bool, x: string, i: int)
    requires SoleMatch(files, accept, x, i)
    ensures Matching(files, accept) == [x]
  {
    var front := files[..|files| - 1];
    if i < |front| {
      assert SoleMatch(front, accept, x, i);
      SoleMatching(front, accept, x, i);
    } else {
      NoneMatching(front, accept);
    }
  }

  lemma {:induction false} MatchAt(files: seq<string>, accept: string -> bool, x: string) returns (i: nat)
    requires Matching(files, accept) == [x]
    ensures SoleMatch(files, accept, x, i)
  {
    var front := files[..|files| - 1];
    if accept(files[|files| - 1]) {
      assert Matching(files, accept)[|Matching(front, accept)|] == files[|files| - 1];
      i := |files| - 1;
      NoneMatching(front, accept);
    } else {
      i := MatchAt(front, accept, x);
    }
  }

  // ---- Which files those are ----

  /** The one place in the list that holds either name holds `x`. */
  ghost predicate OneOfTwo(files: seq<string>, a: string, b: string, x: string) {
    exists i :: 0 <= i < |files| && files[i] == x && (x == a || x == b) && forall j :: 0 <= j < |files| && j != i ==> files[j] != a && files[j] != b
  }

  lemma DotIs(stem: string, ext: string)
    requires ext != "" && ext[0] == '.' && '.' !in ext[1..] && '/' !in ext
    ensures DotOf(stem + ext) == Some(|stem|)
  {
    var path := stem + ext;
    assert path[|stem|..] == ext;
    assert forall k {:trigger path[k..]} :: 0 < k <= |stem| ==> path[k..][|stem| - k] == '.';
    assert forall k :: |stem| < k < |path| ==> ext[1..][k - |stem| - 1] == path[k];
  }

  lemma TypeScriptIff(stem: string, file: string)
    ensures TypeScriptOf(stem, file) <==> file == stem + ".ts" || file == stem + ".tsx"
  {
    if stem <= file {
      assert file == stem + file[|stem|..];
    }
    assert (stem + ".ts")[|stem|..] == ".ts" && (stem + ".tsx")[|stem|..] == ".tsx";
  }

  /** A .js or .jsx path that is no file stands for the one .ts or .tsx file of its stem. */
  lemma ScriptChoice(stem: string, ext: string, files: seq<string>, x: string)
    requires (ext == ".js" || ext == ".jsx") && stem + ext !in files
    ensures Chosen(stem + ext, files) == Some(x) <==> OneOfTwo(files, stem + ".ts", stem + ".tsx", x)
  {
    DotIs(stem, ext);
    assert (stem + ext)[|stem|..] == ext && (stem + ext)[..|stem|] == stem;
    var accept := TypeScriptFor(stem);
    forall g ensures accept(g) <==> g == stem + ".ts" || g == stem + ".tsx" {
      TypeScriptIff(stem, g);
    }
    OnlyIff(files, accept, x);
    if OneOfTwo(files, stem + ".ts", stem + ".tsx", x) {
      var i :| 0 <= i < |files| && files[i] == x && (x == stem + ".ts" || x == stem + ".tsx") &&
               forall j :: 0 <= j < |files| && j != i ==> files[j] != stem + ".ts" && files[j] != stem + ".tsx";
      assert SoleMatch(files, accept, x, i);
    }
  }

  /** Any other explicit extension is exact. */
  lemma ExactChoice(stem: string, ext: string, files: seq<string>)
    requires ext != "" && ext[0] == '.' && '.' !in ext[1..] && '/' !in ext && ext != ".js" && ext != ".jsx"
    ensures Chosen(stem + ext, files) == if stem + ext in files then Some(stem + ext) else None
  {
    DotIs(stem, ext);
    assert (stem + ext)[|stem|..] == ext;
  }

  /** The path, a dot and more of the same component. */
  ghost predicate Extends(path: string, file: string) {
    exists rest: string :: file == path + "." + rest && '/' !in rest
  }

  /** What stands for a directory: its index of any extension, its Python package file, its Rust module file. */
  ghost predicate Enters(path: string, file: string) {
    Extends(path + "/index", file) || file == path + "/__init__.py" || file == path + "/mod.rs"
  }

  lemma ExtendsIff(path: string, file: string)
    ensures ExtensionOf(path, file) <==> Extends(path, file)
  {
    if ExtensionOf(path, file) {
      var rest := file[|path| + 1..];
      assert file[|path|..] == ['.'] + rest && file == path + file[|path|..];
      assert file == path + "." + rest;
    }
    if Extends(path, file) {
      var rest: string :| file == path + "." + rest && '/' !in rest;
      assert file[|path|..] == "." + rest;
    }
  }

  lemma EntersIff(path: string, file: string)
    ensures EntryOf(path, file) <==> Enters(path, file)
  {
    ExtendsIff(path + "/index", file);
    if path <= file {
      assert file == path + file[|path|..];
    }
    assert (path + "/__init__.py")[|path|..] == "/__init__.py" && (path + "/mod.rs")[|path|..] == "/mod.rs";
  }

  /** The one place in the list that extends the path holds `x`. */
  ghost predicate OneExtends(files: seq<string>, path: string, x: string) {
    exists i :: 0 <= i < |files| && files[i] == x && Extends(path, x) && forall j :: 0 <= j < |files| && j != i ==> !Extends(path, files[j])
  }

  ghost predicate OneEnters(files: seq<string>, path: string, x: string) {
    exists i :: 0 <= i < |files| && files[i] == x && Enters(path, x) && forall j :: 0 <= j < |files| && j != i ==> !Enters(path, files[j])
  }

  lemma ExtensionChoice(path: string, files: seq<string>, x: string)
    ensures Only(files, ExtensionFor(path)) == Some(x) <==> OneExtends(files, path, x)
  {
    var accept := ExtensionFor(path);
    forall g ensures accept(g) <==> Extends(path, g) {
      ExtendsIff(path, g);
    }
    OnlyIff(files, accept, x);
    if OneExtends(files, path, x) {
      var i :| 0 <= i < |files| && files[i] == x && Extends(path, x) && forall j :: 0 <= j < |files| && j != i ==> !Extends(path, files[j]);
      assert SoleMatch(files, accept, x, i);
    }
  }

  lemma EntryChoice(path: string, files: seq<string>, x: string)
    ensures Only(files, EntryFor(path)) == Some(x) <==> OneEnters(files, path, x)
  {
    var accept := EntryFor(path);
    forall g ensures accept(g) <==> Enters(path, g) {
      EntersIff(path, g);
    }
    OnlyIff(files, accept, x);
    if OneEnters(files, path, x) {
      var i :| 0 <= i < |files| && files[i] == x && Enters(path, x) && forall j :: 0 <= j < |files| && j != i ==> !Enters(path, files[j]);
      assert SoleMatch(files, accept, x, i);
    }
  }

  /**
   A path without an extension that is no file stands for the one file that adds an extension to it; where no file
   does, for the one file that is the directory's entry; where several do, for none.
   */
  lemma BareChoice(path: string, files: seq<string>, x: string)
    requires path !in files && |path| + 6 < 4096 && forall k :: 0 <= k < |path| && path[k] == '.' ==> '/' in path[k..]
    ensures Chosen(path, files) == Some(x) <==>
            OneExtends(files, path, x) || ((forall j :: 0 <= j < |files| ==> !Extends(path, files[j])) && OneEnters(files, path, x))
  {
    var accept := ExtensionFor(path);
    assert DotOf(path).None?;
    forall g ensures accept(g) <==> Extends(path, g) {
      ExtendsIff(path, g);
    }
    NoneMatching(files, accept);
    ExtensionChoice(path, files, x);
    EntryChoice(path, files, x);
  }
}
