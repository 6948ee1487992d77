/**
 The vocabulary shared by every module: status codes, optional values, and the
 outcomes of calls whose result the program cannot control.
 */
module Common {

  datatype Option<+T> = None | Some(value: T)

  /** `cberg_status`, restricted to the codes the modelled code returns. */
  datatype Status = Ok | InvalidArgument | Internal | Io | NotFound | OutOfMemory | Timeout | NotImplemented

  /** An embedding vector. */
  type Vec = seq<real>

  const SIZE_MAX: nat := 0xFFFF_FFFF_FFFF_FFFF

  /** The largest count of 8-byte cells `calloc` can be asked for without overflow. */
  const MAX_CELLS: nat := SIZE_MAX / 8

  /** An allocation of `cells` cells: it may fail at any time, and always fails past the address space. */
  method TryAlloc(cells: nat) returns (ok: bool)
    ensures ok ==> cells <= MAX_CELLS
  {
    ok := *;
    if cells > MAX_CELLS {
      ok := false;
    }
  }

  /** A call into the network, the disk or the model runtime: any status may come back. */
  method Outcome() returns (st: Status)
  {
    st := *;
  }

  predicate NoDuplicates<T(==)>(s: seq<T>) {
    forall i, j :: 0 <= i < j < |s| ==> s[i] != s[j]
  }

  /** What is left of a byte string once it is read as a C string. */
  function CutAtZero(s: string): string {
    if s == [] || s[0] as nat == 0 then [] else [s[0]] + CutAtZero(s[1..])
  }

  lemma {:induction false} CutIsPrefix(s: string)
    ensures CutAtZero(s) <= s && ((forall i :: 0 <= i < |s| ==> s[i] as nat != 0) ==> CutAtZero(s) == s)
  {
    if s != [] {
      CutIsPrefix(s[1..]);
    }
  }

  /** Concatenation regrouped, for proofs that must not search for it. */
  lemma Regroup<T>(a: seq<T>, b: seq<T>, c: seq<T>)
    ensures (a + b) + c == a + (b + c)
  {}

  lemma RegroupFour<T>(a: seq<T>, b: seq<T>, c: seq<T>, d: seq<T>)
    ensures ((a + b) + c) + d == a + (b + (c + d))
  {
    Regroup(a + b, c, d);
    Regroup(a, b, c + d);
  }

  lemma NoTail<T>(a: seq<T>)
    ensures a + [] == a && [] + a == a
  {}

  lemma HeadAndTail<T>(x: T, rest: seq<T>)
    ensures ([x] + rest)[0] == x && ([x] + rest)[1..] == rest
  {}

  lemma TakeDrop<T>(a: seq<T>, b: seq<T>)
    ensures (a + b)[..|a|] == a && (a + b)[|a|..] == b
  {}

  lemma SliceAt<T>(s: seq<T>, a: nat, b: seq<T>, j: nat)
    requires a + |b| <= |s| && s[a..a + |b|] == b && j < |b|
    ensures s[a + j] == b[j]
  {}

  lemma LastStep<T>(s: seq<T>, i: nat)
    requires i < |s|
    ensures s[..i + 1] == s[..i] + [s[i]] && s[..i + 1][..i] == s[..i]
  {}

  lemma HeadMultiset<T>(s: seq<T>)
    requires s != []
    ensures multiset(s) == multiset{s[0]} + multiset(s[1..]) && multiset(s[1..]) == multiset(s) - multiset{s[0]}
  {
    assert s == [s[0]] + s[1..];
  }

  /**
   Names a look into a predicate whose body is `forall n :: Look(n) ==> ...`: callers carry such a predicate
   whole, and `assert Look(0)` opens it.
   */
  predicate Look(n: nat) {
    true
  }
}
