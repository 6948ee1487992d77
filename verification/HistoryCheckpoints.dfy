/**
 Checkpoints of fitted conversations. A record names the prefix it stands for by count and by hash chain; a fit may
 start from one, and what it saves again names exactly the prefix left out of the original conversation.
 */
module HistoryCheckpoints {
  import opened Common
  import opened ChunkKeys
  import opened HistoryFiles
  import opened History
  import opened HistoryFit

  datatype Checkpoint = Checkpoint(version: int, count: nat, hash: string, marker: Message)

  /** The digest and the fingerprint are any two functions. */
  datatype Hashing = Hashing(digest: string -> string, fingerprint: Message -> string)

  /** The hash of a whole prefix: each message's digest covers the one before. */
  function Chain(ms: seq<Message>, h: Hashing): string {
    if ms == [] then "" else h.digest(Chain(ms[..|ms| - 1], h) + h.fingerprint(ms[|ms| - 1]))
  }

  /** `prefixHashes`. */
  method PrefixHashes(ms: seq<Message>, h: Hashing) returns (hashes: seq<string>)
    ensures |hashes| == |ms| && forall i :: 0 <= i < |ms| ==> hashes[i] == Chain(ms[..i + 1], h)
  {
    var previous := "";
    hashes := [];
    for i := 0 to |ms|
      invariant |hashes| == i && previous == Chain(ms[..i], h)
      invariant forall j :: 0 <= j < i ==> hashes[j] == Chain(ms[..j + 1], h)
    {
      LastStep(ms, i);
      previous := h.digest(previous + h.fingerprint(ms[i]));
      hashes := hashes + [previous];
    }
  }

  /** A digest that does not collide, over fingerprints of one length. */
  ghost predicate Collisionless(h: Hashing) {
    && (forall x, y {:trigger h.digest(x), h.digest(y)} :: h.digest(x) == h.digest(y) ==> x == y)
    && (forall x {:trigger h.digest(x)} :: h.digest(x) != "")
    && forall m, m' {:trigger h.fingerprint(m), h.fingerprint(m')} :: |h.fingerprint(m)| == |h.fingerprint(m')|
  }

  lemma EqualTails(a: string, x: string, b: string, y: string)
    requires |x| == |y| && a + x == b + y
    ensures a == b && x == y
  {
    assert |a| == |b|;
    TakeDrop(a, x);
    TakeDrop(b, y);
  }

  /** Then one hash stands for one prefix: the same number of messages with the same fingerprints, in order. */
  lemma {:induction false} ChainTells(a: seq<Message>, b: seq<Message>, h: Hashing)
    requires Collisionless(h)
    ensures Chain(a, h) == Chain(b, h) <==> |a| == |b| && forall i :: 0 <= i < |a| ==> h.fingerprint(a[i]) == h.fingerprint(b[i])
  {
    if a != [] && b != [] {
      var a', b' := a[..|a| - 1], b[..|b| - 1];
      var x, y := h.fingerprint(a[|a| - 1]), h.fingerprint(b[|b| - 1]);
      ChainTells(a', b', h);
      if Chain(a, h) == Chain(b, h) {
        assert Chain(a', h) + x == Chain(b', h) + y;
        EqualTails(Chain(a', h), x, Chain(b', h), y);
      }
    }
  }

  // ---- Records ----

  function DigitsEnd(s: string, i: nat): (r: nat)
    requires i <= |s|
    ensures i <= r <= |s| && (forall k :: i <= k < r ==> '0' <= s[k] <= '9') && (r < |s| ==> !('0' <= s[r] <= '9'))
    decreases |s| - i
  {
    if i < |s| && '0' <= s[i] <= '9' then DigitsEnd(s, i + 1) else i
  }

  /** `^\[\d+ earlier message\(s\) omitted`. */
  predicate OmissionTest(s: string) {
    s != "" && s[0] == '[' && DigitsEnd(s, 1) > 1 && OMITTED <= s[DigitsEnd(s, 1)..]
  }

  lemma {:induction false} DigitsEndAt(s: string, i: nat, e: nat)
    requires i <= e <= |s| && (forall k :: i <= k < e ==> '0' <= s[k] <= '9') && (e < |s| ==> !('0' <= s[e] <= '9'))
    ensures DigitsEnd(s, i) == e
    decreases e - i
  {
    if i < e {
      DigitsEndAt(s, i + 1, e);
    }
  }

  lemma OmissionIs(digits: string, rest: string)
    requires digits != "" && AllDigits(digits)
    ensures OmissionTest("[" + digits + (OMITTED + rest))
  {
    var s := "[" + digits + (OMITTED + rest);
    var e := 1 + |digits|;
    assert s[e..] == OMITTED + rest;
    assert s[e] == ' ';
    assert forall k :: 1 <= k < e ==> s[k] == digits[k - 1];
    DigitsEndAt(s, 1, e);
  }

  /** `validCheckpoint`. */
  predicate ValidCheckpoint(r: Checkpoint, hash: string, count: nat) {
    && r.version == 1 && r.hash == hash && r.count == count && r.marker.role == User && r.marker.content.Plain?
    && (SUMMARY_OPEN <= r.marker.content.text || OmissionTest(r.marker.content.text))
  }

  lemma SummaryHead(text: string, omitted: nat, block: string)
    ensures SUMMARY_OPEN <= MarkerHead(Some(text), omitted) + block
  {
    var rest := "\n" + text + "\n" + SUMMARY_CLOSE;
    assert MarkerHead(Some(text), omitted) == SUMMARY_OPEN + rest;
    Regroup(SUMMARY_OPEN, rest, block);
  }

  lemma OmissionHead(omitted: nat, block: string)
    ensures OmissionTest(MarkerHead(None, omitted) + block)
  {
    var digits := Dec(omitted);
    DecDigits(omitted);
    UndecDec(omitted);
    Regroup("[" + digits, OMITTED + TO_FIT, block);
    Regroup(OMITTED, TO_FIT, block);
    OmissionIs(digits, TO_FIT + block);
  }

  /** A record made from a marker the fit wrote passes the test for the prefix it names. */
  lemma MarkerIsValid(summary: Option<string>, omitted: nat, files: seq<string>, hash: string, count: nat)
    ensures ValidCheckpoint(Checkpoint(1, count, hash, Marker(summary, omitted, files)), hash, count)
  {
    var block := FileBlock(files, FILES_NOTE);
    if summary.Some? {
      SummaryHead(summary.value, omitted, block);
    } else {
      OmissionHead(omitted, block);
    }
  }

  // ---- What a record stands for ----

  /** The outcome of a fit: a fact to carry, not to look into. */
  ghost predicate IsFit(r: Outcome, ms: seq<Message>, o: Options, w: World, tokens: Message -> nat) {
    forall n {:trigger Look(n)} :: Look(n) ==> r == Fit(ms, o, w, tokens)
  }

  method FitNow(ms: seq<Message>, o: Options, w: World, tokens: Message -> nat) returns (r: Outcome)
    ensures IsFit(r, ms, o, w, tokens) && (r.Compacted? ==> 0 < r.split <= |ms|)
  {
    r := Fit(ms, o, w, tokens);
  }

  /** The record names the prefix by count and hash, and its marker references every file the prefix does. */
  ghost predicate Names(r: Checkpoint, origin: seq<Message>, h: Hashing) {
    && r.version == 1 && r.count == |origin| && r.count > 0 && r.hash == Chain(origin, h)
    && r.marker.role == User && r.marker.content.Plain?
    && forall f {:trigger Refers(origin, f)} :: Refers(origin, f) ==> Refers([r.marker], f)
  }

  /** A record for a front of the messages stands for that front: no two different prefixes in play share a hash. */
  ghost predicate NoCollision(origins: map<(string, string), seq<Message>>, key: string, ms: seq<Message>, h: Hashing) {
    forall n: nat :: 0 < n <= |ms| && (key, Chain(ms[..n], h)) in origins ==> origins[(key, Chain(ms[..n], h))] == ms[..n]
  }

  /** So it is where neither digest nor fingerprint collides. */
  lemma NoCollisionIf(origins: map<(string, string), seq<Message>>, key: string, ms: seq<Message>, h: Hashing)
    requires Collisionless(h) && forall m, m' {:trigger h.fingerprint(m), h.fingerprint(m')} :: h.fingerprint(m) == h.fingerprint(m') ==> m == m'
    requires forall c {:trigger (key, c) in origins} :: (key, c) in origins ==> c == Chain(origins[(key, c)], h)
    ensures NoCollision(origins, key, ms, h)
  {
    forall n: nat | 0 < n <= |ms| && (key, Chain(ms[..n], h)) in origins
      ensures origins[(key, Chain(ms[..n], h))] == ms[..n]
    {
      var o := origins[(key, Chain(ms[..n], h))];
      ChainTells(o, ms[..n], h);
      forall i | 0 <= i < n
        ensures o[i] == ms[..n][i]
      {
        assert h.fingerprint(o[i]) == h.fingerprint(ms[..n][i]);
      }
    }
  }

  /** The messages with a saved front replaced by its marker. */
  function Restored(ms: seq<Message>, saved: Option<Checkpoint>): seq<Message>
    requires saved.Some? ==> saved.value.count <= |ms|
  {
    if saved.Some? then [saved.value.marker] + ms[saved.value.count..] else ms
  }

  /** Starting from a checkpoint loses no file. */
  lemma RestoredKeeps(ms: seq<Message>, saved: Option<Checkpoint>, h: Hashing, f: string)
    requires saved.Some? ==> saved.value.count <= |ms| && Names(saved.value, ms[..saved.value.count], h)
    ensures Refers(ms, f) ==> Refers(Restored(ms, saved), f)
  {
    if saved.Some? {
      var c := saved.value.count;
      assert ms == ms[..c] + ms[c..];
      RefersSplit(ms[..c], ms[c..], f);
      RefersSplit([saved.value.marker], ms[c..], f);
    }
  }

  /** How many of the original messages the first `split` restored ones stand for. */
  function CountFor(saved: Option<Checkpoint>, split: nat): nat
    requires split > 0
  {
    if saved.Some? then saved.value.count + split - 1 else split
  }

  lemma RestoredSuffix(ms: seq<Message>, saved: Option<Checkpoint>, split: nat)
    requires saved.Some? ==> saved.value.count <= |ms|
    requires 0 < split <= |Restored(ms, saved)|
    ensures CountFor(saved, split) <= |ms| && Restored(ms, saved)[split..] == ms[CountFor(saved, split)..]
  {
    if saved.Some? {
      var c := saved.value.count;
      assert ([saved.value.marker] + ms[c..])[1..] == ms[c..];
      assert ([saved.value.marker] + ms[c..])[split..] == ms[c..][split - 1..];
    }
  }

  /** The restored front references what the messages it stands for do. */
  lemma RestoredFront(ms: seq<Message>, saved: Option<Checkpoint>, split: nat, h: Hashing, f: string)
    requires saved.Some? ==> saved.value.count <= |ms| && Names(saved.value, ms[..saved.value.count], h)
    requires 0 < split <= |Restored(ms, saved)| && CountFor(saved, split) <= |ms|
    ensures Refers(ms[..CountFor(saved, split)], f) ==> Refers(Restored(ms, saved)[..split], f)
  {
    if saved.Some? {
      var c, n := saved.value.count, CountFor(saved, split);
      assert ms[..n] == ms[..c] + ms[c..n];
      assert ([saved.value.marker] + ms[c..])[..split] == [saved.value.marker] + ms[c..n];
      RefersSplit(ms[..c], ms[c..n], f);
      RefersSplit([saved.value.marker], ms[c..n], f);
    }
  }

  /** The record of a fit from a checkpoint stands for the whole prefix left out. */
  lemma NewRecordNames(ms: seq<Message>, saved: Option<Checkpoint>, r: Outcome, o: Options, w: World, tokens: Message -> nat, h: Hashing)
    requires saved.Some? ==> saved.value.count <= |ms| && Names(saved.value, ms[..saved.value.count], h)
    requires IsFit(r, Restored(ms, saved), o, w, tokens) && r.Compacted? && 0 < r.split <= |Restored(ms, saved)|
    ensures CountFor(saved, r.split) <= |ms|
    ensures var n := CountFor(saved, r.split); Names(Checkpoint(1, n, Chain(ms[..n], h), r.marker), ms[..n], h)
  {
    var restored := Restored(ms, saved);
    var n := CountFor(saved, r.split);
    assert Look(0);
    RestoredSuffix(ms, saved, r.split);
    FitShape(restored, r, o, w, tokens);
    var summary := FitMarker(restored, o, w, tokens);
    forall f {:trigger Refers(ms[..n], f)} | Refers(ms[..n], f)
      ensures Refers([r.marker], f)
    {
      RestoredFront(ms, saved, r.split, h, f);
      MarkerRefers(summary, r.split, restored[..r.split], w, f);
    }
  }

  // ---- The store ----

  /** `archives` holds a match, and the store finds all of them. */
  predicate ArchivesResolve(text: string, resolves: string -> bool) {
    Matches(text, 0) != [] && forall i :: 0 <= i < |Matches(text, 0)| ==> resolves(Matches(text, 0)[i])
  }

  predicate Includes(s: string, t: string) {
    exists i: nat :: i <= |s| && At(s, i, t)
  }

  class HistoryCheckpoints {
    /** Records by directory and by hash. */
    var records: map<(string, string), Checkpoint>
    /** The prefix each record was made from. */
    ghost var origins: map<(string, string), seq<Message>>

    ghost predicate Valid(h: Hashing)
      reads this
    {
      forall k :: k in records ==> k in origins && k.1 == records[k].hash && Names(records[k], origins[k], h)
    }

    constructor ()
      ensures forall h :: Valid(h)
      ensures records == map[]
    {
      records, origins := map[], map[];
    }

    /** `load`: a record of the longest prefix that has a readable, valid one whose archives still exist. */
    method Load(key: string, hashes: seq<string>, resolves: string -> bool) returns (saved: Option<Checkpoint>)
      ensures saved.Some? ==>
        && 0 < saved.value.count <= |hashes| && (key, hashes[saved.value.count - 1]) in records
        && saved.value == records[(key, hashes[saved.value.count - 1])]
        && ArchivesResolve(TextOf(saved.value.marker), resolves)
    {
      var index := |hashes|;
      while index > 0
        invariant index <= |hashes|
      {
        index := index - 1;
        var hash := hashes[index];
        var readable: bool := *;
        if (key, hash) in records && readable {
          var record := records[(key, hash)];
          if ValidCheckpoint(record, hash, index + 1) && ArchivesResolve(TextOf(record.marker), resolves) {
            return Some(record);
          }
        }
      }
      return None;
    }

    /** What a loaded record stands for. */
    lemma LoadedNames(ms: seq<Message>, key: string, hash: string, n: nat, h: Hashing)
      requires Valid(h) && NoCollision(origins, key, ms, h) && 0 < n <= |ms|
      requires hash == Chain(ms[..n], h) && (key, hash) in records && records[(key, hash)].count == n
      ensures Names(records[(key, hash)], ms[..n], h)
    {}

    /**
     `run`: the conversation, or a marker and its verbatim suffix from message `n` on; every file the conversation
     references is still referenced; and a record, if one is saved, names the first `n` messages.
     */
    method Run(ms: seq<Message>, key: string, o: Options, w: World, tokens: Message -> nat, h: Hashing, resolves: string -> bool)
      returns (fitted: Option<seq<Message>>, ghost n: nat)
      requires Valid(h) && NoCollision(origins, key, ms, h)
      modifies this
      ensures Valid(h) && n <= |ms|
      ensures fitted.Some? && n == 0 ==> fitted.value == ms
      ensures fitted.Some? && n > 0 ==> fitted.value != [] && fitted.value[0].role == User && fitted.value[1..] == ms[n..]
      ensures fitted.Some? ==> forall f {:trigger Refers(ms, f)} :: Refers(ms, f) ==> Refers(fitted.value, f)
      ensures records == old(records) || (fitted.Some? && n > 0 &&
        records == old(records)[(key, Chain(ms[..n], h)) := Checkpoint(1, n, Chain(ms[..n], h), fitted.value[0])])
    {
      var hashes := PrefixHashes(ms, h);
      var saved := Load(key, hashes, resolves);
      if saved.Some? {
        LoadedNames(ms, key, hashes[saved.value.count - 1], saved.value.count, h);
      }
      var restored := Restored(ms, saved);
      n := if saved.Some? then saved.value.count else 0;
      var outcome := FitNow(restored, o, w, tokens);
      FittedKeeps(ms, saved, outcome, o, w, tokens, h);
      if outcome.Thrown? {
        return None, n;
      }
      fitted := Some(After(restored, outcome));
      if outcome.Unchanged? {
        return;
      }
      NewRecordNames(ms, saved, outcome, o, w, tokens, h);
      RestoredSuffix(ms, saved, outcome.split);
      var removed := |restored| - |fitted.value| + 1;
      var count := if saved.Some? then saved.value.count + removed - 1 else removed;
      n := count;
      var hash := hashes[count - 1];
      if hash == "" || count <= 0 || !Includes(outcome.marker.content.text, OPEN) {
        return;
      }
      Save(key, hash, count, outcome.marker, ms, h);
    }

    /** The atomic write of a record, which may fail. */
    method Save(key: string, hash: string, count: nat, marker: Message, ghost ms: seq<Message>, ghost h: Hashing)
      requires Valid(h) && count <= |ms| && hash == Chain(ms[..count], h) && Names(Checkpoint(1, count, hash, marker), ms[..count], h)
      modifies this
      ensures Valid(h)
      ensures records == old(records) || records == old(records)[(key, hash) := Checkpoint(1, count, hash, marker)]
    {
      var written: bool := *;
      if written {
        records := records[(key, hash) := Checkpoint(1, count, hash, marker)];
        origins := origins[(key, hash) := ms[..count]];
      }
    }
  }

  /** No file of the conversation is lost on the way through a checkpoint and a fit. */
  lemma FittedKeeps(ms: seq<Message>, saved: Option<Checkpoint>, r: Outcome, o: Options, w: World, tokens: Message -> nat, h: Hashing)
    requires saved.Some? ==> saved.value.count <= |ms| && Names(saved.value, ms[..saved.value.count], h)
    requires IsFit(r, Restored(ms, saved), o, w, tokens) && (r.Compacted? ==> 0 < r.split <= |Restored(ms, saved)|)
    ensures forall f {:trigger Refers(ms, f)} :: Refers(ms, f) ==> Refers(After(Restored(ms, saved), r), f)
    ensures r.Compacted? ==> r.marker.role == User && r.marker.content.Plain?
  {
    assert Look(0);
    forall f {:trigger Refers(ms, f)} | Refers(ms, f)
      ensures Refers(After(Restored(ms, saved), r), f)
    {
      RestoredKeeps(ms, saved, h, f);
      FitKeepsFiles(Restored(ms, saved), r, o, w, tokens, f);
    }
    if r.Compacted? {
      FitShape(Restored(ms, saved), r, o, w, tokens);
    }
  }
}
