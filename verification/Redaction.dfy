/** Redaction of a known secret from text that arrives in chunks. */
module Redaction {
  import opened Common

  const MASK := "[REDACTED]"
  const LARGEST_LOOKAHEAD := 65_536

  predicate OccursAt(t: string, s: string, i: int) {
    0 <= i && i + |s| <= |t| && t[i..i + |s|] == s
  }

  /** The first occurrence at or after `from`, or -1. */
  function Find(t: string, s: string, from: nat): (r: int)
    ensures r == -1 || (from <= r && OccursAt(t, s, r))
    ensures forall i :: from <= i && (r == -1 || i < r) ==> !OccursAt(t, s, i)
    decreases |t| - from
  {
    if from + |s| > |t| then -1
    else if t[from..from + |s|] == s then from
    else if from == |t| then -1
    else Find(t, s, from + 1)
  }

  /** Every leftmost, non-overlapping occurrence of the secret becomes the mask. */
  function Replace(t: string, s: string): string
    requires s != ""
  {
    if t == "" then ""
    else if OccursAt(t, s, 0) then MASK + Replace(t[|s|..], s)
    else [t[0]] + Replace(t[1..], s)
  }

  function Normalize(value: string, secrets: seq<string>): string {
    if secrets == [] then value
    else
      var before := Normalize(value, secrets[..|secrets| - 1]);
      var secret := secrets[|secrets| - 1];
      if secret == "" then before else Replace(before, secret)
  }

  /** The string case of the normalizer: a loop over the secrets. */
  method NormalizeText(text: string, secrets: seq<string>) returns (value: string)
    ensures value == Normalize(text, secrets)
  {
    value := text;
    for i := 0 to |secrets|
      invariant value == Normalize(text, secrets[..i])
    {
      assert secrets[..i + 1][..i] == secrets[..i];
      if secrets[i] != "" {
        value := Replace(value, secrets[i]);
      }
    }
    assert secrets[..|secrets|] == secrets;
  }

  // ---------------------------------------------------------------- what a replacement is

  lemma OccursLater(t: string, s: string, i: int)
    requires t != ""
    ensures i >= 0 ==> (OccursAt(t[1..], s, i) <==> OccursAt(t, s, i + 1))
  {
    if 0 <= i && i + |s| <= |t| - 1 {
      assert t[1..][i..i + |s|] == t[i + 1..i + 1 + |s|];
    }
  }

  lemma FindLater(t: string, s: string)
    requires t != "" && s != "" && !OccursAt(t, s, 0)
    ensures Find(t, s, 0) == if Find(t[1..], s, 0) == -1 then -1 else Find(t[1..], s, 0) + 1
  {
    hide Find, OccursAt;
    var r, q := Find(t, s, 0), Find(t[1..], s, 0);
    forall i | i >= 0 ensures OccursAt(t[1..], s, i) <==> OccursAt(t, s, i + 1) {
      OccursLater(t, s, i);
    }
    if q != -1 {
      OccursLater(t, s, q);
    }
    if r != -1 {
      assert r > 0;
      OccursLater(t, s, r - 1);
    }
  }

  lemma FirstIsStart(t: string, s: string)
    requires s != "" && OccursAt(t, s, 0)
    ensures Find(t, s, 0) == 0
  {
  }

  lemma FirstLater(t: string, s: string, r: nat, rest: string)
    requires t != "" && r + |s| <= |t| - 1
    ensures [t[0]] + (t[1..][..r] + rest) == t[..r + 1] + rest
    ensures t[1..][r + |s|..] == t[r + 1 + |s|..]
  {
  }

  /** The text up to the first occurrence, the mask, and the same for what follows. */
  lemma {:induction false} ReplaceFirst(t: string, s: string)
    requires s != ""
    ensures var r := Find(t, s, 0);
            Replace(t, s) == if r == -1 then t else t[..r] + ("[REDACTED]" + Replace(t[r + |s|..], s))
  {
    if t != "" {
      if OccursAt(t, s, 0) {
        FirstIsStart(t, s);
        assert t[..0] + (MASK + Replace(t[|s|..], s)) == MASK + Replace(t[|s|..], s);
      } else {
        hide Find;
        FindLater(t, s);
        ReplaceFirst(t[1..], s);
        var r := Find(t[1..], s, 0);
        if r != -1 {
          FirstLater(t, s, r, MASK + Replace(t[1..][r + |s|..], s));
        }
      }
    }
  }

  lemma StartsMasked(t: string, s: string)
    requires s != ""
    ensures OccursAt(t, s, 0) ==> Replace(t, s) != "" && Replace(t, s)[0] == MASK[0]
  {
  }

  /** What shows no character of the mask was in the text. */
  lemma {:induction false} PlainStart(t: string, s: string, k: nat)
    requires s != "" && k <= |Replace(t, s)| && forall j :: 0 <= j < k ==> Replace(t, s)[j] !in MASK
    ensures k <= |t| && Replace(t, s)[..k] == t[..k]
  {
    if k > 0 {
      StartsMasked(t, s);
      assert MASK[0] in MASK;
      assert !OccursAt(t, s, 0);
      assert Replace(t, s)[1..] == Replace(t[1..], s);
      forall j | 0 <= j < k - 1 ensures Replace(t[1..], s)[j] !in MASK {
        assert Replace(t[1..], s)[j] == Replace(t, s)[j + 1];
      }
      PlainStart(t[1..], s, k - 1);
    }
  }

  lemma TailOccurrence(head: string, tail: string, s: string, i: nat)
    requires i >= |head|
    ensures OccursAt(head + tail, s, i) <==> OccursAt(tail, s, i - |head|)
  {
    if i + |s| <= |head + tail| {
      assert (head + tail)[i..i + |s|] == tail[i - |head|..i - |head| + |s|];
    }
  }

  lemma StartInMask(tail: string, s: string, i: nat)
    requires s != "" && i < |MASK|
    ensures OccursAt(MASK + tail, s, i) ==> s[0] == MASK[i]
  {
    if OccursAt(MASK + tail, s, i) {
      assert (MASK + tail)[i..i + |s|][0] == MASK[i];
    }
  }

  lemma NotAtStart(t: string, s: string, x: string)
    requires s != "" && x != "" && (forall c :: c in s ==> c !in MASK) && !OccursAt(t, s, 0)
    ensures !OccursAt(Replace(t, x), s, 0)
  {
    var out := Replace(t, x);
    if OccursAt(out, s, 0) {
      forall j | 0 <= j < |s| ensures out[j] !in MASK {
        assert out[..|s|][j] == s[j];
      }
      PlainStart(t, x, |s|);
    }
  }

  /** A secret without a character of the mask is nowhere in the redacted text. */
  lemma {:induction false} NoSecretLeft(t: string, s: string, i: nat)
    requires s != "" && forall c :: c in s ==> c !in MASK
    ensures !OccursAt(Replace(t, s), s, i)
  {
    if t != "" {
      if OccursAt(t, s, 0) {
        if i < |MASK| {
          assert s[0] in s && MASK[i] in MASK;
          StartInMask(Replace(t[|s|..], s), s, i);
        } else {
          TailOccurrence(MASK, Replace(t[|s|..], s), s, i);
          NoSecretLeft(t[|s|..], s, i - |MASK|);
        }
      } else if i == 0 {
        NotAtStart(t, s, s);
      } else {
        TailOccurrence([t[0]], Replace(t[1..], s), s, i);
        NoSecretLeft(t[1..], s, i - 1);
      }
    }
  }

  ghost predicate Nowhere(t: string, s: string) {
    forall i :: !OccursAt(t, s, i)
  }

  lemma NowhereLater(t: string, s: string, n: nat)
    requires n <= |t| && Nowhere(t, s)
    ensures Nowhere(t[n..], s)
  {
    forall i ensures !OccursAt(t[n..], s, i) {
      if i >= 0 {
        assert t[..n] + t[n..] == t;
        TailOccurrence(t[..n], t[n..], s, i + n);
      }
    }
  }

  /** Replacing another secret does not bring one back. */
  lemma {:induction false} StaysOut(t: string, s: string, x: string, i: int)
    requires s != "" && x != "" && (forall c :: c in s ==> c !in MASK) && Nowhere(t, s)
    ensures !OccursAt(Replace(t, x), s, i)
  {
    if t != "" && i >= 0 {
      if OccursAt(t, x, 0) {
        if i < |MASK| {
          assert s[0] in s && MASK[i] in MASK;
          StartInMask(Replace(t[|x|..], x), s, i);
        } else {
          TailOccurrence(MASK, Replace(t[|x|..], x), s, i);
          NowhereLater(t, s, |x|);
          StaysOut(t[|x|..], s, x, i - |MASK|);
        }
      } else if i == 0 {
        NotAtStart(t, s, x);
      } else {
        TailOccurrence([t[0]], Replace(t[1..], x), s, i);
        NowhereLater(t, s, 1);
        StaysOut(t[1..], s, x, i - 1);
      }
    }
  }

  /** After all replacements none of the secrets that share no character with the mask is in the text. */
  lemma {:induction false} NoSecretsLeft(text: string, secrets: seq<string>, k: nat)
    requires k < |secrets| && secrets[k] != "" && forall c :: c in secrets[k] ==> c !in "[REDACTED]"
    ensures Nowhere(Normalize(text, secrets), secrets[k])
  {
    var n, s := |secrets| - 1, secrets[k];
    var before, last := Normalize(text, secrets[..n]), secrets[n];
    assert Normalize(text, secrets) == if last == "" then before else Replace(before, last);
    if k == n {
      forall i ensures !OccursAt(Replace(before, s), s, i) {
        if i >= 0 {
          NoSecretLeft(before, s, i);
        }
      }
    } else {
      NoSecretsLeft(text, secrets[..n], k);
      if last != "" {
        forall i ensures !OccursAt(Replace(before, last), s, i) {
          StaysOut(before, s, last, i);
        }
      }
    }
  }

  // ---------------------------------------------------------------- the buffer

  predicate Straddles(t: string, s: string, i: int, cut: int) {
    OccursAt(t, s, i) && i < cut < i + |s|
  }

  /** The cut moves back to the first occurrence it would fall into. */
  ghost predicate MovedTo(t: string, s: string, cut: int, cut': int) {
    if exists i :: Straddles(t, s, i, cut)
    then Straddles(t, s, cut', cut) && forall i :: Straddles(t, s, i, cut) ==> cut' <= i
    else cut' == cut
  }

  function Lookahead(secrets: seq<string>): nat {
    if secrets == [] then 0
    else Max(Lookahead(secrets[..|secrets| - 1]), |secrets[|secrets| - 1]| - 1)
  }

  function NonEmpty(secrets: seq<string>): seq<string> {
    if secrets == [] then []
    else NonEmpty(secrets[..|secrets| - 1])
         + if secrets[|secrets| - 1] != "" then [secrets[|secrets| - 1]] else []
  }

  function FirstCut(all: string, lookahead: nat, final: bool): nat {
    if final then |all| else Max(0, |all| - lookahead)
  }

  /** The cut after one secret has been considered. */
  function MoveCut(t: string, s: string, cut: nat, from: nat): (r: nat)
    requires s != ""
    requires forall i :: i < from ==> !Straddles(t, s, i, cut)
    ensures MovedTo(t, s, cut, r) && r <= cut
    decreases |t| + 1 - from
  {
    var start := Find(t, s, from);
    if start == -1 then cut
    else if start < cut < start + |s| then
      assert Straddles(t, s, start, cut);
      start
    else MoveCut(t, s, cut, start + 1)
  }

  lemma MovedOnce(t: string, s: string, cut: int, a: int, b: int)
    requires MovedTo(t, s, cut, a) && MovedTo(t, s, cut, b)
    ensures a == b
  {
    if i :| Straddles(t, s, i, cut) {
      assert Straddles(t, s, a, cut) && Straddles(t, s, b, cut);
    }
  }

  predicate AllNonEmpty(secrets: seq<string>) {
    forall i :: 0 <= i < |secrets| ==> secrets[i] != ""
  }

  /** Each secret in turn may move the cut back. */
  function CutPoint(all: string, secrets: seq<string>, cut: nat): (r: nat)
    requires AllNonEmpty(secrets)
    ensures r <= cut
  {
    if secrets == [] then cut
    else MoveCut(all, secrets[|secrets| - 1], CutPoint(all, secrets[..|secrets| - 1], cut), 0)
  }

  lemma CutPointNext(all: string, secrets: seq<string>, cut: nat, k: nat)
    requires AllNonEmpty(secrets) && k < |secrets|
    ensures CutPoint(all, secrets[..k + 1], cut) == MoveCut(all, secrets[k], CutPoint(all, secrets[..k], cut), 0)
  {
    assert secrets[..k + 1][..k] == secrets[..k];
  }

  class SafeTextBuffer {
    const secrets: seq<string>
    const lookahead: nat
    const enabled: bool
    const clean: string -> string
    var pending: string

    constructor (secrets: seq<string>, clean: string -> string)
      ensures this.secrets == NonEmpty(secrets) && AllNonEmpty(this.secrets)
      ensures lookahead == Lookahead(this.secrets) && enabled == (lookahead <= 65_536)
      ensures this.clean == clean && pending == ""
    {
      var kept: seq<string>, longest: nat := [], 0;
      for i := 0 to |secrets|
        invariant kept == NonEmpty(secrets[..i]) && AllNonEmpty(kept)
        invariant longest == Lookahead(kept)
      {
        assert secrets[..i + 1][..i] == secrets[..i];
        if secrets[i] != "" {
          assert (kept + [secrets[i]])[..|kept|] == kept;
          kept := kept + [secrets[i]];
          longest := Max(longest, |secrets[i]| - 1);
        }
      }
      assert secrets[..|secrets|] == secrets;
      this.secrets := kept;
      lookahead := longest;
      enabled := longest <= LARGEST_LOOKAHEAD;
      this.clean := clean;
      pending := "";
    }

    /** Move the cut back to the first occurrence of the secret that it would fall into. */
    static method MoveOnce(all: string, secret: string, cut: nat) returns (moved: nat)
      requires secret != ""
      ensures moved == MoveCut(all, secret, cut, 0)
    {
      moved := cut;
      var start := Find(all, secret, 0);
      while start >= 0
        invariant moved == cut
        invariant start == -1 || OccursAt(all, secret, start)
        invariant forall i :: Straddles(all, secret, i, cut) ==> start != -1 && start <= i
        decreases if start == -1 then 0 else |all| + 1 - start
      {
        if start < cut < start + |secret| {
          assert Straddles(all, secret, start, cut);
          moved := start;
          break;
        }
        start := Find(all, secret, start + 1);
      }
      MovedOnce(all, secret, cut, moved, MoveCut(all, secret, cut, 0));
    }

    /** Let each secret move the cut. */
    static method FindCut(all: string, secrets: seq<string>, first: nat) returns (cut: nat)
      requires AllNonEmpty(secrets)
      ensures cut == CutPoint(all, secrets, first)
    {
      cut := first;
      for k := 0 to |secrets|
        invariant cut == CutPoint(all, secrets[..k], first)
      {
        hide CutPoint, MoveCut;
        CutPointNext(all, secrets, first, k);
        cut := MoveOnce(all, secrets[k], cut);
      }
      assert secrets[..|secrets|] == secrets;
    }

    /** Release the text that no later chunk can turn into part of a secret; keep the rest. */
    method Feed(text: string, final: bool) returns (out: string)
      requires AllNonEmpty(secrets)
      modifies this`pending
      ensures !enabled ==> out == "" && pending == old(pending)
      ensures enabled ==>
        var all := old(pending) + text;
        var cut := CutPoint(all, secrets, FirstCut(all, lookahead, final));
        out == clean(all[..cut]) && pending == all[cut..]
    {
      if !enabled {
        return "";
      }
      pending := pending + text;
      var cut := FindCut(pending, secrets, if final then |pending| else Max(0, |pending| - lookahead));
      var safe := pending[..cut];
      pending := pending[cut..];
      out := clean(safe);
    }
  }

  // ---------------------------------------------------------------- one secret

  /** What is released, and what is kept, when one secret is watched for. */
  function SafeCut(s: string, all: string): nat
    requires s != ""
  {
    MoveCut(all, s, FirstCut(all, |s| - 1, false), 0)
  }

  function Concat(chunks: seq<string>): string {
    if chunks == [] then "" else chunks[0] + Concat(chunks[1..])
  }

  /** The outputs of feeding the chunks one by one, then `last` as the final chunk. */
  function Streamed(s: string, pending: string, chunks: seq<string>, last: string): string
    requires s != ""
    decreases |chunks|
  {
    if chunks == [] then Replace(pending + last, s)
    else
      var all := pending + chunks[0];
      var cut := SafeCut(s, all);
      Replace(all[..cut], s) + Streamed(s, all[cut..], chunks[1..], last)
  }

  /** Where the stream is cut, as offsets into the whole text. */
  function Cuts(s: string, pending: string, offset: nat, chunks: seq<string>): seq<nat>
    requires s != ""
    decreases |chunks|
  {
    if chunks == [] then []
    else
      var all := pending + chunks[0];
      var cut := SafeCut(s, all);
      [offset + cut] + Cuts(s, all[cut..], offset + cut, chunks[1..])
  }

  predicate Border(s: string, k: int) {
    0 < k < |s| && s[..k] == s[|s| - k..]
  }

  /** No proper prefix of the secret is also a suffix of it. */
  ghost predicate BorderFree(s: string) {
    forall k :: !Border(s, k)
  }

  ghost predicate Clear(t: string, s: string, cut: int) {
    forall i :: !Straddles(t, s, i, cut)
  }

  /** After a feed that is not final, at most twice the lookahead is held back. */
  lemma PendingIsBounded(s: string, all: string)
    requires s != ""
    ensures SafeCut(s, all) <= |all|
    ensures |all[SafeCut(s, all)..]| <= 2 * (|s| - 1)
  {
  }

  /** Two overlapping occurrences would give the secret a border. */
  lemma OverlapIsBorder(t: string, s: string, i: int, j: int)
    requires OccursAt(t, s, i) && OccursAt(t, s, j) && i < j < i + |s|
    ensures Border(s, |s| - (j - i))
  {
    var d := j - i;
    assert s[d..] == t[i..i + |s|][d..] == t[j..i + |s|];
    assert s[..|s| - d] == t[j..j + |s|][..|s| - d] == t[j..i + |s|];
  }

  /** A continuation of the text does not change what occurs within the part already seen. */
  lemma LocalOccurrence(a: string, b: string, s: string, i: nat)
    requires i + |s| <= |a|
    ensures OccursAt(a + b, s, i) <==> OccursAt(a, s, i)
  {
    assert (a + b)[i..i + |s|] == a[i..i + |s|];
  }

  lemma ShiftedOccurrence(a: string, b: string, s: string, i: nat)
    ensures OccursAt(a + b, s, |a| + i) <==> OccursAt(b, s, i)
  {
    if i + |s| <= |b| {
      assert (a + b)[|a| + i..|a| + i + |s|] == b[i..i + |s|];
    }
  }

  /** A cut that is clear in the text seen so far is clear in every continuation of it. */
  lemma CutIsClear(s: string, all: string, rest: string)
    requires s != "" && BorderFree(s)
    ensures SafeCut(s, all) <= |all| && Clear(all + rest, s, SafeCut(s, all))
  {
    var cut := SafeCut(s, all);
    var first := FirstCut(all, |s| - 1, false);
    forall i | 0 <= i < cut < i + |s|
      ensures !Straddles(all + rest, s, i, cut)
    {
      LocalOccurrence(all, rest, s, i);
      if Straddles(all, s, cut, first) {
        NoOverlap(all, s, i, cut);
      } else {
        assert !Straddles(all, s, i, first);
      }
    }
  }

  lemma NoOverlap(t: string, s: string, i: int, j: int)
    requires BorderFree(s) && OccursAt(t, s, j) && i < j < i + |s|
    ensures !OccursAt(t, s, i)
  {
    if OccursAt(t, s, i) {
      OverlapIsBorder(t, s, i, j);
    }
  }

  /** A cut clear in a text is clear in the text after any common prefix before the cut. */
  lemma ClearSuffix(a: string, b: string, s: string, cut: int)
    requires Clear(a + b, s, |a| + cut)
    ensures Clear(b, s, cut)
  {
    forall i: nat ensures !Straddles(b, s, i, cut) {
      ShiftedOccurrence(a, b, s, i);
      assert !Straddles(a + b, s, |a| + i, |a| + cut);
    }
  }

  /** Text may be redacted in two parts wherever no occurrence lies across the cut. */
  lemma {:induction false} ReplaceSplits(a: string, b: string, s: string)
    requires s != "" && Clear(a + b, s, |a|)
    ensures Replace(a + b, s) == Replace(a, s) + Replace(b, s)
    decreases |a|
  {
    if a == "" {
      assert a + b == b;
    } else {
      assert !Straddles(a + b, s, 0, |a|);
      var n := if OccursAt(a + b, s, 0) then |s| else 1;
      if |s| <= |a| {
        LocalOccurrence(a, b, s, 0);
      }
      assert a + b == a[..n] + (a[n..] + b);
      ClearSuffix(a[..n], a[n..] + b, s, |a| - n);
      ReplaceSplits(a[n..], b, s);
      assert (a + b)[n..] == a[n..] + b;
    }
  }

  lemma ReplaceAtCut(s: string, all: string, rest: string)
    requires s != "" && BorderFree(s)
    ensures var cut := SafeCut(s, all);
            Replace(all[..cut], s) + Replace(all[cut..] + rest, s) == Replace(all + rest, s)
  {
    var cut := SafeCut(s, all);
    CutIsClear(s, all, rest);
    assert all + rest == all[..cut] + (all[cut..] + rest);
    ReplaceSplits(all[..cut], all[cut..] + rest, s);
  }

  /** From any pending text on, the stream of outputs is the batch redaction of what remains. */
  lemma {:induction false} StreamingEqualsBatch(s: string, pending: string, chunks: seq<string>, last: string)
    requires s != "" && BorderFree(s)
    ensures Streamed(s, pending, chunks, last) == Replace(pending + Concat(chunks) + last, s)
    decreases |chunks|
  {
    if chunks == [] {
      assert pending + Concat(chunks) == pending;
    } else {
      var all, tail := pending + chunks[0], Concat(chunks[1..]);
      var cut := SafeCut(s, all);
      assert pending + Concat(chunks) + last == all + (tail + last);
      assert all[cut..] + tail + last == all[cut..] + (tail + last);
      StreamingEqualsBatch(s, all[cut..], chunks[1..], last);
      ReplaceAtCut(s, all, tail + last);
    }
  }

  /** A cut in the rest of the text, seen as an offset into the whole text. */
  lemma ClearWhole(a: string, b: string, s: string, cut: nat)
    requires Clear(a + b, s, |a|) && Clear(b, s, cut)
    ensures Clear(a + b, s, |a| + cut)
  {
    var whole, at := a + b, |a| + cut;
    forall i: nat ensures !Straddles(whole, s, i, at) {
      if i < |a| {
        assert !Straddles(whole, s, i, |a|);
      } else {
        ShiftedOccurrence(a, b, s, i - |a|);
        assert !Straddles(b, s, i - |a|, cut);
      }
    }
  }

  /** No cut of a stream falls inside an occurrence of the secret in the whole text. */
  lemma {:induction false} CutsAvoidOccurrences(
    s: string, emitted: string, pending: string, chunks: seq<string>, last: string)
    requires s != "" && BorderFree(s)
    requires Clear(emitted + (pending + Concat(chunks) + last), s, |emitted|)
    ensures forall c :: c in Cuts(s, pending, |emitted|, chunks) ==>
              Clear(emitted + (pending + Concat(chunks) + last), s, c)
    decreases |chunks|
  {
    if chunks != [] {
      var all := pending + chunks[0];
      var cut := SafeCut(s, all);
      var rest := Concat(chunks[1..]) + last;
      var text := emitted + (pending + Concat(chunks) + last);
      assert pending + Concat(chunks) + last == all + rest;
      CutIsClear(s, all, rest);
      ClearWhole(emitted, all + rest, s, cut);
      var emitted' := emitted + all[..cut];
      assert text == emitted' + (all[cut..] + Concat(chunks[1..]) + last);
      CutsAvoidOccurrences(s, emitted', all[cut..], chunks[1..], last);
    }
  }

  // ---------------------------------------------------------------- what a client sees

  /** The outputs of feeding the chunks, without a final flush. */
  function Released(s: string, pending: string, chunks: seq<string>): string
    requires s != ""
    decreases |chunks|
  {
    if chunks == [] then ""
    else
      var all := pending + chunks[0];
      Replace(all[..SafeCut(s, all)], s) + Released(s, all[SafeCut(s, all)..], chunks[1..])
  }

  /** What is still held back after the chunks. */
  function HeldBack(s: string, pending: string, chunks: seq<string>): string
    requires s != ""
    decreases |chunks|
  {
    if chunks == [] then pending
    else
      var all := pending + chunks[0];
      HeldBack(s, all[SafeCut(s, all)..], chunks[1..])
  }

  lemma {:induction false} FlushCompletes(s: string, pending: string, chunks: seq<string>, last: string)
    requires s != ""
    ensures Streamed(s, pending, chunks, last)
         == Released(s, pending, chunks) + Replace(HeldBack(s, pending, chunks) + last, s)
    decreases |chunks|
  {
    if chunks != [] {
      var all := pending + chunks[0];
      FlushCompletes(s, all[SafeCut(s, all)..], chunks[1..], last);
    }
  }

  /** Whatever text is still to come, a preview shows a prefix of its batch redaction. */
  lemma PreviewIsPrefix(s: string, chunks: seq<string>, rest: string)
    requires s != "" && BorderFree(s)
    ensures Released(s, "", chunks) <= Replace(Concat(chunks) + rest, s)
  {
    hide BorderFree, Replace, Released, Streamed, Concat;
    StreamingEqualsBatch(s, "", chunks, rest);
    FlushCompletes(s, "", chunks, rest);
    assert "" + Concat(chunks) + rest == Concat(chunks) + rest;
  }

  /** One watched secret, the only way the program builds a buffer. */
  lemma OneSecret(s: string, all: string)
    requires s != ""
    ensures NonEmpty([s]) == [s] && Lookahead([s]) == |s| - 1 && AllNonEmpty([s])
    ensures CutPoint(all, [s], FirstCut(all, |s| - 1, false)) == SafeCut(s, all)
  {
    assert [s][..0] == [];
  }

  lemma OneSecretCleans(s: string, t: string)
    requires s != ""
    ensures Normalize(t, [s]) == Replace(t, s)
  {
    assert [s][..0] == [];
  }

  lemma NoSecret(all: string)
    ensures NonEmpty([""]) == [] && Lookahead([]) == 0
    ensures CutPoint(all, [], FirstCut(all, 0, false)) == |all|
    ensures Normalize(all, [""]) == all
  {
    assert [""][..0] == [];
  }

  ghost predicate Watches(buffer: SafeTextBuffer, apiKey: string)
    reads buffer
  {
    && buffer.secrets == NonEmpty([apiKey]) && AllNonEmpty(buffer.secrets)
    && (apiKey == "" ==> buffer.pending == "")
    && buffer.lookahead == Lookahead(buffer.secrets)
    && buffer.enabled == (buffer.lookahead <= LARGEST_LOOKAHEAD)
    && (forall t :: buffer.clean(t) == Normalize(t, [apiKey]))
  }

  /** What the preview shows for deltas still to come: nothing if disabled, all if nothing is secret. */
  function Preview(apiKey: string, pending: string, deltas: seq<string>): string {
    if apiKey == "" then Concat(deltas)
    else if |apiKey| - 1 > LARGEST_LOOKAHEAD then ""
    else Released(apiKey, pending, deltas)
  }

  /** One delta's contribution to the preview, and the text then pending. */
  function Delta(apiKey: string, pending: string, delta: string): (string, string) {
    if apiKey == "" then (delta, "")
    else if |apiKey| - 1 > LARGEST_LOOKAHEAD then ("", pending)
    else
      var all := pending + delta;
      (Replace(all[..SafeCut(apiKey, all)], apiKey), all[SafeCut(apiKey, all)..])
  }

  lemma PreviewStep(apiKey: string, pending: string, deltas: seq<string>)
    requires deltas != []
    ensures var (out, next) := Delta(apiKey, pending, deltas[0]);
            Preview(apiKey, pending, deltas) == out + Preview(apiKey, next, deltas[1..])
  {
  }

  method FeedDelta(buffer: SafeTextBuffer, apiKey: string, delta: string) returns (out: string)
    requires Watches(buffer, apiKey)
    modifies buffer`pending
    ensures Watches(buffer, apiKey)
    ensures (out, buffer.pending) == Delta(apiKey, old(buffer.pending), delta)
  {
    ghost var all := buffer.pending + delta;
    if apiKey == "" {
      NoSecret(all);
      assert all == delta && all[..|all|] == all;
    } else {
      OneSecret(apiKey, all);
      OneSecretCleans(apiKey, all[..SafeCut(apiKey, all)]);
    }
    out := buffer.Feed(delta, false);
  }

  /** The loop that turns text deltas into a preview; a failed stream is never flushed. */
  method PreviewStream(apiKey: string, deltas: seq<string>) returns (shown: string)
    ensures shown == Preview(apiKey, "", deltas)
  {
    var buffer := new SafeTextBuffer([apiKey], text => Normalize(text, [apiKey]));
    if apiKey == "" {
      NoSecret("");
    } else {
      OneSecret(apiKey, "");
    }
    shown := "";
    for i := 0 to |deltas|
      invariant Watches(buffer, apiKey)
      invariant shown + Preview(apiKey, buffer.pending, deltas[i..]) == Preview(apiKey, "", deltas)
    {
      PreviewStep(apiKey, buffer.pending, deltas[i..]);
      assert deltas[i..][1..] == deltas[i + 1..];
      var out := FeedDelta(buffer, apiKey, deltas[i]);
      shown := shown + out;
    }
    assert deltas[|deltas|..] == [];
  }

  // ---------------------------------------------------------------- the condition is needed

  ghost predicate LongestBorderIs(s: string, k: int) {
    Border(s, k) && forall j :: j > k ==> !Border(s, j)
  }

  /** The secret, itself again at the shift of its border, and a filler. */
  function Witness(s: string, k: int, filler: string): string
    requires Border(s, k)
  {
    s + (s[k..] + filler)
  }

  lemma LongestBorder(s: string) returns (k: int)
    requires !BorderFree(s)
    ensures LongestBorderIs(s, k)
  {
    ghost var b :| Border(s, b);
    k := |s| - 1;
    while !Border(s, k)
      invariant b <= k && forall j :: j > k ==> !Border(s, j)
      decreases k
    {
      k := k - 1;
    }
  }

  lemma {:induction false} ShortTextUnchanged(t: string, s: string)
    requires |t| < |s|
    ensures Replace(t, s) == t
  {
    if t != "" {
      ShortTextUnchanged(t[1..], s);
    }
  }

  /** A bordered secret continues into a second occurrence of itself. */
  lemma BorderOverlaps(s: string, k: int, filler: string)
    requires Border(s, k)
    ensures Witness(s, k, filler) == s[..|s| - k] + (s + filler)
  {
    assert s == s[..|s| - k] + s[..k] && s == s[..k] + s[k..];
  }

  /**
   * A bordered secret, followed by itself at the shift of its longest border and by any filler, is cut
   * inside its first occurrence when the text arrives as one chunk.
   */
  lemma BorderedCut(s: string, k: int, filler: string)
    requires LongestBorderIs(s, k) && |filler| == k - 1
    ensures var text, p := Witness(s, k, filler), |s| - k;
            && SafeCut(s, text) == p && Straddles(text, s, 0, p)
            && text[..p] == s[..p] && text[p..] == s + filler
  {
    var text, m, p := Witness(s, k, filler), |s|, |s| - k;
    BorderOverlaps(s, k, filler);
    assert FirstCut(text, m - 1, false) == m;
    assert text[p..][..m] == text[p..p + m] == s;
    assert Straddles(text, s, p, m);
    assert text[0..m] == s;
    forall i | Straddles(text, s, i, m) ensures p <= i {
      OverlapIsBorder(text, s, 0, i);
    }
    MovedOnce(text, s, m, SafeCut(s, text), p);
  }

  ghost predicate SafelyCut(s: string, chunks: seq<string>, last: string)
    requires s != ""
  {
    forall c :: c in Cuts(s, "", 0, chunks) ==> Clear(Concat(chunks) + last, s, c)
  }

  lemma BorderFreeIsSafelyCut(s: string, chunks: seq<string>, last: string)
    requires s != "" && BorderFree(s)
    ensures SafelyCut(s, chunks, last)
  {
    assert "" + ("" + Concat(chunks) + last) == Concat(chunks) + last;
    assert Clear(Concat(chunks) + last, s, 0);
    CutsAvoidOccurrences(s, "", "", chunks, last);
  }

  lemma CutInside(s: string, chunks: seq<string>, last: string, i: int, c: nat)
    requires s != "" && c in Cuts(s, "", 0, chunks)
    requires Straddles(Concat(chunks) + last, s, i, c)
    ensures !SafelyCut(s, chunks, last)
  {
    assert !Clear(Concat(chunks) + last, s, c);
  }

  lemma BorderedIsCut(s: string) returns (text: string)
    requires s != "" && !BorderFree(s)
    ensures !SafelyCut(s, [text], "")
  {
    hide Streamed, Replace, Concat, Cuts, SafeCut, Straddles, SafelyCut;
    var k := LongestBorder(s);
    text := Witness(s, k, s[..k - 1]);
    BorderedCut(s, k, s[..k - 1]);
    OneChunk(s, text, "");
    assert text + "" == text;
    CutInside(s, [text], "", 0, |s| - k);
  }

  /** No cut ever falls inside an occurrence, for every chunking, exactly when the secret has no border. */
  lemma SplitSafety(s: string)
    requires s != ""
    ensures BorderFree(s) <==> forall chunks, last :: SafelyCut(s, chunks, last)
  {
    if BorderFree(s) {
      forall chunks, last ensures SafelyCut(s, chunks, last) {
        BorderFreeIsSafelyCut(s, chunks, last);
      }
    } else {
      var text := BorderedIsCut(s);
    }
  }

  lemma OneChunk(s: string, text: string, last: string)
    requires s != ""
    ensures Concat([text]) == text
    ensures Cuts(s, "", 0, [text]) == [SafeCut(s, text)]
    ensures Streamed(s, "", [text], last)
         == Replace(text[..SafeCut(s, text)], s) + Replace(text[SafeCut(s, text)..] + last, s)
  {
    assert "" + text == text && text + "" == text;
    assert Cuts(s, text[SafeCut(s, text)..], 0 + SafeCut(s, text), []) == [];
  }

  ghost predicate StreamsLikeBatch(s: string, chunks: seq<string>, last: string)
    requires s != ""
  {
    Streamed(s, "", chunks, last) == Replace(Concat(chunks) + last, s)
  }

  lemma ReplaceFront(s: string, rest: string)
    requires s != ""
    ensures Replace(s + rest, s) == MASK + Replace(rest, s)
  {
    assert OccursAt(s + rest, s, 0) && (s + rest)[|s|..] == rest;
  }

  /** What the cut inside the first occurrence shows. */
  lemma CutShows(s: string, k: int, filler: string, last: string)
    requires LongestBorderIs(s, k) && |filler| == k - 1
    ensures Streamed(s, "", [Witness(s, k, filler)], last)
         == s[..|s| - k] + (MASK + Replace(filler + last, s))
  {
    BorderedCut(s, k, filler);
    OneChunk(s, Witness(s, k, filler), last);
    ShortTextUnchanged(s[..|s| - k], s);
    Associate(s, filler, last);
    ReplaceFront(s, filler + last);
  }

  /** What batch redaction shows of the same text. */
  lemma BatchShows(s: string, k: int, filler: string, last: string)
    requires Border(s, k)
    ensures Replace(Concat([Witness(s, k, filler)]) + last, s)
         == MASK + Replace(s[k..] + (filler + last), s)
  {
    OneChunk(s, Witness(s, k, filler), last);
    BorderOverlaps(s, k, filler);
    Associate(s, s[k..] + filler, last);
    Associate(s[k..], filler, last);
    ReplaceFront(s, s[k..] + (filler + last));
  }

  /** The mask can be moved to the front of a text only if the text starts with it. */
  lemma MaskMoves(x: string, y: string)
    requires x != "" && x + MASK == MASK + y
    ensures MASK <= x && y == x[|MASK|..] + MASK
  {
    assert (x + MASK)[|MASK| - 1] == (MASK + y)[|MASK| - 1] == ']';
    assert |x| >= |MASK|;
    assert x == (x + MASK)[..|x|] && MASK == (MASK + y)[..|MASK|];
    assert y == (MASK + y)[|MASK|..] == (x + MASK)[|MASK|..];
  }

  lemma {:induction false} ReplaceNoLonger(t: string, s: string)
    requires |s| >= |MASK|
    ensures |Replace(t, s)| <= |t|
  {
    if t != "" {
      if OccursAt(t, s, 0) {
        ReplaceNoLonger(t[|s|..], s);
      } else {
        ReplaceNoLonger(t[1..], s);
      }
    }
  }

  lemma {:induction false} OccurrenceShortens(t: string, s: string, i: nat)
    requires |s| > |MASK| && OccursAt(t, s, i)
    ensures |Replace(t, s)| < |t|
  {
    if OccursAt(t, s, 0) {
      ReplaceNoLonger(t[|s|..], s);
    } else {
      assert t[1..][i - 1..i - 1 + |s|] == t[i..i + |s|];
      OccurrenceShortens(t[1..], s, i - 1);
    }
  }

  /** If the plain witness does not tell the two apart, the secret starts with the mask at its shift. */
  lemma PlainWitness(s: string, k: int)
    requires LongestBorderIs(s, k) && StreamsLikeBatch(s, [Witness(s, k, s[..k - 1])], "")
    ensures MASK <= s[..|s| - k] && s[k..] == s[..|s| - k][|MASK|..] + MASK && |s| > |MASK|
  {
    var x, y, filler := s[..|s| - k], s[k..], s[..k - 1];
    CutShows(s, k, filler, "");
    BatchShows(s, k, filler, "");
    assert filler + "" == filler;
    ShortTextUnchanged(filler, s);
    ShortTextUnchanged(y + filler, s);
    Associate(x, MASK, filler);
    Associate(MASK, y, filler);
    assert x + MASK == ((x + MASK) + filler)[..|x| + |MASK|] == ((MASK + y) + filler)[..|x| + |MASK|] == MASK + y;
    MaskMoves(x, y);
  }

  lemma MaskedLengths(s: string, k: int, w: string)
    requires 0 < k < |s| && s == MASK + w
    requires MASK <= s[..|s| - k] && s[k..] == s[..|s| - k][|MASK|..] + MASK
    ensures Replace(w, s) == w && |Replace(s[k..] + w, s)| < |s[k..] + w|
  {
    var rest := s[..|s| - k][|MASK|..];
    ShortTextUnchanged(w, s);
    Associate(rest, MASK, w);
    assert (rest + s)[|rest|..|rest| + |s|] == s;
    OccurrenceShortens(rest + s, s, |rest|);
  }

  /** Then the part after the mask, once more, tells them apart: one masks an occurrence the other has cut. */
  lemma MaskedWitness(s: string, k: int, w: string)
    requires LongestBorderIs(s, k) && s == MASK + w && k <= |w|
    requires MASK <= s[..|s| - k] && s[k..] == s[..|s| - k][|MASK|..] + MASK
    ensures !StreamsLikeBatch(s, [Witness(s, k, w[..k - 1])], w[k - 1..])
  {
    hide Streamed, Replace, Concat, Witness;
    CutShows(s, k, w[..k - 1], w[k - 1..]);
    BatchShows(s, k, w[..k - 1], w[k - 1..]);
    assert w[..k - 1] + w[k - 1..] == w;
    MaskedLengths(s, k, w);
  }

  lemma BorderedDiffers(s: string) returns (text: string, last: string)
    requires s != "" && !BorderFree(s)
    ensures !StreamsLikeBatch(s, [text], last)
  {
    var k := LongestBorder(s);
    text, last := Witness(s, k, s[..k - 1]), "";
    if StreamsLikeBatch(s, [text], "") {
      PlainWitness(s, k);
      var w := s[|MASK|..];
      MaskedWitness(s, k, w);
      text, last := Witness(s, k, w[..k - 1]), w[k - 1..];
    }
  }

  /** For every secret, streaming is batch redaction for every chunking exactly when it has no border. */
  lemma StreamingExact(s: string)
    requires s != ""
    ensures BorderFree(s) <==> forall chunks, last :: StreamsLikeBatch(s, chunks, last)
  {
    if BorderFree(s) {
      forall chunks, last ensures StreamsLikeBatch(s, chunks, last) {
        StreamingEqualsBatch(s, "", chunks, last);
        assert "" + Concat(chunks) + last == Concat(chunks) + last;
      }
    } else {
      var text, last := BorderedDiffers(s);
    }
  }

  lemma AbaCut()
    ensures SafeCut("aba", "ababa") == 2
  {
    var s, t := "aba", "ababa";
    assert FirstCut(t, 2, false) == 3;
    assert t[2..5] == s && t[1..4][0] != s[0];
    assert Straddles(t, s, 2, 3) && !Straddles(t, s, 1, 3);
    MovedOnce(t, s, 3, SafeCut(s, t), 2);
  }

  lemma AbaBatch()
    ensures Replace("ababa", "aba") == MASK + "ba"
    ensures Replace("aba", "aba") == MASK
  {
    ShortTextUnchanged("ba", "aba");
    assert OccursAt("ababa", "aba", 0) && "ababa"[3..] == "ba";
    assert OccursAt("aba", "aba", 0) && "aba"[3..] == "";
  }

  /** The counterexample of a secret `aba` met in `ababa`. */
  lemma AbaStreamsDifferently()
    ensures Streamed("aba", "", ["ababa"], "") == "ab" + MASK
    ensures Replace("ababa", "aba") == MASK + "ba"
  {
    AbaCut();
    AbaBatch();
    OneChunk("aba", "ababa", "");
    ShortTextUnchanged("ab", "aba");
    assert "ababa"[..2] == "ab" && "ababa"[2..] + "" == "aba";
  }
}
