/** Fitting the output of failed checks into the feedback for the next repair round. */
module Feedback {
  import opened Common

  const FEEDBACK_LIMIT := 12000

  datatype Outcome = Outcome(content: string, failed: bool)

  /** What the feedback shows of one check. */
  datatype Excerpt = Excerpt(head: string, tail: string, omitted: nat)

  // ---------------------------------------------------------------- sizes

  /** Characters a character takes inside a JSON string that keeps non-ASCII text. */
  function Width(c: char): nat {
    if c == '"' || c == '\\' then 2
    else if c == '\n' || c == '\r' || c == '\t' || c as int == 8 || c as int == 12 then 2
    else if c as int < 32 then 6
    else 1
  }

  function Escaped(s: string): nat {
    if s == "" then 0 else Escaped(s[..|s| - 1]) + Width(s[|s| - 1])
  }

  function HexDigit(n: nat): char
    requires n < 16
  {
    "0123456789abcdef"[n]
  }

  /** A character inside a JSON string that keeps non-ASCII text, as section 7 of RFC 8259 allows it. */
  function JsonChar(c: char): string {
    if c == '"' then ['\\', '"']
    else if c == '\\' then ['\\', '\\']
    else if c == '\n' then ['\\', 'n']
    else if c == '\r' then ['\\', 'r']
    else if c == '\t' then ['\\', 't']
    else if c as int == 8 then ['\\', 'b']
    else if c as int == 12 then ['\\', 'f']
    else if c as int < 32 then ['\\', 'u', '0', '0', HexDigit(c as int / 16), HexDigit(c as int % 16)]
    else [c]
  }

  function JsonText(s: string): string {
    if s == "" then "" else JsonText(s[..|s| - 1]) + JsonChar(s[|s| - 1])
  }

  /** The width counted for a text is the length of its JSON form. */
  lemma {:induction false} EscapedIsJsonLength(s: string)
    ensures Escaped(s) == |JsonText(s)|
  {
    if s != "" {
      EscapedIsJsonLength(s[..|s| - 1]);
    }
  }

  function ExcerptSize(x: Excerpt): nat {
    Escaped(x.head) + Escaped(x.tail) + |Decimal(x.omitted)|
  }

  function SizeOf(checks: seq<Excerpt>): nat {
    if checks == [] then 0 else SizeOf(checks[..|checks| - 1]) + ExcerptSize(checks[|checks| - 1])
  }

  /** The serialized feedback: `fixed` characters besides the excerpts and their counts. */
  function Size(fixed: nat, checks: seq<Excerpt>): nat {
    fixed + SizeOf(checks)
  }

  function Head(content: string, kept: nat): string
    requires kept <= |content|
  {
    content[..(kept + 1) / 2]
  }

  function Tail(content: string, kept: nat): string
    requires kept <= |content|
  {
    content[|content| - kept / 2..]
  }

  function Cost(content: string, kept: nat): nat
    requires kept <= |content|
  {
    Escaped(Head(content, kept)) + Escaped(Tail(content, kept))
  }

  predicate Fits(content: string, kept: nat, allowance: int) {
    kept <= |content| && Cost(content, kept) <= allowance
  }

  /** The largest number up to `bound` that fits, or 0. */
  function Largest(fits: nat -> bool, bound: nat): (kept: nat)
    ensures kept <= bound
  {
    if bound == 0 || fits(bound) then bound else Largest(fits, bound - 1)
  }

  /** The most characters whose excerpt fits, searched for up to the allowance. */
  function Kept(content: string, allowance: int): (kept: nat)
    ensures kept <= |content|
  {
    Largest(FitTest(content, allowance), Max(0, Min(|content|, allowance)))
  }

  function FitTest(content: string, allowance: int): nat -> bool {
    (k: nat) => Fits(content, k, allowance)
  }

  lemma {:induction false} EscapedJoins(a: string, b: string)
    ensures Escaped(a + b) == Escaped(a) + Escaped(b)
  {
    if b == "" {
      assert a + b == a;
    } else {
      var n := |b| - 1;
      EscapedJoins(a, b[..n]);
      assert (a + b)[..|a + b| - 1] == a + b[..n];
    }
  }

  lemma {:induction false} EscapedAtLeast(s: string)
    ensures Escaped(s) >= |s|
  {
    if s != "" {
      EscapedAtLeast(s[..|s| - 1]);
    }
  }

  lemma HeadGrows(content: string, kept: nat)
    requires kept < |content| && kept % 2 == 0
    ensures Head(content, kept + 1) == Head(content, kept) + [content[kept / 2]]
    ensures Tail(content, kept + 1) == Tail(content, kept)
  {
  }

  lemma TailGrows(content: string, kept: nat)
    requires kept < |content| && kept % 2 == 1
    ensures Tail(content, kept + 1) == [content[|content| - kept / 2 - 1]] + Tail(content, kept)
    ensures Head(content, kept + 1) == Head(content, kept)
  {
  }

  /** Keeping one more character lengthens the head or the tail by it. */
  lemma CostGrows(content: string, kept: nat)
    requires kept < |content|
    ensures CostOf(content)(kept) < CostOf(content)(kept + 1)
  {
    if kept % 2 == 0 {
      HeadGrows(content, kept);
      EscapedJoins(Head(content, kept), [content[kept / 2]]);
      EscapedAtLeast([content[kept / 2]]);
    } else {
      TailGrows(content, kept);
      EscapedJoins([content[|content| - kept / 2 - 1]], Tail(content, kept));
      EscapedAtLeast([content[|content| - kept / 2 - 1]]);
    }
  }

  lemma {:induction false} Climbs(f: nat -> int, a: nat, b: nat)
    requires a <= b && forall k: nat :: a <= k < b ==> f(k) <= f(k + 1)
    ensures f(a) <= f(b)
    decreases b
  {
    if a < b {
      Climbs(f, a, b - 1);
    }
  }

  function CostOf(content: string): nat -> int {
    (k: nat) => if k <= |content| then Cost(content, k) else 0
  }

  /** What is shorter than something that fits, fits too. */
  lemma FitsDownward(content: string, allowance: int, a: nat, b: nat)
    requires a <= b && Fits(content, b, allowance)
    ensures Fits(content, a, allowance)
  {
    var cost := CostOf(content);
    forall k: nat | a <= k < b ensures cost(k) <= cost(k + 1) {
      CostGrows(content, k);
    }
    Climbs(cost, a, b);
    assert cost(a) == Cost(content, a) && cost(b) == Cost(content, b);
  }

  lemma CostAtLeast(content: string, kept: nat)
    requires kept <= |content|
    ensures Cost(content, kept) >= kept
  {
    EscapedAtLeast(Head(content, kept));
    EscapedAtLeast(Tail(content, kept));
  }

  lemma {:induction false} LargestExact(fits: nat -> bool, bound: nat)
    ensures var kept := Largest(fits, bound);
            (kept > 0 ==> fits(kept)) && forall k: nat :: kept < k <= bound ==> !fits(k)
  {
    if bound > 0 && !fits(bound) {
      LargestExact(fits, bound - 1);
    }
  }

  /**
   * What is kept fits the allowance whenever it is not negative, and nothing longer fits, not even beyond
   * the bound the search starts from.
   */
  lemma KeptIsLargest(content: string, allowance: int)
    ensures var kept := Kept(content, allowance);
            && (allowance >= 0 ==> Fits(content, kept, allowance))
            && (allowance < 0 ==> kept == 0)
            && forall k: nat :: kept < k ==> !Fits(content, k, allowance)
  {
    var bound := Max(0, Min(|content|, allowance));
    LargestExact(FitTest(content, allowance), bound);
    var kept := Kept(content, allowance);
    forall k: nat | kept < k ensures !Fits(content, k, allowance) {
      if bound < k <= |content| {
        CostAtLeast(content, k);
      } else if k <= bound {
        assert !FitTest(content, allowance)(k);
      }
    }
    assert kept > 0 ==> FitTest(content, allowance)(kept);
  }

  /** The binary search of the fitting loop, for anything that fits when something longer does. */
  method SearchLargest(fits: nat -> bool, limit: int) returns (kept: nat)
    requires forall a: nat, b: nat :: a <= b && fits(b) ==> fits(a)
    ensures kept == Largest(fits, Max(0, limit))
  {
    var lower: int, upper: int := 0, limit;
    while lower < upper
      invariant 0 <= lower <= Max(0, limit) && upper <= limit && (lower <= upper || lower == 0)
      invariant lower > 0 ==> fits(lower)
      invariant forall k: nat :: Max(0, upper) < k <= limit ==> !fits(k)
      decreases upper - lower
    {
      var middle: nat := (lower + upper + 1) / 2;
      if fits(middle) {
        lower := middle;
      } else {
        upper := middle - 1;
      }
    }
    LargestExact(fits, Max(0, limit));
    kept := lower;
  }

  method Search(content: string, allowance: int) returns (kept: nat)
    ensures kept == Kept(content, allowance)
  {
    var fits := FitTest(content, allowance);
    forall a: nat, b: nat | a <= b && fits(b) ensures fits(a) {
      FitsDownward(content, allowance, a, b);
    }
    kept := SearchLargest(fits, Min(|content|, allowance));
  }

  // ---------------------------------------------------------------- the rounds

  function Blank(o: Outcome): Excerpt {
    Excerpt("", "", |o.content|)
  }

  function Excerpted(content: string, kept: nat): Excerpt
    requires kept <= |content|
  {
    Excerpt(Head(content, kept), Tail(content, kept), |content| - kept)
  }

  /** The longest excerpt that a share allows. */
  function Within(content: string, share: int): Excerpt {
    Excerpted(content, Kept(content, share))
  }

  method MakeExcerpt(content: string, share: int) returns (x: Excerpt)
    ensures x == Within(content, share)
  {
    var kept := Search(content, share);
    x := Excerpt(content[..(kept + 1) / 2], content[|content| - kept / 2..], |content| - kept);
  }

  function Skeleton(outcomes: seq<Outcome>): seq<Excerpt> {
    seq(|outcomes|, i requires 0 <= i < |outcomes| => Blank(outcomes[i]))
  }

  /** The failed checks, in order. */
  function Failed(outcomes: seq<Outcome>, n: nat): (failed: seq<nat>)
    requires n <= |outcomes|
    ensures forall i :: 0 <= i < |failed| ==> failed[i] < n && outcomes[failed[i]].failed
    ensures forall i, j :: 0 <= i < j < |failed| ==> failed[i] < failed[j]
  {
    if n == 0 then []
    else Failed(outcomes, n - 1) + if outcomes[n - 1].failed then [n - 1] else []
  }

  function AllFailed(outcomes: seq<Outcome>): seq<nat> {
    Failed(outcomes, |outcomes|)
  }

  /** Characters left in the feedback, with the whole of it measured by `size`. */
  function Left(size: seq<Excerpt> -> nat, checks: seq<Excerpt>): int {
    FEEDBACK_LIMIT - size(checks)
  }

  /** The length of the serialized feedback, with `fixed` characters besides the excerpts. */
  ghost predicate Serializes(size: seq<Excerpt> -> nat, fixed: nat) {
    forall checks :: size(checks) == Size(fixed, checks)
  }

  ghost predicate Turns(outcomes: seq<Outcome>, failed: seq<nat>) {
    && (forall i :: 0 <= i < |failed| ==> failed[i] < |outcomes|)
    && (forall i, j :: 0 <= i < j < |failed| ==> failed[i] < failed[j])
  }

  /** The excerpts once the first `n` failed checks have been shown within their shares. */
  function Shown(outcomes: seq<Outcome>, failed: seq<nat>, shares: seq<int>, n: nat): (checks: seq<Excerpt>)
    requires Turns(outcomes, failed) && n <= |failed| && n <= |shares|
    ensures |checks| == |outcomes|
  {
    if n == 0 then Skeleton(outcomes)
    else
      var content := outcomes[failed[n - 1]].content;
      Shown(outcomes, failed, shares, n - 1)[
        failed[n - 1] := Within(content, shares[n - 1])]
  }

  /** What is left before each turn, and after the last. */
  function Lefts(size: seq<Excerpt> -> nat, outcomes: seq<Outcome>, failed: seq<nat>, shares: seq<int>): seq<int>
    requires Turns(outcomes, failed) && |shares| <= |failed|
  {
    seq(|shares| + 1, n requires 0 <= n <= |shares| => Left(size, Shown(outcomes, failed, shares, n)))
  }

  /** `n` shares of the same size. */
  function Times(n: nat, share: int): int {
    if n == 0 then 0 else share + Times(n - 1, share)
  }

  /** The largest share that every check can have: what is left, divided by the checks and rounded down. */
  predicate IsShare(share: int, left: int, checks: nat) {
    checks > 0 && Times(checks, share) <= left < Times(checks, share + 1)
  }

  lemma {:induction false} TimesIsProduct(n: nat, share: int)
    ensures Times(n, share) == n * share
  {
    if n > 0 {
      TimesIsProduct(n - 1, share);
    }
  }

  lemma ShareIsQuotient(share: int, left: int, checks: nat)
    requires checks > 0
    ensures IsShare(share, left, checks) <==> share == left / checks
  {
    TimesIsProduct(checks, share);
    TimesIsProduct(checks, share + 1);
    var q := left / checks;
    assert checks * q <= left < checks * q + checks;
    if share < q {
      ProductGrows(checks, share + 1, q);
    } else if share > q {
      ProductGrows(checks, q + 1, share);
    }
  }

  lemma ProductGrows(n: nat, a: int, b: int)
    requires a <= b
    ensures n * a <= n * b
  {
  }

  method Divide(left: int, checks: nat) returns (share: int)
    requires checks > 0
    ensures IsShare(share, left, checks)
  {
    share := left / checks;
    ShareIsQuotient(share, left, checks);
  }

  /** Each share is what is left then, divided by the checks still to come and rounded down. */
  ghost predicate Even(lefts: seq<int>, shares: seq<int>, checks: nat) {
    && |lefts| == |shares| + 1 && |shares| <= checks
    && forall n :: 0 <= n < |shares| ==> IsShare(shares[n], lefts[n], checks - n)
  }

  lemma EvenGrows(lefts: seq<int>, shares: seq<int>, checks: nat, share: int, left: int)
    requires Even(lefts, shares, checks) && |shares| < checks
    requires IsShare(share, lefts[|shares|], checks - |shares|)
    ensures Even(lefts + [left], shares + [share], checks)
  {
  }

  lemma {:induction false} ShownEarlier(outcomes: seq<Outcome>, failed: seq<nat>, shares: seq<int>, more: int, n: nat)
    requires Turns(outcomes, failed) && n <= |shares| <= |failed|
    ensures Shown(outcomes, failed, shares + [more], n) == Shown(outcomes, failed, shares, n)
  {
    if n > 0 {
      ShownEarlier(outcomes, failed, shares, more, n - 1);
    }
  }

  /** One more turn shows one more excerpt and appends what it leaves. */
  lemma NextTurn(size: seq<Excerpt> -> nat, outcomes: seq<Outcome>, failed: seq<nat>, shares: seq<int>, a: int)
    requires Turns(outcomes, failed) && |shares| < |failed|
    ensures var content, n := outcomes[failed[|shares|]].content, |shares|;
            var after := Shown(outcomes, failed, shares, n)[failed[n] := Within(content, a)];
            && Shown(outcomes, failed, shares + [a], n + 1) == after
            && Lefts(size, outcomes, failed, shares + [a])
               == Lefts(size, outcomes, failed, shares) + [Left(size, after)]
  {
    ShownEarlier(outcomes, failed, shares, a, |shares|);
    var lefts, longer := Lefts(size, outcomes, failed, shares), Lefts(size, outcomes, failed, shares + [a]);
    forall n | 0 <= n <= |shares| ensures longer[n] == lefts[n] {
      ShownEarlier(outcomes, failed, shares, a, n);
    }
    AppendedLast(lefts, longer);
  }

  lemma AppendedLast(a: seq<int>, b: seq<int>)
    requires |b| == |a| + 1 && forall n :: 0 <= n < |a| ==> b[n] == a[n]
    ensures b == a + [b[|a|]]
  {
  }

  /** The state of the fitting loop after its first turns. */
  ghost predicate Fitting(
    size: seq<Excerpt> -> nat, outcomes: seq<Outcome>, failed: seq<nat>, shares: seq<int>, lefts: seq<int>,
    checks: seq<Excerpt>, remaining: int)
  {
    && Turns(outcomes, failed) && |shares| <= |failed|
    && checks == Shown(outcomes, failed, shares, |shares|)
    && lefts == Lefts(size, outcomes, failed, shares) && Even(lefts, shares, |failed|)
    && remaining == Left(size, checks) == lefts[|shares|]
  }

  lemma FittingStarts(size: seq<Excerpt> -> nat, outcomes: seq<Outcome>, failed: seq<nat>)
    requires Turns(outcomes, failed)
    ensures var left := Left(size, Skeleton(outcomes));
            Fitting(size, outcomes, failed, [], [left], Skeleton(outcomes), left)
  {
    assert Lefts(size, outcomes, failed, []) == [Left(size, Skeleton(outcomes))];
  }

  lemma FittingContinues(
    size: seq<Excerpt> -> nat, outcomes: seq<Outcome>, failed: seq<nat>, shares: seq<int>, lefts: seq<int>,
    checks: seq<Excerpt>, remaining: int, share: int)
    requires Fitting(size, outcomes, failed, shares, lefts, checks, remaining) && |shares| < |failed|
    requires IsShare(share, remaining, |failed| - |shares|)
    ensures var i := failed[|shares|];
            var after := checks[i := Within(outcomes[i].content, share)];
            Fitting(size, outcomes, failed, shares + [share], lefts + [Left(size, after)], after, Left(size, after))
  {
    NextTurn(size, outcomes, failed, shares, share);
    var i := failed[|shares|];
    var after := checks[i := Within(outcomes[i].content, share)];
    EvenGrows(lefts, shares, |failed|, share, Left(size, after));
  }

  /** One turn: the share, the longest excerpt within it, and what is left then. */
  method TakeTurn(
    size: seq<Excerpt> -> nat, outcomes: seq<Outcome>, failed: seq<nat>, index: nat, checks: seq<Excerpt>,
    remaining: int, shares: seq<int>, ghost lefts: seq<int>)
    returns (checks': seq<Excerpt>, remaining': int, shares': seq<int>, ghost lefts': seq<int>)
    requires Fitting(size, outcomes, failed, shares, lefts, checks, remaining) && index == |shares| < |failed|
    ensures |shares'| == index + 1
    ensures Fitting(size, outcomes, failed, shares', lefts', checks', remaining')
  {
    var allowance := Divide(remaining, |failed| - index);
    var excerpt := MakeExcerpt(outcomes[failed[index]].content, allowance);
    FittingContinues(size, outcomes, failed, shares, lefts, checks, remaining, allowance);
    checks' := checks[failed[index] := excerpt];
    remaining' := Left(size, checks');
    shares' := shares + [allowance];
    lefts' := lefts + [remaining'];
  }

  /** The fitting loop over the failed checks. */
  method FitAll(size: seq<Excerpt> -> nat, outcomes: seq<Outcome>, failed: seq<nat>)
    returns (checks: seq<Excerpt>, shares: seq<int>)
    requires Turns(outcomes, failed)
    ensures |shares| == |failed| && checks == Shown(outcomes, failed, shares, |failed|)
    ensures Even(Lefts(size, outcomes, failed, shares), shares, |failed|)
  {
    checks, shares := Skeleton(outcomes), [];
    var remaining := Left(size, checks);
    ghost var lefts := [remaining];
    FittingStarts(size, outcomes, failed);
    for index := 0 to |failed|
      invariant |shares| == index
      invariant Fitting(size, outcomes, failed, shares, lefts, checks, remaining)
    {
      checks, remaining, shares, lefts :=
        TakeTurn(size, outcomes, failed, index, checks, remaining, shares, lefts);
    }
  }

  // ---------------------------------------------------------------- what the rounds keep

  lemma {:induction false} SizeUpdate(checks: seq<Excerpt>, i: nat, x: Excerpt)
    requires i < |checks|
    ensures SizeOf(checks[i := x]) == SizeOf(checks) - ExcerptSize(checks[i]) + ExcerptSize(x)
  {
    var n := |checks| - 1;
    if i == n {
      assert checks[i := x][..n] == checks[..n];
    } else {
      SizeUpdate(checks[..n], i, x);
      assert checks[i := x][..n] == checks[..n][i := x];
    }
  }

  lemma {:induction false} FewerDigits(a: nat, b: nat)
    requires a <= b
    ensures |Decimal(a)| <= |Decimal(b)|
  {
    if a >= 10 {
      FewerDigits(a / 10, b / 10);
    }
  }

  /** Checks that passed, and failed ones whose turn has not come, are blank. */
  lemma {:induction false} OthersBlank(outcomes: seq<Outcome>, failed: seq<nat>, shares: seq<int>, n: nat, i: nat)
    requires Turns(outcomes, failed) && n <= |shares| && n <= |failed| && i < |outcomes|
    requires forall j :: 0 <= j < n ==> failed[j] != i
    ensures Shown(outcomes, failed, shares, n)[i] == Blank(outcomes[i])
  {
    if n > 0 {
      OthersBlank(outcomes, failed, shares, n - 1, i);
    }
  }

  /** An excerpt within its share takes no more than the share from what is left. */
  lemma ShareTaken(size: seq<Excerpt> -> nat, fixed: nat, checks: seq<Excerpt>, i: nat, o: Outcome, a: int)
    requires i < |checks| && checks[i] == Blank(o) && Serializes(size, fixed)
    ensures var after := checks[i := Within(o.content, a)];
            && (a >= 0 ==> Left(size, after) >= Left(size, checks) - a)
            && (a < 0 ==> after == checks)
  {
    var kept := Kept(o.content, a);
    SizeUpdate(checks, i, Excerpted(o.content, kept));
    KeptIsLargest(o.content, a);
    FewerDigits(|o.content| - kept, |o.content|);
    if kept == 0 {
      assert Excerpted(o.content, 0) == Blank(o);
    }
  }

  /** A share is spent at most once, and its own excerpt is all that it is spent on. */
  ghost predicate Spent(lefts: seq<int>, shares: seq<int>) {
    && |lefts| == |shares| + 1
    && forall n :: 0 <= n < |shares| ==>
         && (shares[n] >= 0 ==> lefts[n + 1] >= lefts[n] - shares[n])
         && (shares[n] < 0 ==> lefts[n + 1] == lefts[n])
  }

  lemma SharesSpent(size: seq<Excerpt> -> nat, fixed: nat, outcomes: seq<Outcome>, failed: seq<nat>, shares: seq<int>)
    requires Turns(outcomes, failed) && |shares| <= |failed| && Serializes(size, fixed)
    ensures Spent(Lefts(size, outcomes, failed, shares), shares)
  {
    forall n | 0 <= n < |shares|
      ensures var r, r' := Left(size, Shown(outcomes, failed, shares, n)),
                           Left(size, Shown(outcomes, failed, shares, n + 1));
              (shares[n] >= 0 ==> r' >= r - shares[n]) && (shares[n] < 0 ==> r' == r)
    {
      OthersBlank(outcomes, failed, shares, n, failed[n]);
      ShareTaken(size, fixed, Shown(outcomes, failed, shares, n), failed[n], outcomes[failed[n]], shares[n]);
    }
  }

  lemma {:induction false} TimesGrows(n: nat, a: int, b: int)
    requires a <= b
    ensures Times(n, a) <= Times(n, b)
    ensures Times(n, 0) == 0 && (a >= 0 && n > 0 ==> a <= Times(n, a))
  {
    if n > 0 {
      TimesGrows(n - 1, a, b);
    }
  }

  lemma ShareSign(r: int, r': int, m: nat, a: int)
    requires IsShare(a, r, m) && (a >= 0 ==> r' >= r - a) && (a < 0 ==> r' == r)
    ensures r >= 0 <==> r' >= 0
    ensures r >= 0 <==> a >= 0
  {
    if a >= 0 {
      TimesGrows(m, a, a);
    } else {
      TimesGrows(m, a + 1, 0);
    }
  }

  /** When a share is spent, the others' even share of the rest is no smaller. */
  lemma ShareArithmetic(r: int, r': int, m: nat, a: int, a': int)
    requires m > 1 && IsShare(a, r, m) && IsShare(a', r', m - 1) && r' >= r - a
    ensures a' >= a
  {
    if a' < a {
      TimesGrows(m - 1, a' + 1, a);
    }
  }

  lemma {:induction false} SignStays(lefts: seq<int>, shares: seq<int>, checks: nat, n: nat)
    requires Even(lefts, shares, checks) && Spent(lefts, shares) && n <= |shares|
    ensures lefts[0] >= 0 <==> lefts[n] >= 0
  {
    if n > 0 {
      SignStays(lefts, shares, checks, n - 1);
      ShareSign(lefts[n - 1], lefts[n], checks - (n - 1), shares[n - 1]);
    }
  }

  /** No later failure gets a smaller share than the first. */
  lemma {:induction false} SharesNeverShrink(lefts: seq<int>, shares: seq<int>, checks: nat, n: nat)
    requires Even(lefts, shares, checks) && Spent(lefts, shares) && n < |shares| && lefts[0] >= 0
    ensures shares[n] >= shares[0] >= 0
  {
    if n > 0 {
      SharesNeverShrink(lefts, shares, checks, n - 1);
      ShareArithmetic(lefts[n - 1], lefts[n], checks - (n - 1), shares[n - 1], shares[n]);
    } else {
      ShareSign(lefts[0], lefts[1], checks, shares[0]);
    }
  }

  /** The feedback stays within its limit exactly when its skeleton does. */
  lemma FeedbackFits(size: seq<Excerpt> -> nat, fixed: nat, outcomes: seq<Outcome>, failed: seq<nat>, shares: seq<int>)
    requires Turns(outcomes, failed) && |shares| <= |failed| && Serializes(size, fixed)
    requires Even(Lefts(size, outcomes, failed, shares), shares, |failed|)
    ensures size(Shown(outcomes, failed, shares, |shares|)) <= FEEDBACK_LIMIT
       <==> size(Skeleton(outcomes)) <= FEEDBACK_LIMIT
  {
    var lefts := Lefts(size, outcomes, failed, shares);
    SharesSpent(size, fixed, outcomes, failed, shares);
    SignStays(lefts, shares, |failed|, |shares|);
    assert lefts[0] == Left(size, Skeleton(outcomes));
    assert lefts[|shares|] == Left(size, Shown(outcomes, failed, shares, |shares|));
  }

  /** Each failed check ends up with the excerpt its share allowed; later turns leave it alone. */
  lemma {:induction false} ExcerptStays(outcomes: seq<Outcome>, failed: seq<nat>, shares: seq<int>, n: nat, m: nat)
    requires Turns(outcomes, failed) && n < m <= |shares| <= |failed|
    ensures var content := outcomes[failed[n]].content;
            Shown(outcomes, failed, shares, m)[failed[n]] == Within(content, shares[n])
    decreases m
  {
    if n + 1 < m {
      ExcerptStays(outcomes, failed, shares, n, m - 1);
    }
  }

  /** The share of every failed check is at least an even share of what the skeleton leaves. */
  lemma SharesAreFair(
    size: seq<Excerpt> -> nat, fixed: nat, outcomes: seq<Outcome>, failed: seq<nat>, shares: seq<int>, n: nat)
    requires Turns(outcomes, failed) && n < |shares| == |failed| && Serializes(size, fixed)
    requires Even(Lefts(size, outcomes, failed, shares), shares, |failed|)
    requires Left(size, Skeleton(outcomes)) >= 0
    ensures shares[n] >= Left(size, Skeleton(outcomes)) / |failed| >= 0
  {
    var lefts := Lefts(size, outcomes, failed, shares);
    assert lefts[0] == Left(size, Skeleton(outcomes));
    SharesSpent(size, fixed, outcomes, failed, shares);
    SharesNeverShrink(lefts, shares, |failed|, n);
    ShareIsQuotient(shares[0], lefts[0], |failed|);
    assert IsShare(shares[0], lefts[0], |failed| - 0);
  }

  // ---------------------------------------------------------------- every check of the feedback

  /** The number of failed checks before a check: its turn, if it has failed itself. */
  function FailedBefore(outcomes: seq<Outcome>, i: nat): nat
    requires i <= |outcomes|
  {
    if i == 0 then 0 else FailedBefore(outcomes, i - 1) + if outcomes[i - 1].failed then 1 else 0
  }

  /** Each failed check has its turn, and nothing else has one. */
  lemma {:induction false} FailedExact(outcomes: seq<Outcome>, n: nat, i: nat)
    requires n <= |outcomes|
    ensures |Failed(outcomes, n)| == FailedBefore(outcomes, n)
    ensures i in Failed(outcomes, n) <==> i < n && outcomes[i].failed
    ensures i < n && outcomes[i].failed ==>
              FailedBefore(outcomes, i) < |Failed(outcomes, n)| && Failed(outcomes, n)[FailedBefore(outcomes, i)] == i
  {
    if n > 0 {
      FailedExact(outcomes, n - 1, i);
    }
  }

  /**
   * The longest head and tail that fit a share, the head no shorter than the tail and by one character at most
   * longer. They do not overlap, and with what is omitted they make up the whole output.
   */
  ghost predicate ShowsLongest(content: string, x: Excerpt, share: int) {
    if share < 0 then x == Excerpt("", "", |content|)
    else
      && Escaped(x.head) + Escaped(x.tail) <= share
      && |x.head| + |x.tail| + x.omitted == |content|
      && x.head <= content && x.tail == content[|content| - |x.tail|..]
      && |x.tail| <= |x.head| <= |x.tail| + 1
      && forall k: nat :: |x.head| + |x.tail| < k ==> !Fits(content, k, share)
  }

  lemma WithinShowsLongest(content: string, share: int)
    ensures ShowsLongest(content, Within(content, share), share)
  {
    KeptIsLargest(content, share);
  }

  /** The check of an index: blank if it has passed, else the longest excerpt that the share of its turn allows. */
  ghost predicate CheckShown(outcomes: seq<Outcome>, checks: seq<Excerpt>, shares: seq<int>, i: nat)
    requires i < |outcomes| == |checks|
  {
    if outcomes[i].failed then
      FailedBefore(outcomes, i) < |shares|
      && ShowsLongest(outcomes[i].content, checks[i], shares[FailedBefore(outcomes, i)])
    else checks[i] == Excerpt("", "", |outcomes[i].content|)
  }

  lemma EveryCheckShown(outcomes: seq<Outcome>, shares: seq<int>, i: nat)
    requires Turns(outcomes, AllFailed(outcomes)) && |shares| == |AllFailed(outcomes)| && i < |outcomes|
    ensures CheckShown(outcomes, Shown(outcomes, AllFailed(outcomes), shares, |shares|), shares, i)
  {
    hide Failed, ShowsLongest, Within, Shown;
    var failed := AllFailed(outcomes);
    FailedExact(outcomes, |outcomes|, i);
    if outcomes[i].failed {
      var n := FailedBefore(outcomes, i);
      ExcerptStays(outcomes, failed, shares, n, |shares|);
      WithinShowsLongest(outcomes[i].content, shares[n]);
    } else {
      OthersBlank(outcomes, failed, shares, |shares|, i);
    }
  }

  /** Fit every failed check into the feedback, in order. */
  method FitFeedback(size: seq<Excerpt> -> nat, outcomes: seq<Outcome>)
    returns (checks: seq<Excerpt>, shares: seq<int>)
    ensures var failed := AllFailed(outcomes);
            && Turns(outcomes, failed) && |shares| == |failed|
            && Even(Lefts(size, outcomes, failed, shares), shares, |failed|)
            && checks == Shown(outcomes, failed, shares, |failed|)
    ensures |checks| == |outcomes| && |shares| == FailedBefore(outcomes, |outcomes|)
    ensures forall i :: 0 <= i < |outcomes| ==> CheckShown(outcomes, checks, shares, i)
  {
    hide Failed, CheckShown;
    assert Turns(outcomes, AllFailed(outcomes));
    checks, shares := FitAll(size, outcomes, AllFailed(outcomes));
    FailedExact(outcomes, |outcomes|, 0);
    forall i | 0 <= i < |outcomes| ensures CheckShown(outcomes, checks, shares, i) {
      EveryCheckShown(outcomes, shares, i);
    }
  }

  /**
   * With a skeleton within the limit the feedback is, too, and every failed check has at least an even share of
   * what the skeleton leaves.
   */
  lemma EveryFailureIsServed(size: seq<Excerpt> -> nat, fixed: nat, outcomes: seq<Outcome>, shares: seq<int>, i: nat)
    requires Turns(outcomes, AllFailed(outcomes)) && |shares| == |AllFailed(outcomes)|
    requires Serializes(size, fixed) && Even(Lefts(size, outcomes, AllFailed(outcomes), shares), shares, |shares|)
    requires i < |outcomes| && outcomes[i].failed && size(Skeleton(outcomes)) <= 12_000
    ensures size(Shown(outcomes, AllFailed(outcomes), shares, |shares|)) <= 12_000
    ensures FailedBefore(outcomes, i) < |shares| == FailedBefore(outcomes, |outcomes|)
    ensures shares[FailedBefore(outcomes, i)] >= (12_000 - size(Skeleton(outcomes))) / |shares| >= 0
  {
    hide Failed, FailedBefore, Shown, Lefts, Even, Serializes, Skeleton;
    FailedExact(outcomes, |outcomes|, i);
    FeedbackFits(size, fixed, outcomes, AllFailed(outcomes), shares);
    SharesAreFair(size, fixed, outcomes, AllFailed(outcomes), shares, FailedBefore(outcomes, i));
  }
}
