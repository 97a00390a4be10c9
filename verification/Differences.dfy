/** JSON pointer differences between two configurations, with absent members marked by a sentinel. */
module Differences {
  import opened Common

  /** Objects and everything else; arrays and scalars are compared as a whole. */
  datatype Json = Leaf(text: string) | Node(fields: map<string, Json>)

  const MISSING := Node(map["missing" := Leaf("true")])

  /** A member, or the sentinel. */
  function Get(t: Json, key: string): Json
    requires t.Node?
  {
    if key in t.fields then t.fields[key] else MISSING
  }

  function Keys(l: Json, r: Json): set<string>
    requires l.Node? && r.Node?
  {
    l.fields.Keys + r.fields.Keys
  }

  // ---------------------------------------------------------------- depth

  ghost function MaxOf(s: set<nat>): (m: nat)
    ensures forall x :: x in s ==> x <= m
    ensures m == 0 || m in s
  {
    if s == {} then 0
    else
      var x :| x in s;
      var m := MaxOf(s - {x});
      assert forall y :: y in s ==> y == x || y in s - {x};
      if x > m then x else m
  }

  ghost function Depth(t: Json): nat {
    match t
    case Leaf(_) => 0
    case Node(f) => 1 + MaxOf(set k | k in f :: Depth(f[k]))
  }

  lemma ChildDepth(t: Json, key: string)
    requires t.Node? && key in t.fields
    ensures Depth(t.fields[key]) < Depth(t)
  {
    var depths := set k | k in t.fields :: Depth(t.fields[k]);
    assert Depth(t.fields[key]) in depths;
  }

  lemma MissingDepth()
    ensures Depth(MISSING) == 1
  {
    var depths := set k | k in MISSING.fields :: Depth(MISSING.fields[k]);
    assert forall d :: d in depths ==> d == 0;
  }

  /** Going down one key, at least one side gets less deep and the other no deeper. */
  lemma PairDescends(l: Json, r: Json, key: string)
    requires l.Node? && r.Node? && key in Keys(l, r)
    ensures Depth(Get(l, key)) + Depth(Get(r, key)) < Depth(l) + Depth(r)
  {
    MissingDepth();
    if key in l.fields {
      ChildDepth(l, key);
    }
    if key in r.fields {
      ChildDepth(r, key);
    }
  }

  // ---------------------------------------------------------------- pointers

  /** Escaping of a reference token, as section 3 of RFC 6901 writes it. */
  function Escape(token: string): string {
    if token == "" then ""
    else
      (if token[0] == '~' then "~0" else if token[0] == '/' then "~1" else [token[0]]) + Escape(token[1..])
  }

  function Pointer(path: seq<string>): string {
    if path == [] then "" else "/" + (Escape(path[0]) + Pointer(path[1..]))
  }

  lemma {:induction false} EscapeHasNoSlash(token: string)
    ensures '/' !in Escape(token)
  {
    if token != "" {
      EscapeHasNoSlash(token[1..]);
    }
  }

  lemma {:induction false} EscapeInjective(a: string, b: string)
    requires Escape(a) == Escape(b)
    ensures a == b
  {
    if a != "" && b != "" {
      var x, y := Escape(a), Escape(b);
      var n := if a[0] == '~' || a[0] == '/' then 2 else 1;
      assert a[0] == b[0] by {
        if x[0] == '~' {
          assert a[0] == '~' || a[0] == '/';
          assert b[0] == '~' || b[0] == '/';
          assert x[1] == y[1];
        }
      }
      assert x[n..] == Escape(a[1..]) && y[n..] == Escape(b[1..]);
      EscapeInjective(a[1..], b[1..]);
    }
  }

  function UptoSlash(s: string): string {
    if s == "" || s[0] == '/' then "" else [s[0]] + UptoSlash(s[1..])
  }

  lemma {:induction false} UptoSlashOf(a: string, x: string)
    requires '/' !in a && (x == "" || x[0] == '/')
    ensures UptoSlash(a + x) == a
  {
    if a == "" {
      assert a + x == x;
    } else {
      UptoSlashOf(a[1..], x);
      assert (a + x)[1..] == a[1..] + x;
    }
  }

  /** Where a string without slashes is followed by the end or a slash, it can be read off. */
  lemma SplitAtSlash(a: string, b: string, x: string, y: string)
    requires a + x == b + y && '/' !in a && '/' !in b
    requires (x == "" || x[0] == '/') && (y == "" || y[0] == '/')
    ensures a == b && x == y
  {
    UptoSlashOf(a, x);
    UptoSlashOf(b, y);
    assert x == (a + x)[|a|..] && y == (b + y)[|b|..];
  }

  lemma SameFront(a: string, b: string)
    requires "/" + a == "/" + b
    ensures a == b
  {
    assert ("/" + a)[1..] == a && ("/" + b)[1..] == b;
  }

  /** Pointers of different paths are different. */
  lemma {:induction false} PointerInjective(p: seq<string>, q: seq<string>)
    requires Pointer(p) == Pointer(q)
    ensures p == q
  {
    if p != [] && q != [] {
      var a, b, x, y := Escape(p[0]), Escape(q[0]), Pointer(p[1..]), Pointer(q[1..]);
      SameFront(a + x, b + y);
      EscapeHasNoSlash(p[0]);
      EscapeHasNoSlash(q[0]);
      SplitAtSlash(a, b, x, y);
      EscapeInjective(p[0], q[0]);
      PointerInjective(p[1..], q[1..]);
      assert p == [p[0]] + p[1..] && q == [q[0]] + q[1..];
    }
  }

  // ---------------------------------------------------------------- differences

  /** The two trees differ at the path, and are objects on the way to it. */
  ghost predicate DiffersAt(l: Json, r: Json, path: seq<string>)
    decreases path
  {
    if path == [] then !(l.Node? && r.Node?) && l != r
    else l.Node? && r.Node? && path[0] in Keys(l, r) && DiffersAt(Get(l, path[0]), Get(r, path[0]), path[1..])
  }

  ghost function At(t: Json, path: seq<string>): Json
    decreases path
  {
    if path == [] || t.Leaf? then t else At(Get(t, path[0]), path[1..])
  }

  /** The result holds each difference at or below `path`, at its pointer, with both values. */
  ghost predicate Complete(result: map<string, (Json, Json)>, l: Json, r: Json, path: string) {
    forall q :: DiffersAt(l, r, q) ==>
      path + Pointer(q) in result && result[path + Pointer(q)] == (At(l, q), At(r, q))
  }

  ghost predicate Sound(result: map<string, (Json, Json)>, l: Json, r: Json, path: string) {
    forall p :: p in result ==> exists q :: DiffersAt(l, r, q) && p == path + Pointer(q)
  }

  ghost predicate IsBelow(l: Json, r: Json, done: set<string>, q: seq<string>) {
    q != [] && q[0] in done && DiffersAt(l, r, q)
  }

  /** The result so far: exactly the differences below the keys that are done. */
  ghost predicate Gathered(result: map<string, (Json, Json)>, l: Json, r: Json, path: string, done: set<string>) {
    && (forall q :: IsBelow(l, r, done, q) ==>
          path + Pointer(q) in result && result[path + Pointer(q)] == (At(l, q), At(r, q)))
    && (forall p :: p in result ==> exists q :: IsBelow(l, r, done, q) && p == path + Pointer(q))
  }

  lemma SamePointer(path: string, p: seq<string>, q: seq<string>)
    requires path + Pointer(p) == path + Pointer(q)
    ensures p == q
  {
    assert (path + Pointer(p))[|path|..] == Pointer(p);
    assert (path + Pointer(q))[|path|..] == Pointer(q);
    PointerInjective(p, q);
  }

  lemma BelowKey(l: Json, r: Json, path: string, key: string, q: seq<string>)
    requires l.Node? && r.Node? && key in Keys(l, r)
    ensures DiffersAt(l, r, [key] + q) <==> DiffersAt(Get(l, key), Get(r, key), q)
    ensures At(l, [key] + q) == At(Get(l, key), q) && At(r, [key] + q) == At(Get(r, key), q)
    ensures path + Pointer([key] + q) == (path + "/" + Escape(key)) + Pointer(q)
  {
    assert ([key] + q)[1..] == q;
    Associate(path + "/", Escape(key), Pointer(q));
    Associate(path, "/", Escape(key) + Pointer(q));
  }

  /** Merging the differences below one more key loses none of either. */
  lemma Merge(
    result: map<string, (Json, Json)>, below: map<string, (Json, Json)>, l: Json, r: Json, path: string,
    done: set<string>, key: string)
    requires l.Node? && r.Node? && key in Keys(l, r) && key !in done
    requires Gathered(result, l, r, path, done)
    requires Complete(below, Get(l, key), Get(r, key), path + "/" + Escape(key))
    requires Sound(below, Get(l, key), Get(r, key), path + "/" + Escape(key))
    ensures Gathered(result + below, l, r, path, done + {key})
  {
    var token := path + "/" + Escape(key);
    forall q | IsBelow(l, r, done + {key}, q)
      ensures path + Pointer(q) in result + below
      ensures (result + below)[path + Pointer(q)] == (At(l, q), At(r, q))
    {
      if q[0] == key {
        assert q == [key] + q[1..];
        BelowKey(l, r, path, key, q[1..]);
      } else {
        assert IsBelow(l, r, done, q);
        if path + Pointer(q) in below {
          var s :| DiffersAt(Get(l, key), Get(r, key), s) && path + Pointer(q) == token + Pointer(s);
          BelowKey(l, r, path, key, s);
          SamePointer(path, q, [key] + s);
        }
      }
    }
    forall p | p in result + below ensures exists q :: IsBelow(l, r, done + {key}, q) && p == path + Pointer(q) {
      if p in below {
        var s :| DiffersAt(Get(l, key), Get(r, key), s) && p == token + Pointer(s);
        BelowKey(l, r, path, key, s);
        assert IsBelow(l, r, done + {key}, [key] + s);
      } else {
        var q :| IsBelow(l, r, done, q) && p == path + Pointer(q);
        assert IsBelow(l, r, done + {key}, q);
      }
    }
  }

  /**
   * Two objects are compared key by key, and anything else as a whole. Every difference is in the result at its
   * pointer with both values, and nothing else is.
   */
  method FindDifferences(l: Json, r: Json, path: string) returns (result: map<string, (Json, Json)>)
    ensures Complete(result, l, r, path) && Sound(result, l, r, path)
    decreases Depth(l) + Depth(r), 1
  {
    result := map[];
    if !l.Node? || !r.Node? {
      if l != r {
        result := map[path := (l, r)];
        assert path + Pointer([]) == path;
        assert DiffersAt(l, r, []);
      }
      return;
    }
    result := MergeMembers(l, r, path);
  }

  /** The loop over the keys of both objects. */
  method MergeMembers(l: Json, r: Json, path: string) returns (result: map<string, (Json, Json)>)
    requires l.Node? && r.Node?
    ensures Complete(result, l, r, path) && Sound(result, l, r, path)
    decreases Depth(l) + Depth(r), 0
  {
    result := map[];
    var rest := Keys(l, r);
    ghost var done: set<string> := {};
    while rest != {}
      invariant rest + done == Keys(l, r) && rest !! done
      invariant Gathered(result, l, r, path, done)
      decreases |rest|
    {
      var key :| key in rest;
      PairDescends(l, r, key);
      var below := FindDifferences(Get(l, key), Get(r, key), path + "/" + Escape(key));
      Merge(result, below, l, r, path, done, key);
      result := result + below;
      rest, done := rest - {key}, done + {key};
    }
    assert done == Keys(l, r);
    AllGathered(result, l, r, path);
  }

  lemma AllGathered(result: map<string, (Json, Json)>, l: Json, r: Json, path: string)
    requires l.Node? && r.Node? && Gathered(result, l, r, path, Keys(l, r))
    ensures Complete(result, l, r, path) && Sound(result, l, r, path)
  {
    forall q | DiffersAt(l, r, q) ensures IsBelow(l, r, Keys(l, r), q) {
    }
    forall p | p in result ensures exists q :: DiffersAt(l, r, q) && p == path + Pointer(q) {
      var q :| IsBelow(l, r, Keys(l, r), q) && p == path + Pointer(q);
    }
  }

  // ---------------------------------------------------------------- no differences means equal

  /** The sentinel is nowhere in the tree as a real value. */
  ghost predicate NoSentinel(t: Json) {
    t != MISSING && (t.Node? ==> forall k :: k in t.fields ==> NoSentinel(t.fields[k]))
  }

  /** What the recursion compares: a tree without sentinels, or the sentinel for an absent one. */
  ghost predicate Comparable(t: Json) {
    t == MISSING || NoSentinel(t)
  }

  lemma ComparableChild(t: Json, key: string)
    requires t.Node? && Comparable(t)
    ensures Comparable(Get(t, key)) && (key in t.fields ==> NoSentinel(t.fields[key]))
  {
  }

  lemma SameOrOtherMember(l: Json, r: Json)
    requires Comparable(l) && Comparable(r) && l.Node? && r.Node?
    ensures l == r || exists k :: k in Keys(l, r) && Get(l, k) != Get(r, k)
  {
    if forall k :: k in Keys(l, r) ==> Get(l, k) == Get(r, k) {
      forall k | k in Keys(l, r) ensures k in l.fields && k in r.fields {
        ComparableChild(l, k);
        ComparableChild(r, k);
      }
      assert l.fields == r.fields;
    }
  }

  lemma {:induction false} UnequalDiffer(l: Json, r: Json)
    requires Comparable(l) && Comparable(r) && l != r
    ensures exists q :: DiffersAt(l, r, q)
    decreases Depth(l) + Depth(r)
  {
    if !l.Node? || !r.Node? {
      assert DiffersAt(l, r, []);
    } else {
      SameOrOtherMember(l, r);
      var key :| key in Keys(l, r) && Get(l, key) != Get(r, key);
      ComparableChild(l, key);
      ComparableChild(r, key);
      PairDescends(l, r, key);
      UnequalDiffer(Get(l, key), Get(r, key));
      var q :| DiffersAt(Get(l, key), Get(r, key), q);
      BelowKey(l, r, "", key, q);
      assert DiffersAt(l, r, [key] + q);
    }
  }

  lemma {:induction false} EqualDoNotDiffer(t: Json, q: seq<string>)
    ensures !DiffersAt(t, t, q)
    decreases q
  {
    if q != [] && t.Node? {
      EqualDoNotDiffer(Get(t, q[0]), q[1..]);
    }
  }

  /** The tree as the comparison sees it: a member that is or becomes the sentinel counts as absent. */
  function Clean(t: Json): Json {
    match t
    case Leaf(_) => t
    case Node(f) => Node(map k | k in f && Clean(f[k]) != MISSING :: Clean(f[k]))
  }

  lemma CleanMissing()
    ensures Clean(MISSING) == MISSING
  {
    var key := "missing";
    assert MISSING.fields[key] == Leaf("true");
    assert Clean(MISSING).fields == MISSING.fields;
  }

  lemma CleanMember(t: Json, key: string)
    requires t.Node?
    ensures Clean(t).Node? && Get(Clean(t), key) == Clean(Get(t, key))
  {
    CleanMissing();
  }

  lemma {:induction false} CleanIsComparable(t: Json)
    ensures Comparable(Clean(t))
  {
    if t.Node? {
      forall k | k in Clean(t).fields ensures NoSentinel(Clean(t).fields[k]) {
        CleanIsComparable(t.fields[k]);
      }
    }
  }

  lemma {:induction false} CleanIsIdentity(t: Json)
    requires Comparable(t)
    ensures Clean(t) == t
  {
    if t == MISSING {
      CleanMissing();
    } else if t.Node? {
      forall k | k in t.fields ensures Clean(t.fields[k]) == t.fields[k] != MISSING {
        CleanIsIdentity(t.fields[k]);
      }
      assert Clean(t).fields == t.fields;
    }
  }

  /** The comparison sees no more of a tree than its cleaned form. */
  lemma {:induction false} CleanDiffersAlike(l: Json, r: Json, q: seq<string>)
    ensures DiffersAt(l, r, q) <==> DiffersAt(Clean(l), Clean(r), q)
    decreases |q|
  {
    if q != [] && l.Node? && r.Node? {
      var key := q[0];
      CleanMember(l, key);
      CleanMember(r, key);
      CleanDiffersAlike(Get(l, key), Get(r, key), q[1..]);
      EqualDoNotDiffer(MISSING, q[1..]);
    }
  }

  ghost predicate NowhereDiffer(l: Json, r: Json) {
    forall q :: !DiffersAt(l, r, q)
  }

  /** Two trees show no difference exactly when they are equal once sentinels are dropped. */
  lemma NoDifferenceIff(l: Json, r: Json)
    ensures NowhereDiffer(l, r) <==> Clean(l) == Clean(r)
  {
    if Clean(l) == Clean(r) {
      forall q ensures !DiffersAt(l, r, q) {
        CleanDiffersAlike(l, r, q);
        EqualDoNotDiffer(Clean(l), q);
      }
    } else {
      CleanIsComparable(l);
      CleanIsComparable(r);
      UnequalDiffer(Clean(l), Clean(r));
      var q :| DiffersAt(Clean(l), Clean(r), q);
      CleanDiffersAlike(l, r, q);
    }
  }

  lemma EmptyIffNowhere(result: map<string, (Json, Json)>, l: Json, r: Json, path: string)
    requires Complete(result, l, r, path) && Sound(result, l, r, path)
    ensures result == map[] <==> NowhereDiffer(l, r)
  {
    if result == map[] {
      forall q ensures !DiffersAt(l, r, q) {
        assert path + Pointer(q) !in result;
      }
    } else {
      var p :| p in result;
      var q :| DiffersAt(l, r, q) && p == path + Pointer(q);
    }
  }

  /** For all trees, the result is empty exactly when they are equal once sentinels are dropped. */
  lemma EmptyIffCleanEqual(result: map<string, (Json, Json)>, l: Json, r: Json, path: string)
    requires Complete(result, l, r, path) && Sound(result, l, r, path)
    ensures result == map[] <==> Clean(l) == Clean(r)
  {
    EmptyIffNowhere(result, l, r, path);
    NoDifferenceIff(l, r);
  }

  /** Without real sentinels, the result is empty exactly for equal trees. */
  lemma EmptyIffEqual(result: map<string, (Json, Json)>, l: Json, r: Json, path: string)
    requires NoSentinel(l) && NoSentinel(r) && Complete(result, l, r, path) && Sound(result, l, r, path)
    ensures result == map[] <==> l == r
  {
    EmptyIffCleanEqual(result, l, r, path);
    CleanIsIdentity(l);
    CleanIsIdentity(r);
  }

  /** A real sentinel is taken for an absent member. */
  lemma RealSentinelIsLost(key: string, q: seq<string>)
    ensures var l, r := Node(map[]), Node(map[key := MISSING]);
            l != r && !DiffersAt(l, r, q)
  {
    var l, r := Node(map[]), Node(map[key := MISSING]);
    assert key !in l.fields && key in r.fields;
    if q != [] && q[0] == key {
      EqualDoNotDiffer(MISSING, q[1..]);
    }
  }

  // ---------------------------------------------------------------- the way back

  /** Write a value at a path; a member that becomes the sentinel is absent. */
  function Put(t: Json, path: seq<string>, value: Json): Json
    decreases path
  {
    if path == [] then value
    else if t.Leaf? then t
    else
      var child := Put(Get(t, path[0]), path[1..], value);
      Node(if child == MISSING then t.fields - {path[0]} else t.fields[path[0] := child])
  }

  function PutAll(t: Json, writes: seq<(seq<string>, Json)>): Json
    decreases writes
  {
    if writes == [] then t else PutAll(Put(t, writes[0].0, writes[0].1), writes[1..])
  }

  lemma PutMembers(t: Json, path: seq<string>, value: Json, key: string)
    requires t.Node? && path != []
    ensures Put(t, path, value).Node?
    ensures Get(Put(t, path, value), key)
         == if key == path[0] then Put(Get(t, key), path[1..], value) else Get(t, key)
  {
  }

  /** Writing the right value at one difference removes it, and no other. */
  lemma {:induction false} PutRemovesOne(l: Json, r: Json, p: seq<string>, q: seq<string>)
    requires DiffersAt(l, r, p)
    ensures DiffersAt(Put(l, p, At(r, p)), r, q) <==> DiffersAt(l, r, q) && q != p
    decreases |p|
  {
    if p == [] {
      EqualDoNotDiffer(r, q);
    } else if q != [] {
      PutMembers(l, p, At(r, p), q[0]);
      if q[0] == p[0] {
        PutRemovesOne(Get(l, p[0]), Get(r, p[0]), p[1..], q[1..]);
        assert q == [p[0]] + q[1..] && p == [p[0]] + p[1..];
        EqualDoNotDiffer(MISSING, q[1..]);
      }
    }
  }

  /** Such a write brings in no real sentinel. */
  lemma {:induction false} PutKeepsComparable(l: Json, r: Json, p: seq<string>)
    requires Comparable(l) && Comparable(r) && DiffersAt(l, r, p)
    ensures Comparable(Put(l, p, At(r, p)))
    decreases |p|
  {
    if p != [] {
      ComparableChild(l, p[0]);
      ComparableChild(r, p[0]);
      PutMembers(l, p, At(r, p), p[0]);
      PutKeepsComparable(Get(l, p[0]), Get(r, p[0]), p[1..]);
      PutIsComparable(l, Put(l, p, At(r, p)), p[0]);
    }
  }

  lemma PutIsComparable(t: Json, next: Json, key: string)
    requires t.Node? && next.Node? && Comparable(t) && Comparable(Get(next, key))
    requires next.fields == if Get(next, key) == MISSING then t.fields - {key}
                            else t.fields[key := Get(next, key)]
    ensures Comparable(next)
  {
    forall k | k in next.fields ensures NoSentinel(next.fields[k]) {
      if k == key {
        assert next.fields[k] == Get(next, key);
      } else {
        ComparableChild(t, k);
      }
    }
  }

  /** The paths of the differences, each once and in any order, with the right tree's values. */
  ghost predicate Lists(writes: seq<(seq<string>, Json)>, l: Json, r: Json) {
    && (forall i :: 0 <= i < |writes| ==> DiffersAt(l, r, writes[i].0) && writes[i].1 == At(r, writes[i].0))
    && (forall i, j :: 0 <= i < j < |writes| ==> writes[i].0 != writes[j].0)
    && (forall q :: DiffersAt(l, r, q) ==> Listed(writes, q))
  }

  ghost predicate Listed(writes: seq<(seq<string>, Json)>, q: seq<string>) {
    exists i :: 0 <= i < |writes| && writes[i].0 == q
  }

  lemma RestLists(writes: seq<(seq<string>, Json)>, l: Json, r: Json)
    requires Lists(writes, l, r) && writes != []
    ensures Lists(writes[1..], Put(l, writes[0].0, writes[0].1), r)
  {
    var p, rest := writes[0].0, writes[1..];
    var next := Put(l, p, writes[0].1);
    PutRemovesOne(l, r, p, p);
    forall i | 0 <= i < |rest| ensures DiffersAt(next, r, rest[i].0) && rest[i].1 == At(r, rest[i].0) {
      assert rest[i] == writes[i + 1];
      PutRemovesOne(l, r, p, rest[i].0);
    }
    forall q | DiffersAt(next, r, q) ensures Listed(rest, q) {
      PutRemovesOne(l, r, p, q);
      assert Listed(writes, q);
      var i :| 0 <= i < |writes| && writes[i].0 == q;
      assert rest[i - 1].0 == q;
    }
  }

  /** Writing the after-values at their pointers, in any order, leaves nothing that differs. */
  lemma {:induction false} WritingLeavesNothing(writes: seq<(seq<string>, Json)>, l: Json, r: Json)
    requires Lists(writes, l, r)
    ensures Clean(PutAll(l, writes)) == Clean(r)
    decreases |writes|
  {
    if writes == [] {
      forall q ensures !DiffersAt(l, r, q) {
        assert !Listed(writes, q);
      }
      NoDifferenceIff(l, r);
    } else {
      RestLists(writes, l, r);
      WritingLeavesNothing(writes[1..], Put(l, writes[0].0, writes[0].1), r);
    }
  }

  lemma {:induction false} WritingKeepsComparable(writes: seq<(seq<string>, Json)>, l: Json, r: Json)
    requires Comparable(l) && Comparable(r) && Lists(writes, l, r)
    ensures Comparable(PutAll(l, writes))
    decreases |writes|
  {
    if writes != [] {
      RestLists(writes, l, r);
      PutKeepsComparable(l, r, writes[0].0);
      WritingKeepsComparable(writes[1..], Put(l, writes[0].0, writes[0].1), r);
    }
  }

  /** Every entry of a result, once, with its pointer read as a path and its after-value. */
  ghost predicate Reads(writes: seq<(seq<string>, Json)>, result: map<string, (Json, Json)>) {
    && (forall i :: 0 <= i < |writes| ==>
          Pointer(writes[i].0) in result && writes[i].1 == result[Pointer(writes[i].0)].1)
    && (forall i, j :: 0 <= i < j < |writes| ==> writes[i].0 != writes[j].0)
    && (forall q :: Pointer(q) in result ==> Listed(writes, q))
  }

  /** A result says of each path whether the trees differ there, and how. */
  lemma ResultAt(result: map<string, (Json, Json)>, l: Json, r: Json, q: seq<string>)
    requires Complete(result, l, r, "") && Sound(result, l, r, "")
    ensures Pointer(q) in result <==> DiffersAt(l, r, q)
    ensures Pointer(q) in result ==> result[Pointer(q)] == (At(l, q), At(r, q))
  {
    assert "" + Pointer(q) == Pointer(q);
    if Pointer(q) in result {
      var s :| DiffersAt(l, r, s) && Pointer(q) == "" + Pointer(s);
      SamePointer("", q, s);
    }
  }

  lemma ResultIsListed(result: map<string, (Json, Json)>, l: Json, r: Json, writes: seq<(seq<string>, Json)>)
    requires Complete(result, l, r, "") && Sound(result, l, r, "") && Reads(writes, result)
    ensures Lists(writes, l, r)
  {
    forall i | 0 <= i < |writes| ensures DiffersAt(l, r, writes[i].0) && writes[i].1 == At(r, writes[i].0) {
      ResultAt(result, l, r, writes[i].0);
    }
    forall q | DiffersAt(l, r, q) ensures Listed(writes, q) {
      ResultAt(result, l, r, q);
    }
  }

  /**
   * The round trip for all trees: the after-values of a result, written at its pointers, turn the left tree into
   * one that equals the right tree once sentinels are dropped.
   */
  lemma ResultTurnsLeftIntoCleanRight(
    result: map<string, (Json, Json)>, l: Json, r: Json, writes: seq<(seq<string>, Json)>)
    requires Complete(result, l, r, "") && Sound(result, l, r, "") && Reads(writes, result)
    ensures Clean(PutAll(l, writes)) == Clean(r)
  {
    ResultIsListed(result, l, r, writes);
    WritingLeavesNothing(writes, l, r);
  }

  /** Without real sentinels, they turn it into the right tree. */
  lemma ResultTurnsLeftIntoRight(
    result: map<string, (Json, Json)>, l: Json, r: Json, writes: seq<(seq<string>, Json)>)
    requires NoSentinel(l) && NoSentinel(r) && Complete(result, l, r, "") && Sound(result, l, r, "")
    requires Reads(writes, result)
    ensures PutAll(l, writes) == r
  {
    ResultTurnsLeftIntoCleanRight(result, l, r, writes);
    ResultIsListed(result, l, r, writes);
    WritingKeepsComparable(writes, l, r);
    CleanIsIdentity(PutAll(l, writes));
    CleanIsIdentity(r);
  }
}
