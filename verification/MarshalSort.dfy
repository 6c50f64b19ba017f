/** The bucket sort that brings FMU signals into marshal group order (dse/fmimcl/parser.c:18-61)
    and the measurement prefix that relies on it (dse/fmimcl/model.c:74-83). */
module MarshalSort {
  import opened MarshalSignals
  import opened Wrappers

  /** Position of a direction in the visiting order; DIR_SIZE when the sort never visits it. */
  function DirRank(dir: nat): nat {
    match dir
    case 0 => 0
    case 5 => 1
    case 2 => 2
    case 1 => 3
    case 3 => 4
    case 4 => 5
    case _ => DIR_SIZE
  }

  lemma {:induction false} DirRankInverse(rank: nat, dir: nat)
    requires rank < DIR_SIZE
    ensures DirRank(dir) == rank <==> dir == DirAt(rank)
  {
  }

  /** The key is one the sort visits, given the number of marshal types. */
  predicate Visited(k: GroupKey, typeCount: nat) {
    k.kind < KIND_SIZE && k.typ < typeCount && k.dir < DIR_SIZE
  }

  /** Strict order: kind, then type, then position of the direction. */
  predicate Before(a: GroupKey, b: GroupKey) {
    || a.kind < b.kind
    || (a.kind == b.kind && a.typ < b.typ)
    || (a.kind == b.kind && a.typ == b.typ && DirRank(a.dir) < DirRank(b.dir))
  }

  ghost predicate Sorted(s: seq<Signal>) {
    forall i, j :: 0 <= i < j < |s| ==> !Before(KeyOf(s[j]), KeyOf(s[i]))
  }

  /** The signals with one key, in list order. */
  ghost function Select(s: seq<Signal>, k: GroupKey): seq<Signal> {
    if s == [] then []
    else Select(s[..|s| - 1], k) + (if KeyOf(s[|s| - 1]) == k then [s[|s| - 1]] else [])
  }

  /** Equal keys keep their relative order. */
  ghost predicate StableOf(out: seq<Signal>, s: seq<Signal>) {
    forall k :: Select(out, k) == Select(s, k)
  }

  lemma {:induction false} SelectAppend(a: seq<Signal>, b: seq<Signal>, k: GroupKey)
    ensures Select(a + b, k) == Select(a, k) + Select(b, k)
  {
    if b == [] {
      assert a + b == a;
    } else {
      assert (a + b)[..|a + b| - 1] == a + b[..|b| - 1];
      SelectAppend(a, b[..|b| - 1], k);
    }
  }

  lemma {:induction false} SelectMembers(s: seq<Signal>, k: GroupKey)
    ensures forall x :: x in Select(s, k) ==> KeyOf(x) == k && x in s
  {
    if s != [] {
      SelectMembers(s[..|s| - 1], k);
    }
  }

  lemma {:induction false} SelectUniform(s: seq<Signal>, own: GroupKey, k: GroupKey)
    requires forall x :: x in s ==> KeyOf(x) == own
    ensures Select(s, k) == if k == own then s else []
  {
    if s != [] {
      assert s[|s| - 1] in s;
      SelectUniform(s[..|s| - 1], own, k);
    }
  }

  lemma {:induction false} SelectNone(s: seq<Signal>, k: GroupKey)
    requires forall x :: x in s ==> KeyOf(x) != k
    ensures Select(s, k) == []
  {
    if s != [] {
      assert s[|s| - 1] in s;
      SelectNone(s[..|s| - 1], k);
    }
  }

  /** Progress of the sort: `bound` is the next bucket. */
  ghost predicate Filled(out: seq<Signal>, s: seq<Signal>, typeCount: nat, kind: nat, typ: nat, rank: nat) {
    && Sorted(out)
    && (forall x :: x in out ==> Visited(KeyOf(x), typeCount) && Reached(KeyOf(x), kind, typ, rank))
    && (forall k :: Visited(k, typeCount) ==>
                      Select(out, k) == if Reached(k, kind, typ, rank) then Select(s, k) else [])
  }

  predicate Reached(k: GroupKey, kind: nat, typ: nat, rank: nat) {
    || k.kind < kind
    || (k.kind == kind && k.typ < typ)
    || (k.kind == kind && k.typ == typ && DirRank(k.dir) < rank)
  }

  lemma {:induction false} ReachedIsNotAfter(k: GroupKey, kind: nat, typ: nat, rank: nat)
    requires rank < DIR_SIZE && Reached(k, kind, typ, rank)
    ensures !Before(GroupKey(kind, DirAt(rank), typ), k)
  {
    DirRankInverse(rank, DirAt(rank));
  }

  lemma {:induction false} SortedAppend(a: seq<Signal>, b: seq<Signal>, own: GroupKey)
    requires Sorted(a)
    requires forall x :: x in a ==> !Before(own, KeyOf(x))
    requires forall x :: x in b ==> KeyOf(x) == own
    ensures Sorted(a + b)
  {
    var c := a + b;
    forall i, j | 0 <= i < j < |c|
      ensures !Before(KeyOf(c[j]), KeyOf(c[i]))
    {
      if j < |a| {
        assert c[i] == a[i] && c[j] == a[j];
      } else {
        assert c[j] == b[j - |a|] && KeyOf(b[j - |a|]) == own;
        if i < |a| {
          assert c[i] == a[i] && a[i] in a;
        } else {
          assert c[i] == b[i - |a|] && b[i - |a|] in b;
        }
      }
    }
  }

  lemma {:induction false} FillBucketSelect(out: seq<Signal>, s: seq<Signal>, typeCount: nat, kind: nat, typ: nat,
      rank: nat, k: GroupKey)
    requires Filled(out, s, typeCount, kind, typ, rank)
    requires kind < KIND_SIZE && typ < typeCount && rank < DIR_SIZE
    requires Visited(k, typeCount)
    ensures var own := GroupKey(kind, DirAt(rank), typ);
            Select(out + Select(s, own), k) == if Reached(k, kind, typ, rank + 1) then Select(s, k) else []
  {
    var own := GroupKey(kind, DirAt(rank), typ);
    DirRankInverse(rank, k.dir);
    SelectAppend(out, Select(s, own), k);
    SelectMembers(s, own);
    SelectUniform(Select(s, own), own, k);
    assert Select(out, k) == if Reached(k, kind, typ, rank) then Select(s, k) else [];
  }

  lemma {:induction false} FillBucket(out: seq<Signal>, s: seq<Signal>, typeCount: nat, kind: nat, typ: nat, rank: nat)
    requires Filled(out, s, typeCount, kind, typ, rank)
    requires kind < KIND_SIZE && typ < typeCount && rank < DIR_SIZE
    ensures Filled(out + Select(s, GroupKey(kind, DirAt(rank), typ)), s, typeCount, kind, typ, rank + 1)
  {
    var own := GroupKey(kind, DirAt(rank), typ);
    var bucket := Select(s, own);
    SelectMembers(s, own);
    forall x | x in out
      ensures !Before(own, KeyOf(x))
    {
      ReachedIsNotAfter(KeyOf(x), kind, typ, rank);
    }
    SortedAppend(out, bucket, own);
    forall x | x in out + bucket
      ensures Visited(KeyOf(x), typeCount) && Reached(KeyOf(x), kind, typ, rank + 1)
    {
      assert x in out || x in bucket;
    }
    forall k | Visited(k, typeCount)
      ensures Select(out + bucket, k) == if Reached(k, kind, typ, rank + 1) then Select(s, k) else []
    {
      FillBucketSelect(out, s, typeCount, kind, typ, rank, k);
    }
  }

  lemma {:induction false} FilledAllDirs(out: seq<Signal>, s: seq<Signal>, typeCount: nat, kind: nat, typ: nat)
    requires Filled(out, s, typeCount, kind, typ, DIR_SIZE)
    ensures Filled(out, s, typeCount, kind, typ + 1, 0)
  {
    forall k | Visited(k, typeCount)
      ensures Reached(k, kind, typ, DIR_SIZE) == Reached(k, kind, typ + 1, 0)
    {
    }
  }

  lemma {:induction false} FilledAllTypes(out: seq<Signal>, s: seq<Signal>, typeCount: nat, kind: nat)
    requires Filled(out, s, typeCount, kind, typeCount, 0)
    ensures Filled(out, s, typeCount, kind + 1, 0, 0)
  {
    forall k | Visited(k, typeCount)
      ensures Reached(k, kind, typeCount, 0) == Reached(k, kind + 1, 0, 0)
    {
    }
  }

  /** The innermost loop: appends the signals of one bucket. */
  method CollectBucket(signals: seq<Signal>, kind: nat, typ: nat, dir: nat, acc: seq<Signal>) returns (out: seq<Signal>)
    ensures out == acc + Select(signals, GroupKey(kind, dir, typ))
  {
    out := acc;
    ghost var own := GroupKey(kind, dir, typ);
    for i := 0 to |signals|
      invariant out == acc + Select(signals[..i], own)
    {
      var s := signals[i];
      assert signals[..i + 1][..i] == signals[..i];
      if s.kind == kind && s.dir == dir && s.typ == typ {
        out := out + [s];
      }
    }
    assert signals[..|signals|] == signals;
  }

  /** The loop over directions, for one kind and type. */
  method CollectDirs(signals: seq<Signal>, typeCount: nat, kind: nat, typ: nat, acc: seq<Signal>)
    returns (out: seq<Signal>)
    requires kind < KIND_SIZE && typ < typeCount
    requires Filled(acc, signals, typeCount, kind, typ, 0)
    ensures Filled(out, signals, typeCount, kind, typ, DIR_SIZE)
  {
    out := acc;
    for rank := 0 to DIR_SIZE
      invariant Filled(out, signals, typeCount, kind, typ, rank)
    {
      FillBucket(out, signals, typeCount, kind, typ, rank);
      out := CollectBucket(signals, kind, typ, DirAt(rank), out);
    }
  }

  /** The loop over types, for one kind. */
  method CollectTypes(signals: seq<Signal>, typeCount: nat, kind: nat, acc: seq<Signal>) returns (out: seq<Signal>)
    requires kind < KIND_SIZE
    requires Filled(acc, signals, typeCount, kind, 0, 0)
    ensures Filled(out, signals, typeCount, kind, typeCount, 0)
  {
    out := acc;
    for typ := 0 to typeCount
      invariant Filled(out, signals, typeCount, kind, typ, 0)
    {
      out := CollectDirs(signals, typeCount, kind, typ, out);
      FilledAllDirs(out, signals, typeCount, kind, typ);
    }
  }

  /** The whole sort. Signals whose codes the loops never visit are dropped, as in the source. */
  method SortByMarshalGroup(signals: seq<Signal>, typeCount: nat) returns (sorted: seq<Signal>)
    ensures Sorted(sorted)
    ensures forall k :: Select(sorted, k) == if Visited(k, typeCount) then Select(signals, k) else []
    ensures (forall s :: s in signals ==> Visited(KeyOf(s), typeCount)) ==>
              StableOf(sorted, signals) && multiset(sorted) == multiset(signals)
  {
    sorted := [];
    for kind := 0 to KIND_SIZE
      invariant Filled(sorted, signals, typeCount, kind, 0, 0)
    {
      sorted := CollectTypes(signals, typeCount, kind, sorted);
      FilledAllTypes(sorted, signals, typeCount, kind);
    }
    SortResult(sorted, signals, typeCount);
  }

  lemma {:induction false} SortResult(sorted: seq<Signal>, signals: seq<Signal>, typeCount: nat)
    requires Filled(sorted, signals, typeCount, KIND_SIZE, 0, 0)
    ensures forall k :: Select(sorted, k) == if Visited(k, typeCount) then Select(signals, k) else []
    ensures (forall s :: s in signals ==> Visited(KeyOf(s), typeCount)) ==>
              StableOf(sorted, signals) && multiset(sorted) == multiset(signals)
  {
    forall k | !Visited(k, typeCount)
      ensures Select(sorted, k) == []
    {
      SelectNone(sorted, k);
    }
    if forall s :: s in signals ==> Visited(KeyOf(s), typeCount) {
      forall k | !Visited(k, typeCount)
        ensures Select(signals, k) == []
      {
        SelectNone(signals, k);
      }
      StableIsPermutation(sorted, signals);
    }
  }

  lemma {:induction false} CountInSelect(s: seq<Signal>, x: Signal)
    ensures multiset(s)[x] == multiset(Select(s, KeyOf(x)))[x]
  {
    if s != [] {
      CountInSelect(s[..|s| - 1], x);
      assert s == s[..|s| - 1] + [s[|s| - 1]];
    }
  }

  /** Agreeing on every key's subsequence already makes one list a permutation of the other. */
  lemma {:induction false} StableIsPermutation(a: seq<Signal>, b: seq<Signal>)
    requires StableOf(a, b)
    ensures multiset(a) == multiset(b)
  {
    forall x
      ensures multiset(a)[x] == multiset(b)[x]
    {
      CountInSelect(a, x);
      CountInSelect(b, x);
    }
  }

  lemma {:induction false} SameSelectSameLast(a: seq<Signal>, b: seq<Signal>, k: GroupKey)
    requires a != [] && b != [] && Select(a, k) == Select(b, k)
    requires KeyOf(a[|a| - 1]) == k && KeyOf(b[|b| - 1]) == k
    ensures a[|a| - 1] == b[|b| - 1]
  {
    var p, q := Select(a[..|a| - 1], k), Select(b[..|b| - 1], k);
    assert Select(a, k) == p + [a[|a| - 1]] && Select(b, k) == q + [b[|b| - 1]];
    assert (p + [a[|a| - 1]])[|p|] == a[|a| - 1] && (q + [b[|b| - 1]])[|q|] == b[|b| - 1];
  }

  lemma {:induction false} SomewhereInBoth(a: seq<Signal>, b: seq<Signal>) returns (x: Signal, y: Signal)
    requires StableOf(a, b) && a != []
    ensures b != [] && x == a[|a| - 1] && y == b[|b| - 1]
    ensures x in a && x in b && y in a && y in b
  {
    StableIsPermutation(a, b);
    assert |multiset(a)| == |a| && |multiset(b)| == |b|;
    x, y := a[|a| - 1], b[|b| - 1];
    assert x in multiset(a) && y in multiset(b);
  }

  lemma {:induction false} LastNotBefore(s: seq<Signal>, x: Signal)
    requires Sorted(s) && x in s
    ensures !Before(KeyOf(s[|s| - 1]), KeyOf(x))
  {
    var i :| 0 <= i < |s| && s[i] == x;
    assert i == |s| - 1 || i < |s| - 1;
  }

  /** Sorted lists that are stable rearrangements of each other end in the same signal. */
  lemma {:induction false} SameLast(a: seq<Signal>, b: seq<Signal>)
    requires Sorted(a) && Sorted(b) && StableOf(a, b)
    requires forall s :: s in a ==> s.dir < DIR_SIZE
    requires a != []
    ensures b != [] && a[|a| - 1] == b[|b| - 1]
  {
    var x, y := SomewhereInBoth(a, b);
    LastNotBefore(a, y);
    LastNotBefore(b, x);
    SameRankSameKey(KeyOf(x), KeyOf(y));
    SameSelectSameLast(a, b, KeyOf(x));
  }

  lemma {:induction false} SameRankSameKey(a: GroupKey, b: GroupKey)
    requires !Before(a, b) && !Before(b, a)
    requires a.dir < DIR_SIZE && b.dir < DIR_SIZE
    ensures a == b
  {
  }

  lemma {:induction false} PrefixStable(a: seq<Signal>, b: seq<Signal>, k: GroupKey)
    requires Select(a, k) == Select(b, k)
    requires a != [] && b != [] && a[|a| - 1] == b[|b| - 1]
    ensures Select(a[..|a| - 1], k) == Select(b[..|b| - 1], k)
  {
    var last := if KeyOf(a[|a| - 1]) == k then [a[|a| - 1]] else [];
    var p, q := Select(a[..|a| - 1], k), Select(b[..|b| - 1], k);
    assert p + last == q + last;
    assert p == (p + last)[..|p|] && q == (q + last)[..|q|];
  }

  /** Sortedness and stability together leave no freedom: the sort has exactly one correct result. */
  lemma {:induction false} SortedStableUnique(a: seq<Signal>, b: seq<Signal>)
    requires Sorted(a) && Sorted(b) && StableOf(a, b)
    requires forall s :: s in a ==> s.dir < DIR_SIZE
    ensures a == b
    decreases |a|
  {
    if a == [] {
      StableIsPermutation(a, b);
      assert |multiset(b)| == |b|;
    } else {
      SameLast(a, b);
      var p, q := a[..|a| - 1], b[..|b| - 1];
      forall k
        ensures Select(p, k) == Select(q, k)
      {
        PrefixStable(a, b, k);
      }
      SortedStableUnique(p, q);
      assert a == p + [a[|a| - 1]] && b == q + [b[|b| - 1]];
    }
  }

  /** Which directions may stand in front of one: none, local, received, both ways, sent, parameter. */
  predicate MayPrecede(first: nat, second: nat) {
    || second == DIR_PARAMETER
    || (second == DIR_TXONLY && first != DIR_PARAMETER)
    || (second == DIR_TXRX && first != DIR_PARAMETER && first != DIR_TXONLY)
    || (second == DIR_RXONLY && (first == DIR_RXONLY || first == DIR_LOCAL || first == DIR_NONE))
    || (second == DIR_LOCAL && (first == DIR_LOCAL || first == DIR_NONE))
    || (second == DIR_NONE && first == DIR_NONE)
  }

  /** What sorted means for any two signals: kinds ascend; within a kind types ascend; and within both the
      directions come in their order. */
  lemma {:induction false} SortedMeans(s: seq<Signal>, i: nat, j: nat)
    requires Sorted(s) && i < j < |s| && s[i].dir < DIR_SIZE && s[j].dir < DIR_SIZE
    ensures s[i].kind <= s[j].kind
    ensures s[i].kind == s[j].kind ==> s[i].typ <= s[j].typ
    ensures s[i].kind == s[j].kind && s[i].typ == s[j].typ ==> MayPrecede(s[i].dir, s[j].dir)
  {
    assert !Before(KeyOf(s[j]), KeyOf(s[i]));
  }

  // ----- the documented order -----

  /** The comment in the sort lists kind, then direction with TX before RXTX before RX, then type
      (dse/fmimcl/parser.c:20-25). It says nothing about the other directions. */
  predicate Listed(dir: nat) {
    dir == DIR_TXONLY || dir == DIR_TXRX || dir == DIR_RXONLY
  }

  function ListedRank(dir: nat): nat {
    if dir == DIR_TXONLY then 0 else if dir == DIR_TXRX then 1 else 2
  }

  predicate DocumentedBefore(a: GroupKey, b: GroupKey) {
    || a.kind < b.kind
    || (a.kind == b.kind && Listed(a.dir) && Listed(b.dir)
        && (ListedRank(a.dir) < ListedRank(b.dir) || (a.dir == b.dir && a.typ < b.typ)))
  }

  ghost predicate DocumentedSorted(s: seq<Signal>) {
    forall i, j :: 0 <= i < j < |s| ==> !DocumentedBefore(KeyOf(s[j]), KeyOf(s[i]))
  }

  /** Of one kind, with the direction of the first listed before that of the second. */
  predicate ListedInOrder(x: Signal, y: Signal) {
    x.kind == y.kind && Listed(x.dir) && Listed(y.dir) && ListedRank(x.dir) < ListedRank(y.dir)
  }

  /** Within a kind, a direction that the comment lists earlier only occurs with smaller types. */
  ghost predicate DirectionsSplitTypes(s: seq<Signal>) {
    forall x, y :: x in s && y in s && ListedInOrder(x, y) ==> x.typ < y.typ
  }

  lemma {:induction false} InDocumentedOrder(s: seq<Signal>, i: nat, j: nat)
    requires DocumentedSorted(s) && i < |s| && j < |s| && ListedInOrder(s[i], s[j])
    ensures i < j
  {
  }

  lemma {:induction false} InSortedOrder(s: seq<Signal>, i: nat, j: nat)
    requires Sorted(s) && i < j < |s| && ListedInOrder(s[i], s[j])
    ensures s[i].typ < s[j].typ
  {
    assert !Before(KeyOf(s[j]), KeyOf(s[i]));
  }

  /** What the sort produces is in the documented order exactly when, within each kind, the directions that
      the comment lists earlier only occur with smaller types. */
  lemma {:induction false} DocumentedOrderHolds(s: seq<Signal>)
    requires Sorted(s)
    ensures DocumentedSorted(s) <==> DirectionsSplitTypes(s)
  {
    if DocumentedSorted(s) {
      forall x, y | x in s && y in s && ListedInOrder(x, y)
        ensures x.typ < y.typ
      {
        var i :| 0 <= i < |s| && s[i] == x;
        var j :| 0 <= j < |s| && s[j] == y;
        InDocumentedOrder(s, i, j);
        InSortedOrder(s, i, j);
      }
    }
    if DirectionsSplitTypes(s) {
      forall i, j | 0 <= i < j < |s|
        ensures !DocumentedBefore(KeyOf(s[j]), KeyOf(s[i]))
      {
        assert s[i] in s && s[j] in s;
        assert !Before(KeyOf(s[j]), KeyOf(s[i]));
      }
    }
  }

  /** An output and an input of the same type: the only sorted arrangement has the output first, the comment
      wants the input first. */
  lemma {:induction false} DocumentedOrderFails()
    ensures var output, input := Signal("y", 1, KIND_PRIMITIVE, DIR_RXONLY, TYPE_DOUBLE, None),
                                 Signal("u", 2, KIND_PRIMITIVE, DIR_TXONLY, TYPE_DOUBLE, None);
            Sorted([output, input]) && !DocumentedSorted([output, input]) && !Sorted([input, output])
  {
    var output, input := Signal("y", 1, KIND_PRIMITIVE, DIR_RXONLY, TYPE_DOUBLE, None),
                         Signal("u", 2, KIND_PRIMITIVE, DIR_TXONLY, TYPE_DOUBLE, None);
    assert DocumentedBefore(KeyOf([output, input][1]), KeyOf([output, input][0]));
    assert Before(KeyOf([input, output][1]), KeyOf([input, output][0]));
  }

  // ----- the measurement prefix -----

  /** Number of primitive signals before the first signal of another kind (model.c:74-83). */
  method MeasurementCount(kinds: seq<nat>) returns (count: nat)
    ensures count <= |kinds|
    ensures forall i :: 0 <= i < count ==> kinds[i] == KIND_PRIMITIVE
    ensures count < |kinds| ==> kinds[count] != KIND_PRIMITIVE
  {
    count := 0;
    var i := 0;
    while i < |kinds|
      invariant 0 <= i == count <= |kinds|
      invariant forall j :: 0 <= j < count ==> kinds[j] == KIND_PRIMITIVE
    {
      if kinds[i] != KIND_PRIMITIVE {
        break;
      }
      count := count + 1;
      i := i + 1;
    }
  }

  ghost function Primitives(s: seq<Signal>): (n: nat) {
    if s == [] then 0
    else Primitives(s[..|s| - 1]) + (if s[|s| - 1].kind == KIND_PRIMITIVE then 1 else 0)
  }

  lemma {:induction false} PrimitivesSplit(s: seq<Signal>, count: nat)
    requires count <= |s|
    requires forall i :: 0 <= i < count ==> s[i].kind == KIND_PRIMITIVE
    ensures Primitives(s) >= count
    ensures Primitives(s) == count <==> forall i :: count <= i < |s| ==> s[i].kind != KIND_PRIMITIVE
    decreases |s|
  {
    if |s| > count {
      var t := s[..|s| - 1];
      PrimitivesSplit(t, count);
      assert forall i :: 0 <= i < |t| ==> t[i] == s[i];
    } else if count > 0 {
      PrimitivesSplit(s[..|s| - 1], count - 1);
    }
  }

  /** The comment in model_create assumes that primitive signals come first. On a sorted list the
      prefix counts all of them exactly when no signal without a kind is present, or there is
      nothing to count: signals of kind NONE sort in front. */
  lemma {:induction false} MeasurementCountsAll(s: seq<Signal>, count: nat)
    requires Sorted(s)
    requires forall x :: x in s ==> x.kind < KIND_SIZE
    requires count <= |s|
    requires forall i :: 0 <= i < count ==> s[i].kind == KIND_PRIMITIVE
    requires count < |s| ==> s[count].kind != KIND_PRIMITIVE
    ensures count == Primitives(s) <==>
            ((forall x :: x in s ==> x.kind != KIND_NONE) || (forall x :: x in s ==> x.kind != KIND_PRIMITIVE))
  {
    PrimitivesSplit(s, count);
    KindsAscend(s);
    forall x | x in s
      ensures exists i :: 0 <= i < |s| && s[i] == x
    {
    }
    if count < |s| {
      assert s[count] in s;
      assert s[count].kind == KIND_NONE || s[count].kind == KIND_BINARY;
      assert forall i :: count <= i < |s| ==> s[i] in s && s[count].kind <= s[i].kind;
      assert forall i :: 0 <= i < count ==> s[i].kind <= s[count].kind;
    }
  }

  /** A variable of unknown type sorts in front of a measured one, which the prefix then misses. */
  lemma {:induction false} PrefixMissesPrimitive()
    ensures var odd, speed := Signal("odd", 1, KIND_NONE, DIR_RXONLY, TYPE_NONE, None),
                              Signal("speed", 2, KIND_PRIMITIVE, DIR_RXONLY, TYPE_DOUBLE, None);
            Sorted([odd, speed]) && [odd, speed][0].kind != KIND_PRIMITIVE && Primitives([odd, speed]) == 1
  {
    var odd, speed := Signal("odd", 1, KIND_NONE, DIR_RXONLY, TYPE_NONE, None),
                      Signal("speed", 2, KIND_PRIMITIVE, DIR_RXONLY, TYPE_DOUBLE, None);
    assert [odd, speed][..1] == [odd] && [odd][..0] == [];
    assert Primitives([odd]) == 0;
  }

  lemma {:induction false} KindsAscend(s: seq<Signal>)
    requires Sorted(s)
    ensures forall i, j :: 0 <= i < j < |s| ==> s[i].kind <= s[j].kind
  {
    forall i, j | 0 <= i < j < |s|
      ensures s[i].kind <= s[j].kind
    {
      assert !Before(KeyOf(s[j]), KeyOf(s[i]));
    }
  }
}
