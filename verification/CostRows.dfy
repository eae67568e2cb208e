/** Summing a session's cost rows in key order (src/main/db.ts compareCostRows and the sort in listSessions). */
module CostRows {
  import opened Prelude
  import opened ByteOrder

  type Str = seq<CodeUnit>

  /** A session_costs row as the list query returns it; '' columns come back as NULL. */
  datatype CostRow = CostRow(workspaceId: Str, model: Option<Str>, tier: Option<Str>, tokens: seq<int>, eventCount: int)

  function OrEmpty(s: Option<Str>): Str { if s.Some? then s.value else [] }

  function CompareRows(a: CostRow, b: CostRow): int {
    var w := Compare(a.workspaceId, b.workspaceId);
    if w != 0 then w
    else
      var m := Compare(OrEmpty(a.model), OrEmpty(b.model));
      if m != 0 then m else Compare(OrEmpty(a.tier), OrEmpty(b.tier))
  }

  predicate Leq(a: CostRow, b: CostRow) { CompareRows(a, b) <= 0 }

  predicate SameKey(a: CostRow, b: CostRow) {
    a.workspaceId == b.workspaceId && OrEmpty(a.model) == OrEmpty(b.model) && OrEmpty(a.tier) == OrEmpty(b.tier)
  }

  lemma LeqTotal(a: CostRow, b: CostRow)
    ensures CompareRows(b, a) == -CompareRows(a, b)
    ensures CompareRows(a, b) == 0 <==> SameKey(a, b)
  {
    CompareFlips(a.workspaceId, b.workspaceId);
    CompareFlips(OrEmpty(a.model), OrEmpty(b.model));
    CompareFlips(OrEmpty(a.tier), OrEmpty(b.tier));
    CompareZero(a.workspaceId, b.workspaceId);
    CompareZero(OrEmpty(a.model), OrEmpty(b.model));
    CompareZero(OrEmpty(a.tier), OrEmpty(b.tier));
  }

  lemma LeqChains(a: CostRow, b: CostRow, c: CostRow)
    requires Leq(a, b) && Leq(b, c)
    ensures Leq(a, c)
  {
    var wa, wb, wc := a.workspaceId, b.workspaceId, c.workspaceId;
    var ma, mb, mc := OrEmpty(a.model), OrEmpty(b.model), OrEmpty(c.model);
    CompareChains(wa, wb, wc);
    CompareZero(wa, wb); CompareZero(wb, wc);
    if Compare(wa, wc) == 0 {
      CompareChains(ma, mb, mc);
      CompareZero(ma, mb); CompareZero(mb, mc);
      if Compare(ma, mc) == 0 {
        CompareChains(OrEmpty(a.tier), OrEmpty(b.tier), OrEmpty(c.tier));
      }
    }
  }

  /** Rows come in the order of workspace, then model, then tier, each by its UTF-8 bytes with NULL as ''. */
  lemma RowsAreInKeyOrder(a: CostRow, b: CostRow)
    requires WellFormed(a.workspaceId) && WellFormed(OrEmpty(a.model)) && WellFormed(OrEmpty(a.tier))
    requires WellFormed(b.workspaceId) && WellFormed(OrEmpty(b.model)) && WellFormed(OrEmpty(b.tier))
    ensures var w := Lex(Utf8Of(a.workspaceId), Utf8Of(b.workspaceId));
      var m := Lex(Utf8Of(OrEmpty(a.model)), Utf8Of(OrEmpty(b.model)));
      var t := Lex(Utf8Of(OrEmpty(a.tier)), Utf8Of(OrEmpty(b.tier)));
      Leq(a, b) <==> w < 0 || (w == 0 && (m < 0 || (m == 0 && t <= 0)))
  {
    CompareIsUtf8Order(a.workspaceId, b.workspaceId);
    CompareIsUtf8Order(OrEmpty(a.model), OrEmpty(b.model));
    CompareIsUtf8Order(OrEmpty(a.tier), OrEmpty(b.tier));
  }

  /** Neighbours are in order. */
  predicate Sorted(s: seq<CostRow>) {
    forall k :: 0 <= k < |s| - 1 ==> Leq(s[k], s[k + 1])
  }

  /** The insertion sort of listSessions, on the session's rows in place. */
  method InsertionSort(rs: array<CostRow>)
    modifies rs
    ensures Sorted(rs[..]) && multiset(rs[..]) == multiset(old(rs[..]))
  {
    if rs.Length == 0 {
      return;
    }
    var i := 1;
    while i < rs.Length
      invariant 1 <= i <= rs.Length
      invariant Sorted(rs[..i]) && multiset(rs[..]) == multiset(old(rs[..]))
    {
      Insert(rs, i);
      i := i + 1;
    }
    assert rs[..i] == rs[..];
  }

  /** Position j + 1 is free, `r` waits to fill a hole at or left of it; the rest is in order. */
  predicate Hole(s: seq<CostRow>, i: nat, j: int, r: CostRow, rows: multiset<CostRow>) {
    && -1 <= j < i < |s| && multiset(s[j + 1 := r]) == rows
    && (forall k :: 0 <= k < j ==> Leq(s[k], s[k + 1]))
    && (forall k :: j + 2 <= k < i ==> Leq(s[k], s[k + 1]))
    && (j + 2 <= i ==> !Leq(s[j + 2], r))
    && (0 <= j && j + 2 <= i ==> Leq(s[j], s[j + 2]))
  }

  lemma HoleMoves(s: seq<CostRow>, i: nat, j: nat, r: CostRow, rows: multiset<CostRow>)
    requires Hole(s, i, j, r, rows) && !Leq(s[j], r)
    ensures Hole(s[j + 1 := s[j]], i, j - 1, r, rows)
  {
    var x := s[j + 1 := r];
    var s' := s[j + 1 := s[j]];
    assert multiset(s'[j := r]) == rows by {
      assert s'[j := r] == x[j + 1 := x[j]][j := r];
      Swap(x, j);
    }
    forall k | j + 1 <= k < i
      ensures Leq(s'[k], s'[k + 1])
    {
      if k > j + 1 { assert s'[k] == s[k] && s'[k + 1] == s[k + 1]; }
    }
    forall k | 0 <= k < j - 1
      ensures Leq(s'[k], s'[k + 1])
    {
      assert s'[k] == s[k] && s'[k + 1] == s[k + 1];
    }
  }

  lemma Swap(x: seq<CostRow>, j: nat)
    requires j + 1 < |x|
    ensures multiset(x[j + 1 := x[j]][j := x[j + 1]]) == multiset(x)
  {
  }

  lemma HoleFilled(s: seq<CostRow>, i: nat, j: int, r: CostRow, rows: multiset<CostRow>)
    requires Hole(s, i, j, r, rows) && (0 <= j ==> Leq(s[j], r))
    ensures Sorted(s[j + 1 := r][..i + 1])
  {
    var t := s[j + 1 := r];
    if j + 2 <= i { LeqTotal(s[j + 2], r); }
    forall k | 0 <= k < i
      ensures Leq(t[k], t[k + 1])
    {
      if k != j && k != j + 1 { assert t[k] == s[k] && t[k + 1] == s[k + 1]; }
    }
  }

  /** One pass of the outer loop: element `i` moves left past everything greater. */
  method Insert(rs: array<CostRow>, i: nat)
    requires 1 <= i < rs.Length && Sorted(rs[..i])
    modifies rs
    ensures Sorted(rs[..i + 1]) && multiset(rs[..]) == multiset(old(rs[..]))
  {
    var r := rs[i];
    var j := i - 1;
    ghost var rows := multiset(rs[..]);
    assert Hole(rs[..], i, j, r, rows) by {
      assert rs[..][i := r] == rs[..];
      forall k | 0 <= k < j ensures Leq(rs[..][k], rs[..][k + 1]) {
        assert rs[..][k] == rs[..i][k] && rs[..][k + 1] == rs[..i][k + 1];
      }
    }
    while j >= 0 && CompareRows(rs[j], r) > 0
      invariant Hole(rs[..], i, j, r, rows)
    {
      ghost var s := rs[..];
      HoleMoves(s, i, j, r, rows);
      rs[j + 1] := rs[j];
      assert rs[..] == s[j + 1 := s[j]];
      j := j - 1;
    }
    ghost var s := rs[..];
    HoleFilled(s, i, j, r, rows);
    rs[j + 1] := r;
    assert rs[..] == s[j + 1 := r];
    assert rs[..i + 1] == s[j + 1 := r][..i + 1];
  }

  // ---------------------------------------------------------------- one result for every storage order

  /** The primary key of session_costs: no two rows of the session share one. */
  ghost predicate UniqueKeys(m: multiset<CostRow>) {
    forall r, q :: r in m && q in m && SameKey(r, q) ==> r == q
  }

  lemma {:induction false} HeadIsLeast(s: seq<CostRow>, k: nat)
    requires Sorted(s) && k < |s|
    ensures Leq(s[0], s[k])
    decreases k
  {
    LeqTotal(s[0], s[0]);
    if k > 0 {
      HeadIsLeast(s, k - 1);
      LeqChains(s[0], s[k - 1], s[k]);
    }
  }

  lemma HeadsAgree(x: seq<CostRow>, y: seq<CostRow>)
    requires Sorted(x) && Sorted(y) && multiset(x) == multiset(y) && UniqueKeys(multiset(x)) && x != [] && y != []
    ensures x[0] == y[0]
  {
    assert x[0] in multiset(y) && y[0] in multiset(x);
    var k :| 0 <= k < |y| && y[k] == x[0];
    var l :| 0 <= l < |x| && x[l] == y[0];
    HeadIsLeast(y, k);
    HeadIsLeast(x, l);
    LeqTotal(x[0], y[0]);
  }

  lemma TailRows(x: seq<CostRow>)
    requires x != []
    ensures multiset(x[1..]) == multiset(x) - multiset{x[0]}
    ensures Sorted(x) ==> Sorted(x[1..])
  {
    assert x == [x[0]] + x[1..];
  }

  lemma UniqueTail(x: seq<CostRow>)
    requires x != [] && UniqueKeys(multiset(x))
    ensures UniqueKeys(multiset(x[1..]))
  {
    TailRows(x);
  }

  lemma Rebuild(x: seq<CostRow>, y: seq<CostRow>)
    requires x != [] && y != [] && x[0] == y[0] && x[1..] == y[1..]
    ensures x == y
  {
    assert x == [x[0]] + x[1..] && y == [y[0]] + y[1..];
  }

  /** Sorted arrangements of the same rows are the same. */
  lemma {:induction false} SortedIsUnique(x: seq<CostRow>, y: seq<CostRow>)
    requires Sorted(x) && Sorted(y) && multiset(x) == multiset(y) && UniqueKeys(multiset(x))
    ensures x == y
    decreases |x|
  {
    assert |multiset(x)| == |x| && |multiset(y)| == |y|;
    if x != [] {
      HeadsAgree(x, y);
      TailRows(x);
      TailRows(y);
      UniqueTail(x);
      SortedIsUnique(x[1..], y[1..]);
      Rebuild(x, y);
    }
  }

  /** listSessions sums the same rows in the same order however they were stored. */
  method SortTwoStorageOrders(a: array<CostRow>, b: array<CostRow>)
    requires a != b && multiset(a[..]) == multiset(b[..]) && UniqueKeys(multiset(a[..]))
    modifies a, b
    ensures a[..] == b[..] && Sorted(a[..]) && multiset(a[..]) == multiset(old(a[..]))
  {
    InsertionSort(a);
    InsertionSort(b);
    SortedIsUnique(a[..], b[..]);
  }
}
