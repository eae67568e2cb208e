/** Keyset pages of a workspace's sessions (src/host/historyRead.ts). */
module Paging {
  import opened Prelude
  import opened ByteOrder

  const SESSIONS_PAGE_MAX := 200
  const MAX_SAFE := 0x1F_FFFF_FFFF_FFFF

  type Id = seq<CodeUnit>

  datatype Session = Session(id: Id, workspace: Id, lastActiveAt: Option<int>)

  datatype Cursor = Cursor(lastActiveAt: int, id: Id)

  // ---------------------------------------------------------------- requests

  /** A JSON value, as far as the parser looks. */
  datatype Json =
    | Undefined | Null | Integer(n: int) | Fraction | Text(s: Id) | OtherScalar | List
    | Object(fields: map<string, Json>)

  function Field(v: Json, name: string): Json
    requires v.Object?
  {
    if name in v.fields then v.fields[name] else Undefined
  }

  predicate IsInt(v: Json) { v.Integer? && -MAX_SAFE <= v.n <= MAX_SAFE }

  predicate IdChar(u: CodeUnit) {
    || 0x30 <= u <= 0x3A                              // digits and ':'
    || 0x41 <= u <= 0x5A || 0x61 <= u <= 0x7A         // letters
    || u == 0x5F || u == 0x2E || u == 0x2D            // '_' '.' '-'
  }

  predicate IsId(id: Id) { 1 <= |id| <= 128 && forall i :: 0 <= i < |id| ==> IdChar(id[i]) }

  datatype Req = BadRequest | Req(after: Option<Cursor>, limit: int)

  function ParseSessionsReq(v: Json): Req {
    if !v.Object? then BadRequest
    else
      var l := Field(v, "limit");
      var limit := if l.Undefined? then Integer(SESSIONS_PAGE_MAX) else l;
      if !IsInt(limit) || limit.n < 1 || limit.n > SESSIONS_PAGE_MAX then BadRequest
      else
        var a := Field(v, "after");
        if a.Undefined? || a.Null? then Req(None, limit.n)
        else if !a.Object? then BadRequest
        else
          var at, id := Field(a, "lastActiveAt"), Field(a, "id");
          if !IsInt(at) || at.n < 0 || !id.Text? || !IsId(id.s) then BadRequest
          else Req(Some(Cursor(at.n, id.s)), limit.n)
  }

  /** What a client sends to go on from a page's `next`. */
  function Ask(after: Option<Cursor>, limit: int): Json {
    Object(map[
      "after" := if after.None? then Null
                 else Object(map["lastActiveAt" := Integer(after.value.lastActiveAt), "id" := Text(after.value.id)]),
      "limit" := Integer(limit)])
  }

  predicate CursorOk(c: Cursor) { 0 <= c.lastActiveAt <= MAX_SAFE && IsId(c.id) }

  lemma AskRoundTrip(after: Option<Cursor>, limit: int)
    ensures ParseSessionsReq(Ask(after, limit))
      == if 1 <= limit <= SESSIONS_PAGE_MAX && (after.Some? ==> CursorOk(after.value)) then Req(after, limit) else BadRequest
  {
    var v := Ask(after, limit);
    assert Field(v, "limit") == Integer(limit);
    if after.Some? {
      var a := Field(v, "after");
      assert Field(a, "lastActiveAt") == Integer(after.value.lastActiveAt) && Field(a, "id") == Text(after.value.id);
    }
  }

  // ---------------------------------------------------------------- the order

  function Active(s: Session): int { if s.lastActiveAt.Some? then s.lastActiveAt.value else 0 }

  function CursorOf(s: Session): Cursor { Cursor(Active(s), s.id) }

  /** COALESCE(last_active_at, 0) DESC, id COLLATE "C" ASC. */
  predicate Before(a: Session, b: Session) {
    Active(a) > Active(b) || (Active(a) == Active(b) && Compare(a.id, b.id) < 0)
  }

  /** The keyset predicate. */
  predicate IsAfter(after: Option<Cursor>, s: Session) {
    after.None? || Active(s) < after.value.lastActiveAt
    || (Active(s) == after.value.lastActiveAt && Compare(s.id, after.value.id) > 0)
  }

  lemma AfterIsBefore(a: Session, b: Session)
    ensures IsAfter(Some(CursorOf(a)), b) <==> Before(a, b)
  {
    CompareFlips(a.id, b.id);
  }

  lemma BeforeTotal(a: Session, b: Session)
    requires a.id != b.id
    ensures Before(a, b) <==> !Before(b, a)
  {
    CompareFlips(a.id, b.id);
    CompareZero(a.id, b.id);
  }

  lemma BeforeChains(a: Session, b: Session, c: Session)
    requires Before(a, b) && Before(b, c)
    ensures Before(a, c)
  {
    if Active(a) == Active(b) == Active(c) { CompareChains(a.id, b.id, c.id); }
  }

  ghost predicate Ordered(s: seq<Session>) { forall i, j :: 0 <= i < j < |s| ==> Before(s[i], s[j]) }

  // ---------------------------------------------------------------- the query

  /** The sessions table in storage order; ids are its primary key. */
  type Table = seq<Session>

  ghost predicate Keyed(t: Table) { forall i, j :: 0 <= i < j < |t| ==> t[i].id != t[j].id }

  predicate Visible(ws: Id, s: Session) { s.workspace == ws && IsId(s.id) }

  function Where(t: Table, ws: Id, after: Option<Cursor>): Table {
    if t == [] then []
    else if Visible(ws, t[0]) && IsAfter(after, t[0]) then [t[0]] + Where(t[1..], ws, after)
    else Where(t[1..], ws, after)
  }

  function Insert(x: Session, s: seq<Session>): seq<Session> {
    if s == [] || Before(x, s[0]) then [x] + s else [s[0]] + Insert(x, s[1..])
  }

  function OrderBy(t: Table): seq<Session> { if t == [] then [] else Insert(t[0], OrderBy(t[1..])) }

  datatype Page = Page(rows: seq<Session>, next: Option<Cursor>)

  /** LIMIT limit + 1, of which the last only tells that there is more. */
  function Cut(sorted: seq<Session>, limit: nat): Page {
    var sess := sorted[..Min(limit + 1, |sorted|)];
    var page := sess[..Min(limit, |sess|)];
    Page(page, if |sess| > limit && page != [] then Some(CursorOf(page[|page| - 1])) else None)
  }

  function SessionsPage(t: Table, ws: Id, req: Req): Page
    requires req.Req? && req.limit >= 1
  {
    Cut(OrderBy(Where(t, ws, req.after)), req.limit)
  }

  // ---------------------------------------------------------------- the whole list, in order

  /** All of a workspace's sessions as the federation shows them. */
  function Listing(t: Table, ws: Id): seq<Session> { OrderBy(Where(t, ws, None)) }

  lemma {:induction false} InsertKeeps(x: Session, s: seq<Session>)
    requires Ordered(s) && forall y :: y in s ==> y.id != x.id
    ensures Ordered(Insert(x, s)) && multiset(Insert(x, s)) == multiset(s) + multiset{x}
  {
    if s != [] {
      var s0, rest := s[0], s[1..];
      assert s == [s0] + rest;
      if Before(x, s0) {
        forall y | y in rest ensures Before(x, y) { BeforeChains(x, s0, y); }
      } else {
        InsertKeeps(x, rest);
        BeforeTotal(x, s0);
        forall y | y in Insert(x, rest) ensures Before(s0, y) {
          assert y in multiset(Insert(x, rest));
        }
      }
    }
  }

  lemma {:induction false} OrderByKeeps(t: Table)
    requires Keyed(t)
    ensures Ordered(OrderBy(t)) && multiset(OrderBy(t)) == multiset(t)
  {
    if t != [] {
      OrderByKeeps(t[1..]);
      assert t == [t[0]] + t[1..];
      forall y | y in OrderBy(t[1..]) ensures y.id != t[0].id {
        assert y in multiset(OrderBy(t[1..])) && y in t[1..];
      }
      InsertKeeps(t[0], OrderBy(t[1..]));
    }
  }

  lemma {:induction false} WhereSelects(t: Table, ws: Id, after: Option<Cursor>)
    ensures forall x :: x in Where(t, ws, after) <==> x in t && Visible(ws, x) && IsAfter(after, x)
    ensures Keyed(t) ==> Keyed(Where(t, ws, after))
  {
    if t != [] {
      var rest := Where(t[1..], ws, after);
      WhereSelects(t[1..], ws, after);
      assert t == [t[0]] + t[1..];
      if Keyed(t) {
        assert forall x :: x in rest ==> x.id != t[0].id;
      }
    }
  }

  /** The listing holds every visible session once, newest first. */
  lemma ListingIsOrdered(t: Table, ws: Id)
    requires Keyed(t)
    ensures var l := Listing(t, ws);
      Ordered(l) && (forall x :: x in l <==> x in t && Visible(ws, x)) && forall x :: x in l ==> multiset(l)[x] == 1
  {
    var w := Where(t, ws, None);
    WhereSelects(t, ws, None);
    OrderByKeeps(w);
    var l := Listing(t, ws);
    forall x ensures x in l <==> x in w {
      assert x in l <==> x in multiset(l);
      assert x in w <==> x in multiset(w);
    }
    forall x | x in l ensures multiset(l)[x] == 1 { OnceEach(l, x); }
  }

  lemma {:induction false} OnceEach(s: seq<Session>, x: Session)
    requires Ordered(s) && x in s
    ensures multiset(s)[x] == 1
  {
    var s0, rest := s[0], s[1..];
    assert s == [s0] + rest;
    if x == s0 {
      CompareSelf(x.id);
      assert x !in rest;
    } else {
      OnceEach(rest, x);
    }
  }

  function Since(s: Session): int {
    match s.lastActiveAt
    case None => 0
    case Some(ms) => ms
  }

  lemma IdsAreWellFormed(id: Id)
    requires forall i :: 0 <= i < |id| ==> IdChar(id[i])
    ensures WellFormed(id)
    decreases |id|
  {
    if id != [] { IdsAreWellFormed(id[1..]); }
  }

  /** Characters of an id: letters, digits and "_.:-". */
  lemma IdCharsExactly(u: CodeUnit)
    ensures IdChar(u) <==>
      || 'A' as int <= u <= 'Z' as int || 'a' as int <= u <= 'z' as int || '0' as int <= u <= '9' as int
      || u == '_' as int || u == '.' as int || u == ':' as int || u == '-' as int
  {
  }

  /** The listing is by activity, latest first and none as 0, and then by the UTF-8 bytes of the id; it is of this workspace only. */
  lemma ListingIsNewestFirst(t: Table, ws: Id, i: nat, j: nat)
    requires Keyed(t) && i < j < |Listing(t, ws)|
    ensures var x, y := Listing(t, ws)[i], Listing(t, ws)[j];
      && x.workspace == ws == y.workspace && WellFormed(x.id) && WellFormed(y.id)
      && (Since(x) > Since(y) || (Since(x) == Since(y) && Lex(Utf8Of(x.id), Utf8Of(y.id)) == -1))
  {
    var l := Listing(t, ws);
    ListingIsOrdered(t, ws);
    assert l[i] in l && l[j] in l && Before(l[i], l[j]);
    IdsAreWellFormed(l[i].id);
    IdsAreWellFormed(l[j].id);
    CompareIsUtf8Order(l[i].id, l[j].id);
  }

  // ---------------------------------------------------------------- a page is a slice of the listing

  /** The rows of an ordered list that the keyset predicate keeps. */
  function Later(s: seq<Session>, after: Option<Cursor>): seq<Session> {
    if s == [] then []
    else if IsAfter(after, s[0]) then [s[0]] + Later(s[1..], after)
    else Later(s[1..], after)
  }

  lemma {:induction false} LaterIn(s: seq<Session>, after: Option<Cursor>)
    ensures forall y :: y in Later(s, after) ==> y in s
  {
    if s != [] { LaterIn(s[1..], after); }
  }

  lemma {:induction false} LaterInsert(x: Session, s: seq<Session>, after: Option<Cursor>)
    requires Ordered(s)
    ensures Later(Insert(x, s), after) == if IsAfter(after, x) then Insert(x, Later(s, after)) else Later(s, after)
  {
    if s == [] {
    } else if Before(x, s[0]) {
      assert ([x] + s)[1..] == s;
      forall y | y in s ensures Before(x, y) { if y != s[0] { BeforeChains(x, s[0], y); } }
      LaterIn(s, after);
    } else {
      LaterInsert(x, s[1..], after);
      assert ([s[0]] + Insert(x, s[1..]))[1..] == Insert(x, s[1..]);
      assert ([s[0]] + Later(s[1..], after))[1..] == Later(s[1..], after);
    }
  }

  /** Filtering the table then sorting is sorting then filtering. */
  lemma {:induction false} WhereThenOrder(t: Table, ws: Id, after: Option<Cursor>)
    requires Keyed(t)
    ensures OrderBy(Where(t, ws, after)) == Later(Listing(t, ws), after)
  {
    if t != [] {
      var rest := t[1..];
      WhereThenOrder(rest, ws, after);
      ListingIsOrdered(rest, ws);
      if Visible(ws, t[0]) {
        assert Where(t, ws, None)[1..] == Where(rest, ws, None);
        LaterInsert(t[0], Listing(rest, ws), after);
        if IsAfter(after, t[0]) { assert Where(t, ws, after)[1..] == Where(rest, ws, after); }
      }
    }
  }

  lemma {:induction false} LaterAll(s: seq<Session>, after: Option<Cursor>)
    requires forall y :: y in s ==> IsAfter(after, y)
    ensures Later(s, after) == s
  {
    if s != [] { LaterAll(s[1..], after); }
  }

  /** The keyset predicate cuts an ordered list right behind the cursor's row. */
  lemma {:induction false} LaterIsSuffix(s: seq<Session>, k: nat)
    requires Ordered(s) && k < |s|
    ensures Later(s, Some(CursorOf(s[k]))) == s[k + 1..]
  {
    var c := Some(CursorOf(s[k]));
    AfterIsBefore(s[k], s[0]);
    if k == 0 {
      CompareSelf(s[0].id);
      forall y | y in s[1..] ensures IsAfter(c, y) { AfterIsBefore(s[0], y); }
      LaterAll(s[1..], c);
    } else {
      CompareFlips(s[0].id, s[k].id);
      LaterIsSuffix(s[1..], k - 1);
      assert s[1..][k..] == s[k + 1..];
    }
  }

  /** The position in the listing where a cursor leaves off. */
  ghost predicate At(l: seq<Session>, k: nat, after: Option<Cursor>) {
    k <= |l| && if k == 0 then after.None? else after == Some(CursorOf(l[k - 1]))
  }

  lemma RestOfListing(t: Table, ws: Id, after: Option<Cursor>, k: nat)
    requires Keyed(t) && At(Listing(t, ws), k, after)
    ensures OrderBy(Where(t, ws, after)) == Listing(t, ws)[k..]
  {
    var l := Listing(t, ws);
    WhereThenOrder(t, ws, after);
    ListingIsOrdered(t, ws);
    if k == 0 { LaterAll(l, None); } else { LaterIsSuffix(l, k - 1); }
  }

  lemma CutIsSlice(l: seq<Session>, k: nat, limit: nat)
    requires k <= |l| && limit >= 1
    ensures var end := Min(k + limit, |l|);
      Cut(l[k..], limit) == Page(l[k..end], if end < |l| then Some(CursorOf(l[end - 1])) else None)
  {
    var rest := l[k..];
    var sess := rest[..Min(limit + 1, |rest|)];
    assert sess[..Min(limit, |sess|)] == l[k..Min(k + limit, |l|)];
  }

  /** From wherever a cursor leaves off, the page is the next stretch of the listing and `next` its last row. */
  lemma PageIsSlice(t: Table, ws: Id, req: Req, k: nat)
    requires Keyed(t) && req.Req? && req.limit >= 1 && At(Listing(t, ws), k, req.after)
    ensures var l := Listing(t, ws);
      var end := Min(k + req.limit, |l|);
      SessionsPage(t, ws, req) == Page(l[k..end], if end < |l| then Some(CursorOf(l[end - 1])) else None)
  {
    RestOfListing(t, ws, req.after, k);
    CutIsSlice(Listing(t, ws), k, req.limit);
  }

  // ---------------------------------------------------------------- following `next`

  /** Every page of `limit` rows from row `k` on, except the last, ends in a row whose cursor is accepted. */
  predicate CutsAccepted(l: seq<Session>, k: nat, limit: nat)
    requires limit >= 1
    decreases |l| - k
  {
    k + limit < |l| ==> CursorOk(CursorOf(l[k + limit - 1])) && CutsAccepted(l, k + limit, limit)
  }

  /** One request: refused, or answered with the next stretch of the listing. */
  method NextPage(t: Table, ws: Id, after: Option<Cursor>, limit: int, ghost k: nat) returns (p: Option<Page>)
    requires Keyed(t) && At(Listing(t, ws), k, after)
    ensures p.Some? <==> 1 <= limit <= SESSIONS_PAGE_MAX && (after.Some? ==> CursorOk(after.value))
    ensures p.Some? ==>
      var l := Listing(t, ws);
      var end := Min(k + limit, |l|);
      p.value == Page(l[k..end], if end < |l| then Some(CursorOf(l[end - 1])) else None)
  {
    var req := ParseSessionsReq(Ask(after, limit));
    AskRoundTrip(after, limit);
    if req.BadRequest? {
      return None;
    }
    PageIsSlice(t, ws, req, k);
    return Some(SessionsPage(t, ws, req));
  }

  /** A client's run: ask, take the page, go on from its `next`; not `done` if a request is refused. */
  method FollowNext(t: Table, ws: Id, limit: int) returns (pages: seq<seq<Session>>, done: bool)
    requires Keyed(t)
    ensures done <==> 1 <= limit <= SESSIONS_PAGE_MAX && CutsAccepted(Listing(t, ws), 0, limit)
    ensures Flatten(pages) <= Listing(t, ws)
    ensures done ==> Flatten(pages) == Listing(t, ws)
    ensures forall i :: 0 <= i < |pages| ==> |pages[i]| <= limit && (i < |pages| - 1 ==> |pages[i]| == limit)
  {
    pages, done := [], false;
    var after := None;
    ghost var l, k := Listing(t, ws), 0;
    while true
      invariant At(l, k, after) && Read(pages, l, k, limit)
      invariant 1 <= limit <= SESSIONS_PAGE_MAX || (k == 0 && pages == [])
      invariant 1 <= limit ==>
        (CutsAccepted(l, 0, limit) <==> (after.Some? ==> CursorOk(after.value)) && CutsAccepted(l, k, limit))
      decreases |l| - k
    {
      var p := NextPage(t, ws, after, limit, k);
      if p.None? {
        return;
      }
      ghost var end := Min(k + limit, |l|);
      ReadOn(pages, l, k, end, limit);
      CutsTurn(l, k, limit);
      pages := pages + [p.value.rows];
      k := end;
      if p.value.next.None? {
        return pages, true;
      }
      after := p.value.next;
    }
  }

  /** Pages of `limit` rows that make up the first `k` rows. */
  ghost predicate Read(pages: seq<seq<Session>>, l: seq<Session>, k: nat, limit: int) {
    k <= |l| && Flatten(pages) == l[..k] && forall i :: 0 <= i < |pages| ==> |pages[i]| == limit
  }

  lemma ReadOn(pages: seq<seq<Session>>, l: seq<Session>, k: nat, end: nat, limit: int)
    requires Read(pages, l, k, limit) && k <= end <= |l| && end - k <= limit
    ensures Flatten(pages + [l[k..end]]) == l[..end]
    ensures end - k == limit ==> Read(pages + [l[k..end]], l, end, limit)
    ensures end == |l| ==> l[..end] == l
  {
    FlattenSnoc(pages, l[k..end]);
    assert l[..k] + l[k..end] == l[..end];
  }

  lemma CutsTurn(l: seq<Session>, k: nat, limit: nat)
    requires limit >= 1 && k <= |l|
    ensures var end := Min(k + limit, |l|);
      CutsAccepted(l, k, limit) <==> (end < |l| ==> CursorOk(CursorOf(l[end - 1])) && CutsAccepted(l, end, limit))
  {
  }

  /** Rows whose cursor a request may carry. */
  predicate Usable(s: Session) { 0 <= Active(s) <= MAX_SAFE }

  ghost predicate EverySizeAccepted(l: seq<Session>) {
    forall limit :: 1 <= limit <= SESSIONS_PAGE_MAX ==> CutsAccepted(l, 0, limit)
  }

  /** Exactly when every page size reads a workspace to the end: all rows but the last have usable cursors. */
  lemma EveryPageSizeCompletes(t: Table, ws: Id)
    requires Keyed(t)
    ensures EverySizeAccepted(Listing(t, ws)) <==> forall i :: 0 <= i < |Listing(t, ws)| - 1 ==> Usable(Listing(t, ws)[i])
  {
    var l := Listing(t, ws);
    ListingIsOrdered(t, ws);
    forall i | 0 <= i < |l| ensures CursorOk(CursorOf(l[i])) <==> Usable(l[i]) {
      assert l[i] in l;
    }
    if EverySizeAccepted(l) {
      assert CutsAccepted(l, 0, 1);
      SingleCuts(l, 0);
    }
    if forall i :: 0 <= i < |l| - 1 ==> CursorOk(CursorOf(l[i])) {
      forall limit | 1 <= limit <= SESSIONS_PAGE_MAX ensures CutsAccepted(l, 0, limit) {
        AllCuts(l, 0, limit);
      }
      assert EverySizeAccepted(l);
    }
  }

  lemma {:induction false} AllCuts(l: seq<Session>, k: nat, limit: nat)
    requires limit >= 1 && forall i :: 0 <= i < |l| - 1 ==> CursorOk(CursorOf(l[i]))
    ensures CutsAccepted(l, k, limit)
    decreases |l| - k
  {
    if k + limit < |l| { AllCuts(l, k + limit, limit); }
  }

  lemma {:induction false} SingleCuts(l: seq<Session>, k: nat)
    requires CutsAccepted(l, k, 1)
    ensures forall i :: k <= i < |l| - 1 ==> CursorOk(CursorOf(l[i]))
    decreases |l| - k
  {
    if k + 1 < |l| { SingleCuts(l, k + 1); }
  }

  /** Two sessions last active before 1970: with one row a page, the second request is refused. */
  lemma NegativeActivityStalls() returns (t: Table, ws: Id)
    ensures Keyed(t) && !CutsAccepted(Listing(t, ws), 0, 1)
  {
    var a, b := Session([0x61], [], Some(-1)), Session([0x62], [], Some(-2));
    t, ws := [a, b], [];
    assert Visible(ws, a) && Visible(ws, b) && Before(a, b);
    assert [b][1..] == [] && [a, b][1..] == [b];
    assert Where([b], ws, None) == [b];
    assert Where(t, ws, None) == [a] + Where([b], ws, None) == [a, b];
    assert OrderBy([]) == [] && Insert(b, []) == [b];
    assert OrderBy([b]) == [b];
    assert OrderBy([a, b]) == Insert(a, [b]) == [a, b];
    assert !CursorOk(CursorOf([a, b][0]));
  }
}
