/**
 Cursor paging as the activities and the executions projectors do it: a page is the longest run of
 remaining items that respects the limit and the response size, and its cursor is bound to the query
 and to the snapshot. Response sizes and the record codec are parameters.
*/
module Paging {
  import opened Wrappers
  import opened Base64Url

  // ---------------------------------------------------------------- cursors

  /** What a cursor is bound to besides the snapshot; `selection` is the time range or the target. */
  datatype Binding = Binding(resource: string, specId: string, flowVersion: nat, selection: string)

  datatype Payload<K> = Payload(digest: string, binding: Binding, position: K, snapshotId: string)

  /** Canonical writing and reading of payload records, their digest, and which positions are well formed. */
  datatype Codec<!K> = Codec(write: Payload<K> -> seq<Byte>, read: seq<Byte> -> Option<Payload<K>>,
                             digest: Payload<K> -> string, wellFormed: K -> bool)

  ghost predicate Faithful<K(!new)>(c: Codec<K>) {
    forall p :: c.read(c.write(p)) == Some(p)
  }

  /** The payload with the digest of everything but the digest. */
  function Sealed<K>(c: Codec<K>, p: Payload<K>): Payload<K> {
    p.(digest := c.digest(p.(digest := "")))
  }

  function Cursor<K>(c: Codec<K>, binding: Binding, snapshotId: string, position: K): string {
    Encode(c.write(Sealed(c, Payload("", binding, position, snapshotId))))
  }

  function ReadCursor<K(==)>(c: Codec<K>, text: string, binding: Binding, snapshotId: string): Result<K> {
    if text == "" || !AllLetters(text) || Encode(Decode(text)) != text then Failure("INVALID_CURSOR")
    else match c.read(Decode(text))
      case None => Failure("INVALID_CURSOR")
      case Some(p) =>
        if c.write(p) != Decode(text) || !c.wellFormed(p.position) || p != Sealed(c, p) then Failure("INVALID_CURSOR")
        else if p.binding != binding then Failure("CURSOR_QUERY_MISMATCH")
        else if p.snapshotId != snapshotId then Failure("SNAPSHOT_CHANGED")
        else Success(p.position)
  }

  /** A cursor is accepted by its own query on its own snapshot, and by no other. */
  lemma CursorIsBound<K(!new)>(c: Codec<K>, issued: Binding, issuedOn: string, position: K, binding: Binding, snapshotId: string)
    requires Faithful(c) && c.wellFormed(position) && Cursor(c, issued, issuedOn, position) != ""
    ensures ReadCursor(c, Cursor(c, issued, issuedOn, position), binding, snapshotId)
         == (if issued != binding then Failure("CURSOR_QUERY_MISMATCH")
             else if issuedOn != snapshotId then Failure("SNAPSHOT_CHANGED")
             else Success(position))
  {
    DecodeEncode(c.write(Sealed(c, Payload("", issued, position, issuedOn))));
  }

  /** Helper: what the guards of reading add up to. */
  lemma OnlyIssuedCursorsRead<K>(c: Codec<K>, text: string, binding: Binding, snapshotId: string)
    requires ReadCursor(c, text, binding, snapshotId).Success?
    ensures var position := ReadCursor(c, text, binding, snapshotId).value;
            c.wellFormed(position) && text == Cursor(c, binding, snapshotId, position)
  {
    var p := c.read(Decode(text)).value;
    assert p == Sealed(c, Payload("", binding, p.position, snapshotId));
  }

  // ---------------------------------------------------------------- pages

  datatype Page<K> = Page(items: seq<K>, limit: nat, endCursor: Option<string>, hasNext: bool, returnedItems: nat, totalItems: nat)

  type Before<!K> = (K, K) -> bool

  predicate Ascending<K>(s: seq<K>, before: Before<K>) {
    forall i, j | 0 <= i < j < |s| :: before(s[i], s[j]) && !before(s[j], s[i])
  }

  predicate Irreflexive<K>(s: seq<K>, before: Before<K>) {
    forall i | 0 <= i < |s| :: !before(s[i], s[i])
  }

  /** The checks the response validation makes of a page and of the order of its items. */
  predicate PageAccepted<K>(p: Page<K>, before: Before<K>) {
    && p.returnedItems == |p.items| && |p.items| <= p.limit
    && p.totalItems >= |p.items|
    && (|p.items| > 0 || !p.hasNext)
    && (!p.hasNext || p.endCursor.Some?)
    && (!p.hasNext || p.totalItems > |p.items|)
    && forall i | 0 < i < |p.items| :: before(p.items[i - 1], p.items[i])
  }

  function Beyond<K>(s: seq<K>, before: Before<K>, position: K): seq<K> {
    if s == [] then []
    else (if before(position, s[0]) then [s[0]] else []) + Beyond(s[1..], before, position)
  }

  lemma {:induction false} BeyondIsSuffix<K>(s: seq<K>, before: Before<K>, position: K, n: nat)
    requires n <= |s|
    requires forall i | 0 <= i < |s| :: before(position, s[i]) <==> n <= i
    ensures Beyond(s, before, position) == s[n..]
  {
    if s != [] {
      if n > 0 {
        BeyondIsSuffix(s[1..], before, position, n - 1);
        assert s[1..][n - 1..] == s[n..];
      } else {
        BeyondIsSuffix(s[1..], before, position, 0);
        assert s == [s[0]] + s[1..];
      }
    }
  }

  /** How many remaining items a page takes from `n` on: up to the limit, and while the response still fits. */
  function Taken<K>(remaining: seq<K>, limit: nat, fits: seq<K> -> bool, n: nat): (k: nat)
    requires n <= limit && n <= |remaining|
    ensures n <= k <= limit && k <= |remaining|
    ensures forall i | n < i <= k :: fits(remaining[..i])
    ensures k == limit || k == |remaining| || !fits(remaining[..k + 1])
    decreases |remaining| - n
  {
    if n == limit || n == |remaining| || !fits(remaining[..n + 1]) then n
    else Taken(remaining, limit, fits, n + 1)
  }

  /** Fills a page; fails exactly when the first remaining item alone does not fit. */
  method FillPage<K>(remaining: seq<K>, limit: nat, fits: seq<K> -> bool) returns (r: Result<seq<K>>)
    ensures r.Failure? <==> remaining != [] && limit > 0 && !fits(remaining[..1])
    ensures r.Failure? ==> r.error == "RESPONSE_TOO_LARGE"
    ensures r.Success? ==> r.value == remaining[..Taken(remaining, limit, fits, 0)]
  {
    var items: seq<K> := [];
    var i := 0;
    while i < |remaining| && i < limit
      invariant i <= |remaining| && i <= limit && items == remaining[..i]
      invariant Taken(remaining, limit, fits, 0) == Taken(remaining, limit, fits, i)
      invariant i > 0 ==> fits(remaining[..1])
    {
      items := items + [remaining[i]];
      assert items == remaining[..i + 1];
      if !fits(items) {
        items := items[..|items| - 1];
        if items == [] { return Failure("RESPONSE_TOO_LARGE"); }
        break;
      }
      i := i + 1;
    }
    return Success(items);
  }

  datatype Request = Request(binding: Binding, limit: nat, after: Option<string>)

  /**
   Helper that puts a page together from its parts; what a page is good for is said of `NextPage`. `admits`
   is the projector's own check of a cursor position: not beyond the confirmed prefix for activities, an
   identity of the selection for executions.
  */
  method ProjectPage<K(==)>(c: Codec<K>, request: Request, snapshotId: string, selected: seq<K>, before: Before<K>,
                            admits: K -> bool, fits: seq<K> -> bool) returns (r: Result<Page<K>>)
    requires Ascending(selected, before)
    ensures match StartOf(c, request, snapshotId, admits)
            case Failure(error) => r == Failure(error)
            case Success(start) =>
              var remaining := RemainingAfter(selected, before, start);
              if remaining != [] && request.limit > 0 && !fits(remaining[..1]) then r == Failure("RESPONSE_TOO_LARGE")
              else r == Success(PageOf(c, request, snapshotId, |selected|, remaining, Taken(remaining, request.limit, fits, 0)))
  {
    var start := StartOf(c, request, snapshotId, admits);
    if start.Failure? { return Failure(start.error); }
    var remaining := RemainingAfter(selected, before, start.value);
    var items := FillPage(remaining, request.limit, fits);
    if items.Failure? { return Failure(items.error); }
    r := Success(PageOf(c, request, snapshotId, |selected|, remaining, |items.value|));
  }

  /** Where a request starts: at the beginning, or behind the position of its cursor. */
  function StartOf<K(==)>(c: Codec<K>, request: Request, snapshotId: string, admits: K -> bool): Result<Option<K>> {
    match request.after
    case None => Success(None)
    case Some(text) =>
      match ReadCursor(c, text, request.binding, snapshotId)
      case Failure(error) => Failure(error)
      case Success(position) => if admits(position) then Success(Some(position)) else Failure("INVALID_CURSOR")
  }

  /** Where a request with an issued cursor starts: behind its position, if the projector knows it; otherwise each refusal is named. */
  lemma IssuedCursorStarts<K(!new)>(c: Codec<K>, request: Request, snapshotId: string, admits: K -> bool,
                                    issued: Binding, issuedOn: string, position: K)
    requires Faithful(c) && c.wellFormed(position) && Cursor(c, issued, issuedOn, position) != ""
    requires request.after == Some(Cursor(c, issued, issuedOn, position))
    ensures StartOf(c, request, snapshotId, admits)
         == (if issued != request.binding then Failure("CURSOR_QUERY_MISMATCH")
             else if issuedOn != snapshotId then Failure("SNAPSHOT_CHANGED")
             else if !admits(position) then Failure("INVALID_CURSOR")
             else Success(Some(position)))
  {
    CursorIsBound(c, issued, issuedOn, position, request.binding, snapshotId);
  }

  /** Any text that is not refused as invalid is a cursor issued for some query, snapshot and position. */
  lemma OnlyCursorsAreValid<K>(c: Codec<K>, text: string, binding: Binding, snapshotId: string) returns (b: Binding, id: string, position: K)
    requires ReadCursor(c, text, binding, snapshotId) != Failure("INVALID_CURSOR")
    ensures c.wellFormed(position) && text == Cursor(c, b, id, position)
  {
    var p := c.read(Decode(text)).value;
    b, id, position := p.binding, p.snapshotId, p.position;
    assert p == Sealed(c, Payload("", b, position, id));
  }

  function RemainingAfter<K>(selected: seq<K>, before: Before<K>, start: Option<K>): seq<K> {
    match start
    case None => selected
    case Some(position) => Beyond(selected, before, position)
  }

  function PageOf<K>(c: Codec<K>, request: Request, snapshotId: string, total: nat, remaining: seq<K>, n: nat): Page<K>
    requires n <= |remaining|
  {
    Page(remaining[..n], request.limit,
         if n == 0 then None else Some(Cursor(c, request.binding, snapshotId, remaining[n - 1])),
         |remaining| > n, n, total)
  }

  // ---------------------------------------------------------------- following cursors

  function Concat<K>(pages: seq<Page<K>>): seq<K> {
    if pages == [] then [] else Concat(pages[..|pages| - 1]) + pages[|pages| - 1].items
  }

  /** The conditions under which a client can read a whole selection. */
  ghost predicate Readable<K(!new)>(c: Codec<K>, selected: seq<K>, before: Before<K>, admits: K -> bool, fits: seq<K> -> bool,
                                    binding: Binding, snapshotId: string) {
    && Faithful(c) && Ascending(selected, before) && Irreflexive(selected, before)
    && forall k | k in selected :: c.wellFormed(k) && admits(k) && fits([k]) && Cursor(c, binding, snapshotId, k) != ""
  }

  lemma CursorResumes<K(!new)>(c: Codec<K>, selected: seq<K>, before: Before<K>, admits: K -> bool, fits: seq<K> -> bool,
                               request: Request, snapshotId: string, n: nat)
    requires Readable(c, selected, before, admits, fits, request.binding, snapshotId)
    requires 0 < n <= |selected| && request.after == Some(Cursor(c, request.binding, snapshotId, selected[n - 1]))
    ensures StartOf(c, request, snapshotId, admits) == Success(Some(selected[n - 1]))
    ensures RemainingAfter(selected, before, Some(selected[n - 1])) == selected[n..]
  {
    assert selected[n - 1] in selected;
    CursorIsBound(c, request.binding, snapshotId, selected[n - 1], request.binding, snapshotId);
    forall i | 0 <= i < |selected| ensures before(selected[n - 1], selected[i]) <==> n <= i {
    }
    BeyondIsSuffix(selected, before, selected[n - 1], n);
  }

  /** The request that continues behind the first `n` items. */
  function RequestFrom<K>(c: Codec<K>, binding: Binding, limit: nat, snapshotId: string, selected: seq<K>, n: nat): Request
    requires n <= |selected|
  {
    Request(binding, limit, if n == 0 then None else Some(Cursor(c, binding, snapshotId, selected[n - 1])))
  }

  /** A page that takes at least one item if there is one, passes the checks, and points to where it ends. */
  ghost predicate Continues<K(!new)>(c: Codec<K>, binding: Binding, limit: nat, snapshotId: string, selected: seq<K>,
                                     before: Before<K>, fits: seq<K> -> bool, n: nat, page: Page<K>)
    requires n <= |selected|
  {
    var m := n + |page.items|;
    && m <= |selected| && page.items == selected[n..m]
    && (n < |selected| ==> n < m)
    && (page.hasNext <==> m < |selected|)
    && page.endCursor == (if n == m then None else Some(Cursor(c, binding, snapshotId, selected[m - 1])))
    && PageAccepted(page, before) && page.limit == limit && page.totalItems == |selected|
    && (page.items == [] || fits(page.items))
  }

  method NextPage<K(==,!new)>(c: Codec<K>, binding: Binding, limit: nat, snapshotId: string, selected: seq<K>,
                              before: Before<K>, admits: K -> bool, fits: seq<K> -> bool, request: Request, ghost n: nat)
      returns (page: Page<K>)
    requires limit >= 1 && Readable(c, selected, before, admits, fits, binding, snapshotId) && n <= |selected|
    requires request == RequestFrom(c, binding, limit, snapshotId, selected, n)
    ensures Continues(c, binding, limit, snapshotId, selected, before, fits, n, page)
  {
    Resumes(c, selected, before, admits, fits, request, snapshotId, n);
    var r := ProjectPage(c, request, snapshotId, selected, before, admits, fits);
    page := r.value;
    PageContinues(c, binding, limit, snapshotId, selected, before, fits, request, n);
  }

  /** A continuing request starts behind the first `n` items, and the next one fits. */
  lemma Resumes<K(!new)>(c: Codec<K>, selected: seq<K>, before: Before<K>, admits: K -> bool, fits: seq<K> -> bool,
                         request: Request, snapshotId: string, n: nat)
    requires Readable(c, selected, before, admits, fits, request.binding, snapshotId) && n <= |selected|
    requires request == RequestFrom(c, request.binding, request.limit, snapshotId, selected, n)
    ensures StartOf(c, request, snapshotId, admits).Success?
    ensures RemainingAfter(selected, before, StartOf(c, request, snapshotId, admits).value) == selected[n..]
    ensures n < |selected| ==> fits(selected[n..][..1])
  {
    if n > 0 { CursorResumes(c, selected, before, admits, fits, request, snapshotId, n); }
    if n < |selected| {
      assert selected[n] in selected;
      assert selected[n..][..1] == [selected[n]];
    }
  }

  lemma PageContinues<K(!new)>(c: Codec<K>, binding: Binding, limit: nat, snapshotId: string, selected: seq<K>, before: Before<K>,
                               fits: seq<K> -> bool, request: Request, n: nat)
    requires limit >= 1 && n <= |selected| && Ascending(selected, before) && (n < |selected| ==> fits(selected[n..][..1]))
    requires request.binding == binding && request.limit == limit
    ensures var k := Taken(selected[n..], limit, fits, 0);
            Continues(c, binding, limit, snapshotId, selected, before, fits, n, PageOf(c, request, snapshotId, |selected|, selected[n..], k))
  {
    var k := Taken(selected[n..], limit, fits, 0);
    assert selected[n..][..k] == selected[n..n + k];
    assert k > 0 ==> selected[n..][k - 1] == selected[n + k - 1];
  }

  /** The pages so far cover the first `n` items, and each has a successor unless it is the last of all. */
  ghost predicate Covers<K(!new)>(limit: nat, pages: seq<Page<K>>, selected: seq<K>, before: Before<K>, fits: seq<K> -> bool, n: nat, more: bool)
    requires n <= |selected|
  {
    && Concat(pages) == selected[..n]
    && (|pages| <= n || |pages| == 1)
    && forall i | 0 <= i < |pages| ::
         && PageAccepted(pages[i], before) && pages[i].limit == limit && pages[i].totalItems == |selected|
         && (pages[i].items == [] || fits(pages[i].items))
         && (pages[i].hasNext <==> more || i < |pages| - 1)
  }

  lemma CoversMore<K(!new)>(c: Codec<K>, binding: Binding, limit: nat, snapshotId: string, selected: seq<K>, before: Before<K>,
                            fits: seq<K> -> bool, n: nat, page: Page<K>, pages: seq<Page<K>>)
    requires n <= |selected| && Covers(limit, pages, selected, before, fits, n, true) && (pages == [] <==> n == 0)
    requires n < |selected| || n == 0
    requires Continues(c, binding, limit, snapshotId, selected, before, fits, n, page)
    ensures Covers(limit, pages + [page], selected, before, fits, n + |page.items|, page.hasNext)
  {
    var all := pages + [page];
    assert all[..|all| - 1] == pages;
    assert selected[..n] + selected[n..n + |page.items|] == selected[..n + |page.items|];
  }

  /** How a page moves the reading position, and the request that continues behind it. */
  lemma Advances<K(!new)>(c: Codec<K>, binding: Binding, limit: nat, snapshotId: string, selected: seq<K>,
                          before: Before<K>, fits: seq<K> -> bool, n: nat, page: Page<K>)
    requires n <= |selected| && Continues(c, binding, limit, snapshotId, selected, before, fits, n, page)
    ensures var m := n + |page.items|;
            && m <= |selected| && (n < |selected| ==> n < m) && (page.hasNext <==> m < |selected|)
            && (page.hasNext ==> Request(binding, limit, page.endCursor) == RequestFrom(c, binding, limit, snapshotId, selected, m))
  {
  }

  lemma CoversNothing<K(!new)>(c: Codec<K>, binding: Binding, limit: nat, snapshotId: string, selected: seq<K>,
                               before: Before<K>, fits: seq<K> -> bool)
    ensures Covers(limit, [], selected, before, fits, 0, true)
    ensures Request(binding, limit, None) == RequestFrom(c, binding, limit, snapshotId, selected, 0)
  {
  }

  lemma CoversAll<K(!new)>(limit: nat, pages: seq<Page<K>>, selected: seq<K>, before: Before<K>, fits: seq<K> -> bool)
    requires Covers(limit, pages, selected, before, fits, |selected|, false) && pages != []
    ensures Concat(pages) == selected
    ensures |pages| <= |selected| || |pages| == 1
    ensures forall i | 0 <= i < |pages| ::
              && PageAccepted(pages[i], before) && pages[i].limit == limit && pages[i].totalItems == |selected|
              && (pages[i].items == [] || fits(pages[i].items))
              && (pages[i].hasNext <==> i < |pages| - 1)
  {
    assert selected[..|selected|] == selected;
  }

  /**
   Following `endCursor` until there is no next page yields the selection in order, without gap or
   duplicate, in at most one page per item and one page when there is none; every page is accepted.
  */
  method FollowCursors<K(==,!new)>(c: Codec<K>, binding: Binding, limit: nat, snapshotId: string, selected: seq<K>,
                                   before: Before<K>, admits: K -> bool, fits: seq<K> -> bool) returns (pages: seq<Page<K>>)
    requires limit >= 1 && Readable(c, selected, before, admits, fits, binding, snapshotId)
    ensures Concat(pages) == selected
    ensures 1 <= |pages| && (|pages| <= |selected| || |pages| == 1)
    ensures forall i | 0 <= i < |pages| ::
              && PageAccepted(pages[i], before) && pages[i].limit == limit && pages[i].totalItems == |selected|
              && (pages[i].items == [] || fits(pages[i].items))
              && (pages[i].hasNext <==> i < |pages| - 1)
  {
    hide Covers, Continues, RequestFrom, Readable, Concat, PageAccepted;
    var request := Request(binding, limit, None);
    pages := [];
    ghost var n: nat := 0;
    var more := true;
    CoversNothing(c, binding, limit, snapshotId, selected, before, fits);
    while more
      invariant n <= |selected|
      invariant Covers(limit, pages, selected, before, fits, n, more)
      invariant more ==> request == RequestFrom(c, binding, limit, snapshotId, selected, n)
      invariant more ==> (pages == [] <==> n == 0) && (n < |selected| || n == 0)
      invariant !more ==> n == |selected| && pages != []
      decreases more, |selected| - n
    {
      var page := NextPage(c, binding, limit, snapshotId, selected, before, admits, fits, request, n);
      CoversMore(c, binding, limit, snapshotId, selected, before, fits, n, page, pages);
      Advances(c, binding, limit, snapshotId, selected, before, fits, n, page);
      pages := pages + [page];
      n := n + |page.items|;
      more := page.hasNext;
      request := Request(binding, limit, page.endCursor);
    }
    CoversAll(limit, pages, selected, before, fits);
  }
}
