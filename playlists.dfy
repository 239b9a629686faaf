/**
 * Discovery of the playlists to analyse (the first half of analyzeUser): the first
 * page of the user's playlists is taken whole; later pages are fetched at a growing
 * offset and only the user's own or collaborative playlists are kept.
 */
module Playlists {
  import opened Wrappers
  import opened Spotify

  /** A playlist from a later page is kept when the user owns it or it is collaborative. */
  predicate Qualifies(userID: string, p: Playlist) {
    p.ownerId == userID || p.collaborative
  }

  /** The qualifying playlists of ps, in the order of ps. */
  function Keep(userID: string, ps: seq<Playlist>): seq<Playlist>
  {
    if ps == [] then []
    else (if Qualifies(userID, ps[0]) then [ps[0]] else []) + Keep(userID, ps[1..])
  }

  /** A playlist is kept exactly when it occurs in the input and qualifies. */
  lemma {:induction false} KeepMembers(userID: string, ps: seq<Playlist>)
    ensures forall p :: p in Keep(userID, ps) <==> p in ps && Qualifies(userID, p)
  {
    if ps != [] {
      KeepMembers(userID, ps[1..]);
      assert ps == [ps[0]] + ps[1..];
    }
  }

  /** s occurs in t in the same order, possibly with gaps. */
  predicate Subsequence(s: seq<Playlist>, t: seq<Playlist>)
    decreases |t|
  {
    if s == [] then true
    else if t == [] then false
    else if s[0] == t[0] then Subsequence(s[1..], t[1..])
    else Subsequence(s, t[1..])
  }

  /** Filtering keeps page order. */
  lemma {:induction false} KeepSubsequence(userID: string, ps: seq<Playlist>)
    ensures Subsequence(Keep(userID, ps), ps)
  {
    if ps != [] {
      KeepSubsequence(userID, ps[1..]);
      if !Qualifies(userID, ps[0]) {
        var s := Keep(userID, ps[1..]);
        assert Keep(userID, ps) == s;
        if s != [] {
          KeepMembers(userID, ps[1..]);
          assert s[0] in s;
        }
      }
    }
  }

  /** Filtering keeps every copy of a qualifying playlist and no copy of any other. */
  lemma {:induction false} KeepMultiset(userID: string, ps: seq<Playlist>)
    ensures forall p :: multiset(Keep(userID, ps))[p] == if Qualifies(userID, p) then multiset(ps)[p] else 0
  {
    if ps != [] {
      KeepMultiset(userID, ps[1..]);
      assert ps == [ps[0]] + ps[1..];
    }
  }

  /** Filtering a concatenation filters each part. */
  lemma {:induction false} KeepAppend(userID: string, a: seq<Playlist>, b: seq<Playlist>)
    ensures Keep(userID, a + b) == Keep(userID, a) + Keep(userID, b)
  {
    if a == [] {
      assert a + b == b;
    } else {
      var head := if Qualifies(userID, a[0]) then [a[0]] else [];
      assert (a + b)[0] == a[0] && (a + b)[1..] == a[1..] + b;
      assert Keep(userID, a + b) == head + Keep(userID, a[1..] + b);
      KeepAppend(userID, a[1..], b);
      assert Keep(userID, a) == head + Keep(userID, a[1..]);
      assert head + (Keep(userID, a[1..]) + Keep(userID, b)) == (head + Keep(userID, a[1..])) + Keep(userID, b);
    }
  }

  /** All playlists of a list of pages, page after page. */
  function Flatten(pages: seq<PlaylistPage>): seq<Playlist> {
    if pages == [] then [] else Flatten(pages[..|pages| - 1]) + pages[|pages| - 1].playlists
  }

  /** One request for a later page: the offset and the page size sent. */
  datatype Request = Request(offset: int, limit: int)

  /**
   * What the pagination loop does: the requests it sends, the pages it receives,
   * and the error that stopped it, if any.
   */
  datatype Trace = Trace(sent: seq<Request>, pages: seq<PlaylistPage>, failure: Option<ApiError>)

  function Max(a: int, b: int): int {
    if a < b then b else a
  }

  /**
   * The pagination loop from a state (offset, limit, total): while offset < total it
   * requests the page at offset with the current page size, then carries on with the
   * returned page's size and total, the offset grown by that page's size.
   */
  function Paginate(c: Client, userID: string, offset: int, limit: int, total: int, bound: int): Trace
    requires c.Paginates(userID, bound)
    decreases Max(total, bound) - offset
  {
    if offset >= total then Trace([], [], None)
    else
      match c.playlistsForUserOpt(userID, offset, limit)
      case Err(e) => Trace([Request(offset, limit)], [], Some(e))
      case Ok(p) =>
        var rest := Paginate(c, userID, offset + p.limit, p.limit, p.total, bound);
        Trace([Request(offset, limit)] + rest.sent, [p] + rest.pages, rest.failure)
  }

  /** The loop as analyzeUser starts it: the offset and page size are those of the first page. */
  function LaterPages(c: Client, userID: string, first: PlaylistPage, bound: int): Trace
    requires c.Paginates(userID, bound)
  {
    Paginate(c, userID, first.limit, first.limit, first.total, bound)
  }

  /**
   * The working set of playlists, or the error that aborted its discovery: the first
   * page unfiltered, followed by the qualifying playlists of the later pages.
   */
  function WorkingSet(c: Client, userID: string, bound: int): Result<seq<Playlist>, ApiError>
    requires c.Paginates(userID, bound)
  {
    match c.playlistsForUser(userID)
    case Err(e) => Err(e)
    case Ok(first) =>
      var later := LaterPages(c, userID, first, bound);
      if later.failure.Some? then Err(later.failure.value)
      else Ok(first.playlists + Keep(userID, Flatten(later.pages)))
  }

  /**
   * What the working set is: a failed first fetch or a failed later fetch yields that
   * error; otherwise the first page comes first, unfiltered and in order, and the rest
   * holds exactly the qualifying playlists of the later pages.
   */
  lemma WorkingSetShape(c: Client, userID: string, bound: int)
    requires c.Paginates(userID, bound)
    ensures var r := WorkingSet(c, userID, bound);
      c.playlistsForUser(userID).Err? ==> r == Err(c.playlistsForUser(userID).error)
    ensures var r := WorkingSet(c, userID, bound);
      c.playlistsForUser(userID).Ok? ==>
      var first := c.playlistsForUser(userID).value;
      var later := LaterPages(c, userID, first, bound);
      && (r.Err? <==> later.failure.Some?)
      && (r.Err? ==> r.error == later.failure.value)
      && (r.Ok? ==> first.playlists <= r.value)
      && (r.Ok? ==> forall i :: |first.playlists| <= i < |r.value| ==> Qualifies(userID, r.value[i]))
      && (r.Ok? ==> forall p :: p in r.value[|first.playlists|..] <==> p in Flatten(later.pages) && Qualifies(userID, p))
  {
    if c.playlistsForUser(userID).Ok? {
      var first := c.playlistsForUser(userID).value;
      var later := LaterPages(c, userID, first, bound);
      if later.failure.None? {
        var r := first.playlists + Keep(userID, Flatten(later.pages));
        assert r[|first.playlists|..] == Keep(userID, Flatten(later.pages));
        KeepMembers(userID, Flatten(later.pages));
        forall i | |first.playlists| <= i < |r| ensures Qualifies(userID, r[i]) {
          assert r[i] in r[|first.playlists|..];
        }
      }
    }
  }

  /** The requests for later pages that analyzeUser sends. */
  function Requests(c: Client, userID: string, bound: int): seq<Request>
    requires c.Paginates(userID, bound)
  {
    match c.playlistsForUser(userID)
    case Err(_) => []
    case Ok(first) => LaterPages(c, userID, first, bound).sent
  }

  /** Each received page answers its request, and a failure answers the last one. */
  lemma {:induction false} PaginateAnswers(c: Client, userID: string, offset: int, limit: int, total: int, bound: int)
    requires c.Paginates(userID, bound)
    ensures var t := Paginate(c, userID, offset, limit, total, bound);
      && |t.sent| == |t.pages| + (if t.failure.Some? then 1 else 0)
      && (forall i :: 0 <= i < |t.pages| ==>
            c.playlistsForUserOpt(userID, t.sent[i].offset, t.sent[i].limit) == Ok(t.pages[i]))
      && (t.failure.Some? ==>
            c.playlistsForUserOpt(userID, t.sent[|t.pages|].offset, t.sent[|t.pages|].limit) == Err(t.failure.value))
    decreases Max(total, bound) - offset
  {
    var t := Paginate(c, userID, offset, limit, total, bound);
    if offset >= total {
      assert t == Trace([], [], None);
    } else if c.playlistsForUserOpt(userID, offset, limit).Err? {
      assert t == Trace([Request(offset, limit)], [], Some(c.playlistsForUserOpt(userID, offset, limit).error));
    } else {
      var p := c.playlistsForUserOpt(userID, offset, limit).value;
      var rest := Paginate(c, userID, offset + p.limit, p.limit, p.total, bound);
      assert t == Trace([Request(offset, limit)] + rest.sent, [p] + rest.pages, rest.failure);
      PaginateAnswers(c, userID, offset + p.limit, p.limit, p.total, bound);
    }
  }

  /**
   * Where the loop starts: a first request is sent only when the starting offset is
   * below the total, and it is at that offset with the starting page size.
   */
  lemma PaginateStart(c: Client, userID: string, offset: int, limit: int, total: int, bound: int)
    requires c.Paginates(userID, bound)
    ensures var t := Paginate(c, userID, offset, limit, total, bound);
      |t.sent| > 0 <==> offset < total
    ensures var t := Paginate(c, userID, offset, limit, total, bound);
      |t.sent| > 0 ==> t.sent[0] == Request(offset, limit)
  {
  }

  /**
   * Where the loop stops: when no call fails, either no request was sent because the
   * starting offset was not below the total, or the offset grown by the last page's
   * size reaches the total that page reported.
   */
  lemma {:induction false} PaginateStops(c: Client, userID: string, offset: int, limit: int, total: int, bound: int)
    requires c.Paginates(userID, bound)
    ensures var t := Paginate(c, userID, offset, limit, total, bound);
      t.failure.None? && t.pages == [] ==> offset >= total
    ensures var t := Paginate(c, userID, offset, limit, total, bound);
      t.failure.None? && t.pages != [] ==>
        |t.sent| == |t.pages| && t.sent[|t.sent| - 1].offset + t.pages[|t.pages| - 1].limit >= t.pages[|t.pages| - 1].total
    decreases Max(total, bound) - offset
  {
    var t := Paginate(c, userID, offset, limit, total, bound);
    if offset >= total {
      assert t == Trace([], [], None);
    } else if c.playlistsForUserOpt(userID, offset, limit).Err? {
      assert t == Trace([Request(offset, limit)], [], Some(c.playlistsForUserOpt(userID, offset, limit).error));
    } else {
      var p := c.playlistsForUserOpt(userID, offset, limit).value;
      var rest := Paginate(c, userID, offset + p.limit, p.limit, p.total, bound);
      assert t == Trace([Request(offset, limit)] + rest.sent, [p] + rest.pages, rest.failure);
      PaginateStops(c, userID, offset + p.limit, p.limit, p.total, bound);
      PaginateStart(c, userID, offset + p.limit, p.limit, p.total, bound);
      PaginateAnswers(c, userID, offset + p.limit, p.limit, p.total, bound);
      if t.failure.None? && rest.pages != [] {
        assert t.sent[|t.sent| - 1] == rest.sent[|rest.sent| - 1];
        assert t.pages[|t.pages| - 1] == rest.pages[|rest.pages| - 1];
      }
    }
  }

  /**
   * How the offset advances: each request after the first is at the previous offset
   * plus the size of the page that answered it, with that page's size, and is sent
   * only because its offset is below the total that page reported.
   */
  lemma {:induction false} PaginateSteps(c: Client, userID: string, offset: int, limit: int, total: int, bound: int)
    requires c.Paginates(userID, bound)
    ensures var t := Paginate(c, userID, offset, limit, total, bound);
      forall i :: 0 <= i < |t.pages| && i + 1 < |t.sent| ==>
        && t.sent[i + 1] == Request(t.sent[i].offset + t.pages[i].limit, t.pages[i].limit)
        && t.sent[i + 1].offset < t.pages[i].total
    decreases Max(total, bound) - offset
  {
    var t := Paginate(c, userID, offset, limit, total, bound);
    if offset >= total {
      assert t == Trace([], [], None);
    } else if c.playlistsForUserOpt(userID, offset, limit).Err? {
      assert t == Trace([Request(offset, limit)], [], Some(c.playlistsForUserOpt(userID, offset, limit).error));
    } else {
      var p := c.playlistsForUserOpt(userID, offset, limit).value;
      var rest := Paginate(c, userID, offset + p.limit, p.limit, p.total, bound);
      assert t == Trace([Request(offset, limit)] + rest.sent, [p] + rest.pages, rest.failure);
      PaginateSteps(c, userID, offset + p.limit, p.limit, p.total, bound);
      PaginateStart(c, userID, offset + p.limit, p.limit, p.total, bound);
      StepsPrepend(Request(offset, limit), p, rest);
    }
  }

  /** Prepending a request and the page that answered it keeps each later request one page past the previous. */
  lemma StepsPrepend(req: Request, p: PlaylistPage, rest: Trace)
    requires rest.sent != [] ==> rest.sent[0] == Request(req.offset + p.limit, p.limit) && rest.sent[0].offset < p.total
    requires forall i :: 0 <= i < |rest.pages| && i + 1 < |rest.sent| ==>
      && rest.sent[i + 1] == Request(rest.sent[i].offset + rest.pages[i].limit, rest.pages[i].limit)
      && rest.sent[i + 1].offset < rest.pages[i].total
    ensures var t := Trace([req] + rest.sent, [p] + rest.pages, rest.failure);
      forall i :: 0 <= i < |t.pages| && i + 1 < |t.sent| ==>
        && t.sent[i + 1] == Request(t.sent[i].offset + t.pages[i].limit, t.pages[i].limit)
        && t.sent[i + 1].offset < t.pages[i].total
  {
    var t := Trace([req] + rest.sent, [p] + rest.pages, rest.failure);
    forall i | 0 <= i < |t.pages| && i + 1 < |t.sent|
      ensures t.sent[i + 1] == Request(t.sent[i].offset + t.pages[i].limit, t.pages[i].limit)
      ensures t.sent[i + 1].offset < t.pages[i].total
    {
      assert t.sent[i + 1] == rest.sent[i];
      if i > 0 {
        assert t.sent[i] == rest.sent[i - 1] && t.pages[i] == rest.pages[i - 1];
      }
    }
  }

  /** The offsets sent strictly increase and stay below the bound on reported totals: no page is requested twice. */
  lemma {:induction false} PaginateIncreasing(c: Client, userID: string, offset: int, limit: int, total: int, bound: int)
    requires c.Paginates(userID, bound)
    ensures var t := Paginate(c, userID, offset, limit, total, bound);
      && (forall i, j :: 0 <= i < j < |t.sent| ==> t.sent[i].offset < t.sent[j].offset)
      && (forall i :: 0 < i < |t.sent| ==> t.sent[i].offset < bound)
      && (forall i :: 0 <= i < |t.sent| ==> offset <= t.sent[i].offset)
    decreases Max(total, bound) - offset
  {
    var t := Paginate(c, userID, offset, limit, total, bound);
    if offset >= total {
      assert t == Trace([], [], None);
    } else if c.playlistsForUserOpt(userID, offset, limit).Err? {
      assert t == Trace([Request(offset, limit)], [], Some(c.playlistsForUserOpt(userID, offset, limit).error));
    } else {
      var p := c.playlistsForUserOpt(userID, offset, limit).value;
      var rest := Paginate(c, userID, offset + p.limit, p.limit, p.total, bound);
      assert t == Trace([Request(offset, limit)] + rest.sent, [p] + rest.pages, rest.failure);
      PaginateIncreasing(c, userID, offset + p.limit, p.limit, p.total, bound);
      PaginateStart(c, userID, offset + p.limit, p.limit, p.total, bound);
    }
  }

  /**
   * One step of the loop, seen from the whole run: when the request at the current
   * offset succeeds, what is left of the run is the run from the grown offset with the
   * returned page's size and total; when it fails, that failure ends the run.
   */
  lemma PaginateStep(c: Client, userID: string, offset: int, limit: int, total: int, bound: int,
                     whole: Trace, sent: seq<Request>, pages: seq<PlaylistPage>)
    requires c.Paginates(userID, bound) && offset < total
    requires var rest := Paginate(c, userID, offset, limit, total, bound);
      whole.sent == sent + rest.sent && whole.pages == pages + rest.pages && whole.failure == rest.failure
    ensures c.playlistsForUserOpt(userID, offset, limit).Err? ==>
      && whole.sent == sent + [Request(offset, limit)]
      && whole.failure == Some(c.playlistsForUserOpt(userID, offset, limit).error)
    ensures c.playlistsForUserOpt(userID, offset, limit).Ok? ==>
      var p := c.playlistsForUserOpt(userID, offset, limit).value;
      var rest := Paginate(c, userID, offset + p.limit, p.limit, p.total, bound);
      && whole.sent == (sent + [Request(offset, limit)]) + rest.sent
      && whole.pages == (pages + [p]) + rest.pages
      && whole.failure == rest.failure
  {
    if c.playlistsForUserOpt(userID, offset, limit).Ok? {
      var p := c.playlistsForUserOpt(userID, offset, limit).value;
      var rest := Paginate(c, userID, offset + p.limit, p.limit, p.total, bound);
      assert sent + ([Request(offset, limit)] + rest.sent) == (sent + [Request(offset, limit)]) + rest.sent;
      assert pages + ([p] + rest.pages) == (pages + [p]) + rest.pages;
    }
  }

  /**
   * Appending one more page's qualifying playlists to the first page followed by the
   * earlier pages' qualifying playlists gives the first page followed by the
   * qualifying playlists of all pages so far.
   */
  lemma KeepFlattenAppend(userID: string, first: seq<Playlist>, pages: seq<PlaylistPage>, page: PlaylistPage)
    ensures (first + Keep(userID, Flatten(pages))) + Keep(userID, page.playlists)
         == first + Keep(userID, Flatten(pages + [page]))
  {
    assert (pages + [page])[..|pages|] == pages;
    KeepAppend(userID, Flatten(pages), page.playlists);
  }

  /** The inner loop of the pagination: append the page's qualifying playlists, in page order. */
  method AppendQualifying(userID: string, playlists: seq<Playlist>, page: seq<Playlist>) returns (r: seq<Playlist>)
    ensures r == playlists + Keep(userID, page)
  {
    r := playlists;
    for i := 0 to |page|
      invariant r == playlists + Keep(userID, page[..i])
    {
      var p := page[i];
      KeepAppend(userID, page[..i], [p]);
      assert page[..i + 1] == page[..i] + [p];
      if Qualifies(userID, p) {
        r := r + [p];
      }
    }
    assert page[..|page|] == page;
  }

  /**
   * The discovery part of analyzeUser: fetch the first page, keep all of it, then
   * fetch later pages while the offset is below the reported total, keeping only
   * qualifying playlists. Returns the working set (or the error that aborted the
   * discovery) and the requests sent for later pages.
   */
  method CollectPlaylists(c: Client, userID: string, ghost bound: int)
    returns (r: Result<seq<Playlist>, ApiError>, sent: seq<Request>)
    requires c.Paginates(userID, bound)
    ensures r == WorkingSet(c, userID, bound)
    ensures sent == Requests(c, userID, bound)
  {
    sent := [];
    var firstPage := c.playlistsForUser(userID);
    if firstPage.Err? {
      return Err(firstPage.error), sent;
    }
    var ppage := firstPage.value;
    var playlists := ppage.playlists;
    ghost var whole := LaterPages(c, userID, ppage, bound);
    ghost var pages: seq<PlaylistPage> := [];
    ghost var rest := whole;

    var offset := ppage.limit;
    while offset < ppage.total
      invariant rest == Paginate(c, userID, offset, ppage.limit, ppage.total, bound)
      invariant whole.sent == sent + rest.sent && whole.pages == pages + rest.pages
      invariant whole.failure == rest.failure
      invariant playlists == firstPage.value.playlists + Keep(userID, Flatten(pages))
      decreases Max(ppage.total, bound) - offset
    {
      PaginateStep(c, userID, offset, ppage.limit, ppage.total, bound, whole, sent, pages);
      var next := c.playlistsForUserOpt(userID, offset, ppage.limit);
      sent := sent + [Request(offset, ppage.limit)];
      if next.Err? {
        return Err(next.error), sent;
      }
      ppage := next.value;
      KeepFlattenAppend(userID, firstPage.value.playlists, pages, ppage);
      playlists := AppendQualifying(userID, playlists, ppage.playlists);
      pages := pages + [ppage];
      offset := offset + ppage.limit;
      rest := Paginate(c, userID, offset, ppage.limit, ppage.total, bound);
    }
    assert rest == Trace([], [], None);
    r := Ok(playlists);
    assert r == WorkingSet(c, userID, bound) by {
      assert whole.pages == pages && whole.failure.None?;
    }
  }
}
