/**
 * Paged discovery of the catalog. A client walks the sorted descriptor list page by page with a
 * cursor that names the revision it belongs to, while registrations and removals go on.
 */
module Catalog {
  import opened Basics
  import opened Ordering
  import opened Registry
  import Variable

  const DEFAULT_PAGE_ITEMS: int := 128
  const MAX_PAGE_ITEMS: int := 256

  datatype Cursor = Cursor(version: int, owner: nat, instance: string, revision: nat, offset: int)

  /** The text of a continuation: absent, not decodable, or naming a cursor. */
  datatype Continuation = Start | Undecodable | From(cursor: Cursor)

  datatype Request = Request(limit: int, continuation: Continuation)

  datatype Page = Page(
    owner: nat, instance: string, revision: nat, offset: int, total: int, resources: seq<Descriptor>,
      next: Continuation)

  datatype PageError = InvalidPayload | RevisionConflict | TooLarge

  predicate CursorOk(c: Cursor) {
    c.version == 1 && c.owner != 0 && 1 <= c.offset < MAX_ITEMS && HexId(c.instance, 16) && 1 <= c.revision < U64
  }

  /** The order of resource identities: by owner, then by name. */
  predicate Before(a: Descriptor, b: Descriptor) {
    a.owner < b.owner || (a.owner == b.owner && Less(a.name, b.name))
  }

  /** What every page a client accepts satisfies. */
  predicate PageOk(p: Page) {
    && 0 < p.owner < U64 && HexId(p.instance, 16) && 1 <= p.revision < U64
    && 1 <= p.total <= MAX_ITEMS && 0 <= p.offset < p.total
    && 1 <= |p.resources| <= MAX_PAGE_ITEMS && |p.resources| <= p.total - p.offset
    && (p.offset + |p.resources| < p.total <==> p.next.From?) && !p.next.Undecodable?
    && (forall i :: 0 <= i < |p.resources| ==> p.resources[i].owner == p.owner)
    && (forall i :: 1 <= i < |p.resources| ==> Before(p.resources[i - 1], p.resources[i]))
  }

  // ----------------------------------------------------------------------- one page

  /** Where a request starts reading, or why it is refused. */
  function StartOf(owner: NodeId, instance: string, t: Table, q: Request): (r: Result<int, PageError>) {
    if q.limit < 0 || q.limit > MAX_PAGE_ITEMS then Err(InvalidPayload)
    else
      match q.continuation
      case Start => Ok(0)
      case Undecodable => Err(InvalidPayload)
      case From(c) =>
        if !CursorOk(c) then Err(InvalidPayload)
        else if c.owner != owner || c.instance != instance || c.revision != t.revision then Err(RevisionConflict)
        else if c.offset >= |t.descriptors| then Err(InvalidPayload)
        else Ok(c.offset)
  }

  function PageOf(owner: NodeId, instance: string, t: Table, offset: nat, end: nat): (p: Page)
    requires offset <= end <= |t.descriptors|
  {
    var next := if end < |t.descriptors| then From(Cursor(1, owner, instance, t.revision, end)) else Start;
    Page(owner, instance, t.revision, offset, |t.descriptors|, t.descriptors[offset..end], next)
  }

  /** The first page that fits when the end is brought back by halves. */
  function Shrink(owner: NodeId, instance: string, t: Table, offset: nat, end: nat,
      fits: Page -> bool): (r: Result<Page, PageError>)
    requires offset <= end <= |t.descriptors|
    decreases end
  {
    if offset == end then Err(InvalidPayload)
    else if fits(PageOf(owner, instance, t, offset, end)) then Ok(PageOf(owner, instance, t, offset, end))
    else if end - offset == 1 then Err(TooLarge)
    else Shrink(owner, instance, t, offset, offset + (end - offset) / 2, fits)
  }

  function Limit(q: Request): int { if q.limit == 0 then DEFAULT_PAGE_ITEMS else q.limit }

  function Min(a: int, b: int): int { if a < b then a else b }

  function Answer(owner: NodeId, instance: string, t: Table, q: Request,
      fits: Page -> bool): (r: Result<Page, PageError>) {
    match StartOf(owner, instance, t, q)
    case Err(e) => Err(e)
    case Ok(offset) => Shrink(owner, instance, t, offset, Min(offset + Limit(q), |t.descriptors|), fits)
  }

  /** The paging loop. */
  method CatalogPage(owner: NodeId, instance: string, t: Table, q: Request, fits: Page -> bool)
      returns (r: Result<Page, PageError>)
    ensures r == Answer(owner, instance, t, q, fits)
  {
    var start := StartOf(owner, instance, t, q);
    if start.Err? { return Err(start.error); }
    var offset := start.value;
    var end := Min(offset + Limit(q), |t.descriptors|);
    while end > offset
      invariant offset <= end <= |t.descriptors|
      invariant Answer(owner, instance, t, q, fits) == Shrink(owner, instance, t, offset, end, fits)
    {
      var page := PageOf(owner, instance, t, offset, end);
      if fits(page) { return Ok(page); }
      if end - offset == 1 { return Err(TooLarge); }
      end := offset + (end - offset) / 2;
    }
    r := Err(InvalidPayload);
  }

  /** A page is a non-empty slice no longer than asked for, and it fits. */
  lemma {:induction false} ShrinkGivesSlice(owner: NodeId, instance: string, t: Table, offset: nat, end: nat,
      fits: Page -> bool)
    requires offset <= end <= |t.descriptors|
    ensures var r := Shrink(owner, instance, t, offset, end, fits);
            r.Ok? ==>
              && 1 <= |r.value.resources| <= end - offset
              && r.value == PageOf(owner, instance, t, offset, offset + |r.value.resources|)
              && fits(r.value)
    decreases end
  {
    if offset == end || fits(PageOf(owner, instance, t, offset, end)) || end - offset == 1 {
    } else {
      ShrinkGivesSlice(owner, instance, t, offset, offset + (end - offset) / 2, fits);
    }
  }

  /** Halving only gives up when the single next descriptor does not fit on a page of its own. */
  lemma {:induction false} ShrinkFailsOnlyOnOneItem(owner: NodeId, instance: string, t: Table, offset: nat, end: nat,
      fits: Page -> bool)
    requires offset < end <= |t.descriptors|
    ensures var r := Shrink(owner, instance, t, offset, end, fits);
            && (r.Err? ==> r.error == TooLarge && !fits(PageOf(owner, instance, t, offset, offset + 1)))
    decreases end
  {
    if !fits(PageOf(owner, instance, t, offset, end)) && end - offset > 1 {
      ShrinkFailsOnlyOnOneItem(owner, instance, t, offset, offset + (end - offset) / 2, fits);
    }
  }

  /** What an answered request is worth. */
  lemma AnswerIsSlice(owner: NodeId, instance: string, t: Table, q: Request, fits: Page -> bool)
    requires Answer(owner, instance, t, q, fits).Ok?
    ensures var p := Answer(owner, instance, t, q, fits).value;
            && StartOf(owner, instance, t, q) == Ok(p.offset) && 0 <= p.offset < |t.descriptors|
            && 1 <= |p.resources| <= |t.descriptors| - p.offset && |p.resources| <= Limit(q) <= MAX_PAGE_ITEMS
            && p == PageOf(owner, instance, t, p.offset, p.offset + |p.resources|)
            && fits(p)
  {
    var offset := StartOf(owner, instance, t, q).value;
    ShrinkGivesSlice(owner, instance, t, offset, Min(offset + Limit(q), |t.descriptors|), fits);
  }

  /** Every page cut from a consistent registry passes the client's own checks, and so does its cursor. */
  lemma AnswersAreValid(r: Registry, instance: string, q: Request, fits: Page -> bool)
    requires Consistent(r) && r.owner != 0 && HexId(instance, 16) && 1 <= r.table.revision < U64
    ensures var a := Answer(r.owner, instance, r.table, q, fits);
            a.Ok? ==> PageOk(a.value) && (a.value.next.From? ==> CursorOk(a.value.next.cursor))
  {
    hide *;
    DescriptorsSorted(r);
    var a := Answer(r.owner, instance, r.table, q, fits);
    if a.Ok? {
      AnswerIsSlice(r.owner, instance, r.table, q, fits);
      SlicePageOk(r.owner, instance, r.table, a.value.offset, a.value.offset + |a.value.resources|);
    }
  }

  predicate Sorted(owner: NodeId, ds: seq<Descriptor>) {
    && (forall i :: 0 <= i < |ds| ==> ds[i].owner == owner)
    && (forall i :: 1 <= i < |ds| ==> Before(ds[i - 1], ds[i]))
  }

  lemma SlicePageOk(owner: NodeId, instance: string, t: Table, lo: nat, hi: nat)
    requires Sorted(owner, t.descriptors) && lo < hi <= |t.descriptors| <= MAX_ITEMS && hi - lo <= MAX_PAGE_ITEMS
    requires owner != 0 && HexId(instance, 16) && 1 <= t.revision < U64
    ensures var p := PageOf(owner, instance, t, lo, hi);
            PageOk(p) && (p.next.From? ==> CursorOk(p.next.cursor))
  {
    hide HexId;
    SliceSorted(owner, t.descriptors, lo, hi);
    hide Before;
  }

  lemma SliceSorted(owner: NodeId, ds: seq<Descriptor>, lo: nat, hi: nat)
    requires lo <= hi <= |ds| && Sorted(owner, ds)
    ensures Sorted(owner, ds[lo..hi])
  {
    hide Before;
    forall i | 1 <= i < hi - lo ensures Before(ds[lo..hi][i - 1], ds[lo..hi][i]) {
      assert ds[lo..hi][i] == ds[lo + i] && ds[lo..hi][i - 1] == ds[lo + i - 1];
    }
  }

  lemma DescriptorsSorted(r: Registry)
    requires Consistent(r)
    ensures 1 <= |r.table.descriptors| <= MAX_ITEMS
    ensures Sorted(r.owner, r.table.descriptors)
  {
    var t := r.table;
    var names := MemberNames(t.descriptors);
    ListingLength(names, t.resources.Keys);
    assert |t.resources.Keys| == |t.resources|;
    assert CATALOG_NAME in names;
    forall i | 1 <= i < |names| ensures Before(t.descriptors[i - 1], t.descriptors[i]) {
      assert Less(names[i - 1], names[i]);
    }
  }

  // ----------------------------------------------------------------- whole crawls

  /** One request of a crawl: the state it met, what it asked for, and the page it got. */
  datatype Visit = Visit(at: nat, limit: int, page: Page)

  function Collected(visits: seq<Visit>): (r: seq<Descriptor>) {
    if visits == [] then [] else Collected(visits[..|visits| - 1]) + visits[|visits| - 1].page.resources
  }

  /** What a visit asks to continue from. */
  function Resuming(visits: seq<Visit>, i: nat): Continuation
    requires i < |visits|
  {
    if i == 0 then Start else visits[i - 1].page.next
  }

  /**
   * A crawl that runs while the registry changes: each request is answered, with a page, in the state
   * the registry has reached by then, and each but the first sends the cursor of the page before.
   */
  ghost predicate IsCrawl(instance: string, states: seq<Registry>, visits: seq<Visit>, fits: Page -> bool) {
    && visits != [] && (forall i :: 0 <= i < |visits| ==> visits[i].at < |states|)
    && forall i :: 0 <= i < |visits| ==> Answered(instance, states, visits, i, fits)
  }

  ghost predicate Answered(instance: string, states: seq<Registry>, visits: seq<Visit>, i: nat, fits: Page -> bool)
    requires i < |visits| && visits[i].at < |states|
  {
    && (i > 0 ==> visits[i - 1].at <= visits[i].at && visits[i - 1].page.next.From?)
    && Answer(states[visits[i].at].owner, instance, states[visits[i].at].table,
       Request(visits[i].limit, Resuming(visits, i)), fits)
       == Ok(visits[i].page)
  }

  /** `got` is a non-empty beginning of the member list, and `next` asks for the rest of it. */
  ghost predicate Progress(first: Registry, instance: string, got: seq<Descriptor>, next: Continuation) {
    var all := first.table.descriptors;
    && got != [] && got <= all
    && next == if |got| < |all| then From(Cursor(1, first.owner, instance, first.table.revision, |got|)) else Start
  }

  lemma FirstPage(first: Registry, instance: string, limit: int, page: Page, fits: Page -> bool)
    requires Answer(first.owner, instance, first.table, Request(limit, Start), fits) == Ok(page)
    ensures Progress(first, instance, page.resources, page.next)
  {
    AnswerIsSlice(first.owner, instance, first.table, Request(limit, Start), fits);
    hide Answer;
  }

  lemma NextPage(
    first: Registry, now: Registry, instance: string, got: seq<Descriptor>, next: Continuation, limit: int,
      page: Page, fits: Page -> bool)
    requires Progress(first, instance, got, next) && next.From? && now.owner == first.owner
    requires Answer(now.owner, instance, now.table, Request(limit, next), fits) == Ok(page)
    requires first.table.revision == now.table.revision ==> SameView(first, now)
    ensures first.table.revision == now.table.revision
    ensures Progress(first, instance, got + page.resources, page.next) && page.resources != []
  {
    AnswerIsSlice(now.owner, instance, now.table, Request(limit, next), fits);
    hide Answer;
  }

  lemma {:induction false} CrawlPrefix(
    l: Variable.Limits, instance: string, states: seq<Registry>, events: seq<Event>, visits: seq<Visit>,
      fits: Page -> bool, n: nat)
    requires IsRun(l, states, events) && IsCrawl(instance, states, visits, fits) && 1 <= n <= |visits|
    ensures var first, last := states[visits[0].at], states[visits[n - 1].at];
            && visits[0].at <= visits[n - 1].at
            && first.table.revision == last.table.revision && first.owner == last.owner
            && n <= |Collected(visits[..n])|
            && Progress(first, instance, Collected(visits[..n]), visits[n - 1].page.next)
  {
    hide IsRun, Answer, Progress, SameView;
    var first, now := states[visits[0].at], states[visits[n - 1].at];
    assert Answered(instance, states, visits, n - 1, fits);
    assert visits[..n][..n - 1] == visits[..n - 1];
    if n == 1 {
      FirstPage(first, instance, visits[0].limit, visits[0].page, fits);
      assert Collected(visits[..1]) == visits[0].page.resources;
      ProgressIsSome(first, instance, visits[0].page);
    } else {
      CrawlPrefix(l, instance, states, events, visits, fits, n - 1);
      RevisionNamesTheViewOf(l, states, events, visits[0].at, visits[n - 1].at);
      NextPage(first, now, instance, Collected(visits[..n - 1]), visits[n - 2].page.next, visits[n - 1].limit,
        visits[n - 1].page, fits);
    }
  }

  lemma ProgressIsSome(first: Registry, instance: string, page: Page)
    requires Progress(first, instance, page.resources, page.next)
    ensures page.resources != []
  {
  }

  lemma RevisionNamesTheViewOf(l: Variable.Limits, states: seq<Registry>, events: seq<Event>, i: nat, j: nat)
    requires IsRun(l, states, events) && i <= j < |states|
    ensures states[i].owner == states[j].owner
    ensures states[i].table.revision == states[j].table.revision ==> SameView(states[i], states[j])
  {
    RevisionNamesTheView(l, states, events, i, j);
  }

  /**
   * However registrations and removals interleave with it, a crawl that reaches the end has collected
   * exactly the sorted member list of one single revision, which was current from its first request
   * to its last.
   */
  lemma FinishedCrawlIsOneSnapshot(
    l: Variable.Limits, instance: string, states: seq<Registry>, events: seq<Event>, visits: seq<Visit>,
      fits: Page -> bool)
    requires IsRun(l, states, events) && IsCrawl(instance, states, visits, fits)
    requires visits[|visits| - 1].page.next == Start
    ensures var first, last := states[visits[0].at], states[visits[|visits| - 1].at];
            && Collected(visits) == first.table.descriptors == last.table.descriptors
            && first.table.revision == last.table.revision
            && IsCatalogOf(Collected(visits), first.table.resources)
  {
    hide IsRun, Answered, IsCatalogOf, Collected;
    CrawlPrefix(l, instance, states, events, visits, fits, |visits|);
    assert visits[..|visits|] == visits;
    RevisionNamesTheViewOf(l, states, events, visits[0].at, visits[|visits| - 1].at);
    CatalogNamesTheMembers(l, states, events, visits[0].at);
  }

  /** A crawl never takes more requests than there are members. */
  lemma CrawlIsShort(
    l: Variable.Limits, instance: string, states: seq<Registry>, events: seq<Event>, visits: seq<Visit>,
      fits: Page -> bool)
    requires IsRun(l, states, events) && IsCrawl(instance, states, visits, fits)
    ensures |visits| <= |states[visits[0].at].table.descriptors| <= MAX_ITEMS
    ensures |visits| == |states[visits[0].at].table.descriptors| ==> visits[|visits| - 1].page.next == Start
  {
    hide IsRun, Answered, IsCatalogOf, Collected;
    CrawlPrefix(l, instance, states, events, visits, fits, |visits|);
    CatalogNamesTheMembers(l, states, events, visits[0].at);
  }

  /** While the revision stands and single descriptors fit, the next request of a crawl is answered. */
  lemma CrawlCanGoOn(owner: NodeId, instance: string, t: Table, limit: int, offset: nat, fits: Page -> bool)
    requires 0 <= limit <= MAX_PAGE_ITEMS && offset < |t.descriptors| <= MAX_ITEMS
    requires owner != 0 && HexId(instance, 16) && 1 <= t.revision < U64
    requires fits(PageOf(owner, instance, t, offset, offset + 1))
    ensures var q :=
            Request(limit, if offset == 0 then Start else From(Cursor(1, owner, instance, t.revision, offset)));
            Answer(owner, instance, t, q, fits).Ok?
  {
    var q := Request(limit, if offset == 0 then Start else From(Cursor(1, owner, instance, t.revision, offset)));
    ShrinkFailsOnlyOnOneItem(owner, instance, t, offset, Min(offset + Limit(q), |t.descriptors|), fits);
  }

  lemma ExtendCrawl(instance: string, states: seq<Registry>, visits: seq<Visit>, v: Visit, fits: Page -> bool)
    requires visits == [] || (IsCrawl(instance, states, visits, fits) && visits[|visits| - 1].at <= v.at
                              && visits[|visits| - 1].page.next.From?)
    requires v.at < |states|
    requires var next := if visits == [] then Start else visits[|visits| - 1].page.next;
             Answer(states[v.at].owner, instance, states[v.at].table, Request(v.limit, next), fits) == Ok(v.page)
    ensures IsCrawl(instance, states, visits + [v], fits)
  {
    hide Answer;
    var more := visits + [v];
    forall i | 0 <= i < |more| ensures more[i].at < |states| && Answered(instance, states, more, i, fits) {
      if i < |visits| { assert more[i] == visits[i] && Answered(instance, states, visits, i, fits); }
    }
  }

  /** The page an unfinished crawl gets next while the registry stands as it is. */
  lemma NextIsAnswered(
    l: Variable.Limits, instance: string, states: seq<Registry>, events: seq<Event>, at: nat, visits: seq<Visit>,
      limit: int,
    fits: Page -> bool)
    returns (page: Page)
    requires IsRun(l, states, events) && at < |states| && 0 <= limit <= MAX_PAGE_ITEMS
    requires Readable(instance, states[at], fits)
    requires visits == []
             || (IsCrawl(instance, states, visits, fits) && visits[0].at == at && visits[|visits| - 1].at == at
                              && visits[|visits| - 1].page.next.From?)
    ensures IsCrawl(instance, states, visits + [Visit(at, limit, page)], fits)
  {
    hide IsRun, Answered, IsCatalogOf, Collected, Answer;
    var r := states[at];
    var got := 0;
    CatalogNamesTheMembers(l, states, events, at);
    RunConsistent(l, states, events, at);
    DescriptorsSorted(r);
    if visits != [] {
      CrawlPrefix(l, instance, states, events, visits, fits, |visits|);
      got := |Collected(visits[..|visits|])|;
    }
    assert OneFits(instance, r, got, fits);
    CrawlCanGoOn(r.owner, instance, r.table, limit, got, fits);
    var q := Request(limit, if got == 0 then Start else From(Cursor(1, r.owner, instance, r.table.revision, got)));
    page := Answer(r.owner, instance, r.table, q, fits).value;
    ExtendCrawl(instance, states, visits, Visit(at, limit, page), fits);
  }

  /** Nothing but a single oversized descriptor can keep a registry from being read. */
  ghost predicate Readable(instance: string, r: Registry, fits: Page -> bool) {
    && r.owner != 0 && HexId(instance, 16) && 1 <= r.table.revision < U64
    && forall o: nat :: o < |r.table.descriptors| ==> OneFits(instance, r, o, fits)
  }

  predicate OneFits(instance: string, r: Registry, o: nat, fits: Page -> bool)
    requires o < |r.table.descriptors|
  {
    fits(PageOf(r.owner, instance, r.table, o, o + 1))
  }

  /**
   * On a registry that stands as it is, following cursors with whatever limits ends, after at most as many
   * requests as there are members, with exactly the sorted list of the members.
   */
  lemma FollowingCursorsFindsAll(
    l: Variable.Limits, instance: string, states: seq<Registry>, events: seq<Event>, at: nat, limit: nat -> int,
      fits: Page -> bool)
    returns (visits: seq<Visit>)
    requires IsRun(l, states, events) && at < |states| && (forall k :: 0 <= limit(k) <= MAX_PAGE_ITEMS)
    requires Readable(instance, states[at], fits)
    ensures IsCrawl(instance, states, visits, fits) && visits[|visits| - 1].page.next == Start
    ensures forall i :: 0 <= i < |visits| ==> visits[i].at == at && visits[i].limit == limit(i)
    ensures Collected(visits) == states[at].table.descriptors && |visits| <= |states[at].table.descriptors|
    ensures IsCatalogOf(Collected(visits), states[at].table.resources)
  {
    hide IsRun, IsCrawl, IsCatalogOf, Collected, Readable;
    var page := NextIsAnswered(l, instance, states, events, at, [], limit(0), fits);
    visits := [] + [Visit(at, limit(0), page)];
    CrawlIsShort(l, instance, states, events, visits, fits);
    while visits[|visits| - 1].page.next.From?
      invariant visits != [] && IsCrawl(instance, states, visits, fits)
      invariant forall i :: 0 <= i < |visits| ==> visits[i].at == at && visits[i].limit == limit(i)
      invariant |visits| <= |states[at].table.descriptors|
      decreases |states[at].table.descriptors| - |visits|
    {
      page := NextIsAnswered(l, instance, states, events, at, visits, limit(|visits|), fits);
      visits := visits + [Visit(at, limit(|visits|), page)];
      CrawlIsShort(l, instance, states, events, visits, fits);
    }
    NoBadNext(l, instance, states, events, visits, fits);
    FinishedCrawlIsOneSnapshot(l, instance, states, events, visits, fits);
  }

  lemma NoBadNext(
    l: Variable.Limits, instance: string, states: seq<Registry>, events: seq<Event>, visits: seq<Visit>,
      fits: Page -> bool)
    requires IsRun(l, states, events) && IsCrawl(instance, states, visits, fits)
    ensures visits[|visits| - 1].page.next.From? || visits[|visits| - 1].page.next == Start
  {
    hide IsRun, Answered;
    CrawlPrefix(l, instance, states, events, visits, fits, |visits|);
  }

  /** A registration or removal between two states moves the revision. */
  lemma ChangeMovesRevision(l: Variable.Limits, states: seq<Registry>, events: seq<Event>, i: nat, k: nat, j: nat)
    requires IsRun(l, states, events) && i <= k < j < |states|
             && states[k].table.resources != states[k + 1].table.resources
    ensures states[i].table.revision < states[j].table.revision
  {
    hide IsRun;
    RevisionNamesTheView(l, states, events, i, k);
    RevisionNamesTheView(l, states, events, k, k + 1);
    RevisionNamesTheView(l, states, events, k + 1, j);
  }

  /** Once anything was registered or removed since a page was cut, its cursor is refused as stale. */
  lemma StaleCursorIsRefused(
    l: Variable.Limits, instance: string, states: seq<Registry>, events: seq<Event>, i: nat, k: nat, j: nat, q: Request,
    again: Request, fits: Page -> bool, fitsLater: Page -> bool)
    requires IsRun(l, states, events) && i <= k < j < |states|
             && states[k].table.resources != states[k + 1].table.resources
    requires states[i].owner != 0 && HexId(instance, 16) && 1 <= states[i].table.revision < U64
    requires var a := Answer(states[i].owner, instance, states[i].table, q, fits);
             a.Ok? && a.value.next.From? && again.continuation == a.value.next && 0 <= again.limit <= MAX_PAGE_ITEMS
    ensures Answer(states[j].owner, instance, states[j].table, again, fitsLater) == Err(RevisionConflict)
  {
    hide Inv, Answer, Consistent;
    var r := states[i];
    ChangeMovesRevision(l, states, events, i, k, j);
    RunConsistent(l, states, events, i);
    RevisionNamesTheViewOf(l, states, events, i, j);
    AnswersAreValid(r, instance, q, fits);
    AnswerIsSlice(r.owner, instance, r.table, q, fits);
    AnswerError(states[j].owner, instance, states[j].table, again, fitsLater);
  }

  lemma AnswerError(owner: NodeId, instance: string, t: Table, q: Request, fits: Page -> bool)
    ensures StartOf(owner, instance, t, q).Err? ==>
              Answer(owner, instance, t, q, fits) == Err(StartOf(owner, instance, t, q).error)
  {
  }

  lemma RunConsistent(l: Variable.Limits, states: seq<Registry>, events: seq<Event>, i: nat)
    requires IsRun(l, states, events) && i < |states|
    ensures Consistent(states[i])
  {
    RunInv(l, states, events, i);
    hide IsRun, Consistent;
  }

  /** The request is well formed and, if it continues another, that one was for this very catalog and revision. */
  predicate Answerable(owner: NodeId, instance: string, t: Table, q: Request) {
    && 0 <= q.limit <= MAX_PAGE_ITEMS
    && match q.continuation
       case Start => t.descriptors != []
       case Undecodable => false
       case From(c) =>
         && CursorOk(c) && c.owner == owner && c.instance == instance && c.revision == t.revision
         && c.offset < |t.descriptors|
  }

  /**
   * Where everything fits, a request is answered exactly when it is answerable, and with as many descriptors as it
   * asked
   * for or as are left, from where it continues, and with a cursor to the next one if there is one.
   */
  lemma PageIsWhatWasAskedFor(owner: NodeId, instance: string, t: Table, q: Request, fits: Page -> bool)
    requires forall p: Page :: fits(p)
    ensures var a := Answer(owner, instance, t, q, fits);
            && (a.Ok? <==> Answerable(owner, instance, t, q))
            && (a.Ok? ==>
                  var from := if q.continuation.From? then q.continuation.cursor.offset else 0;
                  var asked := if q.limit == 0 then 128 else q.limit;
                  var end := if from + asked < |t.descriptors| then from + asked else |t.descriptors|;
                  && a.value.offset == from && a.value.resources == t.descriptors[from..end]
                  && a.value.owner == owner && a.value.instance == instance && a.value.revision == t.revision
                  && a.value.total == |t.descriptors|
                  && a.value.next == if end == |t.descriptors| then Start
                                     else From(Cursor(1, owner, instance, t.revision, end)))
  {
    hide HexId;
  }

  /** A request whose full page fits gets its full page. */
  lemma FullPageIfItFits(owner: NodeId, instance: string, t: Table, q: Request, fits: Page -> bool, full: Page)
    requires Answer(owner, instance, t, q, (p: Page) => true) == Ok(full) && fits(full)
    ensures Answer(owner, instance, t, q, fits) == Ok(full)
  {
    hide HexId;
  }
}
