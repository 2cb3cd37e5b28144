/** The fetch orchestrator: claim one row, then drain every FETCHING row
    through the handler its type selects, and record the outcome
    (batch/.../service/MatchFetchService.java). */
module MatchFetch {
  import opened Wrappers
  import opened FetchQueue
  import opened QueueStore
  import opened Standing

  /** Ids per page of the match listing, and the offset step between pages. */
  const PageSize: nat := 100
  /** The `startTime` passed to the listing: the season start, 2025-12-03. */
  const SeasonStartEpoch: int := 1764687600
  /** Seconds to wait when a rate-limit response has no Retry-After header. */
  const DefaultRetryAfter: nat := 10

  /** The game API as seen by the batch worker; each field answers one kind of call.
      `summonerById` yields the resolved puuid (None when the summoner or its
      puuid is null); `matchIds` is called with (puuid, start, count,
      startTime). `listingPages` bounds how many full pages any listing has.
      `saveSucceeds` says whether the match-detail saver accepts a payload
      or throws. */
  datatype Api = Api(
    summonerById: string -> ApiResult<Option<string>>,
    matchIds: (string, nat, nat, int) -> ApiResult<Option<seq<string>>>,
    matchDetail: string -> ApiResult<Option<string>>,
    league: string -> ApiResult<Option<League>>,
    saveSucceeds: string -> bool,
    listingPages: nat)

  /** The state the worker reads and writes: the queue, the ids of matches
      already saved (GameInfo), the match payloads handed to the detail
      saver, and the LP-history table. */
  datatype World = World(queue: Queue, gameIds: set<string>, savedDetails: seq<string>, history: seq<LpRecord>)

  // ---------------------------------------------------------------- pagination

  function Page(api: Api, puuid: string, offset: nat): ApiResult<Option<seq<string>>> {
    api.matchIds(puuid, offset, PageSize, SeasonStartEpoch)
  }

  /** A page after which the loop asks for the next one. */
  predicate FullPage(resp: ApiResult<Option<seq<string>>>) {
    resp.Ok? && resp.value.Some? && |resp.value.value| >= PageSize
  }

  /** The ids a page contributes: none for a null page or a failed call. */
  function PageIds(resp: ApiResult<Option<seq<string>>>): seq<string> {
    if resp.Ok? && resp.value.Some? then resp.value.value else []
  }

  /** Every listing ends: from offset `PageSize * listingPages` on no page is full. */
  ghost predicate ListingsEnd(api: Api) {
    forall puuid, start :: start >= PageSize * api.listingPages ==> !FullPage(Page(api, puuid, start))
  }

  /** The pages at the given offsets, concatenated in order. */
  function ListedIds(api: Api, puuid: string, offsets: seq<nat>): seq<string> {
    if |offsets| == 0 then [] else PageIds(Page(api, puuid, offsets[0])) + ListedIds(api, puuid, offsets[1..])
  }

  /** The outcome of the paging loop and the offsets it requested. */
  datatype Listing = Listing(result: ApiResult<seq<string>>, offsets: seq<nat>)

  /** The paging loop of `processSummoner`, from offset `start` on. */
  function Paginate(api: Api, puuid: string, start: nat): (l: Listing)
    requires ListingsEnd(api)
    ensures |l.offsets| >= 1
    ensures forall k :: 0 <= k < |l.offsets| ==> l.offsets[k] == start + PageSize * k
    ensures forall k :: 0 <= k < |l.offsets| - 1 ==> FullPage(Page(api, puuid, l.offsets[k]))
    ensures !FullPage(Page(api, puuid, l.offsets[|l.offsets| - 1]))
    ensures l.result.Ok? <==> Page(api, puuid, l.offsets[|l.offsets| - 1]).Ok?
    ensures l.result.RateLimited? <==> Page(api, puuid, l.offsets[|l.offsets| - 1]).RateLimited?
    ensures l.result.RateLimited? ==> l.result.retryAfter == Page(api, puuid, l.offsets[|l.offsets| - 1]).retryAfter
    ensures l.result.Ok? ==> l.result.value == ListedIds(api, puuid, l.offsets)
    decreases if start <= PageSize * api.listingPages then PageSize * api.listingPages - start else 0
  {
    var resp := Page(api, puuid, start);
    if FullPage(resp) then
      var rest := Paginate(api, puuid, start + PageSize);
      var result := match rest.result
        case Ok(ids) => Ok(resp.value.value + ids)
        case RateLimited(w) => RateLimited(w)
        case Failed => Failed;
      Listing(result, [start] + rest.offsets)
    else
      var result := match resp
        case Ok(_) => Ok(PageIds(resp))
        case RateLimited(w) => RateLimited(w)
        case Failed => Failed;
      Listing(result, [start])
  }

  // ---------------------------------------------------------------- expansion

  /** One iteration of the expansion loop for a listed match id; None when
      the queue lookup throws because several rows carry the id. */
  function ExpandOne(q: Queue, gameIds: set<string>, parentPriority: int, id: string, now: int): (r: Option<Queue>)
    ensures id in gameIds ==> r == Some(q)
    ensures id !in gameIds && !ExistsById(q, id) ==>
      r.Some? && r.value.nextNum == q.nextNum + 1
      && r.value.rows == q.rows[q.nextNum := Row(q.nextNum, id, Match, Ready, parentPriority - 1, Some(now))]
    ensures id !in gameIds && FindById(q, id).Unique? ==>
      var row := FindById(q, id).row;
      r.Some? && r.value.nextNum == q.nextNum
      && r.value.rows == (if row.status == Fail then q.rows[row.num := row.(status := Ready, updatedAt := Some(now))] else q.rows)
    ensures r.None? <==> id !in gameIds && FindById(q, id).Ambiguous?
  {
    if id in gameIds then Some(q)
    else
      match FindById(q, id)
      case Absent => Some(Insert(q, id, Match, Ready, parentPriority - 1, Some(now)))
      case Unique(row) =>
        if row.status == Fail then Some(Update(q, MarkReady(row).(updatedAt := Some(now)))) else Some(q)
      case Ambiguous => None
  }

  /** Rows of `q` are all still in `q'` as the same entries (key, id, type, priority). */
  ghost predicate KeepsEntries(q: Queue, q': Queue) {
    && q.nextNum <= q'.nextNum
    && forall n :: n in q.rows ==> n in q'.rows && SameEntry(q.rows[n], q'.rows[n])
  }

  /** The only change to an existing row is reviving a FAIL row to READY at `now`. */
  ghost predicate OnlyRevives(q: Queue, q': Queue, now: int)
    requires KeepsEntries(q, q')
  {
    && (forall n :: n in q.rows && q.rows[n].status != Fail ==> q'.rows[n] == q.rows[n])
    && (forall n :: n in q.rows && q.rows[n].status == Fail ==>
          q'.rows[n] == q.rows[n] || (q'.rows[n].status == Ready && q'.rows[n].updatedAt == Some(now)))
  }

  /** Every FAIL row whose id is listed and not saved was revived. */
  ghost predicate RevivesListed(q: Queue, q': Queue, gameIds: set<string>, ids: seq<string>, now: int)
    requires KeepsEntries(q, q')
  {
    forall n :: n in q.rows && q.rows[n].status == Fail && q.rows[n].id in ids && q.rows[n].id !in gameIds ==>
      q'.rows[n].status == Ready && q'.rows[n].updatedAt == Some(now)
  }

  /** A row changes only when its id is listed and not saved: the loop
      writes only the row the id lookup finds for a listed id. */
  ghost predicate ChangesOnlyListed(q: Queue, q': Queue, gameIds: set<string>, ids: seq<string>)
    requires KeepsEntries(q, q')
  {
    forall n :: n in q.rows && q'.rows[n] != q.rows[n] ==> q.rows[n].id in ids && q.rows[n].id !in gameIds
  }

  /** Every added row is a READY MATCH row for a listed, unsaved id, one below the parent's priority. */
  ghost predicate NewRowsAreMatches(q: Queue, q': Queue, gameIds: set<string>, parentPriority: int, ids: seq<string>, now: int) {
    forall n :: n in q'.rows && n !in q.rows ==>
      var row := q'.rows[n];
      row.kind == Match && row.status == Ready && row.priority == parentPriority - 1
      && row.updatedAt == Some(now) && row.id in ids && row.id !in gameIds
  }

  /** No added row shares its id with any other row. */
  ghost predicate NewIdsFresh(q: Queue, q': Queue) {
    forall n, m :: n in q'.rows && m in q'.rows && n != m && n !in q.rows ==> q'.rows[n].id != q'.rows[m].id
  }

  /** Every listed id that is not saved has a queue row. */
  ghost predicate CoversListed(q': Queue, gameIds: set<string>, ids: seq<string>) {
    forall i :: 0 <= i < |ids| && ids[i] !in gameIds ==> ExistsById(q', ids[i])
  }

  /** The queue after expansion and whether the loop ran to its end. */
  datatype Expansion = Expansion(queue: Queue, completed: bool)

  /** The expansion loop of `processSummoner` over the listed ids. A lookup
      that throws ends the loop; the rows written before it stay. */
  function Expand(q: Queue, gameIds: set<string>, parentPriority: int, ids: seq<string>, now: int): (e: Expansion)
    ensures KeepsEntries(q, e.queue) && OnlyRevives(q, e.queue, now)
    ensures ChangesOnlyListed(q, e.queue, gameIds, ids)
    ensures e.completed ==> RevivesListed(q, e.queue, gameIds, ids, now)
    ensures NewRowsAreMatches(q, e.queue, gameIds, parentPriority, ids, now)
    ensures NewIdsFresh(q, e.queue)
    ensures e.completed ==> CoversListed(e.queue, gameIds, ids)
    ensures UniqueIds(q) ==> e.completed && UniqueIds(e.queue)
    decreases |ids|
  {
    if |ids| == 0 then Expansion(q, true)
    else
      match ExpandOne(q, gameIds, parentPriority, ids[0], now)
      case None => Expansion(q, false)
      case Some(q1) =>
        var e := Expand(q1, gameIds, parentPriority, ids[1..], now);
        ExpandStep(q, q1, e, gameIds, parentPriority, ids, now);
        e
  }

  /** The inductive step of `Expand`: one iteration followed by the rest of the loop. */
  lemma ExpandStep(q: Queue, q1: Queue, e: Expansion, gameIds: set<string>, parentPriority: int, ids: seq<string>, now: int)
    requires |ids| > 0 && ExpandOne(q, gameIds, parentPriority, ids[0], now) == Some(q1)
    requires KeepsEntries(q1, e.queue) && OnlyRevives(q1, e.queue, now)
    requires ChangesOnlyListed(q1, e.queue, gameIds, ids[1..])
    requires e.completed ==> RevivesListed(q1, e.queue, gameIds, ids[1..], now)
    requires NewRowsAreMatches(q1, e.queue, gameIds, parentPriority, ids[1..], now)
    requires NewIdsFresh(q1, e.queue)
    requires e.completed ==> CoversListed(e.queue, gameIds, ids[1..])
    requires UniqueIds(q1) ==> e.completed && UniqueIds(e.queue)
    ensures KeepsEntries(q, e.queue) && OnlyRevives(q, e.queue, now)
    ensures ChangesOnlyListed(q, e.queue, gameIds, ids)
    ensures e.completed ==> RevivesListed(q, e.queue, gameIds, ids, now)
    ensures NewRowsAreMatches(q, e.queue, gameIds, parentPriority, ids, now)
    ensures NewIdsFresh(q, e.queue)
    ensures e.completed ==> CoversListed(e.queue, gameIds, ids)
    ensures UniqueIds(q) ==> e.completed && UniqueIds(e.queue)
  {
    ExpandOneShape(q, q1, gameIds, parentPriority, ids, now);
    ExpandOneChangesOnlyListed(q, q1, gameIds, parentPriority, ids[0], now);
    StepKeeps(q, q1, e.queue, now);
    StepChangesOnlyListed(q, q1, e.queue, gameIds, ids, now);
    if e.completed {
      StepRevives(q, q1, e.queue, gameIds, ids, now);
      StepCovers(q, q1, e.queue, gameIds, ids);
    }
    StepNewRows(q, q1, e.queue, gameIds, parentPriority, ids, now);
    StepFresh(q, q1, e.queue);
    if UniqueIds(q) {
      UniqueIdsLookup(q, ids[0]);
      if !ExistsById(q, ids[0]) {
        InsertFreshKeepsUniqueIds(q, ids[0], Match, Ready, parentPriority - 1, Some(now));
      }
    }
  }

  /** What one iteration does, in the vocabulary of the loop's invariants. */
  lemma ExpandOneShape(q: Queue, q1: Queue, gameIds: set<string>, parentPriority: int, ids: seq<string>, now: int)
    requires |ids| > 0 && ExpandOne(q, gameIds, parentPriority, ids[0], now) == Some(q1)
    ensures KeepsEntries(q, q1) && OnlyRevives(q, q1, now)
    ensures RevivesListed(q, q1, gameIds, [ids[0]], now)
    ensures NewRowsAreMatches(q, q1, gameIds, parentPriority, ids, now)
    ensures NewIdsFresh(q, q1)
    ensures CoversListed(q1, gameIds, [ids[0]])
  {
    var id := ids[0];
    if id !in gameIds {
      if !ExistsById(q, id) {
        assert q1.rows[q.nextNum].id == id;
      } else {
        var n :| n in q.rows && q.rows[n].id == id;
        assert q1.rows[n].id == id;
      }
    }
    forall n | n in q.rows && q.rows[n].status == Fail && q.rows[n].id in [id] && q.rows[n].id !in gameIds
      ensures q1.rows[n].status == Ready && q1.rows[n].updatedAt == Some(now)
    {
      assert FindById(q, id).Unique?;
    }
  }

  lemma StepKeeps(q: Queue, q1: Queue, q2: Queue, now: int)
    requires KeepsEntries(q, q1) && OnlyRevives(q, q1, now)
    requires KeepsEntries(q1, q2) && OnlyRevives(q1, q2, now)
    ensures KeepsEntries(q, q2) && OnlyRevives(q, q2, now)
  {
  }

  /** One iteration writes at most the row its id lookup finds. */
  lemma ExpandOneChangesOnlyListed(q: Queue, q1: Queue, gameIds: set<string>, parentPriority: int, id: string, now: int)
    requires ExpandOne(q, gameIds, parentPriority, id, now) == Some(q1)
    ensures KeepsEntries(q, q1) && ChangesOnlyListed(q, q1, gameIds, [id])
  {
    forall n | n in q.rows && q1.rows[n] != q.rows[n]
      ensures q.rows[n].id in [id] && q.rows[n].id !in gameIds
    {
      assert id !in gameIds && FindById(q, id).Unique?;
      assert n == FindById(q, id).row.num;
    }
  }

  lemma StepChangesOnlyListed(q: Queue, q1: Queue, q2: Queue, gameIds: set<string>, ids: seq<string>, now: int)
    requires |ids| > 0
    requires KeepsEntries(q, q1) && OnlyRevives(q, q1, now) && ChangesOnlyListed(q, q1, gameIds, [ids[0]])
    requires KeepsEntries(q1, q2) && OnlyRevives(q1, q2, now) && ChangesOnlyListed(q1, q2, gameIds, ids[1..])
    ensures KeepsEntries(q, q2) && ChangesOnlyListed(q, q2, gameIds, ids)
  {
    forall n | n in q.rows && q2.rows[n] != q.rows[n]
      ensures q.rows[n].id in ids && q.rows[n].id !in gameIds
    {
      if q1.rows[n] == q.rows[n] {
        assert q.rows[n].id in ids[1..];
      } else {
        assert q.rows[n].id in [ids[0]];
      }
    }
  }

  lemma StepRevives(q: Queue, q1: Queue, q2: Queue, gameIds: set<string>, ids: seq<string>, now: int)
    requires |ids| > 0
    requires KeepsEntries(q, q1) && OnlyRevives(q, q1, now) && RevivesListed(q, q1, gameIds, [ids[0]], now)
    requires KeepsEntries(q1, q2) && OnlyRevives(q1, q2, now) && RevivesListed(q1, q2, gameIds, ids[1..], now)
    ensures KeepsEntries(q, q2) && RevivesListed(q, q2, gameIds, ids, now)
  {
    forall n | n in q.rows && q.rows[n].status == Fail && q.rows[n].id in ids && q.rows[n].id !in gameIds
      ensures q2.rows[n].status == Ready && q2.rows[n].updatedAt == Some(now)
    {
      if q.rows[n].id != ids[0] {
        assert q.rows[n].id in ids[1..];
      }
    }
  }

  lemma StepCovers(q: Queue, q1: Queue, q2: Queue, gameIds: set<string>, ids: seq<string>)
    requires |ids| > 0
    requires CoversListed(q1, gameIds, [ids[0]]) && KeepsEntries(q1, q2) && CoversListed(q2, gameIds, ids[1..])
    ensures CoversListed(q2, gameIds, ids)
  {
    forall i | 0 <= i < |ids| && ids[i] !in gameIds
      ensures ExistsById(q2, ids[i])
    {
      if i == 0 {
        assert [ids[0]][0] == ids[0];
        var n :| n in q1.rows && q1.rows[n].id == ids[0];
        assert q2.rows[n].id == ids[0];
      } else {
        assert ids[1..][i - 1] == ids[i];
      }
    }
  }

  lemma StepNewRows(q: Queue, q1: Queue, q2: Queue, gameIds: set<string>, parentPriority: int, ids: seq<string>, now: int)
    requires |ids| > 0
    requires KeepsEntries(q, q1) && OnlyRevives(q, q1, now) && NewRowsAreMatches(q, q1, gameIds, parentPriority, ids, now)
    requires KeepsEntries(q1, q2) && OnlyRevives(q1, q2, now) && NewRowsAreMatches(q1, q2, gameIds, parentPriority, ids[1..], now)
    ensures NewRowsAreMatches(q, q2, gameIds, parentPriority, ids, now)
  {
    forall n | n in q2.rows && n !in q.rows
      ensures q2.rows[n].id in ids
    {
      if n !in q1.rows {
        assert q2.rows[n].id in ids[1..];
      }
    }
  }

  lemma StepFresh(q: Queue, q1: Queue, q2: Queue)
    requires KeepsEntries(q, q1) && NewIdsFresh(q, q1)
    requires KeepsEntries(q1, q2) && NewIdsFresh(q1, q2)
    ensures NewIdsFresh(q, q2)
  {
    forall n, m | n in q2.rows && m in q2.rows && n != m && n !in q.rows
      ensures q2.rows[n].id != q2.rows[m].id
    {
      if n in q1.rows && m in q1.rows {
        assert q2.rows[n].id == q1.rows[n].id && q2.rows[m].id == q1.rows[m].id;
      }
    }
  }

  // ---------------------------------------------------------------- handlers

  /** How a handler ended: it returned, it threw the rate-limit exception,
      or it threw anything else. */
  datatype Signal = Returned | Throttled(retryAfter: Option<nat>) | Threw

  datatype Handled = Handled(world: World, signal: Signal)

  /** `processMatch`: fetch the match detail and hand it to the saver when
      it is present; a null detail is not an error, and an exception from
      the saver propagates like one from the call. */
  function ProcessMatch(w: World, api: Api, task: Row): (h: Handled)
    ensures h.world.queue == w.queue && h.world.gameIds == w.gameIds && h.world.history == w.history
    ensures h.signal.Returned? <==>
      api.matchDetail(task.id).Ok? && (api.matchDetail(task.id).value.Some? ==> api.saveSucceeds(api.matchDetail(task.id).value.value))
    ensures h.world.savedDetails == w.savedDetails || (h.signal.Returned? && |h.world.savedDetails| == |w.savedDetails| + 1)
    ensures var resp := api.matchDetail(task.id);
      && (resp == Ok(None) ==> h.world == w)
      && (resp.Ok? && resp.value.Some? && api.saveSucceeds(resp.value.value) ==>
            h.world.savedDetails == w.savedDetails + [resp.value.value])
      && (resp.Ok? && resp.value.Some? && !api.saveSucceeds(resp.value.value) ==> h == Handled(w, Threw))
      && (resp.RateLimited? ==> h == Handled(w, Throttled(resp.retryAfter)))
      && (resp.Failed? ==> h == Handled(w, Threw))
  {
    match api.matchDetail(task.id)
    case Ok(None) => Handled(w, Returned)
    case Ok(Some(d)) =>
      if api.saveSucceeds(d) then Handled(w.(savedDetails := w.savedDetails + [d]), Returned)
      else Handled(w, Threw)
    case RateLimited(ra) => Handled(w, Throttled(ra))
    case Failed => Handled(w, Threw)
  }

  /** The standing refresh inside `processSummonerId`: only a present league
      entry can write, and every exception from it is swallowed. */
  function RefreshStanding(history: seq<LpRecord>, puuid: string, resp: ApiResult<Option<League>>, now: int): (h: seq<LpRecord>)
    ensures resp.Ok? && resp.value.Some? ==> h == RecordStanding(history, puuid, resp.value.value, Some(now))
    ensures !(resp.Ok? && resp.value.Some?) ==> h == history
  {
    match resp
    case Ok(Some(league)) => RecordStanding(history, puuid, league, Some(now))
    case _ => history
  }

  /** `processSummonerId`: resolve the summoner to a puuid, queue a SUMMONER
      row at the parent's priority unless some row already has that id, and
      refresh the puuid's standing. */
  function ProcessSummonerId(w: World, api: Api, task: Row, now: int): (h: Handled)
    ensures h.world.gameIds == w.gameIds && h.world.savedDetails == w.savedDetails
    ensures var resp := api.summonerById(task.id);
      && (resp.RateLimited? ==> h == Handled(w, Throttled(resp.retryAfter)))
      && (resp.Failed? ==> h == Handled(w, Threw))
      && (resp == Ok(None) ==> h == Handled(w, Returned))
      && (resp.Ok? ==> h.signal == Returned)
      && (resp.Ok? && resp.value.Some? ==>
            var puuid := resp.value.value;
            && (ExistsById(w.queue, puuid) ==> h.world.queue == w.queue)
            && (!ExistsById(w.queue, puuid) ==>
                  h.world.queue == Insert(w.queue, puuid, Summoner, Ready, task.priority, Some(now)))
            && h.world.history == RefreshStanding(w.history, puuid, api.league(puuid), now))
  {
    match api.summonerById(task.id)
    case RateLimited(ra) => Handled(w, Throttled(ra))
    case Failed => Handled(w, Threw)
    case Ok(None) => Handled(w, Returned)
    case Ok(Some(puuid)) =>
      var q := if ExistsById(w.queue, puuid) then w.queue
               else Insert(w.queue, puuid, Summoner, Ready, task.priority, Some(now));
      var history := RefreshStanding(w.history, puuid, api.league(puuid), now);
      Handled(w.(queue := q, history := history), Returned)
  }

  /** `processSummoner`: list every match id of the puuid, then expand the
      list into the queue at one below the parent's priority. */
  function ProcessSummoner(w: World, api: Api, task: Row, now: int): (h: Handled)
    requires ListingsEnd(api)
    ensures h.world.gameIds == w.gameIds && h.world.savedDetails == w.savedDetails && h.world.history == w.history
    ensures var l := Paginate(api, task.id, 0);
      && (l.result.RateLimited? ==> h == Handled(w, Throttled(l.result.retryAfter)))
      && (l.result.Failed? ==> h == Handled(w, Threw))
      && (l.result.Ok? ==>
            var e := Expand(w.queue, w.gameIds, task.priority, l.result.value, now);
            h.world.queue == e.queue && (e.completed ==> h.signal == Returned) && (!e.completed ==> h.signal == Threw))
    ensures var l := Paginate(api, task.id, 0);
      l.result.Ok? ==> KeepsEntries(w.queue, h.world.queue) && ChangesOnlyListed(w.queue, h.world.queue, w.gameIds, l.result.value)
  {
    var l := Paginate(api, task.id, 0);
    match l.result
    case RateLimited(ra) => Handled(w, Throttled(ra))
    case Failed => Handled(w, Threw)
    case Ok(ids) =>
      var e := Expand(w.queue, w.gameIds, task.priority, ids, now);
      Handled(w.(queue := e.queue), if e.completed then Returned else Threw)
  }

  /** The type dispatch of `processTask`; an unrecognised type does nothing
      and returns normally. */
  function Dispatch(w: World, api: Api, task: Row, now: int): (h: Handled)
    requires ListingsEnd(api)
    ensures task.kind.OtherType? ==> h == Handled(w, Returned)
  {
    match task.kind
    case Summoner => ProcessSummoner(w, api, task, now)
    case Match => ProcessMatch(w, api, task)
    case SummonerId => ProcessSummonerId(w, api, task, now)
    case OtherType(_) => Handled(w, Returned)
  }

  /** Every row a handler adds is READY. */
  ghost predicate NewRowsReady(q: Queue, q': Queue) {
    forall n :: n in q'.rows && n !in q.rows ==> q'.rows[n].status == Ready
  }

  /** What any handler may do to the queue: keep every entry, change at most
      FAIL rows back to READY, add READY rows, and never duplicate an id. */
  lemma DispatchKeeps(w: World, api: Api, task: Row, now: int)
    requires ListingsEnd(api)
    ensures var h := Dispatch(w, api, task, now);
      && h.world.gameIds == w.gameIds
      && KeepsEntries(w.queue, h.world.queue) && OnlyRevives(w.queue, h.world.queue, now)
      && NewRowsReady(w.queue, h.world.queue)
      && (UniqueIds(w.queue) ==> UniqueIds(h.world.queue))
    ensures var h := Dispatch(w, api, task, now);
      !task.kind.Summoner? ==> forall n :: n in w.queue.rows ==> h.world.queue.rows[n] == w.queue.rows[n]
    ensures var h := Dispatch(w, api, task, now);
      var l := Paginate(api, task.id, 0);
      task.kind.Summoner? ==>
        (!l.result.Ok? ==> h.world.queue == w.queue)
        && (l.result.Ok? ==> ChangesOnlyListed(w.queue, h.world.queue, w.gameIds, l.result.value))
  {
    if task.kind.SummonerId? {
      var resp := api.summonerById(task.id);
      if resp.Ok? && resp.value.Some? && !ExistsById(w.queue, resp.value.value) {
        if UniqueIds(w.queue) {
          InsertFreshKeepsUniqueIds(w.queue, resp.value.value, Summoner, Ready, task.priority, Some(now));
        }
      }
    }
  }

  /** No handler adds a row whose id another row already has, even in a queue
      whose ids are not unique (the web side can make them so). */
  lemma DispatchAddsFreshIds(w: World, api: Api, task: Row, now: int)
    requires ListingsEnd(api)
    ensures var h := Dispatch(w, api, task, now);
      NewIdsFresh(w.queue, h.world.queue)
  {
  }

  // ---------------------------------------------------------------- status and backoff

  /** `updateStatus`: looks the row up by number and applies the transition;
      when there is no such row nothing changes. */
  function UpdateStatus(q: Queue, num: nat, s: Status): (r: Queue)
    ensures r.nextNum == q.nextNum && r.rows.Keys == q.rows.Keys
    ensures num in q.rows ==> r.rows[num] == Mark(q.rows[num], s)
    ensures forall m :: m in q.rows && m != num ==> r.rows[m] == q.rows[m]
  {
    if num in q.rows then Update(q, Mark(q.rows[num], s)) else q
  }

  /** The status `processTask` records for each way a handler can end. */
  function StatusAfter(sig: Signal): (s: Status)
    ensures s != Fetching
    ensures sig.Returned? <==> s == Done
    ensures sig.Throttled? <==> s == Ready
    ensures sig.Threw? <==> s == Fail
  {
    match sig
    case Returned => Done
    case Throttled(_) => Ready
    case Threw => Fail
  }

  /** The sleep after a rate limit, in milliseconds: one second more than
      the Retry-After value, or than the default when the header is absent. */
  function BackoffMillis(retryAfter: Option<nat>): (ms: nat)
    ensures ms % 1000 == 0 && ms / 1000 == retryAfter.GetOr(DefaultRetryAfter) + 1
  {
    (retryAfter.GetOr(DefaultRetryAfter) + 1) * 1000
  }

  /** A longer Retry-After never gives a shorter sleep, and a missing
      header sleeps 11 seconds, as a header of 10 does. */
  lemma {:induction false} BackoffFollowsHeader(a: nat, b: nat)
    ensures a <= b <==> BackoffMillis(Some(a)) <= BackoffMillis(Some(b))
    ensures BackoffMillis(None) == BackoffMillis(Some(DefaultRetryAfter)) == 11000
  {
    var ma, mb := BackoffMillis(Some(a)), BackoffMillis(Some(b));
    assert ma == (a + 1) * 1000 by { assert ma / 1000 == a + 1 && ma % 1000 == 0; }
    assert mb == (b + 1) * 1000 by { assert mb / 1000 == b + 1 && mb % 1000 == 0; }
  }

  /** The world after one task and the sleep it caused, if any. */
  datatype Step = Step(world: World, delay: Option<nat>)

  /** Besides the task's own row, a row changes only when the task is a
      SUMMONER row whose listing succeeded, listed the row's id, and the id
      is not saved. */
  ghost predicate OthersChangeOnlyIfListed(w: World, q': Queue, api: Api, task: Row)
    requires ListingsEnd(api)
  {
    forall n :: n in w.queue.rows && n in q'.rows && n != task.num && q'.rows[n] != w.queue.rows[n] ==>
      && task.kind.Summoner?
      && Paginate(api, task.id, 0).result.Ok?
      && w.queue.rows[n].id in Paginate(api, task.id, 0).result.value
      && w.queue.rows[n].id !in w.gameIds
  }

  /** The handler's frame in the terms of `OthersChangeOnlyIfListed`. */
  lemma DispatchFrame(w: World, api: Api, task: Row, now: int)
    requires ListingsEnd(api)
    ensures OthersChangeOnlyIfListed(w, Dispatch(w, api, task, now).world.queue, api, task)
  {
    DispatchKeeps(w, api, task, now);
  }

  /** `processTask`: run the handler, then record DONE when it returned,
      READY plus a backoff sleep when it was rate-limited, and FAIL when it
      threw anything else. */
  function ProcessTask(w: World, api: Api, task: Row, now: int): (s: Step)
    requires ListingsEnd(api)
    ensures KeepsEntries(w.queue, s.world.queue)
    ensures var h := Dispatch(w, api, task, now);
      && (task.num in w.queue.rows ==> s.world.queue.rows[task.num].status == StatusAfter(h.signal))
      && (h.signal.Throttled? <==> s.delay.Some?)
      && (h.signal.Throttled? ==> s.delay.value == BackoffMillis(h.signal.retryAfter))
    ensures s.world.gameIds == w.gameIds
    ensures forall n :: n in w.queue.rows && n != task.num && w.queue.rows[n].status != Fail ==>
      s.world.queue.rows[n] == w.queue.rows[n]
    ensures forall n :: n in s.world.queue.rows && s.world.queue.rows[n].status == Fetching ==>
      n != task.num && IsFetching(w.queue, n)
    ensures UniqueIds(w.queue) ==> UniqueIds(s.world.queue)
  {
    var h := Dispatch(w, api, task, now);
    DispatchKeeps(w, api, task, now);
    var q := UpdateStatus(h.world.queue, task.num, StatusAfter(h.signal));
    Step(h.world.(queue := q), if h.signal.Throttled? then Some(BackoffMillis(h.signal.retryAfter)) else None)
  }

  /** Besides its own row, a task changes only FAIL rows that its SUMMONER
      listing named and that are not saved; every other task changes no
      other row. */
  lemma ProcessTaskFrame(w: World, api: Api, task: Row, now: int)
    requires ListingsEnd(api)
    ensures OthersChangeOnlyIfListed(w, ProcessTask(w, api, task, now).world.queue, api, task)
    ensures var q' := ProcessTask(w, api, task, now).world.queue;
      forall n :: n in w.queue.rows && n != task.num && q'.rows[n] != w.queue.rows[n] ==> w.queue.rows[n].status == Fail
  {
    var h := Dispatch(w, api, task, now);
    DispatchFrame(w, api, task, now);
    var q := UpdateStatus(h.world.queue, task.num, StatusAfter(h.signal));
    assert ProcessTask(w, api, task, now).world.queue == q;
  }

  // ---------------------------------------------------------------- fetchNext

  /** The world after a tick and the sleeps taken during it, in order. */
  datatype Tick = Tick(world: World, delays: seq<nat>)

  /** The loop of `fetchNext` over the FETCHING rows, one after another. */
  function Drain(w: World, api: Api, tasks: seq<Row>, now: int): (t: Tick)
    requires ListingsEnd(api)
    ensures t.world.gameIds == w.gameIds
    ensures KeepsEntries(w.queue, t.world.queue)
    ensures UniqueIds(w.queue) ==> UniqueIds(t.world.queue)
    ensures |t.delays| <= |tasks|
    ensures forall i :: 0 <= i < |t.delays| ==> t.delays[i] >= 1000
    decreases |tasks|
  {
    if |tasks| == 0 then Tick(w, [])
    else
      var s := ProcessTask(w, api, tasks[0], now);
      var rest := Drain(s.world, api, tasks[1..], now);
      Tick(rest.world, (if s.delay.Some? then [s.delay.value] else []) + rest.delays)
  }

  ghost function NumsOf(tasks: seq<Row>): set<nat> {
    set i | 0 <= i < |tasks| :: tasks[i].num
  }

  ghost predicate NoneFetching(q: Queue) {
    forall n :: n in q.rows ==> q.rows[n].status != Fetching
  }

  /** When every FETCHING row is in the list processed, none is left FETCHING after the loop. */
  lemma {:induction false} DrainClearsFetching(w: World, api: Api, tasks: seq<Row>, now: int)
    requires ListingsEnd(api)
    requires forall n :: IsFetching(w.queue, n) ==> n in NumsOf(tasks)
    ensures NoneFetching(Drain(w, api, tasks, now).world.queue)
    decreases |tasks|
  {
    if |tasks| > 0 {
      var s := ProcessTask(w, api, tasks[0], now);
      forall n | IsFetching(s.world.queue, n)
        ensures n in NumsOf(tasks[1..])
      {
        assert n in NumsOf(tasks) && n != tasks[0].num;
        var i :| 0 <= i < |tasks| && tasks[i].num == n;
        assert tasks[1..][i - 1] == tasks[i];
      }
      DrainClearsFetching(s.world, api, tasks[1..], now);
    } else {
      assert NumsOf(tasks) == {};
      assert forall n :: n in w.queue.rows ==> !IsFetching(w.queue, n);
    }
  }

  /** The loop over distinct FETCHING rows leaves every DONE row as it was. */
  lemma {:induction false} DrainKeepsDone(w: World, api: Api, tasks: seq<Row>, now: int)
    requires ListingsEnd(api)
    requires forall i :: 0 <= i < |tasks| ==> IsFetching(w.queue, tasks[i].num)
    requires forall i, j :: 0 <= i < j < |tasks| ==> tasks[i].num != tasks[j].num
    ensures forall n :: n in w.queue.rows && w.queue.rows[n].status == Done ==>
      Drain(w, api, tasks, now).world.queue.rows[n] == w.queue.rows[n]
    decreases |tasks|
  {
    if |tasks| > 0 {
      var s := ProcessTask(w, api, tasks[0], now);
      forall i | 0 <= i < |tasks[1..]|
        ensures IsFetching(s.world.queue, tasks[1..][i].num)
      {
        assert tasks[1..][i] == tasks[i + 1];
        assert tasks[i + 1].num != tasks[0].num;
      }
      DrainKeepsDone(s.world, api, tasks[1..], now);
    }
  }

  /** `fetchNext`: claim one row; if none was claimed, stop. Otherwise
      process every FETCHING row, oldest `updatedAt` first. The claimed row
      and any rows a previous tick left FETCHING all end DONE, READY or FAIL;
      DONE rows are never touched, no entry changes its id, type or priority,
      and unique ids stay unique. */
  function FetchNext(w: World, api: Api, now: int): (t: Tick)
    requires ListingsEnd(api)
    ensures !HasReady(w.queue) ==> t == Tick(w, [])
    ensures HasReady(w.queue) ==> forall n :: n in t.world.queue.rows ==> t.world.queue.rows[n].status != Fetching
    ensures KeepsEntries(w.queue, t.world.queue)
    ensures forall n :: n in w.queue.rows && w.queue.rows[n].status == Done ==> t.world.queue.rows[n] == w.queue.rows[n]
    ensures UniqueIds(w.queue) ==> UniqueIds(t.world.queue)
    ensures t.world.gameIds == w.gameIds
  {
    var c := PickNext(w.queue);
    if c.count == 0 then Tick(w, [])
    else
      var tasks := FindFetchingAll(c.queue);
      ClaimFacts(w.queue, c);
      DrainClearsFetching(w.(queue := c.queue), api, tasks, now);
      DrainKeepsDone(w.(queue := c.queue), api, tasks, now);
      Drain(w.(queue := c.queue), api, tasks, now)
  }

  /** A successful claim keeps every entry, touches no DONE row and no id. */
  lemma ClaimFacts(q: Queue, c: Claim)
    requires c == PickNext(q) && c.count == 1
    ensures KeepsEntries(q, c.queue)
    ensures forall n :: n in q.rows && q.rows[n].status == Done ==> c.queue.rows[n] == q.rows[n]
    ensures UniqueIds(q) ==> UniqueIds(c.queue)
    ensures forall n :: IsFetching(c.queue, n) ==> n in NumsOf(FindFetchingAll(c.queue))
  {
    var n :| IsBestReady(q, n)
        && c.queue.nextNum == q.nextNum && c.queue.rows.Keys == q.rows.Keys
        && c.queue.rows[n].status == Fetching && SameExceptStatus(q.rows[n], c.queue.rows[n])
        && forall m :: m in q.rows && m != n ==> c.queue.rows[m] == q.rows[m];
    var tasks := FindFetchingAll(c.queue);
    forall m | IsFetching(c.queue, m)
      ensures m in NumsOf(tasks)
    {
      assert c.queue.rows[m] in tasks;
      var i :| 0 <= i < |tasks| && tasks[i] == c.queue.rows[m];
    }
  }
}
