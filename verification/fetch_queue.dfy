/** One row of the match_fetch_queue table and its status transitions
    (batch/.../model/entity/MatchFetchQueue.java). */
module FetchQueue {
  import opened Wrappers

  /** The `mfq_type` column. The source stores it as a string and dispatches
      on string equality, so any other tag is kept as `OtherType`. */
  datatype FetchType = Summoner | Match | SummonerId | OtherType(tag: string)

  /** The `mfq_status` column. */
  datatype Status = Ready | Fetching | Done | Fail

  /** A queue row: `num` is the auto-increment key `mfq_num`, `id` is
      `mfq_id` (a summoner id, a puuid or a match id, depending on `kind`),
      and `updatedAt` is `mfq_updated_at`, which may be NULL. */
  datatype Row = Row(num: nat, id: string, kind: FetchType, status: Status, priority: int, updatedAt: Option<int>)

  const SummonerTag: string := "SUMMONER"
  const MatchTag: string := "MATCH"
  const SummonerIdTag: string := "SUMMONER_ID"

  /** Reads the type column the way the dispatcher compares it. */
  function ParseType(tag: string): (t: FetchType)
    ensures t == Summoner <==> tag == SummonerTag
    ensures t == Match <==> tag == MatchTag
    ensures t == SummonerId <==> tag == SummonerIdTag
    ensures t.OtherType? ==> t.tag == tag
  {
    if tag == SummonerTag then Summoner
    else if tag == MatchTag then Match
    else if tag == SummonerIdTag then SummonerId
    else OtherType(tag)
  }

  /** The string written to the type column for a tag. */
  function TypeTag(t: FetchType): string {
    match t
    case Summoner => SummonerTag
    case Match => MatchTag
    case SummonerId => SummonerIdTag
    case OtherType(s) => s
  }

  /** Reading a stored tag and writing it back gives the same column value. */
  lemma TagRoundTrip(tag: string)
    ensures TypeTag(ParseType(tag)) == tag
  {
  }

  /** Two rows agree on everything except status. */
  predicate SameExceptStatus(a: Row, b: Row) {
    a.num == b.num && a.id == b.id && a.kind == b.kind && a.priority == b.priority && a.updatedAt == b.updatedAt
  }

  /** Two rows are the same queue entry: same key, id, type and priority. */
  predicate SameEntry(a: Row, b: Row) {
    a.num == b.num && a.id == b.id && a.kind == b.kind && a.priority == b.priority
  }

  function MarkProcessing(q: Row): (r: Row)
    ensures r.status == Fetching && SameExceptStatus(q, r)
  {
    q.(status := Fetching)
  }

  function MarkDone(q: Row): (r: Row)
    ensures r.status == Done && SameExceptStatus(q, r)
  {
    q.(status := Done)
  }

  function MarkFail(q: Row): (r: Row)
    ensures r.status == Fail && SameExceptStatus(q, r)
  {
    q.(status := Fail)
  }

  function MarkReady(q: Row): (r: Row)
    ensures r.status == Ready && SameExceptStatus(q, r)
  {
    q.(status := Ready)
  }

  /** The transition the status updater applies for a status name; the
      updater knows no transition into FETCHING, so that status leaves the
      row as it is. */
  function Mark(q: Row, s: Status): (r: Row)
    ensures s != Fetching ==> r.status == s
    ensures SameExceptStatus(q, r)
  {
    match s
    case Done => MarkDone(q)
    case Fail => MarkFail(q)
    case Ready => MarkReady(q)
    case Fetching => q
  }

  /** Every transition is idempotent. */
  lemma MarkIdempotent(q: Row)
    ensures MarkProcessing(MarkProcessing(q)) == MarkProcessing(q)
    ensures MarkDone(MarkDone(q)) == MarkDone(q)
    ensures MarkFail(MarkFail(q)) == MarkFail(q)
    ensures MarkReady(MarkReady(q)) == MarkReady(q)
  {
  }
}
