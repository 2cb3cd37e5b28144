/** The aggregate and window queries of the web participant repository,
    as specification functions over the participant table in row order
    (web/.../repository/ParticipantRepository.java). */
module ParticipantQueries {
  import opened Wrappers
  import opened Sorting

  /** One participant row joined with the game it belongs to. */
  datatype Participant = Participant(
    puuid: string,
    gaNum: int,          // pa_ga_num, the game row's number
    queueId: int,        // the game's queue id
    datetime: int,       // the game's start time
    placement: int,
    name: string,
    tag: string,
    companionId: Option<int>)

  /** `(:queueId = 0 OR g.queueId = :queueId)`: 0 selects every queue. */
  predicate InQueue(p: Participant, queueId: int) {
    queueId == 0 || p.queueId == queueId
  }

  predicate Selected(p: Participant, puuid: string, queueId: int) {
    p.puuid == puuid && InQueue(p, queueId)
  }

  /** The rows the WHERE clause keeps, in table order. */
  function Matching(rows: seq<Participant>, puuid: string, queueId: int): (r: seq<Participant>)
    ensures forall x :: multiset(r)[x] == if Selected(x, puuid, queueId) then multiset(rows)[x] else 0
    ensures forall i :: 0 <= i < |r| ==> Selected(r[i], puuid, queueId)
    ensures |r| <= |rows|
  {
    if |rows| == 0 then []
    else
      var rest := Matching(rows[1..], puuid, queueId);
      assert rows == [rows[0]] + rows[1..];
      if Selected(rows[0], puuid, queueId) then [rows[0]] + rest else rest
  }

  // ---------------------------------------------------------------- getSummonerStats

  /** The integer columns of `getSummonerStats`; the average is left out. */
  datatype Stats = Stats(totalCount: nat, winCount: nat, top4Count: nat)

  function Count(rows: seq<Participant>, keep: Participant -> bool): (n: nat)
    ensures n <= |rows|
  {
    if |rows| == 0 then 0 else (if keep(rows[0]) then 1 else 0) + Count(rows[1..], keep)
  }

  /** `COUNT(p)`, `SUM(placement = 1)` and `SUM(placement <= 4)` over the
      selected rows. */
  function SummonerStats(rows: seq<Participant>, puuid: string, queueId: int): (s: Stats)
    ensures s.winCount <= s.top4Count <= s.totalCount
    ensures s.totalCount == |Matching(rows, puuid, queueId)|
  {
    if |rows| == 0 then Stats(0, 0, 0)
    else
      var rest := SummonerStats(rows[1..], puuid, queueId);
      var p := rows[0];
      if Selected(p, puuid, queueId) then
        Stats(rest.totalCount + 1,
              rest.winCount + (if p.placement == 1 then 1 else 0),
              rest.top4Count + (if p.placement <= 4 then 1 else 0))
      else rest
  }

  /** The counts agree with counting the selected rows one by one. */
  lemma {:induction false} StatsCountSelectedRows(rows: seq<Participant>, puuid: string, queueId: int)
    ensures var s := SummonerStats(rows, puuid, queueId);
      s.totalCount == Count(rows, (p: Participant) => Selected(p, puuid, queueId))
      && s.winCount == Count(rows, (p: Participant) => Selected(p, puuid, queueId) && p.placement == 1)
      && s.top4Count == Count(rows, (p: Participant) => Selected(p, puuid, queueId) && p.placement <= 4)
  {
    if |rows| > 0 {
      StatsCountSelectedRows(rows[1..], puuid, queueId);
    }
  }

  /** Picking one queue never counts more than picking all of them (queue id 0). */
  lemma {:induction false} OneQueueCountsNoMore(rows: seq<Participant>, puuid: string, queueId: int)
    ensures var one := SummonerStats(rows, puuid, queueId);
      var all := SummonerStats(rows, puuid, 0);
      one.totalCount <= all.totalCount && one.winCount <= all.winCount && one.top4Count <= all.top4Count
  {
    if |rows| > 0 {
      OneQueueCountsNoMore(rows[1..], puuid, queueId);
    }
  }

  // ---------------------------------------------------------------- findRecentMatchesByPuuid

  /** `ORDER BY gaDatetime DESC`. */
  function NewerFirst(a: Participant, b: Participant): bool {
    a.datetime >= b.datetime
  }

  lemma NewerFirstIsTotalPreorder()
    ensures TotalPreorder(NewerFirst)
  {
  }

  /** A prefix of a newest-first sequence holds its newest elements. */
  lemma NewestPrefix(sorted: seq<Participant>, k: nat)
    requires k <= |sorted| && SortedBy(NewerFirst, sorted)
    ensures multiset(sorted[..k]) <= multiset(sorted)
    ensures forall x, i :: x in multiset(sorted) - multiset(sorted[..k]) && 0 <= i < k ==> x.datetime <= sorted[i].datetime
  {
    assert sorted == sorted[..k] + sorted[k..];
    assert multiset(sorted) == multiset(sorted[..k]) + multiset(sorted[k..]);
    forall x, i | x in multiset(sorted) - multiset(sorted[..k]) && 0 <= i < k
      ensures x.datetime <= sorted[i].datetime
    {
      assert x in sorted[k..];
      var j :| 0 <= j < |sorted[k..]| && sorted[k..][j] == x;
      assert sorted[k + j] == x;
    }
  }

  /** The first `k` of the selected rows sorted newest first. */
  lemma NewestPage(all: seq<Participant>, puuid: string, queueId: int, k: nat)
    requires k <= |all|
    requires forall i :: 0 <= i < |all| ==> Selected(all[i], puuid, queueId)
    ensures TotalPreorder(NewerFirst)
    ensures var page := SortBy(NewerFirst, all)[..k];
      && (forall i :: 0 <= i < |page| ==> Selected(page[i], puuid, queueId))
      && (forall i, j :: 0 <= i < j < |page| ==> page[i].datetime >= page[j].datetime)
      && multiset(page) <= multiset(all)
      && (forall x, i :: x in multiset(all) - multiset(page) && 0 <= i < |page| ==> x.datetime <= page[i].datetime)
  {
    NewerFirstIsTotalPreorder();
    var sorted := SortBy(NewerFirst, all);
    NewestPrefix(sorted, k);
    forall i | 0 <= i < k
      ensures Selected(sorted[i], puuid, queueId)
    {
      assert sorted[i] in multiset(all);
    }
  }

  /** `findRecentMatchesByPuuid` with page 0 of the given size: the
      selected rows, newest game first, cut to the page size. */
  function RecentMatches(rows: seq<Participant>, puuid: string, queueId: int, size: nat): (r: seq<Participant>)
    ensures |r| == if |Matching(rows, puuid, queueId)| < size then |Matching(rows, puuid, queueId)| else size
    ensures forall i :: 0 <= i < |r| ==> Selected(r[i], puuid, queueId)
    ensures forall i, j :: 0 <= i < j < |r| ==> r[i].datetime >= r[j].datetime
    ensures multiset(r) <= multiset(Matching(rows, puuid, queueId))
    ensures forall x, i :: x in multiset(Matching(rows, puuid, queueId)) - multiset(r) && 0 <= i < |r| ==>
      x.datetime <= r[i].datetime
  {
    var all := Matching(rows, puuid, queueId);
    var k := if |all| < size then |all| else size;
    NewestPage(all, puuid, queueId, k);
    SortBy(NewerFirst, all)[..k]
  }

  // ---------------------------------------------------------------- findLatestParticipantsByPuuids

  /** The row numbered 1 in the puuid's window `ORDER BY pa_ga_num DESC`;
      among rows with an equal game number the first in table order. */
  function LatestFor(rows: seq<Participant>, puuid: string): (r: Option<Participant>)
    ensures r.None? <==> forall i :: 0 <= i < |rows| ==> rows[i].puuid != puuid
    ensures r.Some? ==> r.value in rows && r.value.puuid == puuid
    ensures r.Some? ==> forall i :: 0 <= i < |rows| && rows[i].puuid == puuid ==> rows[i].gaNum <= r.value.gaNum
  {
    if |rows| == 0 then None
    else
      var rest := LatestFor(rows[1..], puuid);
      assert forall i :: 1 <= i < |rows| ==> rows[i] == rows[1..][i - 1];
      if rows[0].puuid != puuid then rest
      else match rest
        case None => Some(rows[0])
        case Some(b) => if b.gaNum > rows[0].gaNum then rest else Some(rows[0])
  }

  /** `findLatestParticipantsByPuuids`: one row per distinct listed puuid
      that has any row, in order of the puuid's first listing. */
  function LatestParticipantsByPuuids(rows: seq<Participant>, puuids: seq<string>): (r: seq<Participant>)
    ensures forall i :: 0 <= i < |r| ==> r[i] in rows && r[i].puuid in puuids
    ensures forall i, j :: 0 <= i < j < |r| ==> r[i].puuid != r[j].puuid
    ensures forall i :: 0 <= i < |r| ==> LatestFor(rows, r[i].puuid) == Some(r[i])
    ensures forall p :: p in puuids ==> ((exists i :: 0 <= i < |r| && r[i].puuid == p) <==> LatestFor(rows, p).Some?)
  {
    if |puuids| == 0 then []
    else
      var init := puuids[..|puuids| - 1];
      var p := puuids[|puuids| - 1];
      var prefix := LatestParticipantsByPuuids(rows, init);
      if p in init then prefix
      else
        match LatestFor(rows, p)
        case None => prefix
        case Some(x) =>
          var r := prefix + [x];
          assert forall q :: q in puuids ==> q in init || q == p;
          assert forall q :: q in init ==> ((exists i :: 0 <= i < |prefix| && prefix[i].puuid == q) <==> LatestFor(rows, q).Some?);
          assert forall i :: 0 <= i < |prefix| ==> r[i] == prefix[i];
          assert r[|prefix|].puuid == p;
          r
  }

  /** Rows of puuids that are not asked for do not change the answer,
      wherever they sit in the table. */
  lemma {:induction false} LatestIgnoresUnlistedRows(pre: seq<Participant>, extra: seq<Participant>, post: seq<Participant>, puuids: seq<string>)
    requires forall i :: 0 <= i < |extra| ==> extra[i].puuid !in puuids
    ensures LatestParticipantsByPuuids(pre + extra + post, puuids) == LatestParticipantsByPuuids(pre + post, puuids)
  {
    if |puuids| > 0 {
      var init := puuids[..|puuids| - 1];
      var p := puuids[|puuids| - 1];
      LatestIgnoresUnlistedRows(pre, extra, post, init);
      LatestForIgnoresOthers(pre, extra, post, p);
    }
  }

  /** The latest row of a puuid does not depend on rows of other puuids. */
  lemma {:induction false} LatestForIgnoresOthers(pre: seq<Participant>, extra: seq<Participant>, post: seq<Participant>, puuid: string)
    requires forall i :: 0 <= i < |extra| ==> extra[i].puuid != puuid
    ensures LatestFor(pre + extra + post, puuid) == LatestFor(pre + post, puuid)
    decreases |pre| + |extra|
  {
    if |pre| > 0 {
      assert (pre + extra + post)[1..] == pre[1..] + extra + post;
      assert (pre + post)[1..] == pre[1..] + post;
      LatestForIgnoresOthers(pre[1..], extra, post, puuid);
    } else if |extra| > 0 {
      assert (pre + extra + post)[1..] == pre + extra[1..] + post;
      LatestForIgnoresOthers(pre, extra[1..], post, puuid);
    } else {
      assert pre + extra + post == pre + post;
    }
  }
}
