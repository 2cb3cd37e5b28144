/** The integer rules of the web profile service: the graph score of a tier,
    the placement histogram and integer badges, the fetch-queue reopening
    done on every profile view, and the choice of league entry
    (web/.../service/SummonerServiceImp.java). */
module SummonerService {
  import opened Wrappers
  import opened FetchQueue
  import opened QueueStore
  import opened Standing

  // ---------------------------------------------------------------- graph score

  /** The tiers below MASTER in ladder order; each is worth 400 more than the previous. */
  const LadderTiers: seq<string> := ["IRON", "BRONZE", "SILVER", "GOLD", "PLATINUM", "EMERALD", "DIAMOND"]
  /** The tiers without divisions; they all share one base. */
  const ApexTiers: seq<string> := ["MASTER", "GRANDMASTER", "CHALLENGER"]
  /** Divisions from lowest to highest; each is worth 100 more than the previous. */
  const Divisions: seq<string> := ["IV", "III", "II", "I"]
  const ApexBase: int := 2800

  /** The tier switch; an unknown tier scores like IRON. */
  function TierBase(tier: string): int {
    if tier == "IRON" then 0
    else if tier == "BRONZE" then 400
    else if tier == "SILVER" then 800
    else if tier == "GOLD" then 1200
    else if tier == "PLATINUM" then 1600
    else if tier == "EMERALD" then 2000
    else if tier == "DIAMOND" then 2400
    else if tier == "MASTER" || tier == "GRANDMASTER" || tier == "CHALLENGER" then ApexBase
    else 0
  }

  /** The division switch; a null or unknown rank scores 0. */
  function RankScore(rank: Option<string>): int {
    match rank
    case None => 0
    case Some(r) =>
      if r == "IV" then 0
      else if r == "III" then 100
      else if r == "II" then 200
      else if r == "I" then 300
      else 0
  }

  /** `convertTierToTotalLp`: the single number the LP graph plots. */
  function ConvertTierToTotalLp(tier: Option<string>, rank: Option<string>, lp: int): (score: int)
    ensures tier.None? ==> score == 0
  {
    match tier
    case None => 0
    case Some(t) =>
      var base := TierBase(t);
      if base >= ApexBase then base + lp else base + RankScore(rank) + lp
  }

  /** MASTER, GRANDMASTER and CHALLENGER score 2800 + LP whatever the rank. */
  lemma ApexScore(i: nat, rank: Option<string>, lp: int)
    requires i < |ApexTiers|
    ensures ConvertTierToTotalLp(Some(ApexTiers[i]), rank, lp) == ApexBase + lp
  {
  }

  /** Below MASTER the score is 400 per tier step, 100 per division step, plus LP. */
  lemma LadderScore(i: nat, d: nat, lp: int)
    requires i < |LadderTiers| && d < |Divisions|
    ensures ConvertTierToTotalLp(Some(LadderTiers[i]), Some(Divisions[d]), lp) == 400 * i + 100 * d + lp
  {
  }

  /** With LP within a division (0..99), a higher score means exactly a
      higher tier, or the same tier and a higher division, or the same
      division and more LP. */
  lemma ScoreFollowsLadder(i1: nat, d1: nat, lp1: int, i2: nat, d2: nat, lp2: int)
    requires i1 < |LadderTiers| && d1 < |Divisions| && 0 <= lp1 < 100
    requires i2 < |LadderTiers| && d2 < |Divisions| && 0 <= lp2 < 100
    ensures ConvertTierToTotalLp(Some(LadderTiers[i1]), Some(Divisions[d1]), lp1)
          < ConvertTierToTotalLp(Some(LadderTiers[i2]), Some(Divisions[d2]), lp2)
        <==> i1 < i2 || (i1 == i2 && d1 < d2) || (i1 == i2 && d1 == d2 && lp1 < lp2)
  {
    LadderScore(i1, d1, lp1);
    LadderScore(i2, d2, lp2);
  }

  /** Any apex score with non-negative LP is above every score below MASTER
      whose LP is within a division. */
  lemma ApexAboveLadder(a: nat, rankA: Option<string>, lpA: int, i: nat, d: nat, lp: int)
    requires a < |ApexTiers| && 0 <= lpA
    requires i < |LadderTiers| && d < |Divisions| && 0 <= lp < 100
    ensures ConvertTierToTotalLp(Some(LadderTiers[i]), Some(Divisions[d]), lp)
          < ConvertTierToTotalLp(Some(ApexTiers[a]), rankA, lpA)
  {
    LadderScore(i, d, lp);
    ApexScore(a, rankA, lpA);
  }

  /** A tier outside the switch has base 0: it scores like IRON, with
      whatever rank, null included. */
  lemma UnknownTierScoresAsIron(tier: string, rank: Option<string>, lp: int)
    requires tier !in LadderTiers && tier !in ApexTiers
    ensures ConvertTierToTotalLp(Some(tier), rank, lp) == ConvertTierToTotalLp(Some("IRON"), rank, lp)
    ensures forall d :: 0 <= d < |Divisions| ==> ConvertTierToTotalLp(Some(tier), Some(Divisions[d]), lp) == 100 * d + lp
  {
    assert forall i :: 0 <= i < |LadderTiers| ==> LadderTiers[i] != tier;
    assert forall i :: 0 <= i < |ApexTiers| ==> ApexTiers[i] != tier;
    forall d | 0 <= d < |Divisions|
      ensures ConvertTierToTotalLp(Some(tier), Some(Divisions[d]), lp) == 100 * d + lp
    {
      LadderScore(0, d, lp);
    }
  }

  /** A null rank, or one outside IV..I, adds nothing: below MASTER the
      score is the tier's base plus LP. */
  lemma UnknownRankScoresAsFour(i: nat, rank: Option<string>, lp: int)
    requires i < |LadderTiers|
    requires rank.None? || rank.value !in Divisions
    ensures ConvertTierToTotalLp(Some(LadderTiers[i]), rank, lp) == 400 * i + lp
    ensures ConvertTierToTotalLp(Some(LadderTiers[i]), rank, lp) == ConvertTierToTotalLp(Some(LadderTiers[i]), Some("IV"), lp)
  {
    if rank.Some? {
      assert forall d :: 0 <= d < |Divisions| ==> Divisions[d] != rank.value;
    }
    LadderScore(i, 0, lp);
  }

  // ---------------------------------------------------------------- achievements

  /** The two badges decided by integers alone. */
  datatype Badge = OnStreak | FirstPlaceCollector

  /** The integer part of `calculateAchievements` over the recent placements,
      newest first: the placement histogram and the streak and collector badges. */
  method IntegerAchievements(placements: seq<int>) returns (counts: seq<nat>, badges: seq<Badge>)
    ensures |counts| == 8
    ensures forall i :: 0 <= i < 8 ==> counts[i] == multiset(placements)[i + 1]
    ensures OnStreak in badges <==> |placements| >= 3 && forall i :: 0 <= i < 3 ==> placements[i] <= 4
    ensures FirstPlaceCollector in badges <==> multiset(placements)[1] >= 4
    ensures FirstPlaceCollector in badges <==> counts[0] >= 4
  {
    counts := [0, 0, 0, 0, 0, 0, 0, 0];
    var recentWins := 0;
    var k := 0;
    while k < |placements|
      invariant 0 <= k <= |placements|
      invariant |counts| == 8
      invariant forall i :: 0 <= i < 8 ==> counts[i] == multiset(placements[..k])[i + 1]
      invariant recentWins == multiset(placements[..k])[1]
    {
      var place := placements[k];
      if 1 <= place <= 8 {
        counts := counts[place - 1 := counts[place - 1] + 1];
      }
      if place == 1 {
        recentWins := recentWins + 1;
      }
      assert placements[..k + 1] == placements[..k] + [place];
      k := k + 1;
    }
    assert placements[..k] == placements;

    badges := [];
    if |placements| >= 3 {
      var isWinningStreak := true;
      var i := 0;
      while i < 3
        invariant 0 <= i <= 3
        invariant forall j :: 0 <= j < i ==> placements[j] <= 4
        invariant isWinningStreak
      {
        if placements[i] > 4 {
          isWinningStreak := false;
          break;
        }
        i := i + 1;
      }
      if isWinningStreak {
        badges := badges + [OnStreak];
      }
    }
    if recentWins >= 4 {
      badges := badges + [FirstPlaceCollector];
    }
  }

  // ---------------------------------------------------------------- fetch queue reopening

  /** The priority a profile view gives its summoner's row. */
  const ViewPriority: int := 999

  /** `findByMfqIdAndMfqType(puuid, "SUMMONER")` matches on id and type. */
  function SummonerRowOf(puuid: string): Row -> bool {
    (row: Row) => row.id == puuid && row.kind == Summoner
  }

  /** `updateFetchQueue`: the viewed puuid's SUMMONER row is set READY at
      priority 999 unless it is FETCHING (DONE rows are reopened too); with
      no such row one is inserted. None when two SUMMONER rows carry the
      puuid and the lookup throws. */
  function UpdateFetchQueue(q: Queue, puuid: string): (r: Option<Queue>)
    ensures r.None? <==>
      exists n, m :: n in q.rows && m in q.rows && n != m && SummonerRowOf(puuid)(q.rows[n]) && SummonerRowOf(puuid)(q.rows[m])
    ensures (forall n :: n in q.rows ==> !SummonerRowOf(puuid)(q.rows[n])) ==>
      r.Some? && r.value.nextNum == q.nextNum + 1
      && r.value.rows == q.rows[q.nextNum := Row(q.nextNum, puuid, Summoner, Ready, ViewPriority, None)]
    ensures forall n :: n in q.rows && SummonerRowOf(puuid)(q.rows[n]) && r.Some? ==>
      r.value.nextNum == q.nextNum && r.value.rows.Keys == q.rows.Keys
      && (forall m :: m in q.rows && m != n ==> r.value.rows[m] == q.rows[m])
      && (q.rows[n].status == Fetching ==> r.value.rows[n] == q.rows[n])
      && (q.rows[n].status != Fetching ==> r.value.rows[n] == q.rows[n].(status := Ready, priority := ViewPriority))
  {
    match FindWhere(q, SummonerRowOf(puuid))
    case Absent => Some(Insert(q, puuid, Summoner, Ready, ViewPriority, None))
    case Unique(row) =>
      if row.status != Fetching then Some(Update(q, row.(status := Ready, priority := ViewPriority))) else Some(q)
    case Ambiguous => None
  }

  /** Viewing a profile twice leaves the queue as viewing it once. */
  lemma UpdateFetchQueueIdempotent(q: Queue, puuid: string)
    ensures var once := UpdateFetchQueue(q, puuid);
      once.Some? ==> UpdateFetchQueue(once.value, puuid) == once
  {
    var once := UpdateFetchQueue(q, puuid);
    if once.Some? {
      var q1 := once.value;
      var p := SummonerRowOf(puuid);
      match FindWhere(q, p)
      case Absent =>
        var n := q.nextNum;
        assert p(q1.rows[n]);
        assert forall m :: m in q1.rows && p(q1.rows[m]) ==> m == n;
        assert FindWhere(q1, p) == Unique(q1.rows[n]);
        assert q1.rows[n := q1.rows[n]] == q1.rows;
      case Unique(row) =>
        var n := row.num;
        assert p(q1.rows[n]);
        assert forall m :: m in q1.rows && p(q1.rows[m]) ==> m == n;
        assert FindWhere(q1, p) == Unique(q1.rows[n]);
        assert q1.rows[n := q1.rows[n]] == q1.rows;
    }
  }

  // ---------------------------------------------------------------- league choice

  const RankedTft: string := "RANKED_TFT"

  /** The position of the first RANKED_TFT entry, if any. */
  function FirstRanked(entries: seq<League>): (r: Option<nat>)
    ensures r.Some? ==> r.value < |entries| && entries[r.value].queueType == RankedTft
    ensures r.Some? ==> forall j :: 0 <= j < r.value ==> entries[j].queueType != RankedTft
    ensures r.None? <==> forall j :: 0 <= j < |entries| ==> entries[j].queueType != RankedTft
  {
    if |entries| == 0 then None
    else if entries[0].queueType == RankedTft then Some(0)
    else
      match FirstRanked(entries[1..])
      case None => None
      case Some(k) => Some(k + 1)
  }

  /** The entry selection of `getTftLeagueByPuuid`: the first RANKED_TFT
      entry, else the first entry; nothing for a null or empty list. */
  function SelectLeague(results: Option<seq<League>>): (r: Option<League>)
    ensures r.None? <==> results.None? || |results.value| == 0
    ensures r.Some? ==> r.value in results.value
    ensures r.Some? && FirstRanked(results.value).Some? ==>
      r.value == results.value[FirstRanked(results.value).value] && r.value.queueType == RankedTft
    ensures r.Some? && FirstRanked(results.value).None? ==> r.value == results.value[0]
  {
    match results
    case None => None
    case Some(entries) =>
      if |entries| == 0 then None
      else
        match FirstRanked(entries)
        case Some(k) => Some(entries[k])
        case None => Some(entries[0])
  }

  /** `getTftLeagueByPuuid`: None when an exception other than the rate
      limit escapes; a rate limit is caught and reads as "no league". */
  function GetTftLeagueByPuuid(resp: ApiResult<Option<seq<League>>>): (r: Option<Option<League>>)
    ensures resp.RateLimited? ==> r == Some(None)
    ensures resp.Failed? ==> r.None?
    ensures resp.Ok? ==> r == Some(SelectLeague(resp.value))
  {
    match resp
    case Ok(results) => Some(SelectLeague(results))
    case RateLimited(_) => Some(None)
    case Failed => None
  }
}
