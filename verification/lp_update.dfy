/** The periodic LP tracker: for each recently active puuid, fetch the
    league entry and record it when LP or tier moved
    (batch/.../service/LpUpdateService.java). */
module LpUpdate {
  import opened Wrappers
  import opened Standing

  /** `processPuuid`: None when the league call throws, otherwise the
      history after the change-detection rule. */
  function ProcessPuuid(history: seq<LpRecord>, puuid: string, resp: ApiResult<Option<League>>, now: int): (r: Option<seq<LpRecord>>)
    ensures r.None? <==> !resp.Ok?
    ensures resp == Ok(None) ==> r == Some(history)
    ensures resp.Ok? && resp.value.Some? ==>
      var league := resp.value.value;
      var last := LatestRecord(history, puuid);
      && (last.None? ==> r == Some(history + [RecordOf(puuid, league, Some(now))]))
      && (last.Some? ==>
            r == Some(if last.value.lp != league.leaguePoints || last.value.tier != league.tier
                      then history + [RecordOf(puuid, league, Some(now))] else history))
  {
    match resp
    case Ok(None) => Some(history)
    case Ok(Some(league)) => Some(RecordStanding(history, puuid, league, Some(now)))
    case _ => None
  }

  /** Processing the same league answer twice appends at most one record. */
  lemma ProcessPuuidTwice(history: seq<LpRecord>, puuid: string, resp: ApiResult<Option<League>>, t1: int, t2: int)
    requires resp.Ok?
    ensures var once := ProcessPuuid(history, puuid, resp, t1).value;
      var twice := ProcessPuuid(once, puuid, resp, t2).value;
      twice == once && |once| <= |history| + 1
  {
    if resp.value.Some? {
      RecordStandingIdempotent(history, puuid, resp.value.value, Some(t1), Some(t2));
    }
  }

  /** `updateActiveSummonersLp`: every puuid is processed in turn; one that
      throws is skipped and the loop goes on with the rest. */
  function UpdateActiveSummonersLp(history: seq<LpRecord>, puuids: seq<string>, league: string -> ApiResult<Option<League>>, now: int): (r: seq<LpRecord>)
    ensures |history| <= |r| && r[..|history|] == history
    ensures forall i :: |history| <= i < |r| ==> r[i].puuid in puuids
    decreases |puuids|
  {
    if |puuids| == 0 then history
    else
      var next := ProcessPuuid(history, puuids[0], league(puuids[0]), now).GetOr(history);
      var r := UpdateActiveSummonersLp(next, puuids[1..], league, now);
      assert forall i :: |history| <= i < |next| ==> next[i].puuid == puuids[0];
      assert r[..|history|] == r[..|next|][..|history|];
      r
  }

  /** After the loop, every listed puuid whose league call answered with an
      entry has that entry's tier and LP as its latest record, whatever the
      calls for the other puuids did. */
  lemma {:induction false} UpdateReachesEveryPuuid(history: seq<LpRecord>, puuids: seq<string>, league: string -> ApiResult<Option<League>>, now: int, p: string)
    requires p in puuids && league(p).Ok? && league(p).value.Some?
    ensures var last := LatestRecord(UpdateActiveSummonersLp(history, puuids, league, now), p);
      last.Some? && last.value.tier == league(p).value.value.tier
      && last.value.lp == league(p).value.value.leaguePoints
    decreases |puuids|
  {
    var next := ProcessPuuid(history, puuids[0], league(puuids[0]), now).GetOr(history);
    if p in puuids[1..] {
      UpdateReachesEveryPuuid(next, puuids[1..], league, now, p);
    } else {
      assert p == puuids[0];
      StandingCurrentAfterRecord(history, p, league(p).value.value, Some(now));
      UpdateLeavesOthers(next, puuids[1..], league, now, p);
    }
  }

  /** The loop never changes the latest record of a puuid it does not visit. */
  lemma {:induction false} UpdateLeavesOthers(history: seq<LpRecord>, puuids: seq<string>, league: string -> ApiResult<Option<League>>, now: int, p: string)
    requires p !in puuids
    ensures LatestRecord(UpdateActiveSummonersLp(history, puuids, league, now), p) == LatestRecord(history, p)
    decreases |puuids|
  {
    if |puuids| > 0 {
      var resp := league(puuids[0]);
      var next := ProcessPuuid(history, puuids[0], resp, now).GetOr(history);
      if resp.Ok? && resp.value.Some? {
        OtherPuuidsUntouched(history, puuids[0], resp.value.value, Some(now), p);
      }
      UpdateLeavesOthers(next, puuids[1..], league, now, p);
    }
  }

  /** When every league call throws or answers null, the loop writes nothing. */
  lemma {:induction false} AllFailuresWriteNothing(history: seq<LpRecord>, puuids: seq<string>, league: string -> ApiResult<Option<League>>, now: int)
    requires forall i :: 0 <= i < |puuids| ==> !(league(puuids[i]).Ok? && league(puuids[i]).value.Some?)
    ensures UpdateActiveSummonersLp(history, puuids, league, now) == history
    decreases |puuids|
  {
    if |puuids| > 0 {
      assert forall i :: 0 <= i < |puuids[1..]| ==> puuids[1..][i] == puuids[i + 1];
      AllFailuresWriteNothing(history, puuids[1..], league, now);
    }
  }
}
