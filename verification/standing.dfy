/** League standings and the LP-history table: the "write only if LP or tier
    changed" rule shared by the batch resolver, the batch LP updater and the
    web profile service. */
module Standing {
  import opened Wrappers

  /** One league entry as the game API returns it. */
  datatype League = League(queueType: string, tier: string, rank: string, leaguePoints: int, wins: int, losses: int)

  /** One row of the LP-history table. */
  datatype LpRecord = LpRecord(puuid: string, tier: string, rank: string, lp: int, createdAt: Option<int>)

  /** `findTopByPuuidOrderByCreatedAtDesc`: the most recent record for the
      puuid. Records are appended in creation order, so it is the last one. */
  function LatestRecord(history: seq<LpRecord>, puuid: string): (r: Option<LpRecord>)
    ensures r.None? <==> forall i :: 0 <= i < |history| ==> history[i].puuid != puuid
    ensures r.Some? ==> r.value in history && r.value.puuid == puuid
    ensures r.Some? ==>
      exists i :: 0 <= i < |history| && history[i] == r.value && forall j :: i < j < |history| ==> history[j].puuid != puuid
  {
    if |history| == 0 then None
    else if history[|history| - 1].puuid == puuid then Some(history[|history| - 1])
    else
      var init := history[..|history| - 1];
      var r := LatestRecord(init, puuid);
      assert forall i :: 0 <= i < |init| ==> history[i] == init[i];
      r
  }

  /** A record is written when there is none yet, or when LP or tier moved. */
  predicate NeedsWrite(last: Option<LpRecord>, league: League) {
    last.None? || last.value.lp != league.leaguePoints || last.value.tier != league.tier
  }

  /** The record that would be written for this league entry. */
  function RecordOf(puuid: string, league: League, createdAt: Option<int>): LpRecord {
    LpRecord(puuid, league.tier, league.rank, league.leaguePoints, createdAt)
  }

  /** Applies the change-detection rule: appends at most one record, and
      exactly one when the rule asks for it. */
  function RecordStanding(history: seq<LpRecord>, puuid: string, league: League, createdAt: Option<int>): (r: seq<LpRecord>)
    ensures NeedsWrite(LatestRecord(history, puuid), league) ==> r == history + [RecordOf(puuid, league, createdAt)]
    ensures !NeedsWrite(LatestRecord(history, puuid), league) ==> r == history
  {
    if NeedsWrite(LatestRecord(history, puuid), league) then history + [RecordOf(puuid, league, createdAt)] else history
  }

  /** The latest record after an append for a puuid is the appended one. */
  lemma LatestAfterAppend(history: seq<LpRecord>, rec: LpRecord, puuid: string)
    ensures LatestRecord(history + [rec], puuid) ==
      (if rec.puuid == puuid then Some(rec) else LatestRecord(history, puuid))
  {
    assert (history + [rec])[..|history|] == history;
  }

  /** After the rule runs, the latest record for the puuid carries the
      league's tier and LP. */
  lemma {:induction false} StandingCurrentAfterRecord(history: seq<LpRecord>, puuid: string, league: League, createdAt: Option<int>)
    ensures var last := LatestRecord(RecordStanding(history, puuid, league, createdAt), puuid);
      last.Some? && last.value.tier == league.tier && last.value.lp == league.leaguePoints
  {
    if NeedsWrite(LatestRecord(history, puuid), league) {
      LatestAfterAppend(history, RecordOf(puuid, league, createdAt), puuid);
    }
  }

  /** Feeding the same league entry twice writes at most one record. */
  lemma {:induction false} RecordStandingIdempotent(history: seq<LpRecord>, puuid: string, league: League, t1: Option<int>, t2: Option<int>)
    ensures var once := RecordStanding(history, puuid, league, t1);
      RecordStanding(once, puuid, league, t2) == once
  {
    StandingCurrentAfterRecord(history, puuid, league, t1);
  }

  /** A change of rank alone (same LP, same tier) writes nothing. */
  lemma RankChangeAloneWritesNothing(history: seq<LpRecord>, puuid: string, league: League, createdAt: Option<int>)
    requires LatestRecord(history, puuid).Some?
    requires LatestRecord(history, puuid).value.lp == league.leaguePoints
    requires LatestRecord(history, puuid).value.tier == league.tier
    ensures RecordStanding(history, puuid, league, createdAt) == history
  {
  }

  /** Records of other puuids are never affected: the latest record of every
      other puuid stays the same. */
  lemma OtherPuuidsUntouched(history: seq<LpRecord>, puuid: string, league: League, createdAt: Option<int>, other: string)
    requires other != puuid
    ensures LatestRecord(RecordStanding(history, puuid, league, createdAt), other) == LatestRecord(history, other)
  {
    if NeedsWrite(LatestRecord(history, puuid), league) {
      LatestAfterAppend(history, RecordOf(puuid, league, createdAt), other);
    }
  }
}
