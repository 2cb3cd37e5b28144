/** Assembly of the ranking page: one entry per top-ranked standing record,
    decorated with the name, tag and tactician icon of the puuid's latest
    participant row (web/.../controller/RankingController.java). */
module Ranking {
  import opened Wrappers
  import opened Standing
  import opened ParticipantQueries

  /** One line of the ranking table. */
  datatype Entry = Entry(rank: nat, summonerName: string, tagLine: string, tier: string, lp: int, iconUrl: string)

  const UnknownName: string := "Unknown"
  const DefaultTag: string := "KR1"
  /** The tactician whose icon stands in when none is known. */
  const DefaultTactician: int := 1

  /** `Collectors.toMap` keyed by puuid with the merge `(p1, p2) -> p1`:
      the first participant listed for a puuid wins. */
  function FirstWins(ps: seq<Participant>): (m: map<string, Participant>)
    ensures forall k :: k in m <==> exists i :: 0 <= i < |ps| && ps[i].puuid == k
    ensures forall k :: k in m ==> m[k].puuid == k && m[k] in ps
  {
    if |ps| == 0 then map[]
    else
      var init := ps[..|ps| - 1];
      var last := ps[|ps| - 1];
      var m := FirstWins(init);
      assert forall i :: 0 <= i < |init| ==> ps[i] == init[i];
      if last.puuid in m then m else m[last.puuid := last]
  }

  /** The participant kept for a puuid is its first occurrence in the list. */
  lemma {:induction false} FirstWinsPicksFirst(ps: seq<Participant>, i: nat)
    requires i < |ps|
    requires forall j :: 0 <= j < i ==> ps[j].puuid != ps[i].puuid
    ensures ps[i].puuid in FirstWins(ps) && FirstWins(ps)[ps[i].puuid] == ps[i]
  {
    var init := ps[..|ps| - 1];
    assert forall j :: 0 <= j < |init| ==> ps[j] == init[j];
    if i < |ps| - 1 {
      FirstWinsPicksFirst(init, i);
    } else {
      assert ps[i].puuid !in FirstWins(init);
    }
  }

  /** The entry the loop builds for one standing record. */
  function EntryFor(h: LpRecord, pMap: map<string, Participant>, icon: int -> string, rank: nat): Entry {
    if h.puuid in pMap then
      var p := pMap[h.puuid];
      Entry(rank, p.name, p.tag, h.tier, h.lp, match p.companionId case Some(c) => icon(c) case None => icon(DefaultTactician))
    else
      Entry(rank, UnknownName, DefaultTag, h.tier, h.lp, icon(DefaultTactician))
  }

  /** The assembly loop of `ranking` over the top standing records and the
      participants looked up for them; `icon` is the static-data lookup of
      a tactician's image. */
  method RankingList(histories: seq<LpRecord>, participants: seq<Participant>, icon: int -> string) returns (list: seq<Entry>)
    ensures |list| == |histories|
    ensures forall i :: 0 <= i < |list| ==>
      list[i].rank == i + 1 && list[i].tier == histories[i].tier && list[i].lp == histories[i].lp
    ensures forall i :: 0 <= i < |list| && (forall j :: 0 <= j < |participants| ==> participants[j].puuid != histories[i].puuid) ==>
      list[i].summonerName == UnknownName && list[i].tagLine == DefaultTag && list[i].iconUrl == icon(DefaultTactician)
    ensures forall i, j :: (0 <= i < |list| && 0 <= j < |participants| && participants[j].puuid == histories[i].puuid
        && (forall k :: 0 <= k < j ==> participants[k].puuid != histories[i].puuid)) ==>
      list[i].summonerName == participants[j].name && list[i].tagLine == participants[j].tag
      && list[i].iconUrl == (if participants[j].companionId.Some? then icon(participants[j].companionId.value) else icon(DefaultTactician))
  {
    if |histories| == 0 {
      return [];
    }
    var pMap := FirstWins(participants);
    forall i, j | 0 <= i < |histories| && 0 <= j < |participants| && participants[j].puuid == histories[i].puuid
        && (forall k :: 0 <= k < j ==> participants[k].puuid != histories[i].puuid)
      ensures histories[i].puuid in pMap && pMap[histories[i].puuid] == participants[j]
    {
      FirstWinsPicksFirst(participants, j);
    }
    list := [];
    var rank := 1;
    for n := 0 to |histories|
      invariant |list| == n && rank == n + 1
      invariant forall i :: 0 <= i < n ==> list[i] == EntryFor(histories[i], pMap, icon, i + 1)
    {
      list := list + [EntryFor(histories[n], pMap, icon, rank)];
      rank := rank + 1;
    }
  }

  /** The whole page: the participants are the latest row per listed puuid,
      so every ranked puuid with any participant row shows the name, tag and
      icon of the row with the largest game number. */
  method RankingPage(histories: seq<LpRecord>, rows: seq<Participant>, icon: int -> string) returns (list: seq<Entry>)
    ensures |list| == |histories|
    ensures forall i :: 0 <= i < |list| ==> list[i].rank == i + 1 && list[i].tier == histories[i].tier && list[i].lp == histories[i].lp
    ensures forall i :: 0 <= i < |list| && LatestFor(rows, histories[i].puuid).None? ==>
      list[i].summonerName == UnknownName && list[i].tagLine == DefaultTag && list[i].iconUrl == icon(DefaultTactician)
    ensures forall i :: 0 <= i < |list| && LatestFor(rows, histories[i].puuid).Some? ==>
      list[i].summonerName == LatestFor(rows, histories[i].puuid).value.name
      && list[i].tagLine == LatestFor(rows, histories[i].puuid).value.tag
      && list[i].iconUrl == (match LatestFor(rows, histories[i].puuid).value.companionId
                             case Some(c) => icon(c) case None => icon(DefaultTactician))
  {
    var puuids := seq(|histories|, i requires 0 <= i < |histories| => histories[i].puuid);
    var participants := LatestParticipantsByPuuids(rows, puuids);
    list := RankingList(histories, participants, icon);
    forall i | 0 <= i < |list| && LatestFor(rows, histories[i].puuid).Some?
      ensures list[i].summonerName == LatestFor(rows, histories[i].puuid).value.name
      ensures list[i].tagLine == LatestFor(rows, histories[i].puuid).value.tag
      ensures list[i].iconUrl == (match LatestFor(rows, histories[i].puuid).value.companionId
                                  case Some(c) => icon(c) case None => icon(DefaultTactician))
    {
      var p := histories[i].puuid;
      assert p == puuids[i];
      var j :| 0 <= j < |participants| && participants[j].puuid == p;
      assert forall k :: 0 <= k < j ==> participants[k].puuid != p;
    }
    forall i | 0 <= i < |list| && LatestFor(rows, histories[i].puuid).None?
      ensures forall j :: 0 <= j < |participants| ==> participants[j].puuid != histories[i].puuid
    {
      assert histories[i].puuid == puuids[i];
    }
  }
}
