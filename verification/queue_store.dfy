/** The match_fetch_queue table and the repository queries over it
    (batch/.../repository/MatchFetchQueueRepository.java). */
module QueueStore {
  import opened Wrappers
  import opened FetchQueue
  import Sorting

  /** The table: rows keyed by `mfq_num`, and the number the next insert gets. */
  datatype Table = Table(rows: map<nat, Row>, nextNum: nat)

  /** Auto-increment discipline: every key is below `nextNum` and is the row's own number. */
  ghost predicate Numbered(t: Table) {
    forall n :: n in t.rows ==> n < t.nextNum && t.rows[n].num == n
  }

  type Queue = t: Table | Numbered(t) witness Table(map[], 0)

  // ---------------------------------------------------------------- scans

  /** The row numbers below `hi` whose rows satisfy `p`, ascending. */
  function NumsWhere(q: Queue, p: Row -> bool, hi: nat): (ns: seq<nat>)
    ensures forall n :: n in ns <==> n < hi && n in q.rows && p(q.rows[n])
    ensures forall i :: 0 <= i < |ns| ==> ns[i] < hi
    ensures forall i, j :: 0 <= i < j < |ns| ==> ns[i] < ns[j]
  {
    if hi == 0 then []
    else
      var ns := NumsWhere(q, p, hi - 1);
      if hi - 1 in q.rows && p(q.rows[hi - 1]) then ns + [hi - 1] else ns
  }

  /** A repository lookup returning `Optional`: no row, one row, or more than
      one row, which Spring Data reports by throwing. */
  datatype Lookup = Absent | Unique(row: Row) | Ambiguous

  /** The single row satisfying `p`, if there is exactly one. */
  function FindWhere(q: Queue, p: Row -> bool): (r: Lookup)
    ensures r.Absent? <==> forall n :: n in q.rows ==> !p(q.rows[n])
    ensures r.Unique? ==> r.row.num in q.rows && q.rows[r.row.num] == r.row && p(r.row)
    ensures r.Unique? ==> forall n :: n in q.rows && p(q.rows[n]) ==> n == r.row.num
    ensures r.Ambiguous? <==>
      exists n, m :: n in q.rows && m in q.rows && n != m && p(q.rows[n]) && p(q.rows[m])
  {
    var ns := NumsWhere(q, p, q.nextNum);
    if |ns| == 0 then Absent
    else if |ns| == 1 then
      assert ns[0] in ns;
      Unique(q.rows[ns[0]])
    else
      assert ns[0] in ns && ns[1] in ns;
      Ambiguous
  }

  /** `existsByMfqId`: some row has this id, whatever its type. */
  predicate ExistsById(q: Queue, id: string) {
    exists n :: n in q.rows && q.rows[n].id == id
  }

  /** `findByMfqId`: the lookup matches on the id alone, whatever the type. */
  function FindById(q: Queue, id: string): (r: Lookup)
    ensures r.Absent? <==> !ExistsById(q, id)
    ensures r.Unique? ==> r.row.num in q.rows && q.rows[r.row.num] == r.row && r.row.id == id
    ensures r.Unique? ==> forall n :: n in q.rows && q.rows[n].id == id ==> n == r.row.num
    ensures r.Ambiguous? <==>
      exists n, m :: n in q.rows && m in q.rows && n != m && q.rows[n].id == id && q.rows[m].id == id
  {
    FindWhere(q, (row: Row) => row.id == id)
  }

  /** No two rows share an id. */
  ghost predicate UniqueIds(q: Queue) {
    forall n, m :: n in q.rows && m in q.rows && n != m ==> q.rows[n].id != q.rows[m].id
  }

  /** With unique ids the id lookup never throws. */
  lemma UniqueIdsLookup(q: Queue, id: string)
    requires UniqueIds(q)
    ensures !FindById(q, id).Ambiguous?
  {
  }

  // ---------------------------------------------------------------- writes

  /** `save` of a new entity: the row gets the next auto-increment number. */
  function Insert(q: Queue, id: string, kind: FetchType, status: Status, priority: int, updatedAt: Option<int>): (r: Queue)
    ensures r.nextNum == q.nextNum + 1 && q.nextNum !in q.rows
    ensures r.rows == q.rows[q.nextNum := Row(q.nextNum, id, kind, status, priority, updatedAt)]
  {
    Table(q.rows[q.nextNum := Row(q.nextNum, id, kind, status, priority, updatedAt)], q.nextNum + 1)
  }

  /** `save` of a managed entity: the row with that number is replaced. */
  function Update(q: Queue, row: Row): (r: Queue)
    requires row.num in q.rows
    ensures r.nextNum == q.nextNum && r.rows == q.rows[row.num := row]
  {
    Table(q.rows[row.num := row], q.nextNum)
  }

  /** Inserting an id that no row has keeps ids unique. */
  lemma InsertFreshKeepsUniqueIds(q: Queue, id: string, kind: FetchType, status: Status, priority: int, updatedAt: Option<int>)
    requires UniqueIds(q) && !ExistsById(q, id)
    ensures UniqueIds(Insert(q, id, kind, status, priority, updatedAt))
  {
  }

  // ---------------------------------------------------------------- pickNext

  /** The claim order: higher priority first, then the smaller row number. */
  predicate Outranks(a: Row, b: Row) {
    a.priority > b.priority || (a.priority == b.priority && a.num <= b.num)
  }

  predicate HasReady(q: Queue) {
    exists n :: n in q.rows && q.rows[n].status == Ready
  }

  /** `n` is the READY row the claim query selects. */
  ghost predicate IsBestReady(q: Queue, n: nat) {
    && n in q.rows && q.rows[n].status == Ready
    && forall m :: m in q.rows && q.rows[m].status == Ready ==> Outranks(q.rows[n], q.rows[m])
  }

  /** At most one row is the best READY row. */
  lemma BestReadyUnique(q: Queue, n: nat, m: nat)
    requires IsBestReady(q, n) && IsBestReady(q, m)
    ensures n == m
  {
  }

  /** The best READY row among those numbered below `hi`. */
  function BestReadyBelow(q: Queue, hi: nat): (r: Option<nat>)
    ensures r.Some? ==> r.value < hi && r.value in q.rows && q.rows[r.value].status == Ready
    ensures r.Some? ==> forall m :: m < hi && m in q.rows && q.rows[m].status == Ready ==> Outranks(q.rows[r.value], q.rows[m])
    ensures r.None? ==> forall m :: m < hi && m in q.rows ==> q.rows[m].status != Ready
  {
    if hi == 0 then None
    else
      var b := BestReadyBelow(q, hi - 1);
      var n := hi - 1;
      if n in q.rows && q.rows[n].status == Ready && (b.None? || q.rows[n].priority > q.rows[b.value].priority) then
        Some(n)
      else
        b
  }

  /** The row `pickNext` claims, if any. */
  function ClaimTarget(q: Queue): (r: Option<nat>)
    ensures r.None? <==> !HasReady(q)
    ensures r.Some? ==> IsBestReady(q, r.value)
  {
    BestReadyBelow(q, q.nextNum)
  }

  /** The affected-row count and the table after `pickNext`. */
  datatype Claim = Claim(count: nat, queue: Queue)

  /** `pickNext`: flips the best READY row to FETCHING and reports how many
      rows it changed. Priority, `updatedAt` and every other row stay as they were. */
  function PickNext(q: Queue): (c: Claim)
    ensures c.count <= 1
    ensures c.count == 0 <==> !HasReady(q)
    ensures c.count == 0 ==> c.queue == q
    ensures c.count == 1 ==>
      exists n :: IsBestReady(q, n)
        && c.queue.nextNum == q.nextNum && c.queue.rows.Keys == q.rows.Keys
        && c.queue.rows[n].status == Fetching && SameExceptStatus(q.rows[n], c.queue.rows[n])
        && forall m :: m in q.rows && m != n ==> c.queue.rows[m] == q.rows[m]
  {
    match ClaimTarget(q)
    case None => Claim(0, q)
    case Some(n) => Claim(1, Update(q, MarkProcessing(q.rows[n])))
  }

  // ---------------------------------------------------------------- findFetchingAll

  /** `ORDER BY mfq_updated_at ASC`, with MySQL's NULLs first. */
  predicate UpdatedNoLater(a: Row, b: Row) {
    match (a.updatedAt, b.updatedAt)
    case (None, _) => true
    case (Some(_), None) => false
    case (Some(x), Some(y)) => x <= y
  }

  lemma UpdatedOrderIsTotalPreorder()
    ensures Sorting.TotalPreorder(UpdatedNoLater)
  {
  }

  ghost predicate IsFetching(q: Queue, n: nat) {
    n in q.rows && q.rows[n].status == Fetching
  }

  /** The FETCHING rows in row-number order. */
  function FetchingRows(q: Queue): (rs: seq<Row>)
    ensures forall i :: 0 <= i < |rs| ==> IsFetching(q, rs[i].num) && q.rows[rs[i].num] == rs[i]
    ensures forall n :: IsFetching(q, n) ==> q.rows[n] in rs
    ensures forall i, j :: 0 <= i < j < |rs| ==> rs[i].num < rs[j].num
  {
    var ns := NumsWhere(q, (row: Row) => row.status == Fetching, q.nextNum);
    var rs := seq(|ns|, i requires 0 <= i < |ns| => q.rows[ns[i]]);
    assert forall n :: IsFetching(q, n) ==> q.rows[n] in rs by {
      forall n | IsFetching(q, n)
        ensures q.rows[n] in rs
      {
        assert n in ns;
        var i :| 0 <= i < |ns| && ns[i] == n;
        assert rs[i] == q.rows[n];
      }
    }
    rs
  }

  /** Reordering the FETCHING rows keeps them distinct and keeps their members. */
  lemma PermutedFetchingRows(q: Queue, tasks: seq<Row>)
    requires multiset(tasks) == multiset(FetchingRows(q))
    ensures forall i :: 0 <= i < |tasks| ==> IsFetching(q, tasks[i].num) && q.rows[tasks[i].num] == tasks[i]
    ensures forall n :: IsFetching(q, n) ==> q.rows[n] in tasks
    ensures forall i, j :: 0 <= i < j < |tasks| ==> tasks[i].num != tasks[j].num
  {
    var rs := FetchingRows(q);
    assert Sorting.Distinct(rs);
    Sorting.DistinctPermutation(rs, tasks);
    forall y
      ensures y in tasks <==> y in rs
    {
      assert y in tasks <==> y in multiset(tasks);
      assert y in rs <==> y in multiset(rs);
    }
    forall i | 0 <= i < |tasks|
      ensures IsFetching(q, tasks[i].num) && q.rows[tasks[i].num] == tasks[i]
    {
      assert tasks[i] in rs;
    }
  }

  /** `findFetchingAll`: exactly the FETCHING rows, each once, oldest
      `updatedAt` first; rows with equal `updatedAt` come in row-number order. */
  function FindFetchingAll(q: Queue): (tasks: seq<Row>)
    ensures forall i :: 0 <= i < |tasks| ==> IsFetching(q, tasks[i].num) && q.rows[tasks[i].num] == tasks[i]
    ensures forall n :: IsFetching(q, n) ==> q.rows[n] in tasks
    ensures forall i, j :: 0 <= i < j < |tasks| ==> tasks[i].num != tasks[j].num
    ensures forall i, j :: 0 <= i < j < |tasks| ==> UpdatedNoLater(tasks[i], tasks[j])
  {
    UpdatedOrderIsTotalPreorder();
    var tasks := Sorting.SortBy(UpdatedNoLater, FetchingRows(q));
    PermutedFetchingRows(q, tasks);
    tasks
  }
}
