/** The detection archive and its syncer (detection_buffer.py): what is kept, what is evicted, and
    that nothing leaves unpublished without a reason. */
module DetectionStore {
  datatype Id = Id(uuid: string)
  type Data = int

  datatype Detection = Detection(id: Id, stamp: int, data: Data)

  /** A row of the table, without the columns that only queries read. */
  datatype Row = Row(stamp: int, data: Data, synced: bool)

  type Table = map<Id, Row>

  function Synced(t: Table): set<Id> {
    set id | id in t && t[id].synced
  }

  function Unsynced(t: Table): set<Id> {
    set id | id in t && !t[id].synced
  }

  /** The detection a row stores. */
  function Stored(t: Table, id: Id): Detection
    requires id in t
  {
    Detection(id, t[id].stamp, t[id].data)
  }

  function Min(a: int, b: int): int {
    if a <= b then a else b
  }

  function Max(a: int, b: int): int {
    if a >= b then a else b
  }

  // ---------------------------------------------------------------- ORDER BY timestamp LIMIT n

  /** How many rows `LIMIT` lets through; a negative limit is none. */
  function Limited(n: nat, limit: int): nat {
    if 0 <= limit < n then limit else n
  }

  /** The candidates in order of age, cut off at the limit; rows of equal age in any order. */
  ghost predicate Oldest(t: Table, candidates: set<Id>, limit: int, ids: seq<Id>)
    requires candidates <= t.Keys
  {
    && |ids| == Limited(|candidates|, limit)
    && (forall i :: 0 <= i < |ids| ==> ids[i] in candidates)
    && (forall i, j :: 0 <= i < j < |ids| ==> ids[i] != ids[j] && t[ids[i]].stamp <= t[ids[j]].stamp)
    && (forall i, y :: 0 <= i < |ids| && y in candidates && y !in ids ==> t[ids[i]].stamp <= t[y].stamp)
  }

  lemma EmptyIff(s: set<Id>)
    ensures (forall x :: x !in s) ==> s == {}
  {
  }

  lemma Inhabited(s: set<Id>)
    requires |s| > 0
    ensures exists x :: x in s
  {
    EmptyIff(s);
  }

  lemma {:induction false} SomeOldest(t: Table, s: set<Id>)
    requires s <= t.Keys && |s| > 0
    ensures exists x :: x in s && forall y :: y in s ==> t[x].stamp <= t[y].stamp
    decreases |s|
  {
    Inhabited(s);
    var x :| x in s;
    var rest := s - {x};
    if |rest| > 0 {
      SomeOldest(t, rest);
      var m :| m in rest && forall y :: y in rest ==> t[m].stamp <= t[y].stamp;
      var least := if t[x].stamp <= t[m].stamp then x else m;
      forall y | y in s ensures t[least].stamp <= t[y].stamp {
        assert y == x || y in rest;
      }
    } else {
      assert s == {x};
    }
  }

  method SelectOldest(t: Table, candidates: set<Id>, limit: int) returns (ids: seq<Id>)
    requires candidates <= t.Keys
    ensures Oldest(t, candidates, limit, ids)
  {
    ids := [];
    var left := candidates;
    var n := Limited(|candidates|, limit);
    while |ids| < n
      invariant |ids| <= n && left <= candidates && |left| + |ids| == |candidates|
      invariant forall y :: y in candidates <==> y in left || y in ids
      invariant forall i :: 0 <= i < |ids| ==> ids[i] in candidates && ids[i] !in left
      invariant forall i, j :: 0 <= i < j < |ids| ==> ids[i] != ids[j] && t[ids[i]].stamp <= t[ids[j]].stamp
      invariant forall i, y :: 0 <= i < |ids| && y in left ==> t[ids[i]].stamp <= t[y].stamp
      decreases n - |ids|
    {
      SomeOldest(t, left);
      var x :| x in left && forall y :: y in left ==> t[x].stamp <= t[y].stamp;
      ids := ids + [x];
      left := left - {x};
    }
  }

  // ---------------------------------------------------------------- storing and evicting

  function Inserted(t: Table, d: Detection): Table {
    t[d.id := Row(d.stamp, d.data, false)]
  }

  /** Nothing outside `chosen` is older than anything in it. */
  ghost predicate Earliest(t: Table, candidates: set<Id>, chosen: set<Id>)
    requires candidates <= t.Keys
  {
    chosen <= candidates && forall x, y :: x in chosen && y in candidates - chosen ==> t[x].stamp <= t[y].stamp
  }

  /** From `t` to `r` rows went only to get down to the limit: synced ones first, unsynced ones
      only when no synced one was left, each kind oldest first. */
  ghost predicate Trimmed(t: Table, maxSize: int, r: Table) {
    && r.Keys <= t.Keys && (forall id :: id in r ==> r[id] == t[id])
    && |r| == Min(|t|, Max(0, maxSize)) && Fair(t, r)
  }

  /** Rows go synced ones first, and within each kind oldest first. */
  ghost predicate Fair(t: Table, r: Table) {
    var lost := t.Keys - r.Keys;
    && Earliest(t, Synced(t), lost * Synced(t)) && Earliest(t, Unsynced(t), lost * Unsynced(t))
    && (lost * Unsynced(t) != {} ==> Synced(r) == {})
  }

  function Members(s: seq<Id>): set<Id> {
    set x | x in s
  }

  lemma {:induction false} MembersSize(s: seq<Id>)
    requires forall i, j :: 0 <= i < j < |s| ==> s[i] != s[j]
    ensures |Members(s)| == |s|
  {
    if s != [] {
      var front, last := s[..|s| - 1], s[|s| - 1];
      MembersSize(front);
      assert Members(s) == Members(front) + {last};
    }
  }

  lemma Halves(t: Table)
    ensures Synced(t) + Unsynced(t) == t.Keys && Synced(t) * Unsynced(t) == {} && |Synced(t)| + |Unsynced(t)| == |t|
  {
    assert Synced(t) + Unsynced(t) == t.Keys;
    assert |t| == |t.Keys|;
  }

  lemma Dropping(t: Table, ids: set<Id>)
    requires ids <= t.Keys
    ensures |t - ids| == |t| - |ids| && (t - ids).Keys == t.Keys - ids
    ensures forall id :: id in t - ids ==> (t - ids)[id] == t[id]
  {
    assert (t - ids).Keys == t.Keys - ids;
    assert t.Keys == (t.Keys - ids) + ids;
  }

  /** Evicting some of the synced rows. */
  lemma TrimSynced(t: Table, maxSize: int, ids: seq<Id>)
    requires |t| > maxSize && |Synced(t)| >= |t| - maxSize && Oldest(t, Synced(t), |t| - maxSize, ids)
    ensures Trimmed(t, maxSize, t - Members(ids))
  {
    hide *;
    SyncedKeys(t);
    OldestEarliest(t, Synced(t), |t| - maxSize, ids);
    SyncedFair(t, Members(ids));
    Dropping(t, Members(ids));
    Halves(t);
    TrimSizes(|t|, |Synced(t)|, maxSize);
    TrimmedIs(t, maxSize, t - Members(ids));
  }

  lemma TrimSizes(n: nat, synced: nat, maxSize: int)
    requires n > maxSize && n - maxSize <= synced <= n
    ensures n - Limited(synced, n - maxSize) == Min(n, Max(0, maxSize))
  {
  }

  lemma TrimmedIs(t: Table, maxSize: int, r: Table)
    requires r.Keys <= t.Keys && (forall id :: id in r ==> r[id] == t[id]) && |r| == Min(|t|, Max(0, maxSize))
    requires Fair(t, r)
    ensures Trimmed(t, maxSize, r)
  {
    hide Fair;
  }

  lemma SyncedKeys(t: Table)
    ensures Synced(t) <= t.Keys && Unsynced(t) <= t.Keys
  {
  }

  lemma SyncedFair(t: Table, gone: set<Id>)
    requires Earliest(t, Synced(t), gone)
    ensures gone <= t.Keys && Fair(t, t - gone)
  {
    assert t.Keys - (t - gone).Keys == gone;
    assert gone * Synced(t) == gone && gone * Unsynced(t) == {};
  }

  lemma OldestEarliest(t: Table, candidates: set<Id>, limit: int, ids: seq<Id>)
    requires candidates <= t.Keys && Oldest(t, candidates, limit, ids)
    ensures Earliest(t, candidates, Members(ids)) && |Members(ids)| == Limited(|candidates|, limit)
  {
    MembersSize(ids);
  }

  /** Evicting all synced rows and then some of the rest. */
  lemma TrimBoth(t: Table, maxSize: int, u: Table, ids: seq<Id>, r: Table)
    requires |t| > maxSize && |Synced(t)| < |t| - maxSize && u == t - Synced(t) && r == u - Members(ids)
    requires Oldest(u, u.Keys, |t| - maxSize - |Synced(t)|, ids)
    ensures Trimmed(t, maxSize, r)
  {
    hide *;
    var limit := |t| - maxSize - |Synced(t)|;
    OldestEarliest(u, u.Keys, limit, ids);
    TrimRest(t, u, Members(ids), r);
    KeysSize(u);
    RestSizes(|t|, |Synced(t)|, |u.Keys|, |Members(ids)|, |r|, maxSize, limit);
    TrimmedIs(t, maxSize, r);
  }

  lemma KeysSize(t: Table)
    ensures |t| == |t.Keys|
  {
  }

  lemma RestSizes(n: int, synced: int, left: int, gone: int, size: int, maxSize: int, limit: int)
    requires 0 <= synced < n - maxSize && synced <= n && 0 <= left == n - synced && limit == n - maxSize - synced
    requires gone == Limited(left, limit) && size == left - gone
    ensures size == Min(n, Max(0, maxSize))
  {
  }

  lemma Remainder(t: Table)
    ensures (t - Synced(t)).Keys == Unsynced(t)
  {
  }

  /** All synced rows go, and the oldest of the rest. */
  lemma TrimRest(t: Table, u: Table, more: set<Id>, r: Table)
    requires u == t - Synced(t) && r == u - more && Earliest(u, u.Keys, more)
    ensures Fair(t, r) && r.Keys <= t.Keys && (forall id :: id in r ==> r[id] == t[id])
    ensures |Synced(t)| <= |t| && |u| == |t| - |Synced(t)| && |r| == |u| - |more|
  {
    hide *;
    SyncedKeys(t);
    Remainder(t);
    Dropping(t, Synced(t));
    EarliestInside(u, u.Keys, more);
    Dropping(u, more);
    OnlySynced(t, u, r);
    FairRest(t, u, more, r);
  }

  lemma EarliestInside(t: Table, candidates: set<Id>, chosen: set<Id>)
    requires candidates <= t.Keys && Earliest(t, candidates, chosen)
    ensures chosen <= candidates
  {
  }

  lemma OnlySynced(t: Table, u: Table, r: Table)
    requires r.Keys <= u.Keys && u.Keys <= t.Keys && (forall id :: id in u ==> u[id] == t[id])
    requires forall id :: id in r ==> r[id] == u[id]
    requires u.Keys == Unsynced(t)
    ensures r.Keys <= t.Keys && (forall id :: id in r ==> r[id] == t[id]) && Synced(r) == {}
  {
  }

  lemma FairRest(t: Table, u: Table, more: set<Id>, r: Table)
    requires u.Keys == Unsynced(t) && (forall id :: id in u ==> id in t && u[id] == t[id])
    requires r.Keys == u.Keys - more && Synced(r) == {} && Earliest(u, u.Keys, more)
    ensures Fair(t, r)
  {
    var lost := t.Keys - r.Keys;
    assert lost * Synced(t) == Synced(t);
    assert lost * Unsynced(t) == more;
    forall x, y | x in more && y in Unsynced(t) - more ensures t[x].stamp <= t[y].stamp {
      assert u[x] == t[x] && u[y] == t[y];
    }
  }

  // ---------------------------------------------------------------- synchronising

  function Marked(t: Table, ids: set<Id>): Table {
    map id | id in t :: if id in ids then t[id].(synced := true) else t[id]
  }

  function Purged(t: Table): Table {
    t - Synced(t)
  }

  class DetectionBuffer {
    var table: Table
    const maxSize: int

    constructor (maxSize: int)
      ensures this.maxSize == maxSize && table == map[]
    {
      this.maxSize, table := maxSize, map[];
    }

    /** `buffer`. */
    method Buffer(d: Detection)
      modifies this
      ensures Trimmed(Inserted(old(table), d), maxSize, table)
    {
      hide Trimmed;
      table := table[d.id := Row(d.stamp, d.data, false)];
      EnforceLimit();
    }

    /** The ring buffer: back down to `maxSize` rows. */
    method EnforceLimit()
      modifies this
      ensures Trimmed(old(table), maxSize, table)
    {
      hide Oldest, Trimmed, Members, Synced, Unsynced;
      ghost var t := table;
      var count := |table|;
      if count <= maxSize {
        Untrimmed(t, maxSize);
        return;
      }
      SyncedKeys(t);
      Halves(t);
      var excess := count - maxSize;
      var syncedCount := |Synced(table)|;
      var syncedToEvict := Min(excess, syncedCount);
      var ids := EvictOldest(Synced(table), syncedToEvict);
      var remaining := excess - syncedToEvict;
      if remaining > 0 {
        AllOf(t, Synced(t), syncedToEvict, ids);
        var more := EvictOldest(table.Keys, remaining);
        TrimBoth(t, maxSize, t - Synced(t), more, table);
      } else {
        TrimSynced(t, maxSize, ids);
      }
    }

    /** `DELETE ... WHERE id IN (SELECT id ... ORDER BY timestamp ASC LIMIT n)`. */
    method EvictOldest(candidates: set<Id>, n: nat) returns (ids: seq<Id>)
      requires candidates <= table.Keys
      modifies this
      ensures Oldest(old(table), candidates, n, ids) && table == old(table) - Members(ids)
    {
      ids := SelectOldest(table, candidates, n);
      table := table - Members(ids);
    }

    /** `get_unsynced`. */
    method GetUnsynced(limit: int) returns (found: seq<Detection>)
      ensures exists ids :: Oldest(table, Unsynced(table), limit, ids) && IsRowsOf(table, ids, found)
    {
      var ids := SelectOldest(table, Unsynced(table), limit);
      found := [];
      for i := 0 to |ids|
        invariant IsRowsOf(table, ids[..i], found)
      {
        found := found + [Stored(table, ids[i])];
      }
      assert ids[..|ids|] == ids;
    }

    /** `mark_synced`. */
    method MarkSynced(ids: seq<Id>)
      modifies this
      ensures table == Marked(old(table), Members(ids))
    {
      table := map id | id in table :: if id in ids then table[id].(synced := true) else table[id];
    }

    /** `purge_synced`. */
    method PurgeSynced() returns (count: nat)
      modifies this
      ensures table == Purged(old(table)) && count == |old(table)| - |table|
    {
      Dropping(table, Synced(table));
      count := |Synced(table)|;
      table := table - Synced(table);
    }
  }

  ghost predicate IsRowsOf(t: Table, ids: seq<Id>, found: seq<Detection>) {
    |found| == |ids| && forall i :: 0 <= i < |ids| ==> ids[i] in t && found[i] == Stored(t, ids[i])
  }

  lemma AllOf(t: Table, candidates: set<Id>, n: nat, ids: seq<Id>)
    requires candidates <= t.Keys && n == |candidates| && Oldest(t, candidates, n, ids)
    ensures Members(ids) == candidates
  {
    OldestEarliest(t, candidates, n, ids);
    Fills(Members(ids), candidates);
  }

  lemma Fills(a: set<Id>, b: set<Id>)
    requires a <= b && |a| == |b|
    ensures a == b
  {
    assert b == a + (b - a);
    assert |b - a| == 0;
  }

  lemma Untrimmed(t: Table, maxSize: int)
    requires |t| <= maxSize
    ensures Trimmed(t, maxSize, t)
  {
    assert t.Keys - t.Keys == {};
  }

  // ---------------------------------------------------------------- the syncer

  /** How far a cycle got before the process stopped. */
  datatype Reach = Published | MarkedToo | Complete

  function Ids(ds: seq<Detection>): set<Id> {
    set d | d in ds :: d.id
  }

  /** The table after a cycle that published `sent`. */
  function AfterCycle(t: Table, sent: seq<Detection>, reach: Reach): Table {
    match reach
    case Published => t
    case MarkedToo => Marked(t, Ids(sent))
    case Complete => Purged(Marked(t, Ids(sent)))
  }

  /** What a cycle publishes: unsynced rows as they are stored, oldest first, no row twice. */
  ghost predicate Sends(t: Table, batch: int, sent: seq<Detection>) {
    exists ids :: Oldest(t, Unsynced(t), batch, ids) && |sent| <= |ids| && IsRowsOf(t, ids[..|sent|], sent)
  }

  class DetectionSyncer {
    const buffer: DetectionBuffer
    const batchSize: int
    /** Everything handed to the base station. */
    ghost var published: seq<Detection>

    constructor (buffer: DetectionBuffer, batchSize: int)
      ensures this.buffer == buffer && this.batchSize == batchSize && published == []
    {
      this.buffer, this.batchSize, published := buffer, batchSize, [];
    }

    /** One turn of the loop in `run`; the link takes `up` messages before it fails. */
    method Cycle(up: nat) returns (sent: seq<Detection>)
      modifies this, buffer
      ensures published == old(published) + sent
      ensures Unsynced(old(buffer.table)) == {} ==> sent == [] && buffer.table == old(buffer.table)
      ensures Unsynced(old(buffer.table)) != {} ==>
                && Sends(old(buffer.table), batchSize, sent)
                && buffer.table == AfterCycle(old(buffer.table), sent, Complete)
                && |sent| == Min(up, Limited(|Unsynced(old(buffer.table))|, batchSize))
    {
      hide Oldest, Unsynced, Synced, Marked, Purged, Members, Ids;
      sent := [];
      var pending := |Unsynced(buffer.table)|;
      if pending > 0 {
        var found := buffer.GetUnsynced(batchSize);
        ghost var t := buffer.table;
        SyncedKeys(t);
        ghost var ids :| Oldest(t, Unsynced(t), batchSize, ids) && IsRowsOf(t, ids, found);
        var syncedIds: seq<Id> := [];
        for i := 0 to |found|
          modifies this
          invariant sent == found[..i] && syncedIds == ids[..i] && i <= up && published == old(published) + sent
        {
          if i >= up { break; }
          published := published + [found[i]];
          sent := sent + [found[i]];
          syncedIds := syncedIds + [found[i].id];
        }
        OldestSize(t, Unsynced(t), batchSize, ids);
        SentIds(t, ids[..|sent|], sent);
        if syncedIds != [] {
          buffer.MarkSynced(syncedIds);
        } else {
          MarkNone(t);
        }
        var purged := buffer.PurgeSynced();
      }
    }
  }

  lemma OldestSize(t: Table, candidates: set<Id>, limit: int, ids: seq<Id>)
    requires candidates <= t.Keys && Oldest(t, candidates, limit, ids)
    ensures |ids| == Limited(|candidates|, limit)
  {
  }

  lemma SentIds(t: Table, ids: seq<Id>, sent: seq<Detection>)
    requires IsRowsOf(t, ids, sent)
    ensures Ids(sent) == Members(ids)
  {
    forall x | x in Members(ids) ensures x in Ids(sent) {
      var i :| 0 <= i < |ids| && ids[i] == x;
      assert sent[i] in sent && sent[i].id == x;
    }
    forall x | x in Ids(sent) ensures x in Members(ids) {
      var d :| d in sent && d.id == x;
      var i :| 0 <= i < |sent| && sent[i] == d;
      assert ids[i] == x;
    }
  }

  lemma MarkNone(t: Table)
    ensures Marked(t, Members([])) == t && Members([]) == {}
  {
  }

  // ---------------------------------------------------------------- every run

  /** The table together with what has become of every detection: handed in, published, replaced
      by a later one with the same id, or dropped for lack of room. */
  datatype History = History(table: Table, buffered: set<Detection>, published: set<Detection>,
                             replaced: set<Detection>, dropped: set<Detection>)

  function Contents(t: Table, ids: set<Id>): set<Detection>
    requires ids <= t.Keys
  {
    set id | id in ids :: Stored(t, id)
  }

  /** A detection is buffered. */
  ghost predicate Buffered(h: History, maxSize: int, d: Detection, k: History) {
    var t := Inserted(h.table, d);
    && Trimmed(t, maxSize, k.table)
    && k.buffered == h.buffered + {d} && k.published == h.published
    && k.replaced == h.replaced + (if d.id in h.table then {Stored(h.table, d.id)} else {})
    && k.dropped == h.dropped + Contents(t, Unsynced(t) - k.table.Keys)
  }

  /** A sync cycle runs, as far as `reach`; what it sent has been published either way. */
  ghost predicate Synchronised(h: History, batch: int, sent: seq<Detection>, reach: Reach, k: History) {
    && Sends(h.table, batch, sent) && k.table == AfterCycle(h.table, sent, reach)
    && k == History(k.table, h.buffered, h.published + (set d | d in sent), h.replaced, h.dropped)
  }

  ghost predicate Step(h: History, maxSize: int, batch: int, k: History) {
    || (exists d :: Buffered(h, maxSize, d, k))
    || (exists sent, reach :: Synchronised(h, batch, sent, reach, k))
  }

  ghost predicate IsRun(maxSize: int, batch: int, hs: seq<History>) {
    && |hs| > 0 && hs[0] == History(map[], {}, {}, {}, {})
    && (forall i :: 0 <= i < |hs| - 1 ==> Step(hs[i], maxSize, batch, hs[i + 1]))
  }

  /** The detection is accounted for. */
  predicate Accounted(h: History, d: Detection) {
    || (d.id in h.table && Stored(h.table, d.id) == d)
    || d in h.published || d in h.replaced || d in h.dropped
  }

  ghost predicate Inv(h: History, maxSize: int) {
    && |h.table| <= Max(0, maxSize)
    && (forall id :: id in Synced(h.table) ==> Stored(h.table, id) in h.published)
    && (forall d :: d in h.buffered ==> Accounted(h, d))
    && (forall id :: id in h.table ==> Stored(h.table, id) in h.buffered)
    && h.published <= h.buffered
  }

  lemma TrimmedFacts(t: Table, maxSize: int, r: Table)
    requires Trimmed(t, maxSize, r)
    ensures |r| <= Max(0, maxSize) && r.Keys <= t.Keys && (forall id :: id in r ==> id in t && r[id] == t[id])
  {
    hide Fair;
  }

  lemma BufferedKeeps(h: History, maxSize: int, d: Detection, k: History)
    requires Inv(h, maxSize) && Buffered(h, maxSize, d, k)
    ensures Inv(k, maxSize)
  {
    hide Trimmed;
    var t := Inserted(h.table, d);
    TrimmedFacts(t, maxSize, k.table);
    forall id | id in Synced(k.table) ensures Stored(k.table, id) in k.published {
      assert id != d.id && id in Synced(h.table);
    }
    forall x | x in k.buffered ensures Accounted(k, x) {
      if x == d {
        StaysOrGoes(t, k, h, d.id);
      } else {
        assert Accounted(h, x);
        if x.id in h.table && Stored(h.table, x.id) == x && x.id != d.id {
          StaysOrGoes(t, k, h, x.id);
        }
      }
    }
    forall id | id in k.table ensures Stored(k.table, id) in k.buffered {
      assert id != d.id ==> id in h.table;
    }
  }

  /** A row of the filled table is kept, or counted as dropped, or had been published. */
  lemma StaysOrGoes(t: Table, k: History, h: History, id: Id)
    requires id in t && (forall x :: x in k.table ==> x in t && k.table[x] == t[x])
    requires Contents(t, Unsynced(t) - k.table.Keys) <= k.dropped && h.published <= k.published
    requires t[id].synced ==> Stored(t, id) in h.published
    ensures Accounted(k, Stored(t, id))
  {
    if id !in k.table && !t[id].synced {
      assert id in Unsynced(t) - k.table.Keys;
      assert Stored(t, id) in Contents(t, Unsynced(t) - k.table.Keys);
    }
  }

  lemma MarkedFacts(t: Table, ids: set<Id>)
    ensures Marked(t, ids).Keys == t.Keys && forall id :: id in t ==> Stored(Marked(t, ids), id) == Stored(t, id)
    ensures Synced(Marked(t, ids)) == Synced(t) + (ids * t.Keys)
  {
    var m := Marked(t, ids);
    assert m.Keys == t.Keys;
    forall id | id in t ensures Stored(m, id) == Stored(t, id) && (id in Synced(m) <==> id in Synced(t) || id in ids) {
    }
  }

  lemma PurgedFacts(t: Table)
    ensures Purged(t).Keys == t.Keys - Synced(t) && Synced(Purged(t)) == {} && |Purged(t)| <= |t|
    ensures forall id :: id in Purged(t) ==> id in t && Purged(t)[id] == t[id]
  {
    Dropping(t, Synced(t));
  }

  /** What is sent is stored, under its own id. */
  lemma SendsStored(t: Table, batch: int, sent: seq<Detection>)
    requires Sends(t, batch, sent)
    ensures forall d :: d in sent ==> d.id in t && Stored(t, d.id) == d
    ensures forall id :: id in Ids(sent) ==> id in t && Stored(t, id) in sent
  {
    hide Oldest;
    var ids :| Oldest(t, Unsynced(t), batch, ids) && |sent| <= |ids| && IsRowsOf(t, ids[..|sent|], sent);
    forall d | d in sent ensures d.id in t && Stored(t, d.id) == d {
      var i :| 0 <= i < |sent| && sent[i] == d;
      assert ids[..|sent|][i] in t;
    }
  }

  lemma SynchronisedKeeps(h: History, maxSize: int, batch: int, sent: seq<Detection>, reach: Reach, k: History)
    requires Inv(h, maxSize) && Synchronised(h, batch, sent, reach, k)
    ensures Inv(k, maxSize)
  {
    hide Sends, Marked, Purged, Ids, Synced;
    var m := Marked(h.table, Ids(sent));
    SendsStored(h.table, batch, sent);
    MarkedFacts(h.table, Ids(sent));
    PurgedFacts(m);
    SameSize(h.table, m);
    forall id | id in Synced(k.table) ensures id in k.table && Stored(k.table, id) in k.published {
      SyncedKeys(k.table);
    }
    forall x | x in k.buffered ensures Accounted(k, x) {
      assert Accounted(h, x);
      if reach == Complete && x.id in h.table && Stored(h.table, x.id) == x && x.id in Synced(m) {
        assert x in k.published;
      }
    }
  }

  lemma SameSize(t: Table, m: Table)
    requires t.Keys == m.Keys
    ensures |t| == |m|
  {
    assert |t| == |t.Keys| && |m| == |m.Keys|;
  }

  /** A complete cycle leaves exactly the unsynced rows it did not send. */
  lemma CycleDrains(t: Table, batch: int, sent: seq<Detection>)
    requires Sends(t, batch, sent)
    ensures var r := AfterCycle(t, sent, Complete);
            r.Keys == Unsynced(t) - Ids(sent) && Synced(r) == {} && forall id :: id in r ==> r[id] == t[id]
    ensures Ids(sent) <= Unsynced(t) && |Ids(sent)| == |sent|
  {
    hide Marked, Purged, Synced, Sends;
    SentUnsynced(t, batch, sent);
    var m := Marked(t, Ids(sent));
    MarkedFacts(t, Ids(sent));
    PurgedFacts(m);
    Halves(t);
    assert Purged(m).Keys == Unsynced(t) - Ids(sent);
    forall id | id in Purged(m) ensures Purged(m)[id] == t[id] {
      MarkedRow(t, Ids(sent), id);
    }
  }

  lemma MarkedRow(t: Table, ids: set<Id>, id: Id)
    requires id in t && id !in ids
    ensures id in Marked(t, ids) && Marked(t, ids)[id] == t[id]
  {
  }

  lemma SentUnsynced(t: Table, batch: int, sent: seq<Detection>)
    requires Sends(t, batch, sent)
    ensures Ids(sent) <= Unsynced(t) && |Ids(sent)| == |sent|
  {
    hide Ids, Members, Unsynced;
    SyncedKeys(t);
    var ids :| Oldest(t, Unsynced(t), batch, ids) && |sent| <= |ids| && IsRowsOf(t, ids[..|sent|], sent);
    SentIds(t, ids[..|sent|], sent);
    MembersSize(ids[..|sent|]);
    MembersIn(ids[..|sent|], Unsynced(t));
  }

  lemma MembersIn(ids: seq<Id>, s: set<Id>)
    requires forall i :: 0 <= i < |ids| ==> ids[i] in s
    ensures Members(ids) <= s
  {
  }

  /** Over every interleaving of buffering and sync cycles, complete or cut short: the table stays
      within its limit, a row is synced only if its present contents were published, and every
      detection handed in is still stored, or was published, or was replaced under its id, or was
      dropped as `Trimmed` allows. */
  lemma {:induction false} EveryRunAccounts(maxSize: int, batch: int, hs: seq<History>)
    requires IsRun(maxSize, batch, hs)
    ensures Inv(hs[|hs| - 1], maxSize)
    decreases |hs|
  {
    hide Inv, Step;
    if |hs| == 1 {
      StartsWell(maxSize);
    } else {
      EveryRunAccounts(maxSize, batch, hs[..|hs| - 1]);
      StepKeeps(hs[|hs| - 2], maxSize, batch, hs[|hs| - 1]);
    }
  }

  lemma StartsWell(maxSize: int)
    ensures Inv(History(map[], {}, {}, {}, {}), maxSize)
  {
  }

  lemma StepKeeps(h: History, maxSize: int, batch: int, k: History)
    requires Inv(h, maxSize) && Step(h, maxSize, batch, k)
    ensures Inv(k, maxSize)
  {
    hide Inv, Buffered, Synchronised;
    if d :| Buffered(h, maxSize, d, k) {
      BufferedKeeps(h, maxSize, d, k);
    } else {
      var sent, reach :| Synchronised(h, batch, sent, reach, k);
      SynchronisedKeeps(h, maxSize, batch, sent, reach, k);
    }
  }

  // ---------------------------------------------------------------- how an unsynced row can leave

  /** A later detection took its id. */
  ghost predicate WasReplaced(h: History, maxSize: int, k: History, id: Id)
    requires id in h.table
  {
    Stored(h.table, id) in k.replaced && exists d: Detection :: d.id == id && Buffered(h, maxSize, d, k)
  }

  /** A cycle published it, and got at least as far as marking it. */
  ghost predicate WasSent(h: History, batch: int, k: History, id: Id)
    requires id in h.table
  {
    && Stored(h.table, id) in k.published
    && exists sent, reach :: Synchronised(h, batch, sent, reach, k) && reach != Published && id in Ids(sent)
  }

  /** It was evicted from a table that is full, holds no synced row, and holds no older row. */
  ghost predicate WasEvicted(h: History, maxSize: int, k: History, id: Id)
    requires id in h.table
  {
    && id !in k.table && Stored(h.table, id) in k.dropped && |k.table| == Max(0, maxSize) && Synced(k.table) == {}
    && forall y :: y in k.table ==> h.table[id].stamp <= k.table[y].stamp
  }

  lemma LostOfFull(t: Table, maxSize: int, r: Table, id: Id)
    requires Trimmed(t, maxSize, r) && id in Unsynced(t) && id !in r
    ensures |r| == Max(0, maxSize) && Synced(r) == {} && forall y :: y in r ==> t[id].stamp <= r[y].stamp
  {
    hide Earliest, Synced, Unsynced;
    SyncedKeys(t);
    LostIn(t, r, id);
    Fewer(t, r, id);
    forall y | y in r ensures t[id].stamp <= r[y].stamp {
      SyncedIs(r, y);
      LostBefore(t, r, id, y);
    }
  }

  lemma LostIn(t: Table, r: Table, id: Id)
    requires id in Unsynced(t) && id !in r
    ensures (t.Keys - r.Keys) * Unsynced(t) != {}
  {
    assert id in (t.Keys - r.Keys) * Unsynced(t);
  }

  lemma SyncedIs(r: Table, y: Id)
    ensures y in Synced(r) <==> y in r && r[y].synced
  {
  }

  lemma LostBefore(t: Table, r: Table, id: Id, y: Id)
    requires Unsynced(t) <= t.Keys && Earliest(t, Unsynced(t), (t.Keys - r.Keys) * Unsynced(t))
    requires id in Unsynced(t) && id !in r && y in r && y in t && r[y] == t[y] && !r[y].synced
    ensures t[id].stamp <= r[y].stamp
  {
    assert id in (t.Keys - r.Keys) * Unsynced(t) && y in Unsynced(t) - (t.Keys - r.Keys) * Unsynced(t);
  }

  lemma Fewer(t: Table, r: Table, id: Id)
    requires r.Keys <= t.Keys && id in t && id !in r
    ensures |r| < |t|
  {
    var more := r.Keys + {id};
    assert more <= t.Keys && |more| == |r| + 1;
    Smaller(more, t.Keys);
    KeysSize(t);
  }

  lemma Smaller(a: set<Id>, b: set<Id>)
    requires a <= b
    ensures |a| <= |b|
  {
    assert b == a + (b - a);
  }

  lemma LeavesOnBuffering(h: History, maxSize: int, d: Detection, k: History, id: Id)
    requires Buffered(h, maxSize, d, k) && id in Unsynced(h.table) && !(id in k.table && k.table[id] == h.table[id])
    ensures WasReplaced(h, maxSize, k, id) || WasEvicted(h, maxSize, k, id)
  {
    hide Trimmed, Synced;
    var t := Inserted(h.table, d);
    TrimmedFacts(t, maxSize, k.table);
    if d.id != id {
      assert id in Unsynced(t) && id !in k.table;
      LostOfFull(t, maxSize, k.table, id);
      assert id in Unsynced(t) - k.table.Keys;
      assert Stored(t, id) in Contents(t, Unsynced(t) - k.table.Keys);
    }
  }

  /** Nor is a detection evicted by its own insertion except from a full table that keeps no synced row and
      no older one. */
  lemma NewcomerLeaves(maxSize: int, batch: int, hs: seq<History>, i: nat, d: Detection)
    requires IsRun(maxSize, batch, hs) && i < |hs| - 1 && Buffered(hs[i], maxSize, d, hs[i + 1])
    ensures var k := hs[i + 1];
            if d.id in k.table then Stored(k.table, d.id) == d && !k.table[d.id].synced
            else d in k.dropped && |k.table| == Max(0, maxSize) && Synced(k.table) == {}
                 && forall y :: y in k.table ==> d.stamp <= k.table[y].stamp
  {
    hide Trimmed, Synced;
    var h, k := hs[i], hs[i + 1];
    var t := Inserted(h.table, d);
    TrimmedFacts(t, maxSize, k.table);
    if d.id !in k.table {
      assert d.id in Unsynced(t) && Stored(t, d.id) == d;
      LostOfFull(t, maxSize, k.table, d.id);
      assert d.id in Unsynced(t) - k.table.Keys;
      assert Stored(t, d.id) in Contents(t, Unsynced(t) - k.table.Keys);
    }
  }

  lemma LeavesOnCycle(h: History, batch: int, sent: seq<Detection>, reach: Reach, k: History, id: Id)
    requires Synchronised(h, batch, sent, reach, k) && id in Unsynced(h.table)
    requires !(id in k.table && k.table[id] == h.table[id])
    ensures WasSent(h, batch, k, id)
  {
    hide Sends, Purged, Marked, Ids;
    var m := Marked(h.table, Ids(sent));
    SendsStored(h.table, batch, sent);
    MarkedFacts(h.table, Ids(sent));
    PurgedFacts(m);
    if id !in Ids(sent) {
      MarkedRow(h.table, Ids(sent), id);
    }
  }

  /** In no run does an unsynced row leave, or change, between one state and the next, except that a later
      detection took its id, a cycle published it, or it was evicted from a full table that keeps no
      synced row and no older one. */
  lemma UnsyncedLeaves(maxSize: int, batch: int, hs: seq<History>, i: nat, id: Id)
    requires IsRun(maxSize, batch, hs) && i < |hs| - 1 && id in Unsynced(hs[i].table)
    requires !(id in hs[i + 1].table && hs[i + 1].table[id] == hs[i].table[id])
    ensures var h, k := hs[i], hs[i + 1];
            WasReplaced(h, maxSize, k, id) || WasSent(h, batch, k, id) || WasEvicted(h, maxSize, k, id)
  {
    hide Buffered, Synchronised, WasReplaced, WasSent, WasEvicted;
    var h, k := hs[i], hs[i + 1];
    assert Step(h, maxSize, batch, k);
    if d :| Buffered(h, maxSize, d, k) {
      LeavesOnBuffering(h, maxSize, d, k, id);
    } else {
      var sent, reach :| Synchronised(h, batch, sent, reach, k);
      LeavesOnCycle(h, batch, sent, reach, k, id);
    }
  }
}
