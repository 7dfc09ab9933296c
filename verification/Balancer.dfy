/** The client-side balancer: it keeps the routing table up to date and picks a connection for every request. */
module Balancer {
  import opened Options
  import opened PartitionTable
  import opened SubConnections
  import opened Rotation
  import TxnLocks

  const MAX_INT32: int := 0x7FFF_FFFF
  const MIN_INT32: int := -0x8000_0000

  /** A 32-bit counter wraps around. */
  function Increment(x: int): int {
    if x == MAX_INT32 then MIN_INT32 else x + 1
  }

  /** Remainder truncated toward zero: negative for a negative counter. */
  function Remainder(x: int, n: nat): int
    requires n > 0
  {
    if x >= 0 then x % n else -((-x) % n)
  }

  /** Once the counter has wrapped, picking by it indexes below zero sooner or later, unless there is one replica. */
  lemma {:induction false} NegativeCounterExact(n: nat)
    requires n > 0
    ensures n == 1 <==> forall c :: MIN_INT32 <= c < 0 ==> Remainder(c, n) >= 0
  {
    if n > 1 {
      assert Remainder(-1, n) == -1;
    }
  }

  class Entry {
    const etag: string
    const leaderId: nat
    const leader: string
    const replicas: seq<string>
    const replicaMap: map<nat, string>
    var counter: int

    constructor (etag: string, leaderId: nat, leader: string, replicas: seq<string>, replicaMap: map<nat, string>)
      ensures Content() == PartitionTable.Content(etag, leaderId, leader, multiset(replicas), replicaMap)
      ensures counter == 0
    {
      this.etag, this.leaderId, this.leader := etag, leaderId, leader;
      this.replicas, this.replicaMap, this.counter := replicas, replicaMap, 0;
    }

    function Content(): PartitionTable.Content {
      PartitionTable.Content(etag, leaderId, leader, multiset(replicas), replicaMap)
    }
  }

  /** Any permutation may come out. */
  method Shuffle(s: seq<string>) returns (r: seq<string>)
    ensures multiset(r) == multiset(s)
  {
    r := s;
    var i := |s|;
    while i > 1
      invariant |r| == |s| && multiset(r) == multiset(s)
    {
      i := i - 1;
      var j :| 0 <= j <= i;
      r := r[i := r[j]][j := r[i]];
    }
  }

  datatype UpdateResult = Updated | Unchanged | NilDereference | BadResolverState

  class BalancerState {
    var etag: string
    /** None until the first update. */
    var partitions: Option<map<nat, Entry>>
    var addrs: seq<string>
    const conn: ClientConn

    constructor (conn: ClientConn)
      ensures etag == "" && partitions == None && this.conn == conn
    {
      etag, partitions, addrs, this.conn := "", None, [], conn;
    }

    /** The table as values. */
    ghost function Contents(): Table
      reads this
    {
      if partitions.None? then map[] else map pid | pid in partitions.value :: partitions.value[pid].Content()
    }

    /** The old table has an entry for each of the first `n` partitions, as an update takes for granted. */
    predicate Has(n: nat)
      reads this
    {
      partitions.None? || forall pid :: 0 <= pid < n ==> pid in partitions.value
    }

    predicate Kept(pid: nat, entry: Entry)
      reads this
    {
      partitions.Some? && pid in partitions.value && entry == partitions.value[pid]
    }

    /** The partition has an entry, with the tag the snapshot gives it. */
    predicate SameTagAs(ds: DataServers, pid: nat)
      reads this
    {
      partitions.Some? && pid in partitions.value && pid in ds.partitions && ds.partitions[pid].Some? &&
      partitions.value[pid].etag == ds.partitions[pid].value.etag
    }

    /** What a partition's entry should hold: what it holds if its tag is unchanged, else what the snapshot says. */
    ghost predicate Wants(ds: DataServers, pid: nat, want: PartitionTable.Content)
      reads this
    {
      pid in ds.partitions && PartOk(ds, pid) &&
      want == if SameTagAs(ds, pid) then partitions.value[pid].Content() else Resolve(ds, pid)
    }

    lemma {:induction false} UpdateWants(ds: DataServers, pid: nat)
      requires Valid(ds) && pid in Update(Contents(), ds)
      ensures Wants(ds, pid, Update(Contents(), ds)[pid])
    {
    }

    /** The entry an update gives one partition: the old one if its tag is unchanged, else a new one. */
    method EntryFor(ds: DataServers, pid: nat, ghost want: PartitionTable.Content) returns (entry: Entry)
      requires Valid(ds) && Wants(ds, pid, want)
      requires partitions.Some? ==> pid in partitions.value
      ensures entry.Content() == want
      ensures if SameTagAs(ds, pid) then Kept(pid, entry) else fresh(entry) && entry.counter == 0
    {
      var part := ds.partitions[pid].value;
      if partitions.Some? && partitions.value[pid].etag == part.etag {
        entry := partitions.value[pid];
      } else {
        entry := BuildEntry(ds, pid);
      }
    }

    /** None if a partition of the new snapshot is missing from the old table, which is dereferenced all the same. */
    method BuildTable(ds: DataServers, ghost goal: Table) returns (r: Option<map<nat, Entry>>)
      requires Valid(ds) && forall pid: nat :: pid in goal <==> pid < ds.partitionCount
      requires forall pid :: pid in goal ==> Wants(ds, pid, goal[pid])
      ensures r.Some? <==> Has(ds.partitionCount)
      ensures r.Some? ==> r.value.Keys == goal.Keys
      ensures r.Some? ==> forall pid :: pid in r.value ==> r.value[pid].Content() == goal[pid]
      ensures r.Some? ==> forall pid :: pid in r.value && SameTagAs(ds, pid) ==> Kept(pid, r.value[pid])
      ensures r.Some? ==> forall pid :: pid in r.value && !SameTagAs(ds, pid) ==>
                fresh(r.value[pid]) && r.value[pid].counter == 0
    {
      var table: map<nat, Entry> := map[];
      for pid := 0 to ds.partitionCount
        invariant forall i: nat :: i in table <==> i < pid
        invariant Has(pid)
        invariant forall i :: i in table ==> table[i].Content() == goal[i]
        invariant forall i :: i in table && SameTagAs(ds, i) ==> Kept(i, table[i])
        invariant forall i :: i in table && !SameTagAs(ds, i) ==> fresh(table[i]) && table[i].counter == 0
      {
        if partitions.Some? && pid !in partitions.value {
          return None;
        }
        var entry := EntryFor(ds, pid, goal[pid]);
        table := table[pid := entry];
      }
      return Some(table);
    }

    /** Entries whose tag is unchanged are kept, counter and all. */
    method UpdatePartitions(ds: DataServers) returns (ok: bool)
      requires Valid(ds)
      modifies this`partitions
      ensures ok <==> old(Has(ds.partitionCount))
      ensures ok ==> partitions.Some? && Contents() == Update(old(Contents()), ds)
      ensures ok ==> forall pid :: pid in partitions.value ==>
                if old(SameTagAs(ds, pid)) then partitions.value[pid] == old(partitions).value[pid]
                else fresh(partitions.value[pid]) && partitions.value[pid].counter == 0
      ensures !ok ==> partitions == old(partitions)
    {
      ghost var goal := Update(Contents(), ds);
      UpdateDomain(Contents(), ds);
      forall pid | pid in goal ensures Wants(ds, pid, goal[pid]) {
        UpdateWants(ds, pid);
      }
      var table := BuildTable(ds, goal);
      if table.None? {
        return false;
      }
      partitions := table;
      return true;
    }

    /** A new snapshot: the table first, then the connections. A snapshot with the known tag is ignored. */
    method UpdateClientConnState(ds: DataServers, refused: set<string>) returns (r: UpdateResult)
      requires Valid(ds) && conn.Valid()
      modifies this, conn, conn.created
      ensures conn.Valid()
      ensures r.Unchanged? <==> old(etag) == ds.etag
      ensures r.NilDereference? <==> old(etag) != ds.etag && !old(Has(ds.partitionCount))
      ensures r.Unchanged? ==> Contents() == old(Contents()) && conn.subConns == old(conn.subConns)
      ensures r.Updated? || r.BadResolverState? ==>
                etag == ds.etag && partitions.Some? && Contents() == Update(old(Contents()), ds)
      ensures r.Updated? ==> conn.subConns.Keys == set id | id in ds.servers :: AddressOf(ds, id)
      ensures r.BadResolverState? ==> conn.subConns.Keys != set id | id in ds.servers :: AddressOf(ds, id)
      // a connection is missing only if its address was refused, and those there were are the same
      ensures r.BadResolverState? ==>
                exists id :: id in ds.servers && AddressOf(ds, id) !in old(conn.subConns) &&
                  AddressOf(ds, id) in refused
      ensures r.Updated? || r.BadResolverState? ==>
                forall id :: id in ds.servers && AddressOf(ds, id) in old(conn.subConns) ==>
                  AddressOf(ds, id) in conn.subConns &&
                  conn.subConns[AddressOf(ds, id)] == old(conn.subConns)[AddressOf(ds, id)]
      ensures r.NilDereference? ==> partitions == old(partitions) && etag == old(etag)
      ensures r.Unchanged? ==> etag == old(etag) && partitions == old(partitions)
      ensures old(conn.created) <= conn.created && fresh(conn.created - old(conn.created))
    {
      if etag == ds.etag {
        return Unchanged;
      }
      var list := ServerAddresses(ds);
      var ok := UpdatePartitions(ds);
      if !ok {
        return NilDereference;
      }
      addrs := list;
      etag := ds.etag;
      var connected := conn.Connect(list, refused);
      assert (set a | a in list) == set id | id in ds.servers :: AddressOf(ds, id);
      return if connected then Updated else BadResolverState;
    }
  }

  method ServerAddresses(ds: DataServers) returns (addrs: seq<string>)
    requires Valid(ds)
    ensures forall a :: a in addrs <==> exists id :: id in ds.servers && AddressOf(ds, id) == a
  {
    addrs := [];
    var ids := ds.servers.Keys;
    while ids != {}
      invariant ids <= ds.servers.Keys
      invariant forall id :: id in ds.servers.Keys - ids ==> AddressOf(ds, id) in addrs
      invariant forall a :: a in addrs ==> exists id :: id in ds.servers && AddressOf(ds, id) == a
    {
      var id :| id in ids;
      assert ServerOk(ds, id);
      ids := ids - {id};
      addrs := addrs + [ds.servers[id].value.address];
      assert addrs[|addrs| - 1] == AddressOf(ds, id);
    }
  }

  lemma {:induction false} UpdateDomain(old': Table, ds: DataServers)
    requires Valid(ds)
    ensures forall pid: nat :: pid in Update(old', ds) <==> pid < ds.partitionCount
  {
    ValidIsComplete(ds);
    forall pid: nat ensures pid in Update(old', ds) <==> pid < ds.partitionCount {
      assert pid in ds.partitions.Keys <==> pid in Below(ds.partitionCount);
    }
  }

  method BuildEntry(ds: DataServers, pid: nat) returns (entry: Entry)
    requires Valid(ds) && pid in ds.partitions && PartOk(ds, pid)
    ensures fresh(entry) && entry.Content() == Resolve(ds, pid) && entry.counter == 0
  {
    var part := ds.partitions[pid].value;
    var leader := "";
    if part.leader in ds.servers {
      assert ServerOk(ds, part.leader);
      leader := ds.servers[part.leader].value.address;
    }
    var slice, byId := ReplicaAddresses(ds, part.replicas);
    var shuffled := Shuffle(slice);
    entry := new Entry(part.etag, part.leader, leader, shuffled, byId);
  }

  method ReplicaAddresses(ds: DataServers, ids: seq<nat>) returns (slice: seq<string>, byId: map<nat, string>)
    requires forall i :: 0 <= i < |ids| ==> ids[i] in ds.servers && ServerOk(ds, ids[i])
    ensures slice == Addresses(ds, ids)
    ensures byId == map id | id in ids :: AddressOf(ds, id)
  {
    slice, byId := [], map[];
    for i := 0 to |ids|
      invariant |slice| == i && forall j :: 0 <= j < i ==> slice[j] == AddressOf(ds, ids[j])
      invariant forall id :: id in byId <==> id in ids[..i]
      invariant forall id :: id in byId ==> byId[id] == AddressOf(ds, id)
    {
      var addr := ds.servers[ids[i]].value.address;
      slice := slice + [addr];
      byId := byId[ids[i] := addr];
      assert forall id :: id in ids[..i + 1] <==> id in ids[..i] || id == ids[i];
    }
    assert ids[..|ids|] == ids;
  }

  // ---- picking a connection

  datatype Routing = Routing(partitionId: nat, snapshotRead: bool)
  datatype Preferred = Preferred(serverId: nat, enforce: bool)

  datatype PickResult =
    | Picked(conn: SubConn)
    | MissingRouting
    | InvalidPartition
    | PreferredUnavailable
    | NoSubConn
    | IndexPanic

  function Lookup(m: map<nat, string>, id: nat): string {
    if id in m then m[id] else ""
  }

  predicate Enforced(preferred: Option<Preferred>) {
    preferred.Some? && preferred.value.enforce
  }

  function Unavailable(preferred: Option<Preferred>): PickResult {
    if preferred.Some? && preferred.value.enforce then PreferredUnavailable else NoSubConn
  }

  class Picker {
    const conn: ClientConn
    const partitions: map<nat, Entry>

    constructor (conn: ClientConn, partitions: map<nat, Entry>)
      ensures this.conn == conn && this.partitions == partitions
    {
      this.conn, this.partitions := conn, partitions;
    }

    /** The table agrees with a snapshot, and the connections are its servers', none without an address. */
    ghost predicate Serves(ds: DataServers)
      reads conn, conn.created
    {
      Valid(ds) && conn.Valid() && "" !in conn.subConns && partitions.Keys == ds.partitions.Keys &&
      forall pid :: pid in partitions ==> PartOk(ds, pid) && partitions[pid].Content() == Resolve(ds, pid)
    }

    ghost function Table(): PartitionTable.Table {
      map pid | pid in partitions :: partitions[pid].Content()
    }

    /** A table rebuilt from the snapshot, and connections to just its servers, are all it takes. */
    lemma {:induction false} ServesIf(ds: DataServers)
      requires Valid(ds) && conn.Valid() && Table() == Rebuild(ds)
      requires conn.subConns.Keys == set id | id in ds.servers :: AddressOf(ds, id)
      ensures Serves(ds)
    {
      forall pid | pid in partitions
        ensures pid in ds.partitions && PartOk(ds, pid) && partitions[pid].Content() == Resolve(ds, pid)
      {
        assert pid in Table() && Table()[pid] == Rebuild(ds)[pid];
      }
      forall pid | pid in ds.partitions ensures pid in partitions {
        assert PartOk(ds, pid) && pid in Rebuild(ds) && pid in Table();
      }
      assert partitions.Keys == ds.partitions.Keys;
      forall id | id in ds.servers ensures AddressOf(ds, id) != "" {
        assert ServerOk(ds, id);
      }
    }

    /** The `k`-th replica from `start` is ready and none before it is. */
    ghost predicate FirstReady(replicas: seq<string>, start: nat, k: nat)
      requires start < |replicas| && k < |replicas|
      reads conn, conn.subConns.Values
    {
      conn.IsReady(replicas[Ring(start, k, |replicas|)]) && NoneReady(replicas, start, k)
    }

    ghost predicate NoneReady(replicas: seq<string>, start: nat, k: nat)
      requires start < |replicas| && k <= |replicas|
      reads conn, conn.subConns.Values
    {
      forall j: nat :: j < k ==> !conn.IsReady(replicas[Ring(start, j, |replicas|)])
    }

    lemma {:induction false} NoneReadyAtAll(replicas: seq<string>, start: nat, a: string)
      requires start < |replicas| && NoneReady(replicas, start, |replicas|) && a in replicas
      ensures !conn.IsReady(a)
    {
      var i :| 0 <= i < |replicas| && replicas[i] == a;
      assert Ring(start, Offset(start, i, |replicas|), |replicas|) == i;
    }

    /** With all replicas ready the counter alone decides. */
    lemma {:induction false} AllReadyTakesFirst(replicas: seq<string>, start: nat, k: nat)
      requires start < |replicas| && k < |replicas| && FirstReady(replicas, start, k)
      requires forall a :: a in replicas ==> conn.IsReady(a)
      ensures Ring(start, k, |replicas|) == start
    {
      assert Ring(start, 0, |replicas|) == start && replicas[start] in replicas;
    }

    /** The first ready replica in cyclic order, if any is ready. */
    method PickReplica(replicas: seq<string>, start: nat) returns (r: Option<SubConn>, ghost k: nat)
      requires start < |replicas|
      ensures r.None? <==> forall a :: a in replicas ==> !conn.IsReady(a)
      ensures r.Some? ==> k < |replicas| && FirstReady(replicas, start, k)
      ensures r.Some? ==> r.value == conn.subConns[replicas[Ring(start, k, |replicas|)]]
    {
      var n, curr := |replicas|, start;
      for i := 0 to n
        invariant i < n ==> curr == Ring(start, i, n)
        invariant NoneReady(replicas, start, i)
      {
        var addr := replicas[curr];
        if conn.IsReady(addr) {
          return Some(conn.subConns[addr]), i;
        }
        RemainderStep(curr, n);
        RemainderUnique(curr, n, 0, curr);
        curr := (curr + 1) % n;
      }
      forall a | a in replicas ensures !conn.IsReady(a) {
        NoneReadyAtAll(replicas, start, a);
      }
      return None, 0;
    }

    /**
     * What the counter selects: the first ready replica from its remainder on, none only if none is ready, and a
     * panic exactly when a wrapped counter has a negative remainder.
     */
    ghost predicate Rotated(part: Entry, r: PickResult, k: nat)
      requires |part.replicas| > 0
      reads part, conn, conn.subConns.Values
    {
      var c, n := part.counter, |part.replicas|;
      (r.IndexPanic? <==> c < 0 && (-c) % n != 0) &&
      (r.Picked? || r.NoSubConn? || r.IndexPanic?) &&
      (!r.IndexPanic? ==> 0 <= Remainder(c, n) < n) &&
      (r.NoSubConn? ==> forall a :: a in part.replicas ==> !conn.IsReady(a)) &&
      (r.Picked? ==> k < n && FirstReady(part.replicas, Remainder(c, n), k) &&
                     r.conn == conn.subConns[part.replicas[Ring(Remainder(c, n), k, n)]])
    }

    method RoundRobin(part: Entry) returns (r: PickResult, ghost k: nat)
      requires |part.replicas| > 0
      modifies part`counter
      ensures part.counter == Increment(old(part.counter)) && Rotated(part, r, k)
    {
      part.counter := Increment(part.counter);
      k := 0;
      var start := Remainder(part.counter, |part.replicas|);
      if start < 0 {
        return IndexPanic, 0;
      }
      var picked;
      picked, k := PickReplica(part.replicas, start);
      r := if picked.Some? then Picked(picked.value) else NoSubConn;
    }

    /** Requests other than snapshot reads go to the leader. */
    method PickLeader(part: Entry, preferred: Option<Preferred>) returns (r: PickResult)
      requires conn.Valid()
      ensures r.Picked? <==> part.leader != "" && conn.IsReady(part.leader) &&
                             !(preferred.Some? && preferred.value.enforce && preferred.value.serverId != part.leaderId)
      ensures r.Picked? ==> r.conn == conn.subConns[part.leader]
      ensures !r.Picked? ==> r == if Enforced(preferred) then PreferredUnavailable else NoSubConn
    {
      if part.leader == "" {
        return Unavailable(preferred);
      } else if !conn.IsReady(part.leader) {
        return Unavailable(preferred);
      } else if preferred.Some? && preferred.value.enforce && preferred.value.serverId != part.leaderId {
        return PreferredUnavailable;
      }
      if part.leader !in conn.subConns {
        return Unavailable(preferred);
      }
      return Picked(conn.subConns[part.leader]);
    }

    /** A ready connection of one of the replicas. */
    ghost predicate IsReplicaConn(part: Entry, c: SubConn)
      reads conn, conn.subConns.Values
    {
      exists a :: a in part.replicas && conn.IsReady(a) && a in conn.subConns && conn.subConns[a] == c
    }

    predicate PreferredConnected(part: Entry, preferred: Option<Preferred>)
      reads conn
    {
      preferred.Some? && Lookup(part.replicaMap, preferred.value.serverId) in conn.subConns
    }

    /**
     * Snapshot reads may go to any replica: the preferred one if it has a connection, ready or not, else, unless it is
     * enforced, the one whose turn it is.
     */
    method PickAny(part: Entry, preferred: Option<Preferred>) returns (r: PickResult)
      requires conn.Valid()
      modifies part`counter
      ensures |part.replicas| == 0 ==> r == Unavailable(preferred)
      ensures |part.replicas| > 0 && PreferredConnected(part, preferred) ==>
                r == Picked(conn.subConns[Lookup(part.replicaMap, preferred.value.serverId)])
      ensures |part.replicas| > 0 && !PreferredConnected(part, preferred) && preferred.Some? &&
              preferred.value.enforce ==>
                r == PreferredUnavailable
      ensures if |part.replicas| > 0 && !PreferredConnected(part, preferred) &&
                 !(preferred.Some? && preferred.value.enforce)
              then part.counter == Increment(old(part.counter)) && exists k :: Rotated(part, r, k)
              else part.counter == old(part.counter)
      ensures |part.replicas| > 0 && !PreferredConnected(part, preferred) && !Enforced(preferred) &&
              0 <= part.counter ==>
                (r.Picked? <==> exists a :: a in part.replicas && conn.IsReady(a)) &&
                (r.Picked? ==> IsReplicaConn(part, r.conn)) && (!r.Picked? ==> r.NoSubConn?)
    {
      if |part.replicas| == 0 {
        return Unavailable(preferred);
      }
      if preferred.Some? {
        var addr := Lookup(part.replicaMap, preferred.value.serverId);
        if addr in conn.subConns {
          return Picked(conn.subConns[addr]);
        } else if preferred.value.enforce {
          return PreferredUnavailable;
        }
      }
      ghost var k;
      r, k := RoundRobin(part);
      if r.Picked? {
        assert part.replicas[Ring(Remainder(part.counter, |part.replicas|), k, |part.replicas|)] in part.replicas;
      }
    }

    /**
     * An entry of a served table, against the snapshot: its leader and tag; as many replicas, each address as often as
     * there are replicas with it; and for each replica its address.
     */
    lemma {:induction false} EntryFacts(ds: DataServers, pid: nat)
      requires Serves(ds) && pid in partitions
      ensures pid in ds.partitions && ds.partitions[pid].Some?
      ensures var part, entry := ds.partitions[pid].value, partitions[pid];
              entry.etag == part.etag && entry.leaderId == part.leader && entry.leader == AddressOf(ds, part.leader) &&
              |entry.replicas| == |part.replicas| &&
              (forall a :: multiset(entry.replicas)[a] == |At(ds, part.replicas, a)|) &&
              (forall id :: id in entry.replicaMap <==> id in part.replicas) &&
              (forall id :: id in part.replicas ==> entry.replicaMap[id] == AddressOf(ds, id))
    {
      var part, entry := ds.partitions[pid].value, partitions[pid];
      assert entry.Content() == Resolve(ds, pid);
      SameSize(entry.replicas, Addresses(ds, part.replicas));
      forall a ensures multiset(entry.replicas)[a] == |At(ds, part.replicas, a)| {
        CountAt(ds, part.replicas, a);
      }
    }

    lemma {:induction false} ReplicaAddress(ds: DataServers, pid: nat, a: string)
      requires Serves(ds) && pid in partitions
      ensures pid in ds.partitions && ds.partitions[pid].Some?
      ensures a in partitions[pid].replicas <==>
              exists id :: id in ds.partitions[pid].value.replicas && AddressOf(ds, id) == a
    {
      EntryFacts(ds, pid);
      var ids, entry := ds.partitions[pid].value.replicas, partitions[pid];
      assert a in multiset(entry.replicas) <==> a in entry.replicas;
      if i :| i in At(ds, ids, a) {
        assert ids[i] in ids && AddressOf(ds, ids[i]) == a;
      }
      if id :| id in ids && AddressOf(ds, id) == a {
        var i :| 0 <= i < |ids| && ids[i] == id;
        assert i in At(ds, ids, a);
      }
    }

    /**
     * A request that may write, by the snapshot: it goes to the connection of the partition's leader, exactly if the
     * leader has an address, that is ready, and no other server is enforced.
     */
    ghost predicate PicksLeader(ds: DataServers, pid: nat, preferred: Option<Preferred>, r: PickResult)
      requires pid in ds.partitions && ds.partitions[pid].Some?
      reads conn, conn.subConns.Values
    {
      var leader := ds.partitions[pid].value.leader;
      var a := AddressOf(ds, leader);
      (r.Picked? <==> a != "" && conn.IsReady(a) && !(Enforced(preferred) && preferred.value.serverId != leader)) &&
      (r.Picked? ==> a in conn.subConns && r.conn == conn.subConns[a]) &&
      (!r.Picked? ==> r == if Enforced(preferred) then PreferredUnavailable else NoSubConn)
    }

    predicate WishHeld(ds: DataServers, ids: seq<nat>, preferred: Option<Preferred>)
      reads conn
    {
      preferred.Some? && preferred.value.serverId in ids && AddressOf(ds, preferred.value.serverId) in conn.subConns
    }

    /**
     * A snapshot read, by the snapshot: it goes to the wished for replica if that is connected; else, unless the wish
     * is enforced, to a ready replica if there is one, as long as the counter has not wrapped.
     */
    ghost predicate PicksReplica(ds: DataServers, pid: nat, preferred: Option<Preferred>, unwrapped: bool,
                                 r: PickResult)
      requires pid in ds.partitions && ds.partitions[pid].Some?
      reads conn, conn.subConns.Values
    {
      var ids := ds.partitions[pid].value.replicas;
      if |ids| == 0 then r == if Enforced(preferred) then PreferredUnavailable else NoSubConn
      else if WishHeld(ds, ids, preferred) then r == Picked(conn.subConns[AddressOf(ds, preferred.value.serverId)])
      else if Enforced(preferred) then r == PreferredUnavailable
      else
        unwrapped ==>
          (r.Picked? <==> exists id :: id in ids && conn.IsReady(AddressOf(ds, id))) &&
          (r.Picked? ==> exists id :: id in ids && conn.IsReady(AddressOf(ds, id)) &&
                           AddressOf(ds, id) in conn.subConns && r.conn == conn.subConns[AddressOf(ds, id)]) &&
          (!r.Picked? ==> r.NoSubConn?)
    }

    lemma {:induction false} LookupIsAddress(ds: DataServers, pid: nat, id: nat)
      requires Serves(ds) && pid in partitions
      ensures pid in ds.partitions && ds.partitions[pid].Some?
      ensures Lookup(partitions[pid].replicaMap, id) in conn.subConns <==>
              id in ds.partitions[pid].value.replicas && AddressOf(ds, id) in conn.subConns
      ensures id in ds.partitions[pid].value.replicas ==> Lookup(partitions[pid].replicaMap, id) == AddressOf(ds, id)
    {
      EntryFacts(ds, pid);
    }

    /** Picking from an entry is picking by the snapshot it was built from. */
    lemma {:induction false} EntryPicksReplica(ds: DataServers, pid: nat, preferred: Option<Preferred>, unwrapped: bool,
                                               r: PickResult)
      requires Serves(ds) && pid in partitions
      requires var part := partitions[pid];
               if |part.replicas| == 0 then r == Unavailable(preferred)
               else if PreferredConnected(part, preferred) then
                 r == Picked(conn.subConns[Lookup(part.replicaMap, preferred.value.serverId)])
               else if Enforced(preferred) then r == PreferredUnavailable
               else unwrapped ==>
                 (r.Picked? <==> exists a :: a in part.replicas && conn.IsReady(a)) &&
                 (r.Picked? ==> IsReplicaConn(part, r.conn)) && (!r.Picked? ==> r.NoSubConn?)
      ensures pid in ds.partitions && ds.partitions[pid].Some? && PicksReplica(ds, pid, preferred, unwrapped, r)
    {
      EntryFacts(ds, pid);
      if preferred.Some? {
        LookupIsAddress(ds, pid, preferred.value.serverId);
      }
      var ids, part := ds.partitions[pid].value.replicas, partitions[pid];
      forall a ensures a in part.replicas <==> exists id :: id in ids && AddressOf(ds, id) == a {
        ReplicaAddress(ds, pid, a);
      }
      assert (exists a :: a in part.replicas && conn.IsReady(a)) <==>
             (exists id :: id in ids && conn.IsReady(AddressOf(ds, id)));
    }

    method Pick(ghost ds: DataServers, routing: Option<Routing>, preferred: Option<Preferred>) returns (r: PickResult)
      requires Serves(ds)
      modifies partitions.Values
      ensures r.MissingRouting? <==> routing.None?
      ensures r.InvalidPartition? <==> routing.Some? && routing.value.partitionId !in ds.partitions
      ensures routing.Some? && routing.value.partitionId in ds.partitions ==>
                ds.partitions[routing.value.partitionId].Some? && routing.value.partitionId in partitions
      ensures routing.Some? && routing.value.partitionId in ds.partitions && !routing.value.snapshotRead ==>
                PicksLeader(ds, routing.value.partitionId, preferred, r)
      ensures routing.Some? && routing.value.partitionId in ds.partitions && routing.value.snapshotRead ==>
                PicksReplica(ds, routing.value.partitionId, preferred,
                             0 <= old(partitions[routing.value.partitionId].counter) < MAX_INT32, r)
      // an enforced server is the one that gets the request
      ensures r.Picked? && Enforced(preferred) ==> r.conn.address == AddressOf(ds, preferred.value.serverId)
    {
      if routing.None? {
        return MissingRouting;
      }
      var pid := routing.value.partitionId;
      if pid !in partitions {
        return InvalidPartition;
      }
      EntryFacts(ds, pid);
      if !routing.value.snapshotRead {
        r := PickLeader(partitions[pid], preferred);
      } else {
        ghost var unwrapped := 0 <= partitions[pid].counter < MAX_INT32;
        r := PickAny(partitions[pid], preferred);
        EntryPicksReplica(ds, pid, preferred, unwrapped, r);
      }
    }
  }

  /** Where in the list the servers with an address stand. */
  function At(ds: DataServers, ids: seq<nat>, a: string): set<nat> {
    set i: nat | i < |ids| && AddressOf(ds, ids[i]) == a
  }

  lemma {:induction false} AtStep(ds: DataServers, ids: seq<nat>, id: nat, a: string)
    ensures |At(ds, ids + [id], a)| == |At(ds, ids, a)| + if AddressOf(ds, id) == a then 1 else 0
  {
    var n, was, now := |ids|, At(ds, ids, a), At(ds, ids + [id], a);
    forall i: nat | i < n ensures (ids + [id])[i] == ids[i] {
    }
    if AddressOf(ds, id) == a {
      assert now == was + {n} && n !in was;
    } else {
      assert now == was;
    }
  }

  lemma {:induction false} AddressesStep(ds: DataServers, ids: seq<nat>, id: nat)
    ensures Addresses(ds, ids + [id]) == Addresses(ds, ids) + [AddressOf(ds, id)]
  {
  }

  lemma {:induction false} CountAt(ds: DataServers, ids: seq<nat>, a: string)
    ensures multiset(Addresses(ds, ids))[a] == |At(ds, ids, a)|
  {
    if ids == [] {
      assert Addresses(ds, ids) == [] && At(ds, ids, a) == {};
    } else {
      var front, id := ids[..|ids| - 1], ids[|ids| - 1];
      assert ids == front + [id];
      CountAt(ds, front, a);
      AddressesStep(ds, front, id);
      AtStep(ds, front, id, a);
    }
  }

  lemma {:induction false} SameSize(x: seq<string>, y: seq<string>)
    requires multiset(x) == multiset(y)
    ensures |x| == |y|
  {
    assert |multiset(x)| == |x| && |multiset(y)| == |y|;
  }

  /** The table the balancer has is the one its last snapshot gives, or there has been none. */
  ghost predicate UpToDate(b: BalancerState, last: Option<DataServers>)
    reads b
  {
    match last
    case None => b.partitions.None?
    case Some(old') => Valid(old') && b.partitions.Some? && b.Contents() == Rebuild(old')
  }

  lemma {:induction false} UpdateIsRebuild(last: Option<DataServers>, ds: DataServers)
    requires Valid(ds) && (last.Some? ==> Valid(last.value) && TagsTell(last.value, ds))
    ensures Update(if last.Some? then Rebuild(last.value) else map[], ds) == Rebuild(ds)
  {
    if last.Some? {
      UpdateExact(last.value, ds);
    } else {
      assert forall pid :: !Reusable(map[], ds, pid);
    }
  }

  /** A snapshot whose tags tell leaves the balancer with a picker that serves it, and up to date for the next. */
  method ServeSnapshot(b: BalancerState, ghost last: Option<DataServers>, ds: DataServers, refused: set<string>)
    returns (r: UpdateResult, picker: Option<Picker>)
    requires Valid(ds) && b.conn.Valid() && UpToDate(b, last) && (last.Some? ==> TagsTell(last.value, ds))
    modifies b, b.conn, b.conn.created
    ensures b.conn.Valid() && (r.Updated? <==> picker.Some?)
    ensures r.Updated? ==> UpToDate(b, Some(ds)) && picker.value.conn == b.conn && picker.value.Serves(ds)
    ensures (r.Unchanged? <==> old(b.etag) == ds.etag) &&
            (r.NilDereference? <==> old(b.etag) != ds.etag && !old(b.Has(ds.partitionCount)))
    ensures r.BadResolverState? ==>
              exists id :: id in ds.servers && AddressOf(ds, id) !in old(b.conn.subConns) &&
                AddressOf(ds, id) in refused
  {
    UpdateIsRebuild(last, ds);
    r := b.UpdateClientConnState(ds, refused);
    if !r.Updated? {
      return r, None;
    }
    var p := new Picker(b.conn, b.partitions.value);
    assert p.Table() == b.Contents();
    p.ServesIf(ds);
    return r, Some(p);
  }

  /** The connections are those of the snapshot's servers. */
  ghost predicate Connected(b: BalancerState, ds: DataServers)
    reads b.conn
  {
    b.conn.subConns.Keys == set id | id in ds.servers :: AddressOf(ds, id)
  }

  /** A snapshot with a new tag leaves the tag behind, connected or not. */
  method FirstTry(b: BalancerState, ds: DataServers, refused: set<string>) returns (r: UpdateResult)
    requires Valid(ds) && b.conn.Valid() && b.etag != ds.etag && b.Has(ds.partitionCount)
    modifies b, b.conn, b.conn.created
    ensures b.conn.Valid() && b.etag == ds.etag && (r.Updated? || r.BadResolverState?)
    ensures r.Updated? <==> Connected(b, ds)
    ensures old(b.conn.created) <= b.conn.created && fresh(b.conn.created - old(b.conn.created))
  {
    r := b.UpdateClientConnState(ds, refused);
  }

  /** A snapshot with the known tag changes nothing. */
  method NextTry(b: BalancerState, ds: DataServers, refused: set<string>) returns (r: UpdateResult)
    requires Valid(ds) && b.conn.Valid() && b.etag == ds.etag
    modifies b, b.conn, b.conn.created
    ensures b.conn.Valid() && b.etag == ds.etag && r.Unchanged? && b.conn.subConns == old(b.conn.subConns)
    ensures old(b.conn.created) <= b.conn.created && fresh(b.conn.created - old(b.conn.created))
  {
    r := b.UpdateClientConnState(ds, refused);
  }

  /**
   * The tag is stored before connecting. A snapshot that could not be connected to is therefore ignored when it comes
   * again, however often, and its connections stay unopened.
   */
  method Repeat(b: BalancerState, ds: DataServers, refused: seq<set<string>>) returns (results: seq<UpdateResult>)
    requires Valid(ds) && b.conn.Valid() && b.etag != ds.etag && b.Has(ds.partitionCount) && refused != []
    modifies b, b.conn, b.conn.created
    ensures |results| == |refused| && (results[0].Updated? || results[0].BadResolverState?)
    ensures forall i :: 1 <= i < |results| ==> results[i].Unchanged?
    ensures results[0].Updated? <==> Connected(b, ds)
  {
    var first := FirstTry(b, ds, refused[0]);
    results := [first];
    for i := 1 to |refused|
      invariant |results| == i && results[0] == first && b.conn.Valid() && b.etag == ds.etag
      invariant forall j :: 1 <= j < i ==> results[j].Unchanged?
      invariant first.Updated? <==> Connected(b, ds)
      invariant old(b.conn.created) <= b.conn.created && fresh(b.conn.created - old(b.conn.created))
    {
      var r := NextTry(b, ds, refused[i]);
      results := results + [r];
    }
  }

  method FeedOne(b: BalancerState, ds: DataServers, refused: set<string>) returns (r: UpdateResult)
    requires Valid(ds) && b.conn.Valid() && b.Has(ds.partitionCount)
    modifies b, b.conn, b.conn.created
    ensures b.conn.Valid() && old(b.conn.created) <= b.conn.created && fresh(b.conn.created - old(b.conn.created))
    ensures !r.NilDereference? && (r.Unchanged? <==> old(b.etag) == ds.etag)
    ensures b.etag == ds.etag && b.Has(ds.partitionCount)
  {
    UpdateDomain(b.Contents(), ds);
    r := b.UpdateClientConnState(ds, refused);
    if !r.Unchanged? {
      forall pid | 0 <= pid < ds.partitionCount ensures pid in b.partitions.value {
        assert pid in b.Contents();
      }
    }
  }

  /** As long as the partition count does not grow, no update looks for an entry that is not there. */
  method Feed(b: BalancerState, snapshots: seq<DataServers>, refused: nat -> set<string>)
    returns (results: seq<UpdateResult>)
    requires b.conn.Valid() && b.partitions.None? && forall i :: 0 <= i < |snapshots| ==> Valid(snapshots[i])
    requires forall i :: 1 <= i < |snapshots| ==> snapshots[i].partitionCount <= snapshots[i - 1].partitionCount
    modifies b, b.conn, b.conn.created
    ensures |results| == |snapshots| && forall i :: 0 <= i < |results| ==> !results[i].NilDereference?
  {
    results := [];
    for i := 0 to |snapshots|
      invariant |results| == i && b.conn.Valid()
      invariant if i == 0 then b.partitions.None?
                else b.Has(snapshots[i - 1].partitionCount)
      invariant forall j :: 0 <= j < i ==> !results[j].NilDereference?
      invariant old(b.conn.created) <= b.conn.created && fresh(b.conn.created - old(b.conn.created))
    {
      var r := FeedOne(b, snapshots[i], refused(i));
      results := results + [r];
    }
  }

  /** With all replicas ready, a pick is the connection of the one the counter selects. */
  method PickNext(picker: Picker, part: Entry) returns (picked: SubConn)
    requires |part.replicas| > 0 && 0 <= part.counter < MAX_INT32
    requires forall a :: a in part.replicas ==> picker.conn.IsReady(a)
    modifies part`counter
    ensures part.counter == old(part.counter) + 1
    ensures part.replicas[part.counter % |part.replicas|] in picker.conn.subConns
    ensures picked == picker.conn.subConns[part.replicas[part.counter % |part.replicas|]]
  {
    var r, k := picker.RoundRobin(part);
    var start := part.counter % |part.replicas|;
    assert part.replicas[start] in part.replicas;
    picker.AllReadyTakesFirst(part.replicas, start, k);
    picked := r.conn;
  }

  /**
   * As many picks as there are replicas, all of them ready and the counter short of wrapping, give the connection of
   * each replica exactly once. `order` says whose.
   */
  method PickRound(picker: Picker, part: Entry) returns (picks: seq<SubConn>, order: seq<nat>)
    requires |part.replicas| > 0 && 0 <= part.counter && part.counter + |part.replicas| <= MAX_INT32
    requires forall a :: a in part.replicas ==> picker.conn.IsReady(a)
    modifies part`counter
    ensures |picks| == |order| == |part.replicas| && part.counter == old(part.counter) + |part.replicas|
    ensures forall j :: 0 <= j < |order| ==> order[j] < |part.replicas|
    ensures forall j :: 0 <= j < |order| ==> part.replicas[order[j]] in picker.conn.subConns
    ensures forall j :: 0 <= j < |order| ==> picks[j] == picker.conn.subConns[part.replicas[order[j]]]
    ensures forall i :: 0 <= i < |part.replicas| ==> i in order
    ensures forall j, k :: 0 <= j < k < |order| ==> order[j] != order[k]
  {
    var n, c := |part.replicas|, part.counter + 1;
    picks, order := [], Round(c, n);
    RoundIsFair(c, n);
    for j := 0 to n
      invariant |picks| == j && part.counter == c - 1 + j
      invariant forall i :: 0 <= i < j ==> part.replicas[order[i]] in picker.conn.subConns
      invariant forall i :: 0 <= i < j ==> picks[i] == picker.conn.subConns[part.replicas[order[i]]]
    {
      var picked := PickNext(picker, part);
      assert order[j] == part.counter % n;
      picks := picks + [picked];
    }
  }

  // ---- what each client call asks for

  datatype Call =
    | AutocommitCall(partitionId: nat, readTimestamp: nat, actions: seq<TxnLocks.Action>)
    | PrepareCall(participant: nat)
    | CommitCall(participant: nat)
    | AbortCall(participant: nat)
    | DecisionCall(principal: nat)
    | StreamCall(partitionId: nat)

  function RouteOf(c: Call): Routing {
    match c
    case AutocommitCall(pid, ts, actions) => Routing(pid, ts != 0 && TxnLocks.AllReadOnly(actions))
    case PrepareCall(pid) => Routing(pid, false)
    case CommitCall(pid) => Routing(pid, false)
    case AbortCall(pid) => Routing(pid, false)
    case DecisionCall(pid) => Routing(pid, false)
    case StreamCall(pid) => Routing(pid, true)
  }

  /** The partition a call is for: the one it names as its own, its participant or its principal. */
  predicate IsFor(c: Call, pid: nat) {
    (c.AutocommitCall? || c.StreamCall? ==> c.partitionId == pid) &&
    (c.PrepareCall? || c.CommitCall? || c.AbortCall? ==> c.participant == pid) &&
    (c.DecisionCall? ==> c.principal == pid)
  }

  /** Calls any replica may serve: streams, and autocommits of reads alone that name a read timestamp. */
  predicate AnyServes(c: Call) {
    c.StreamCall? ||
    (c.AutocommitCall? && c.readTimestamp != 0 &&
     forall i :: 0 <= i < |c.actions| ==> c.actions[i].payload.Read? || c.actions[i].payload.ReadRange?)
  }

  /** Every call for a partition of the snapshot goes to that partition: to any replica if it may, or to its leader. */
  method PickForCall(picker: Picker, ghost ds: DataServers, c: Call, preferred: Option<Preferred>, ghost pid: nat)
    returns (r: PickResult)
    requires picker.Serves(ds) && IsFor(c, pid)
    modifies picker.partitions.Values
    ensures pid in ds.partitions <==> pid < ds.partitionCount
    ensures r.InvalidPartition? <==> pid >= ds.partitionCount
    ensures pid < ds.partitionCount ==> ds.partitions[pid].Some? && pid in picker.partitions
    ensures pid < ds.partitionCount && !AnyServes(c) ==> picker.PicksLeader(ds, pid, preferred, r)
    ensures pid < ds.partitionCount && AnyServes(c) ==>
              picker.PicksReplica(ds, pid, preferred, 0 <= old(picker.partitions[pid].counter) < MAX_INT32, r)
  {
    ValidIsComplete(ds);
    assert pid in ds.partitions <==> pid in Below(ds.partitionCount);
    assert RouteOf(c).partitionId == pid && RouteOf(c).snapshotRead == AnyServes(c);
    r := picker.Pick(ds, Some(RouteOf(c)), preferred);
  }
}
