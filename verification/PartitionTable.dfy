/** Cluster snapshots, their validation, and the routing table a client derives from them. */
module PartitionTable {
  import opened Options
  import opened Rotation

  datatype Server = Server(id: nat, address: string)
  datatype Part = Part(id: nat, etag: string, leader: nat, replicas: seq<nat>)

  /** Map entries may be nil on the wire. */
  datatype DataServers = DataServers(
    etag: string,
    servers: map<nat, Option<Server>>,
    partitions: map<nat, Option<Part>>,
    partitionCount: nat,
    serviceConfig: string)

  predicate ServerOk(ds: DataServers, id: nat)
    requires id in ds.servers
  {
    var s := ds.servers[id];
    s.Some? && s.value.id != 0 && s.value.address != "" && s.value.id == id
  }

  predicate PartOk(ds: DataServers, id: nat)
    requires id in ds.partitions
  {
    var p := ds.partitions[id];
    p.Some? && p.value.id == id && id < ds.partitionCount &&
    (p.value.leader != 0 ==> p.value.leader in ds.servers) &&
    (forall i :: 0 <= i < |p.value.replicas| ==> p.value.replicas[i] in ds.servers)
  }

  predicate Valid(ds: DataServers) {
    ds.etag != "" && ds.servers != map[] && ds.partitions != map[] && ds.partitionCount != 0 &&
    ds.serviceConfig != "" && |ds.partitions| == ds.partitionCount &&
    (forall id :: id in ds.servers ==> ServerOk(ds, id)) &&
    (forall id :: id in ds.partitions ==> PartOk(ds, id))
  }

  method Validate(x: Option<DataServers>) returns (ok: bool)
    ensures ok <==> x.Some? && Valid(x.value)
  {
    if x.None? {
      return false;
    }
    var ds := x.value;
    if ds.etag == "" || |ds.servers| == 0 || |ds.partitions| == 0 || ds.partitionCount == 0 || ds.serviceConfig == "" {
      return false;
    }
    var ids := ds.servers.Keys;
    while ids != {}
      invariant ids <= ds.servers.Keys && forall id :: id in ds.servers.Keys - ids ==> ServerOk(ds, id)
    {
      var id :| id in ids;
      ids := ids - {id};
      var server := ds.servers[id];
      if server.None? || server.value.id == 0 || server.value.address == "" || id != server.value.id {
        assert !ServerOk(ds, id);
        return false;
      }
    }
    if |ds.partitions| != ds.partitionCount {
      return false;
    }
    ids := ds.partitions.Keys;
    while ids != {}
      invariant ids <= ds.partitions.Keys && forall id :: id in ds.partitions.Keys - ids ==> PartOk(ds, id)
    {
      var id :| id in ids;
      ids := ids - {id};
      var part := ds.partitions[id];
      if part.None? || id != part.value.id || id >= ds.partitionCount ||
         (part.value.leader != 0 && part.value.leader !in ds.servers)
      {
        assert !PartOk(ds, id);
        return false;
      }
      for i := 0 to |part.value.replicas|
        invariant forall j :: 0 <= j < i ==> part.value.replicas[j] in ds.servers
      {
        if part.value.replicas[i] !in ds.servers {
          assert !PartOk(ds, id);
          return false;
        }
      }
    }
    return true;
  }

  // ---- pigeonhole

  function Below(n: nat): (s: set<nat>)
    ensures |s| == n && forall i: nat :: i in s <==> i < n
  {
    if n == 0 then {} else Below(n - 1) + {n - 1}
  }

  lemma {:induction false} SubsetOfSameSize(s: set<nat>, t: set<nat>)
    requires s <= t && |s| == |t|
    ensures s == t
  {
    if x :| x in t && x !in s {
      assert s <= t - {x} && |t - {x}| == |t| - 1;
      SubsetSize(s, t - {x});
      assert false;
    }
  }

  lemma {:induction false} SubsetSize(s: set<nat>, t: set<nat>)
    requires s <= t
    ensures |s| <= |t|
  {
    if s != {} {
      var x :| x in s;
      SubsetSize(s - {x}, t - {x});
    }
  }

  /** A valid snapshot has every partition id below the count, and no other. */
  lemma {:induction false} ValidIsComplete(ds: DataServers)
    requires Valid(ds)
    ensures ds.partitions.Keys == Below(ds.partitionCount)
  {
    forall id | id in ds.partitions.Keys ensures id in Below(ds.partitionCount) {
      assert PartOk(ds, id);
    }
    SubsetOfSameSize(ds.partitions.Keys, Below(ds.partitionCount));
  }

  /** In a valid snapshot every partition's replicas, and its leader if it has one, can be reached. */
  lemma {:induction false} ServersResolve(ds: DataServers, pid: nat)
    requires Valid(ds) && pid < ds.partitionCount
    ensures pid in ds.partitions && ds.partitions[pid].Some? && ds.partitions[pid].value.id == pid
    ensures var part := ds.partitions[pid].value;
            (part.leader != 0 ==> AddressOf(ds, part.leader) != "") &&
            forall i :: 0 <= i < |part.replicas| ==> AddressOf(ds, part.replicas[i]) != ""
  {
    ValidIsComplete(ds);
    assert pid in Below(ds.partitionCount);
    assert PartOk(ds, pid);
    forall id | id in ds.servers ensures AddressOf(ds, id) != "" {
      assert ServerOk(ds, id);
    }
  }

  /** The partition a routing key belongs to, for any hash. */
  function GetPartition(hash: seq<nat> -> nat, partitionCount: nat, key: seq<nat>): nat
    requires partitionCount > 0
  {
    hash(key) % partitionCount
  }

  /** Keys routed with the snapshot's own count always name one of its partitions. */
  lemma {:induction false} RoutedKeysExist(ds: DataServers, hash: seq<nat> -> nat, key: seq<nat>)
    requires Valid(ds)
    ensures GetPartition(hash, ds.partitionCount, key) in ds.partitions
  {
    ValidIsComplete(ds);
    assert GetPartition(hash, ds.partitionCount, key) in Below(ds.partitionCount);
  }

  /** A key belongs to a partition exactly if its hash leaves that remainder, so each partition has its share. */
  lemma {:induction false} RoutedExact(hash: seq<nat> -> nat, partitionCount: nat, key: seq<nat>, pid: nat)
    requires partitionCount > 0
    ensures GetPartition(hash, partitionCount, key) == pid <==>
            pid < partitionCount && exists q: nat :: hash(key) == q * partitionCount + pid
  {
    var h := hash(key);
    assert h == (h / partitionCount) * partitionCount + h % partitionCount;
    if q: nat :| pid < partitionCount && h == q * partitionCount + pid {
      RemainderUnique(h, partitionCount, q, pid);
    }
  }

  // ---- the table, up to the order of replicas and the round-robin counter

  datatype Content = Content(
    etag: string, leaderId: nat, leader: string, replicas: multiset<string>, replicaMap: map<nat, string>)

  function AddressOf(ds: DataServers, id: nat): string {
    if id in ds.servers && ds.servers[id].Some? then ds.servers[id].value.address else ""
  }

  function Addresses(ds: DataServers, ids: seq<nat>): (s: seq<string>)
    ensures |s| == |ids| && forall i :: 0 <= i < |ids| ==> s[i] == AddressOf(ds, ids[i])
  {
    seq(|ids|, i requires 0 <= i < |ids| => AddressOf(ds, ids[i]))
  }

  function Resolve(ds: DataServers, pid: nat): Content
    requires pid in ds.partitions && ds.partitions[pid].Some?
  {
    var p := ds.partitions[pid].value;
    Content(p.etag, p.leader, AddressOf(ds, p.leader), multiset(Addresses(ds, p.replicas)),
            map id | id in p.replicas :: AddressOf(ds, id))
  }

  type Table = map<nat, Content>

  /** The table built from nothing. */
  function Rebuild(ds: DataServers): Table
    requires Valid(ds)
  {
    map pid | pid in ds.partitions && PartOk(ds, pid) :: Resolve(ds, pid)
  }

  predicate Reusable(old': Table, ds: DataServers, pid: nat) {
    pid in old' && pid in ds.partitions && ds.partitions[pid].Some? && old'[pid].etag == ds.partitions[pid].value.etag
  }

  /** The table after an update: partitions whose tag is unchanged keep their entry. */
  function Update(old': Table, ds: DataServers): Table
    requires Valid(ds)
  {
    map pid | pid in ds.partitions && PartOk(ds, pid) ::
      if Reusable(old', ds, pid) then old'[pid] else Resolve(ds, pid)
  }

  predicate SameTag(old': DataServers, ds: DataServers, pid: nat) {
    pid in old'.partitions && pid in ds.partitions && PartOk(old', pid) && PartOk(ds, pid) &&
    old'.partitions[pid].value.etag == ds.partitions[pid].value.etag
  }

  /** Partitions that keep their tag from one snapshot to the next resolve to the same addresses. */
  ghost predicate TagsTell(old': DataServers, ds: DataServers)
    requires Valid(old') && Valid(ds)
  {
    forall pid :: SameTag(old', ds, pid) ==> Resolve(old', pid) == Resolve(ds, pid)
  }

  /** Reusing entries is right exactly when tags tell: the incremental table is then the rebuilt one. */
  lemma {:induction false} UpdateExact(old': DataServers, ds: DataServers)
    requires Valid(old') && Valid(ds)
    ensures Update(Rebuild(old'), ds) == Rebuild(ds) <==> TagsTell(old', ds)
  {
    var t, u, r := Rebuild(old'), Update(Rebuild(old'), ds), Rebuild(ds);
    forall pid | pid in ds.partitions ensures PartOk(ds, pid) {
    }
    forall pid | pid in old'.partitions ensures PartOk(old', pid) {
    }
    if TagsTell(old', ds) {
      forall pid | pid in r ensures u[pid] == r[pid] {
        if Reusable(t, ds, pid) {
          assert t[pid] == Resolve(old', pid) && SameTag(old', ds, pid);
        }
      }
      assert u.Keys == r.Keys;
    }
    if u == r {
      forall pid | SameTag(old', ds, pid)
        ensures Resolve(old', pid) == Resolve(ds, pid)
      {
        assert Reusable(t, ds, pid) && u[pid] == t[pid] && r[pid] == Resolve(ds, pid);
      }
    }
  }

  // ---- series of updates

  predicate AllValid(dss: seq<DataServers>) {
    forall i :: 0 <= i < |dss| ==> Valid(dss[i])
  }

  ghost predicate AllTell(dss: seq<DataServers>)
    requires AllValid(dss)
  {
    forall i :: 0 <= i < |dss| - 1 ==> TagsTell(dss[i], dss[i + 1])
  }

  function Series(dss: seq<DataServers>): Table
    requires AllValid(dss) && dss != []
  {
    if |dss| == 1 then Rebuild(dss[0]) else Update(Series(dss[..|dss| - 1]), dss[|dss| - 1])
  }

  /** After any series of updates whose tags tell, the table is what a rebuild from the last snapshot gives. */
  lemma {:induction false} SeriesIsRebuild(dss: seq<DataServers>)
    requires AllValid(dss) && dss != [] && AllTell(dss)
    ensures Series(dss) == Rebuild(dss[|dss| - 1])
  {
    if |dss| > 1 {
      var n := |dss|;
      var front := dss[..n - 1];
      assert AllTell(front) by {
        forall i | 0 <= i < |front| - 1 ensures TagsTell(front[i], front[i + 1]) {
          assert front[i] == dss[i] && front[i + 1] == dss[i + 1];
        }
      }
      SeriesIsRebuild(front);
      assert TagsTell(dss[n - 2], dss[n - 2 + 1]);
      UpdateExact(dss[n - 2], dss[n - 1]);
    }
  }

  /** The control plane derives a partition's tag from its leader and replica ids, and so these follow from it. */
  ghost predicate TagsNameServers(old': DataServers, ds: DataServers)
    requires Valid(old') && Valid(ds)
  {
    forall pid :: SameTag(old', ds, pid) ==>
      old'.partitions[pid].value.leader == ds.partitions[pid].value.leader &&
      old'.partitions[pid].value.replicas == ds.partitions[pid].value.replicas
  }

  /** The leader and the replicas of a partition have the addresses they had. */
  predicate AddressesKept(old': DataServers, ds: DataServers, pid: nat)
    requires pid in ds.partitions && ds.partitions[pid].Some?
  {
    var p := ds.partitions[pid].value;
    AddressOf(old', p.leader) == AddressOf(ds, p.leader) &&
    forall id :: id in p.replicas ==> AddressOf(old', id) == AddressOf(ds, id)
  }

  /** With such tags, entries are right exactly if no server of a partition with an unchanged tag has moved. */
  lemma {:induction false} AddressesExact(old': DataServers, ds: DataServers)
    requires Valid(old') && Valid(ds) && TagsNameServers(old', ds)
    ensures TagsTell(old', ds) <==> forall pid :: SameTag(old', ds, pid) ==> AddressesKept(old', ds, pid)
  {
    forall pid | SameTag(old', ds, pid)
      ensures Resolve(old', pid) == Resolve(ds, pid) <==> AddressesKept(old', ds, pid)
    {
      EntryExact(old', ds, pid);
    }
  }

  lemma {:induction false} EntryExact(old': DataServers, ds: DataServers, pid: nat)
    requires Valid(old') && Valid(ds) && SameTag(old', ds, pid)
    requires old'.partitions[pid].value.leader == ds.partitions[pid].value.leader
    requires old'.partitions[pid].value.replicas == ds.partitions[pid].value.replicas
    ensures Resolve(old', pid) == Resolve(ds, pid) <==> AddressesKept(old', ds, pid)
  {
    var p, a, b := ds.partitions[pid].value, Resolve(old', pid), Resolve(ds, pid);
    if AddressesKept(old', ds, pid) {
      assert Addresses(old', p.replicas) == Addresses(ds, p.replicas);
    }
    if a == b {
      forall id | id in p.replicas ensures AddressOf(old', id) == AddressOf(ds, id) {
        assert a.replicaMap[id] == b.replicaMap[id];
      }
    }
  }

  /** And then they do: the table keeps sending requests to the old address. */
  lemma {:induction false} MovedServerGoesStale() returns (old': DataServers, ds: DataServers)
    ensures Valid(old') && Valid(ds) && TagsNameServers(old', ds)
    ensures 0 in Update(Rebuild(old'), ds) && 0 in Rebuild(ds)
    ensures Update(Rebuild(old'), ds)[0].leader == "a" && Rebuild(ds)[0].leader == "b"
  {
    var part := Part(0, "t", 1, []);
    old' := DataServers("x", map[1 := Some(Server(1, "a"))], map[0 := Some(part)], 1, "{}");
    ds := DataServers("y", map[1 := Some(Server(1, "b"))], map[0 := Some(part)], 1, "{}");
    assert PartOk(old', 0) && PartOk(ds, 0) && ServerOk(old', 1) && ServerOk(ds, 1);
    assert Reusable(Rebuild(old'), ds, 0);
  }
}
