/** The querier (cmd/thanos/query.go): the list of store endpoints it fans queries out
    to, assembled from gossip and DNS and deduplicated by address, and the metadata a
    gossip-discovered store reports. */
module Query {
  import opened Wrappers
  import opened Collections
  import opened Cluster
  import opened Flags

  /** A store endpoint: one discovered through gossip (it remembers the peer id, to look
      its metadata up later) or one given statically and resolved through DNS. Both
      constructors share `addr`, which is what `Addr()` returns. */
  datatype StoreSpec = GossipSpec(id: string, addr: string) | GRPCSpec(addr: string)

  function Addrs(specs: seq<StoreSpec>): (r: seq<string>)
    ensures |r| == |specs|
  {
    seq(|specs|, i requires 0 <= i < |specs| => specs[i].addr)
  }

  datatype MetadataError = PeerGone(id: string)   // "peer %s is no longer in gossip cluster"

  /** `gossipSpec.Metadata`: the labels and time range the peer currently gossips, or an
      error once the peer has left the cluster. */
  function Metadata(spec: StoreSpec, states: map<string, PeerState>): (r: Result<PeerMetadata, MetadataError>)
    requires spec.GossipSpec?
    ensures r.Err? <==> spec.id !in states
    ensures r.Err? ==> r.error == PeerGone(spec.id)
    ensures r.Ok? ==> r.value == states[spec.id].metadata
  {
    if spec.id in states then Ok(states[spec.id].metadata) else Err(PeerGone(spec.id))
  }

  /** Metadata follows the peer's gossip state, not the address the spec was built with. */
  lemma MetadataIgnoresAddress(id: string, a: string, b: string, states: map<string, PeerState>)
    ensures Metadata(GossipSpec(id, a), states) == Metadata(GossipSpec(id, b), states)
  {
  }

  /** The spec a map keyed by address holds for `addr` after storing every spec in
      order: the last one with that address. */
  function LastWithAddr(specs: seq<StoreSpec>, addr: string): (r: Option<StoreSpec>)
    ensures r.Some? <==> addr in Addrs(specs)
    ensures r.Some? ==> r.value in specs && r.value.addr == addr
  {
    if |specs| == 0 then None
    else
      var p := specs[..|specs| - 1];
      assert Addrs(specs) == Addrs(p) + [specs[|specs| - 1].addr];
      if specs[|specs| - 1].addr == addr then Some(specs[|specs| - 1])
      else LastWithAddr(p, addr)
  }

  /** No later spec has the address of the one kept. */
  lemma {:induction false} LastWithAddrIsLast(specs: seq<StoreSpec>, addr: string)
    requires LastWithAddr(specs, addr).Some?
    ensures exists i :: 0 <= i < |specs| && specs[i] == LastWithAddr(specs, addr).value
                        && forall j :: i < j < |specs| ==> specs[j].addr != addr
  {
    var n := |specs| - 1;
    var p := specs[..n];
    if specs[n].addr == addr {
      assert LastWithAddr(specs, addr).value == specs[n];
    } else {
      assert LastWithAddr(specs, addr) == LastWithAddr(p, addr);
      LastWithAddrIsLast(p, addr);
      var i :| 0 <= i < |p| && p[i] == LastWithAddr(p, addr).value
               && forall j :: i < j < |p| ==> p[j].addr != addr;
      assert specs[i] == p[i];
      forall j | i < j < |specs| ensures specs[j].addr != addr {
        if j < n {
          assert specs[j] == p[j];
        }
      }
    }
  }

  /** Specs appended later win over earlier ones with the same address. */
  lemma {:induction false} LastWithAddrInSuffix(pre: seq<StoreSpec>, suf: seq<StoreSpec>, addr: string)
    requires addr in Addrs(suf)
    ensures LastWithAddr(pre + suf, addr) == LastWithAddr(suf, addr)
  {
    var q, last := suf[..|suf| - 1], suf[|suf| - 1];
    assert suf == q + [last];
    assert pre + suf == (pre + q) + [last];
    LastWithAddrSnoc(q, last);
    LastWithAddrSnoc(pre + q, last);
    if last.addr != addr {
      LastWithAddrInSuffix(pre, q, addr);
    }
  }

  /** `removeDuplicateStoreSpecs`: one spec per address, the last one given for it, in
      the unspecified order of a Go map; `duplicates` is how often the duplicate
      counter was incremented. */
  method RemoveDuplicateStoreSpecs(specs: seq<StoreSpec>) returns (deduplicated: seq<StoreSpec>, duplicates: nat)
    ensures NoDuplicates(Addrs(deduplicated))
    ensures ToSet(Addrs(deduplicated)) == ToSet(Addrs(specs))
    ensures forall k :: 0 <= k < |deduplicated| ==> LastWithAddr(specs, deduplicated[k].addr) == Some(deduplicated[k])
    ensures duplicates == RepeatCount(Addrs(specs))
    ensures duplicates == |specs| - |deduplicated|
  {
    var set_;
    set_, duplicates := IndexByAddr(specs);
    var keys := SetToSeq(set_.Keys);
    deduplicated := [];
    for k := 0 to |keys|
      invariant |deduplicated| == k
      invariant forall m :: 0 <= m < k ==> deduplicated[m] == set_[keys[m]]
    {
      deduplicated := deduplicated + [set_[keys[k]]];
    }
    assert Addrs(deduplicated) == keys;
    RepeatCountIsExcess(Addrs(specs));
    DistinctCount(keys);
  }

  /** The first loop of `removeDuplicateStoreSpecs`: the map from address to the last
      spec with it, and the number of specs whose address was already in the map. */
  method IndexByAddr(specs: seq<StoreSpec>) returns (set_: map<string, StoreSpec>, duplicates: nat)
    ensures set_.Keys == ToSet(Addrs(specs))
    ensures forall a :: a in set_ ==> LastWithAddr(specs, a) == Some(set_[a])
    ensures duplicates == RepeatCount(Addrs(specs))
  {
    set_ := map[];
    duplicates := 0;
    for i := 0 to |specs|
      invariant set_.Keys == ToSet(Addrs(specs[..i]))
      invariant IndexesLast(set_, specs[..i])
      invariant duplicates == RepeatCount(Addrs(specs[..i]))
    {
      var addr := specs[i].addr;
      assert specs[..i + 1] == specs[..i] + [specs[i]];
      IndexesLastSnoc(set_, specs[..i], specs[i]);
      ToSetSnoc(Addrs(specs[..i]), addr);
      RepeatCountSnoc(Addrs(specs[..i]), addr);
      assert addr in set_ <==> addr in Addrs(specs[..i]);
      if addr in set_ {
        duplicates := duplicates + 1;
      }
      set_ := set_[addr := specs[i]];
    }
    assert specs[..|specs|] == specs;
  }

  /** Each address of `set_` maps to the last spec of `specs` with that address. */
  predicate IndexesLast(set_: map<string, StoreSpec>, specs: seq<StoreSpec>) {
    forall a :: a in set_ ==> LastWithAddr(specs, a) == Some(set_[a])
  }

  lemma IndexesLastSnoc(set_: map<string, StoreSpec>, p: seq<StoreSpec>, s: StoreSpec)
    requires IndexesLast(set_, p)
    ensures IndexesLast(set_[s.addr := s], p + [s])
    ensures Addrs(p + [s]) == Addrs(p) + [s.addr]
  {
    LastWithAddrSnoc(p, s);
  }

  /** Storing one more spec in the map. */
  lemma LastWithAddrSnoc(p: seq<StoreSpec>, s: StoreSpec)
    ensures Addrs(p + [s]) == Addrs(p) + [s.addr]
    ensures forall a :: LastWithAddr(p + [s], a) == if s.addr == a then Some(s) else LastWithAddr(p, a)
  {
    assert (p + [s])[..|p|] == p;
  }

  /** The spec list the querier's store set asks for, as the closure passed to
      `query.NewStoreSet` builds it: one gossip spec per store peer that advertises an
      address (peers visited in map order), one gRPC spec per DNS-resolved address,
      then deduplicated. `peers` holds the states of store-API peer types only. */
  method AssembleStoreSpecs(peers: map<string, PeerState>, dnsAddrs: seq<string>)
    returns (specs: seq<StoreSpec>, duplicates: nat)
    ensures NoDuplicates(Addrs(specs))
    ensures ToSet(Addrs(specs)) ==
      (set id | id in peers && peers[id].storeAPIAddr != "" :: peers[id].storeAPIAddr) + ToSet(dnsAddrs)
    ensures forall s :: s in specs && s.GossipSpec? ==>
      s.id in peers && s.addr == peers[s.id].storeAPIAddr && s.addr != ""
    ensures forall s :: s in specs && s.GRPCSpec? ==> s.addr in dnsAddrs
    ensures forall a :: a in dnsAddrs ==> GRPCSpec(a) in specs
    ensures duplicates == |set id | id in peers && peers[id].storeAPIAddr != ""| + |dnsAddrs| - |specs|
  {
    var ids := SetToSeq(peers.Keys);
    var gossip: seq<StoreSpec> := [];
    for i := 0 to |ids|
      invariant forall s :: s in gossip ==> s.GossipSpec? && s.id in peers && s.addr == peers[s.id].storeAPIAddr && s.addr != ""
      invariant ToSet(Addrs(gossip)) ==
        (set id | id in ids[..i] && peers[id].storeAPIAddr != "" :: peers[id].storeAPIAddr)
      invariant |gossip| == |set id | id in ids[..i] && peers[id].storeAPIAddr != ""|
    {
      assert ids[i] in ToSet(ids);
      var ps := peers[ids[i]];
      assert ids[..i + 1] == ids[..i] + [ids[i]];
      GossipIdsSnoc(peers, ids, i);
      if ps.storeAPIAddr == "" {
        continue;
      }
      var spec := GossipSpec(ids[i], ps.storeAPIAddr);
      assert Addrs(gossip + [spec]) == Addrs(gossip) + [spec.addr];
      ToSetSnoc(Addrs(gossip), spec.addr);
      gossip := gossip + [spec];
    }
    assert ids[..|ids|] == ids;
    GossipIdsAll(peers, ids);
    var grpc: seq<StoreSpec> := [];
    for i := 0 to |dnsAddrs|
      invariant grpc == seq(i, k requires 0 <= k < i => GRPCSpec(dnsAddrs[k]))
    {
      grpc := grpc + [GRPCSpec(dnsAddrs[i])];
    }
    var all := gossip + grpc;
    specs, duplicates := RemoveDuplicateStoreSpecs(all);
    AssembledSpecsProperties(peers, ids, gossip, grpc, dnsAddrs, specs);
  }

  /** The store peers with an address among the first `i + 1` ids: one more than among
      the first `i` when the next id has an address, since ids do not repeat. */
  lemma GossipIdsSnoc(peers: map<string, PeerState>, ids: seq<string>, i: nat)
    requires i < |ids| && NoDuplicates(ids) && ToSet(ids) == peers.Keys
    ensures var before := set id | id in ids[..i] && peers[id].storeAPIAddr != "";
      var after := set id | id in ids[..i + 1] && peers[id].storeAPIAddr != "";
      |after| == |before| + (if peers[ids[i]].storeAPIAddr != "" then 1 else 0)
  {
    assert ids[i] in ToSet(ids);
    var before := set id | id in ids[..i] && peers[id].storeAPIAddr != "";
    var after := set id | id in ids[..i + 1] && peers[id].storeAPIAddr != "";
    assert ids[i] !in ids[..i];
    assert ids[..i + 1] == ids[..i] + [ids[i]];
    if peers[ids[i]].storeAPIAddr != "" {
      assert after == before + {ids[i]};
    } else {
      assert after == before;
    }
  }

  lemma GossipIdsAll(peers: map<string, PeerState>, ids: seq<string>)
    requires ToSet(ids) == peers.Keys
    ensures (set id | id in ids && peers[id].storeAPIAddr != "") ==
            (set id | id in peers && peers[id].storeAPIAddr != "")
  {
    forall id ensures id in ids <==> id in peers {
      assert id in ids <==> id in ToSet(ids);
    }
  }

  lemma AssembledSpecsProperties(peers: map<string, PeerState>, ids: seq<string>,
                                 gossip: seq<StoreSpec>, grpc: seq<StoreSpec>,
                                 dnsAddrs: seq<string>, specs: seq<StoreSpec>)
    requires ToSet(ids) == peers.Keys
    requires forall s :: s in gossip ==> s.GossipSpec? && s.id in peers && s.addr == peers[s.id].storeAPIAddr && s.addr != ""
    requires ToSet(Addrs(gossip)) == (set id | id in ids && peers[id].storeAPIAddr != "" :: peers[id].storeAPIAddr)
    requires grpc == seq(|dnsAddrs|, k requires 0 <= k < |dnsAddrs| => GRPCSpec(dnsAddrs[k]))
    requires ToSet(Addrs(specs)) == ToSet(Addrs(gossip + grpc))
    requires forall k :: 0 <= k < |specs| ==> LastWithAddr(gossip + grpc, specs[k].addr) == Some(specs[k])
    ensures ToSet(Addrs(specs)) ==
      (set id | id in peers && peers[id].storeAPIAddr != "" :: peers[id].storeAPIAddr) + ToSet(dnsAddrs)
    ensures forall s :: s in specs && s.GossipSpec? ==>
      s.id in peers && s.addr == peers[s.id].storeAPIAddr && s.addr != ""
    ensures forall s :: s in specs && s.GRPCSpec? ==> s.addr in dnsAddrs
    ensures forall a :: a in dnsAddrs ==> GRPCSpec(a) in specs
  {
    var all := gossip + grpc;
    assert Addrs(grpc) == dnsAddrs;
    assert Addrs(all) == Addrs(gossip) + dnsAddrs;
    assert forall a :: a in Addrs(all) <==> a in Addrs(gossip) || a in dnsAddrs;
    assert (set id | id in ids && peers[id].storeAPIAddr != "" :: peers[id].storeAPIAddr)
        == (set id | id in peers && peers[id].storeAPIAddr != "" :: peers[id].storeAPIAddr) by {
      forall id ensures id in ids <==> id in peers {
        assert id in ids <==> id in ToSet(ids);
      }
    }
    forall s | s in specs
      ensures s.GossipSpec? ==> s.id in peers && s.addr == peers[s.id].storeAPIAddr && s.addr != ""
      ensures s.GRPCSpec? ==> s.addr in dnsAddrs
    {
      var k :| 0 <= k < |specs| && specs[k] == s;
      assert s in all;
    }
    forall a | a in dnsAddrs ensures GRPCSpec(a) in specs {
      var j :| 0 <= j < |dnsAddrs| && dnsAddrs[j] == a;
      assert a in Addrs(grpc);
      LastWithAddrInSuffix(gossip, grpc, a);
      var s := LastWithAddr(grpc, a).value;
      assert s in grpc;
      assert a in ToSet(Addrs(specs));
      var k :| 0 <= k < |Addrs(specs)| && Addrs(specs)[k] == a;
      assert specs[k].addr == a;
      assert specs[k] == s;
    }
  }

  /** The `--store` check at start-up: the first address given twice stops the querier. */
  method CheckStoreFlags(stores: seq<string>) returns (err: Option<FlagError>)
    ensures err.None? <==> NoDuplicates(stores)
    ensures err.Some? ==> err.value.flag == "--store"
    ensures err.Some? ==>
      exists j :: 0 <= j < |stores| && stores[j] == err.value.addr
                  && err.value.addr in stores[..j] && NoDuplicates(stores[..j])
  {
    var dup := FindDuplicateFlag(stores);
    if dup.Some? {
      return Some(DuplicatedAddress(dup.value, "--store"));
    }
    return None;
  }
}
