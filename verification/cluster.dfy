/** What the gossip peer reports about other nodes. The cluster package itself is not
    part of this model; these are the fields of its peer state that the ruler and the
    querier read. */
module Cluster {

  /** A label of a time series or of a node (`labels.Label`, `storepb.Label`). */
  datatype Label = Label(name: string, value: string)

  /** Labels and the time range of the data a peer holds. */
  datatype PeerMetadata = PeerMetadata(labels: seq<Label>, minTime: int, maxTime: int)

  /** One peer as gossip last saw it: the addresses it advertises and its metadata. */
  datatype PeerState = PeerState(queryAPIAddr: string, storeAPIAddr: string, metadata: PeerMetadata)
}
