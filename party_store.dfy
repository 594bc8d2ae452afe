/** The party records kept in the Redis key space: one record per party
    under `party:<id>`, with the expiry Redis keeps per key. Values are held
    as records rather than as their JSON text. */
module PartyStore {
  import opened Options

  /** The stored party record. The playback position is a number of seconds,
      kept as a real. */
  datatype Party = Party(
    mediaId: string, hostId: string, createdAt: string,
    playbackState: string, timestamp: real)

  /** `party:${partyId}`. */
  function Key(partyId: string): string {
    "party:" + partyId
  }

  lemma KeyInjective(p: string, q: string)
    requires Key(p) == Key(q)
    ensures p == q
  {
    assert p == Key(p)[6..];
  }

  /** The expiry given to every new record: 60 * 60 * 24 seconds. */
  const PartyTtlSeconds: nat := 86400

  /** The record a new party starts with: paused at position 0. */
  function NewParty(mediaId: string, hostId: string, createdAt: string): (p: Party)
    ensures p.mediaId == mediaId && p.hostId == hostId && p.createdAt == createdAt
    ensures p.playbackState == "paused" && p.timestamp == 0.0
  {
    Party(mediaId, hostId, createdAt, "paused", 0.0)
  }

  /** A playback-state update: only the position and the state change; the
      media, the host and the creation time are kept. */
  function WithPlayback(p: Party, timestamp: real, playbackState: string): (q: Party)
    ensures q.mediaId == p.mediaId && q.hostId == p.hostId && q.createdAt == p.createdAt
    ensures q.timestamp == timestamp && q.playbackState == playbackState
  {
    p.(timestamp := timestamp, playbackState := playbackState)
  }

  /** Updating twice keeps only the last update (last write wins), and the
      host of a party never changes. */
  lemma LastWriteWins(p: Party, t1: real, s1: string, t2: real, s2: string)
    ensures WithPlayback(WithPlayback(p, t1, s1), t2, s2) == WithPlayback(p, t2, s2)
    ensures WithPlayback(WithPlayback(p, t1, s1), t2, s2).hostId == p.hostId
  {
  }

  /** The key space: stored values, and the remaining time to live of the keys
      that have one. */
  class Store {
    var records: map<string, Party>
    var ttl: map<string, nat>

    constructor ()
      ensures records == map[] && ttl == map[]
    {
      records := map[];
      ttl := map[];
    }

    /** `SET key value`: stores the value and, as Redis does, discards any
        time to live the key had. */
    method Set(key: string, value: Party)
      modifies this
      ensures records == old(records)[key := value]
      ensures ttl == old(ttl) - {key}
    {
      records := records[key := value];
      ttl := ttl - {key};
    }

    /** `EXPIRE key seconds`: gives an existing key a time to live; a missing
        key is left alone. */
    method Expire(key: string, seconds: nat)
      modifies this
      ensures records == old(records)
      ensures ttl == if key in old(records) then old(ttl)[key := seconds] else old(ttl)
    {
      if key in records {
        ttl := ttl[key := seconds];
      }
    }

    /** `GET key`. */
    method Get(key: string) returns (r: Option<Party>)
      ensures r.Some? <==> key in records
      ensures r.Some? ==> r.value == records[key]
    {
      if key in records {
        r := Some(records[key]);
      } else {
        r := None;
      }
    }

    /** `DEL key`. */
    method Del(key: string)
      modifies this
      ensures records == old(records) - {key}
      ensures ttl == old(ttl) - {key}
    {
      records := records - {key};
      ttl := ttl - {key};
    }
  }
}
