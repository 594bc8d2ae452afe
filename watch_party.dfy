/** The watch-party relay of one server instance: the room registry
    (`partyRooms`, a map from party id to the set of its sockets), the
    WebSocket connection, message and close handlers, the pattern
    subscriber that fans published messages out to local rooms, and the
    party endpoints over the shared record store.

    The publish/subscribe bus is a queue of published (channel, message)
    pairs that `Deliver` drains; frames written to sockets and socket closes
    are appended to an outbox; analytics events to an event log. */
module WatchParty {
  import opened Options
  import opened Messages
  import opened PartyStore

  /** An accepted socket with the party and user it joined as; `id` tells
      apart sockets that share both. */
  datatype Conn = Conn(id: nat, partyId: string, userId: string)

  /** What the server does to sockets. */
  datatype Frame =
    | Text(to: Conn, msg: Payload)
    | Welcome(to: Conn)
    | Closed(to: Conn, code: nat, reason: string)
    | Rejected(partyId: Option<string>, userId: Option<string>)

  /** The HTTP error answers: 400 and 404. */
  datatype Status = BadRequest | NotFound

  datatype Result<T> = Ok(value: T) | Err(status: Status)

  /** The body of a 201 answer to party creation. */
  datatype Created = Created(id: string, url: string, party: Party)

  type Rooms = map<string, set<Conn>>

  /** Every room holds only sockets that joined its party. */
  predicate RoomsKeyed(rooms: Rooms) {
    forall p, c :: p in rooms && c in rooms[p] ==> c.partyId == p
  }

  /** A socket sits in at most one room. */
  lemma AtMostOneRoom(rooms: Rooms, p: string, q: string, c: Conn)
    requires RoomsKeyed(rooms)
    requires p in rooms && q in rooms && c in rooms[p] && c in rooms[q]
    ensures p == q
  {
  }

  predicate Distinct(xs: seq<Conn>) {
    forall i, j :: 0 <= i < j < |xs| ==> xs[i] != xs[j]
  }

  /** `xs` lists each member of `s` exactly once: the order in which
      `for (const client of room)` visits the set. */
  predicate IsEnumeration(xs: seq<Conn>, s: set<Conn>) {
    Distinct(xs) && (forall c :: c in xs ==> c in s) && (forall c :: c in s ==> c in xs)
  }

  /** The iteration order of a set of sockets. */
  method Enumerate(s: set<Conn>) returns (xs: seq<Conn>)
    ensures IsEnumeration(xs, s)
  {
    xs := [];
    var rest := s;
    while rest != {}
      invariant rest <= s
      invariant forall c :: c in s <==> c in rest || c in xs
      invariant forall c :: c in xs ==> c !in rest
      invariant Distinct(xs)
      decreases rest
    {
      var c :| c in rest;
      xs := xs + [c];
      rest := rest - {c};
    }
  }

  /** The only listing of a one-member set is that member. */
  lemma EnumerationOfSingleton(xs: seq<Conn>, c: Conn)
    requires IsEnumeration(xs, {c})
    ensures xs == [c]
  {
    assert c in xs;
    forall j | 0 <= j < |xs|
      ensures xs[j] == c
    {
      assert xs[j] in xs;
    }
    assert xs[0] == c && xs[|xs| - 1] == c;
  }

  /** The messages `client.send(message)` writes, one per socket in order. */
  function TextFrames(order: seq<Conn>, m: Payload): seq<Frame> {
    if order == [] then [] else TextFrames(order[..|order| - 1], m) + [Text(order[|order| - 1], m)]
  }

  /** The closes `client.close(1000, "party ended by host")` performs. */
  function CloseFrames(order: seq<Conn>): seq<Frame> {
    if order == [] then [] else CloseFrames(order[..|order| - 1]) + [Closed(order[|order| - 1], EndCode, EndReason)]
  }

  lemma {:induction false} TextFramesAt(order: seq<Conn>, m: Payload)
    ensures |TextFrames(order, m)| == |order|
    ensures forall i :: 0 <= i < |order| ==> TextFrames(order, m)[i] == Text(order[i], m)
  {
    if order != [] {
      TextFramesAt(order[..|order| - 1], m);
    }
  }

  lemma {:induction false} CloseFramesAt(order: seq<Conn>)
    ensures |CloseFrames(order)| == |order|
    ensures forall i :: 0 <= i < |order| ==> CloseFrames(order)[i] == Closed(order[i], EndCode, EndReason)
  {
    if order != [] {
      CloseFramesAt(order[..|order| - 1]);
    }
  }

  /** The room a message published on `channel` is fanned out to, if this
      instance has it. */
  function TargetRoom(rooms: Rooms, channel: string): (r: Option<string>)
    ensures r.Some? ==> r.value in rooms && PartyOfChannel(channel) == r
    ensures r.None? ==> PartyOfChannel(channel).None? || PartyOfChannel(channel).value !in rooms
  {
    var p := PartyOfChannel(channel);
    if p.Some? && p.value in rooms then p else None
  }

  /** Everything the subscriber does to sockets for one message, given the
      order in which it visits the room: the message to every member, then,
      for a termination message, a close of every member. */
  function FanoutFrames(order: seq<Conn>, m: Payload): seq<Frame> {
    TextFrames(order, m) + (if IsTermination(m) then CloseFrames(order) else [])
  }

  /** A message other than the termination, reaching a room of one member,
      sends that member exactly one frame. */
  lemma PlainFanoutToOne(order: seq<Conn>, c: Conn, m: Payload)
    requires IsEnumeration(order, {c}) && !IsTermination(m)
    ensures FanoutFrames(order, m) == [Text(c, m)]
  {
    EnumerationOfSingleton(order, c);
    TextFramesAt(order, m);
  }

  /** The registry after the subscriber handled one message: a termination
      message removes the room it reached. */
  function RoomsAfter(rooms: Rooms, channel: string, m: Payload): Rooms {
    var target := TargetRoom(rooms, channel);
    if target.Some? && IsTermination(m) then rooms - {target.value} else rooms
  }

  /** Each member receives the message exactly once. */
  lemma {:induction false} SentExactlyOnce(order: seq<Conn>, m: Payload, c: Conn)
    requires Distinct(order)
    ensures multiset(FanoutFrames(order, m))[Text(c, m)] == if c in order then 1 else 0
  {
    TextFramesAt(order, m);
    CloseFramesAt(order);
    if IsTermination(m) {
      assert Text(c, m) !in CloseFrames(order);
    }
    TextCount(order, m, c);
  }

  lemma {:induction false} TextCount(order: seq<Conn>, m: Payload, c: Conn)
    requires Distinct(order)
    ensures multiset(TextFrames(order, m))[Text(c, m)] == if c in order then 1 else 0
  {
    if order != [] {
      var init := order[..|order| - 1];
      TextCount(init, m, c);
      assert order == init + [order[|order| - 1]];
      assert c == order[|order| - 1] ==> c !in init;
    }
  }

  /** Every frame of a fan-out goes to a member of the room visited. */
  lemma FanoutAddressedToOrder(order: seq<Conn>, m: Payload)
    ensures forall i :: 0 <= i < |FanoutFrames(order, m)| ==>
      (FanoutFrames(order, m)[i].Text? || FanoutFrames(order, m)[i].Closed?) && FanoutFrames(order, m)[i].to in order
  {
    TextFramesAt(order, m);
    CloseFramesAt(order);
    var f := FanoutFrames(order, m);
    forall i | 0 <= i < |f|
      ensures (f[i].Text? || f[i].Closed?) && f[i].to in order
    {
      if i >= |order| {
        assert f[i] == CloseFrames(order)[i - |order|];
      }
    }
  }

  /** Room isolation: a message published for party P reaches no socket of
      any other room. */
  lemma RoomIsolation(rooms: Rooms, channel: string, m: Payload, order: seq<Conn>, q: string, c: Conn)
    requires RoomsKeyed(rooms)
    requires TargetRoom(rooms, channel).Some?
    requires IsEnumeration(order, rooms[TargetRoom(rooms, channel).value])
    requires q in rooms && q != TargetRoom(rooms, channel).value && c in rooms[q]
    ensures forall i :: 0 <= i < |FanoutFrames(order, m)| ==>
      (FanoutFrames(order, m)[i].Text? || FanoutFrames(order, m)[i].Closed?) && FanoutFrames(order, m)[i].to != c
  {
    FanoutAddressedToOrder(order, m);
    assert c !in order;
  }

  /** Termination: every member first receives the message and is then
      closed with code 1000, all sends coming before all closes; the room is
      gone afterwards and every other room is as it was. */
  lemma TerminationTearsDown(rooms: Rooms, channel: string, m: Payload, order: seq<Conn>)
    requires IsTermination(m) && TargetRoom(rooms, channel).Some?
    requires IsEnumeration(order, rooms[TargetRoom(rooms, channel).value])
    ensures var f := FanoutFrames(order, m);
      |f| == 2 * |order| &&
      (forall k :: 0 <= k < |order| ==> f[k] == Text(order[k], m) && f[|order| + k] == Closed(order[k], 1000, "party ended by host"))
    ensures TargetRoom(rooms, channel).value !in RoomsAfter(rooms, channel, m)
    ensures forall q :: q in rooms && q != TargetRoom(rooms, channel).value ==>
      q in RoomsAfter(rooms, channel, m) && RoomsAfter(rooms, channel, m)[q] == rooms[q]
  {
    TextFramesAt(order, m);
    CloseFramesAt(order);
  }

  /** A second termination message for the same party finds no room: nothing
      is sent and the registry stays as it is. */
  lemma SecondTerminationIsNoop(rooms: Rooms, channel: string, m: Payload)
    requires IsTermination(m)
    ensures TargetRoom(RoomsAfter(rooms, channel, m), channel).None?
    ensures RoomsAfter(RoomsAfter(rooms, channel, m), channel, m) == RoomsAfter(rooms, channel, m)
  {
  }

  /** A message whose channel names no local room changes nothing. */
  lemma NoRoomNoFanout(rooms: Rooms, channel: string, m: Payload)
    requires TargetRoom(rooms, channel).None?
    ensures RoomsAfter(rooms, channel, m) == rooms
  {
  }

  /** Handling a published message keeps every room keyed by its party. */
  lemma RoomsAfterKeyed(rooms: Rooms, channel: string, m: Payload)
    requires RoomsKeyed(rooms)
    ensures RoomsKeyed(RoomsAfter(rooms, channel, m))
  {
  }

  /** Whether the stored record of the socket's party names its user as
      host. */
  predicate IsHost(records: map<string, Party>, c: Conn) {
    Key(c.partyId) in records && records[Key(c.partyId)].hostId == c.userId
  }

  /** One server instance. */
  class Server {
    var rooms: Rooms
    var nextId: nat
    var bus: seq<(string, Payload)>
    var outbox: seq<Frame>
    var events: seq<Event>
    const store: Store
    const host: string

    ghost predicate Valid()
      reads this
    {
      RoomsKeyed(rooms) && forall p, c :: p in rooms && c in rooms[p] ==> c.id < nextId
    }

    constructor (store: Store, host: string)
      ensures Valid()
      ensures this.store == store && this.host == host
      ensures rooms == map[] && nextId == 0 && bus == [] && outbox == [] && events == []
    {
      this.store := store;
      this.host := host;
      rooms := map[];
      nextId := 0;
      bus := [];
      outbox := [];
      events := [];
    }

    /** `POST /party`: with a media id and a host id, stores a paused record
        at position 0 under `party:<id>` with a 24-hour expiry and answers
        201; otherwise answers 400 and stores nothing. No room is created. */
    method CreateParty(id: string, mediaId: Option<string>, hostId: Option<string>, now: string)
      returns (r: Result<Created>)
      modifies this, store
      ensures rooms == old(rooms) && nextId == old(nextId) && bus == old(bus) && outbox == old(outbox)
      ensures !Present(mediaId) || !Present(hostId) ==>
        r == Err(BadRequest) && events == old(events)
        && store.records == old(store.records) && store.ttl == old(store.ttl)
      ensures Present(mediaId) && Present(hostId) ==>
        var party := NewParty(mediaId.value, hostId.value, now);
        r == Ok(Created(id, host + "/party/" + id, party))
        && store.records == old(store.records)[Key(id) := party]
        && store.ttl == old(store.ttl)[Key(id) := PartyTtlSeconds]
        && events == old(events) + [CreateEvent(hostId.value, id, mediaId.value)]
    {
      if !Present(mediaId) || !Present(hostId) {
        r := Err(BadRequest);
        return;
      }
      var party := NewParty(mediaId.value, hostId.value, now);
      events := events + [CreateEvent(hostId.value, id, mediaId.value)];
      store.Set(Key(id), party);
      store.Expire(Key(id), 60 * 60 * 24);
      r := Ok(Created(id, host + "/party/" + id, party));
    }

    /** `GET /party/:partyId`: the stored record, 404 when there is none. */
    method GetParty(partyId: string) returns (r: Result<Party>)
      ensures partyId == "" ==> r == Err(BadRequest)
      ensures partyId != "" && Key(partyId) !in store.records ==> r == Err(NotFound)
      ensures partyId != "" && Key(partyId) in store.records ==> r == Ok(store.records[Key(partyId)])
    {
      if partyId == "" {
        return Err(BadRequest);
      }
      var found := store.Get(Key(partyId));
      if found.None? {
        return Err(NotFound);
      }
      r := Ok(found.value);
    }

    /** `PUT /party/:partyId/state`: 400 without a position or a state, 404
        without a record; otherwise replaces the position and the state and
        keeps the rest of the record. The plain SET drops the key's expiry. */
    method UpdatePartyState(partyId: string, timestamp: Option<real>, playbackState: Option<string>)
      returns (r: Result<(real, string)>)
      modifies store
      ensures partyId == "" || timestamp.None? || !Present(playbackState) ==>
        r == Err(BadRequest) && store.records == old(store.records) && store.ttl == old(store.ttl)
      ensures partyId != "" && timestamp.Some? && Present(playbackState) && Key(partyId) !in old(store.records) ==>
        r == Err(NotFound) && store.records == old(store.records) && store.ttl == old(store.ttl)
      ensures partyId != "" && timestamp.Some? && Present(playbackState) && Key(partyId) in old(store.records) ==>
        r == Ok((timestamp.value, playbackState.value))
        && store.records == old(store.records)[Key(partyId) :=
             WithPlayback(old(store.records)[Key(partyId)], timestamp.value, playbackState.value)]
        && store.ttl == old(store.ttl) - {Key(partyId)}
    {
      if partyId == "" || timestamp.None? || !Present(playbackState) {
        return Err(BadRequest);
      }
      var found := store.Get(Key(partyId));
      if found.None? {
        return Err(NotFound);
      }
      var updated := WithPlayback(found.value, timestamp.value, playbackState.value);
      store.Set(Key(partyId), updated);
      r := Ok((updated.timestamp, updated.playbackState));
    }

    /** The connection handler: without both a party id and a user id the
        socket is closed and nothing is registered; otherwise the socket
        joins its party's room, which is created when absent, and is
        greeted. Every other room is unchanged. */
    method Join(partyId: Option<string>, userId: Option<string>) returns (c: Option<Conn>)
      requires Valid()
      modifies this
      ensures Valid()
      ensures bus == old(bus)
      ensures !Present(partyId) || !Present(userId) ==>
        c == None && rooms == old(rooms) && nextId == old(nextId)
        && outbox == old(outbox) + [Rejected(partyId, userId)] && events == old(events)
      ensures Present(partyId) && Present(userId) ==>
        var p := partyId.value;
        c == Some(Conn(old(nextId), p, userId.value))
        && (forall q :: q in old(rooms) ==> c.value !in old(rooms)[q])
        && rooms == old(rooms)[p := (if p in old(rooms) then old(rooms)[p] else {}) + {c.value}]
        && outbox == old(outbox) + [Welcome(c.value)]
        && events == old(events) + [JoinEvent(userId.value, p)]
    {
      if !Present(partyId) || !Present(userId) {
        outbox := outbox + [Rejected(partyId, userId)];
        return None;
      }
      var p := partyId.value;
      var conn := Conn(nextId, p, userId.value);
      nextId := nextId + 1;
      if p !in rooms {
        rooms := rooms[p := {}];
      }
      rooms := rooms[p := rooms[p] + {conn}];
      events := events + [JoinEvent(userId.value, p)];
      outbox := outbox + [Welcome(conn)];
      c := Some(conn);
    }

    /** The message handler of socket `c`: a frame that parsed and has a
        relayed type is published unchanged on its channel and logged; any
        other frame is dropped. Nothing is written to local sockets. */
    method Inbound(c: Conn, msg: Option<Payload>)
      requires Valid()
      modifies this
      ensures Valid()
      ensures rooms == old(rooms) && nextId == old(nextId) && outbox == old(outbox)
      ensures Route(c.partyId, msg).None? ==> bus == old(bus) && events == old(events)
      ensures Route(c.partyId, msg).Some? ==>
        bus == old(bus) + [Route(c.partyId, msg).value]
        && events == old(events) + [Engagement(c.userId, c.partyId, msg.value)]
    {
      var routed := Route(c.partyId, msg);
      if routed.Some? {
        bus := bus + [routed.value];
        events := events + [Engagement(c.userId, c.partyId, msg.value)];
      }
    }

    /** The close handler of socket `c`: when its party still has a room,
        removes the socket from it and logs the departure; if the stored
        record names the socket's user as host, publishes the termination
        message on the party's controls channel and deletes the record. */
    method Close(c: Conn)
      requires Valid()
      modifies this, store
      ensures Valid()
      ensures nextId == old(nextId) && outbox == old(outbox)
      ensures c.partyId !in old(rooms) ==>
        rooms == old(rooms) && bus == old(bus) && events == old(events)
        && store.records == old(store.records) && store.ttl == old(store.ttl)
      ensures c.partyId in old(rooms) ==>
        rooms == old(rooms)[c.partyId := old(rooms)[c.partyId] - {c}]
      ensures c.partyId in old(rooms) && IsHost(old(store.records), c) ==>
        bus == old(bus) + [(Channel("controls", c.partyId), EndMessage)]
        && store.records == old(store.records) - {Key(c.partyId)}
        && store.ttl == old(store.ttl) - {Key(c.partyId)}
        && events == old(events) + [LeaveEvent(c.userId, c.partyId), EndEvent(c.userId, c.partyId)]
      ensures c.partyId in old(rooms) && !IsHost(old(store.records), c) ==>
        bus == old(bus) && store.records == old(store.records) && store.ttl == old(store.ttl)
        && events == old(events) + [LeaveEvent(c.userId, c.partyId)]
    {
      var p := c.partyId;
      if p in rooms {
        rooms := rooms[p := rooms[p] - {c}];
        events := events + [LeaveEvent(c.userId, p)];
        var record := store.Get(Key(p));
        if record.Some? && record.value.hostId == c.userId {
          bus := bus + [(Channel("controls", p), EndMessage)];
          store.Del(Key(p));
          events := events + [EndEvent(c.userId, p)];
        }
      }
    }

    /** The pattern subscriber: sends the message to every socket of the
        room its channel names, in the room's order; for a termination
        message then closes each of them with 1000 "party ended by host" and
        removes the room. A channel naming no local room changes nothing. */
    method OnPublished(channel: string, m: Payload) returns (recipients: seq<Conn>)
      requires Valid()
      modifies this
      ensures Valid()
      ensures nextId == old(nextId) && bus == old(bus) && events == old(events)
      ensures TargetRoom(old(rooms), channel).None? ==> recipients == []
      ensures TargetRoom(old(rooms), channel).Some? ==>
        IsEnumeration(recipients, old(rooms)[TargetRoom(old(rooms), channel).value])
      ensures outbox == old(outbox) + FanoutFrames(recipients, m)
      ensures rooms == RoomsAfter(old(rooms), channel, m)
    {
      recipients := [];
      var target := TargetRoom(rooms, channel);
      if target.None? {
        return;
      }
      var p := target.value;
      recipients := Enumerate(rooms[p]);
      SendToAll(recipients, m);
      if IsTermination(m) {
        CloseAll(recipients);
        rooms := rooms - {p};
      }
    }

    /** `for (const client of room) client.send(message)`. */
    method SendToAll(order: seq<Conn>, m: Payload)
      modifies this
      ensures outbox == old(outbox) + TextFrames(order, m)
      ensures rooms == old(rooms) && nextId == old(nextId) && bus == old(bus) && events == old(events)
    {
      for i := 0 to |order|
        invariant outbox == old(outbox) + TextFrames(order[..i], m)
        invariant rooms == old(rooms) && nextId == old(nextId) && bus == old(bus) && events == old(events)
      {
        assert order[..i + 1][..i] == order[..i];
        outbox := outbox + [Text(order[i], m)];
      }
      assert order[..|order|] == order;
    }

    /** `for (const client of room) client.close(1000, "party ended by host")`. */
    method CloseAll(order: seq<Conn>)
      modifies this
      ensures outbox == old(outbox) + CloseFrames(order)
      ensures rooms == old(rooms) && nextId == old(nextId) && bus == old(bus) && events == old(events)
    {
      for i := 0 to |order|
        invariant outbox == old(outbox) + CloseFrames(order[..i])
        invariant rooms == old(rooms) && nextId == old(nextId) && bus == old(bus) && events == old(events)
      {
        assert order[..i + 1][..i] == order[..i];
        outbox := outbox + [Closed(order[i], EndCode, EndReason)];
      }
      assert order[..|order|] == order;
    }

    /** Delivers the oldest published message to this instance's
        subscriber. */
    method Deliver() returns (recipients: seq<Conn>)
      requires Valid()
      modifies this
      ensures Valid()
      ensures nextId == old(nextId) && events == old(events)
      ensures old(bus) == [] ==>
        recipients == [] && bus == [] && rooms == old(rooms) && outbox == old(outbox)
      ensures old(bus) != [] ==>
        var (channel, m) := old(bus)[0];
        bus == old(bus)[1..]
        && (TargetRoom(old(rooms), channel).None? ==> recipients == [])
        && (TargetRoom(old(rooms), channel).Some? ==>
              IsEnumeration(recipients, old(rooms)[TargetRoom(old(rooms), channel).value]))
        && outbox == old(outbox) + FanoutFrames(recipients, m)
        && rooms == RoomsAfter(old(rooms), channel, m)
    {
      if bus == [] {
        return [];
      }
      var (channel, m) := bus[0];
      bus := bus[1..];
      recipients := OnPublished(channel, m);
    }
  }
}
