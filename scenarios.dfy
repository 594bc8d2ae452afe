/** Whole runs of one server instance, from fresh state, stated as what an
    observer of the sockets and of the record store sees. */
module Scenarios {
  import opened Options
  import opened Messages
  import opened PartyStore
  import opened WatchParty

  /** Party "p1" is created by host "h1"; a guest and the host join; the host
      disconnects. Once the published termination reaches the subscriber,
      the guest receives the termination message and is then closed with
      1000 "party ended by host"; the room and the record are gone. The same
      message delivered again does nothing. */
  method HostDepartureEndsParty() returns (guestFrames: seq<Frame>, roomRemains: bool, recordRemains: bool, replayFrames: seq<Frame>)
    ensures |guestFrames| == 2
    ensures guestFrames[0].Text? && guestFrames[0].msg == EndMessage && guestFrames[0].to.userId == "guest"
    ensures guestFrames[1] == Closed(guestFrames[0].to, 1000, "party ended by host")
    ensures !roomRemains && !recordRemains
    ensures replayFrames == []
  {
    var store := new Store();
    var server := new Server(store, "http://localhost:8080");
    var created := server.CreateParty("p1", Some("42"), Some("h1"), "2024-01-01T00:00:00.000Z");
    var guest := server.Join(Some("p1"), Some("guest"));
    var hostConn := server.Join(Some("p1"), Some("h1"));
    assert server.rooms["p1"] == {guest.value, hostConn.value};
    server.Close(hostConn.value);
    assert server.rooms["p1"] == {guest.value};
    assert server.bus == [(Channel("controls", "p1"), EndMessage)];
    PartyOfChannelRoundTrip("controls", "p1");
    var before := |server.outbox|;
    var recipients := server.Deliver();
    EnumerationOfSingleton(recipients, guest.value);
    TerminationTearsDown(map["p1" := {guest.value}], Channel("controls", "p1"), EndMessage, recipients);
    guestFrames := server.outbox[before..];
    roomRemains := "p1" in server.rooms;
    recordRemains := Key("p1") in store.records;
    var mark := |server.outbox|;
    var again := server.OnPublished(Channel("controls", "p1"), EndMessage);
    replayFrames := server.outbox[mark..];
  }

  /** A playback update followed by a read returns the new position and state
      with the original media and host; the update's plain SET has dropped the
      record's 24-hour expiry. */
  method UpdateThenGet() returns (got: Result<Party>, expiryKept: bool)
    ensures got.Ok? && got.value.timestamp == 125.5 && got.value.playbackState == "playing"
    ensures got.Ok? && got.value.mediaId == "42" && got.value.hostId == "h1"
    ensures !expiryKept
  {
    var store := new Store();
    var server := new Server(store, "http://localhost:8080");
    var created := server.CreateParty("p1", Some("42"), Some("h1"), "2024-01-01T00:00:00.000Z");
    var updated := server.UpdatePartyState("p1", Some(125.5), Some("playing"));
    got := server.GetParty("p1");
    expiryKept := Key("p1") in store.ttl;
  }

  /** Any member, not only the host, can end the room: a guest who sends the
      termination control message gets the host's socket closed and the room
      removed, while the stored record stays. */
  method GuestCanEndRoom() returns (hostClosed: bool, roomRemains: bool, recordRemains: bool)
    ensures hostClosed && !roomRemains && recordRemains
  {
    var store := new Store();
    var server := new Server(store, "http://localhost:8080");
    var created := server.CreateParty("p1", Some("42"), Some("h1"), "2024-01-01T00:00:00.000Z");
    var hostConn := server.Join(Some("p1"), Some("h1"));
    var guest := server.Join(Some("p1"), Some("guest"));
    server.Inbound(guest.value, Some(EndMessage));
    PartyOfChannelRoundTrip("controls", "p1");
    var before := |server.outbox|;
    var recipients := server.Deliver();
    var room := {hostConn.value, guest.value};
    TerminationTearsDown(map["p1" := room], Channel("controls", "p1"), EndMessage, recipients);
    assert hostConn.value in recipients;
    var k :| 0 <= k < |recipients| && recipients[k] == hostConn.value;
    hostClosed := Closed(hostConn.value, EndCode, EndReason) in server.outbox[before..];
    assert server.outbox[before..][|recipients| + k] == Closed(hostConn.value, EndCode, EndReason);
    roomRemains := "p1" in server.rooms;
    recordRemains := Key("p1") in store.records;
  }

  /** A socket joined with party id "a:b" publishes a chat message on
      "party-chat:a:b", which the subscriber reads as party "a": the member of
      room "a" receives it. */
  method ColonPartyIdReachesOtherRoom() returns (frames: seq<Frame>)
    ensures |frames| == 1 && frames[0].Text? && frames[0].to.partyId == "a"
  {
    var store := new Store();
    var server := new Server(store, "http://localhost:8080");
    var victim := server.Join(Some("a"), Some("alice"));
    var intruder := server.Join(Some("a:b"), Some("mallory"));
    var chat := Payload(Some("chat"), None, None, None);
    RouteOfChat("a:b", chat);
    server.Inbound(intruder.value, Some(chat));
    assert server.bus == [(Channel("chat", "a:b"), chat)];
    ColonInPartyIdMisroutes();
    assert server.rooms["a"] == {victim.value};
    assert TargetRoom(server.rooms, Channel("chat", "a:b")) == Some("a");
    var before := |server.outbox|;
    var recipients := server.Deliver();
    assert !IsTermination(chat) by {
      assert chat.message == None;
    }
    PlainFanoutToOne(recipients, victim.value, chat);
    frames := server.outbox[before..];
  }
}
