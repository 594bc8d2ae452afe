/** Relay messages of the watch party: which inbound frames are published,
    on which channel, how the subscriber reads the party back out of the
    channel name, and the analytics events the server emits. */
module Messages {
  import opened Options
  import Strings

  /** An inbound frame after `JSON.parse`: the fields the server reads. None
      is an absent field. */
  datatype Payload = Payload(
    msgType: Option<string>, message: Option<string>,
    username: Option<string>, userId: Option<string>)

  /** The four message types that are relayed. */
  predicate IsRelayType(t: Option<string>) {
    t.Some? && (t.value == "controls" || t.value == "chat" || t.value == "user_joined" || t.value == "user_left")
  }

  /** `party-${type}:${partyId}`. */
  function Channel(msgType: string, partyId: string): string {
    "party-" + msgType + ":" + partyId
  }

  /** The channel patterns the subscriber registers, `party-<type>:*`. */
  predicate Subscribed(channel: string) {
    "party-controls:" <= channel || "party-chat:" <= channel
    || "party-user_joined:" <= channel || "party-user_left:" <= channel
  }

  /** Every channel a relay type is published on matches a subscribed
      pattern. */
  lemma ChannelSubscribed(msgType: string, partyId: string)
    requires IsRelayType(Some(msgType))
    ensures Subscribed(Channel(msgType, partyId))
  {
    var pattern := "party-" + msgType + ":";
    assert Channel(msgType, partyId) == pattern + partyId;
    assert pattern <= Channel(msgType, partyId);
  }

  /** `channel.split(":")[1]`: the party a published message is fanned out
      to; None is `undefined`, which names no room. */
  function PartyOfChannel(channel: string): (r: Option<string>)
    ensures r.Some? <==> ':' in channel
  {
    Strings.SecondField(channel, ':')
  }

  /** The channel of a relay type names the party back whenever the party id
      holds no ':'. */
  lemma {:induction false} PartyOfChannelRoundTrip(msgType: string, partyId: string)
    requires IsRelayType(Some(msgType)) && ':' !in partyId
    ensures PartyOfChannel(Channel(msgType, partyId)) == Some(partyId)
  {
    var prefix := "party-" + msgType;
    assert ':' !in prefix;
    assert Channel(msgType, partyId) == prefix + [':'] + partyId;
    Strings.SplitOfJoined(prefix, ':', partyId);
    Strings.BeforeOfPlain(partyId, ':');
  }

  lemma ChannelRoundTripWhenPlain(msgType: string, partyId: string)
    requires IsRelayType(Some(msgType))
    ensures ':' !in partyId ==> PartyOfChannel(Channel(msgType, partyId)) == Some(partyId)
  {
    if ':' !in partyId {
      PartyOfChannelRoundTrip(msgType, partyId);
    }
  }

  /** A party id that holds ':' is read back cut short: a chat message of party
      "a:b" is fanned out to the room of party "a". */
  lemma ColonInPartyIdMisroutes()
    ensures PartyOfChannel(Channel("chat", "a:b")) == Some("a")
  {
    var prefix := "party-chat";
    assert Channel("chat", "a:b") == prefix + [':'] + "a:b";
    Strings.SplitOfJoined(prefix, ':', "a:b");
    assert "a:b" == "a" + [':'] + "b";
    Strings.SplitOfJoined("a", ':', "b");
  }

  /** In general the party read back from a relay channel is the party id up
      to its first ':'. */
  lemma {:induction false} PartyOfChannelCutsAtColon(msgType: string, partyId: string)
    requires IsRelayType(Some(msgType))
    ensures PartyOfChannel(Channel(msgType, partyId)) == Some(Strings.Before(partyId, ':'))
  {
    var prefix := "party-" + msgType;
    assert ':' !in prefix;
    assert Channel(msgType, partyId) == prefix + [':'] + partyId;
    Strings.SplitOfJoined(prefix, ':', partyId);
  }

  /** The message handler's routing decision: publish the payload unchanged
      on its type's channel when it parsed and its type is relayed, otherwise
      drop it. */
  function Route(partyId: string, msg: Option<Payload>): (r: Option<(string, Payload)>)
    ensures r.Some? <==> msg.Some? && IsRelayType(msg.value.msgType)
    ensures r.Some? ==> r.value.0 == Channel(msg.value.msgType.value, partyId)
    ensures r.Some? ==> r.value.1 == msg.value && Subscribed(r.value.0)
    ensures r.Some? && ':' !in partyId ==> PartyOfChannel(r.value.0) == Some(partyId)
  {
    if msg.Some? && IsRelayType(msg.value.msgType) then
      var t := msg.value.msgType.value;
      ChannelSubscribed(t, partyId);
      ChannelRoundTripWhenPlain(t, partyId);
      Some((Channel(t, partyId), msg.value))
    else None
  }

  /** A chat message is published unchanged on its party's chat channel. */
  lemma RouteOfChat(partyId: string, m: Payload)
    requires m.msgType == Some("chat")
    ensures Route(partyId, Some(m)) == Some((Channel("chat", partyId), m))
  {
    assert IsRelayType(m.msgType);
  }

  /** A domain event sent to the event stream; the wall-clock timestamp is
      not modelled. */
  datatype Event = Event(
    topic: string, userId: string, partyId: string, eventType: string,
    mediaId: Option<string>, messageType: Option<string>, messageContent: Option<string>)

  const PrivacyNotice: string := "chat messages are not stored to protect user privacy"

  /** `data.username || data.userId` as a template literal prints it. */
  function DisplayName(p: Payload): string {
    if Present(p.username) then p.username.value
    else if p.userId.Some? then p.userId.value
    else "undefined"
  }

  /** The engagement event logged for a relayed message. */
  function Engagement(userId: string, partyId: string, p: Payload): (e: Event)
    requires IsRelayType(p.msgType)
    ensures e.topic == "engagement-events" && e.userId == userId && e.partyId == partyId
    ensures e.messageType == p.msgType && e.mediaId == None
    ensures e.eventType == "user-joined" <==> p.msgType == Some("user_joined")
    ensures e.eventType == "user-left" <==> p.msgType == Some("user_left")
    ensures e.eventType == "message-sent" <==> p.msgType == Some("chat") || p.msgType == Some("controls")
    ensures p.msgType == Some("chat") ==> e.messageContent == Some(PrivacyNotice)
    ensures p.msgType == Some("controls") ==> e.messageContent == p.message
    ensures p.msgType == Some("user_joined") ==> e.messageContent == Some("User " + DisplayName(p) + " joined")
    ensures p.msgType == Some("user_left") ==> e.messageContent == Some("User " + DisplayName(p) + " left")
  {
    var t := p.msgType.value;
    var (eventType, content) :=
      if t == "user_joined" then ("user-joined", Some("User " + DisplayName(p) + " joined"))
      else if t == "user_left" then ("user-left", Some("User " + DisplayName(p) + " left"))
      else if t == "chat" then ("message-sent", Some(PrivacyNotice))
      else ("message-sent", p.message);
    Event("engagement-events", userId, partyId, eventType, None, p.msgType, content)
  }

  /** The engagement event of a chat message does not depend on anything the
      message carries: its text never reaches the event stream. */
  lemma ChatTextNeverLogged(userId: string, partyId: string, p: Payload, q: Payload)
    requires p.msgType == Some("chat") && q.msgType == Some("chat")
    ensures Engagement(userId, partyId, p) == Engagement(userId, partyId, q)
  {
  }

  /** Presence and lifecycle events. */
  function JoinEvent(userId: string, partyId: string): Event {
    Event("user-events", userId, partyId, "join-party", None, None, None)
  }

  function LeaveEvent(userId: string, partyId: string): Event {
    Event("user-events", userId, partyId, "leave-party", None, None, None)
  }

  function CreateEvent(hostId: string, partyId: string, mediaId: string): Event {
    Event("party-events", hostId, partyId, "create-party", Some(mediaId), None, None)
  }

  function EndEvent(hostId: string, partyId: string): Event {
    Event("party-events", hostId, partyId, "end-party", None, None, None)
  }

  /** The control message the host's departure publishes. */
  const EndMessage: Payload := Payload(Some("controls"), Some("party_ended_by_host"), None, None)

  /** The subscriber's test for a termination message. */
  predicate IsTermination(p: Payload) {
    p.msgType == Some("controls") && p.message == Some("party_ended_by_host")
  }

  const EndCode: nat := 1000
  const EndReason: string := "party ended by host"
}
