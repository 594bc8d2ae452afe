# Watch-party relay and helpers of `backend/server.js`

This project is a Dafny model of the watch-party part of the movie
back end `backend/server.js`. It covers these pieces:

- **Party record store.** A party is created with `POST /party`, read with
  `GET /party/:partyId` and updated with `PUT /party/:partyId/state`. Each
  party is one record in Redis under `party:<id>`. It gets a 24-hour expiry
  on creation, and Redis drops that expiry on every later plain `SET`.
- **Relay of one server instance.** `partyRooms` maps a party id to its set
  of sockets. The WebSocket connection and close handlers and the pattern
  subscriber update it; the message handler only publishes.
  The pattern subscriber on `party-controls:*`, `party-chat:*`,
  `party-user_joined:*` and `party-user_left:*` sends every published message
  to the local room that its channel names. A termination message
  (`{type: "controls", message: "party_ended_by_host"}`) then closes every
  member with code 1000 and removes the room.
- **Pure helpers:**
  - the `userId` UUID check;
  - `formatTmdbMovie`;
  - the genre-name to genre-id query;
  - `getGenreNames` and the inline genre table of the history handler;
  - `getTimeAgo` and the inline "watched ago" label;
  - the pagination arithmetic of `GET /api/user-history`.

The relay is modelled by the class `WatchParty.Server`. Its fields are:

- `rooms`, the registry;
- `bus`, the queue of published `(channel, message)` pairs;
- `outbox`, every frame written to a socket and every socket close;
- `events`, the analytics events sent to the event stream;
- `store`, a `PartyStore.Store` holding the Redis key space.

`Deliver` takes the oldest published pair off the bus and runs the
subscriber on it. The subscriber's two loops visit the room in the same
order. The model lets that order be any listing of the room's members, each
exactly once (`WatchParty.IsEnumeration`). It computes one listing and uses
it for both loops. It does not pin the listing to the insertion order that a
JavaScript `Set` actually uses, so every stated property holds for any
visiting order.

The model also proves two behaviours of the code as written:

- **A ':' in a party id misroutes messages.** The subscriber reads the party
  back with `channel.split(":")[1]`. A socket that joined party `a:b`
  therefore publishes on `party-chat:a:b`, and the message is delivered to
  room `a`. This is shown by `Messages.ColonInPartyIdMisroutes` and
  `Scenarios.ColonPartyIdReachesOtherRoom`.
- **Any member can end a room.** The termination message is honoured
  whoever sent it, so a guest can tear the room down. The stored record
  survives, because only the host's close deletes it. This is shown by
  `Scenarios.GuestCanEndRoom`.

A new party starts "paused", and the state update accepts any non-empty
`playbackState` string. The model follows the code.

## Model

| member | source | states |
|---|---|---|
| Uuid.IsUuidIffLayout | backend/server.js:357-358 | The regex accepts a string exactly when it has 36 characters laid out 8-4-4-4-12 with dashes at 8, 13, 18 and 23, a version digit 1–5 at 14, a variant digit 8/9/a/b at 19, and hex digits elsewhere (RFC 4122 sections 4.1.1 and 4.1.3) |
| Uuid.CaseInsensitive | backend/server.js:357 | Because of the `i` flag, a string is accepted exactly when its ASCII lower-case form is accepted |
| Uuid.RejectsBadVersionAndVariant | backend/server.js:357 | A well-formed string with version digit 0, or with variant digit c, is rejected |
| Uuid.MatchesPositionwise | backend/server.js:357 | Matching a run-length pattern is the same as every character being in the class of its position, with the total width equal to the length |
| Catalog.PosterUrl | backend/server.js:75 | `poster_url` is present exactly when the poster path is truthy; it then begins with the w500 base and the remainder is the path |
| Catalog.PosterUrlInjective | backend/server.js:75 | Distinct poster paths give distinct poster URLs |
| Catalog.ReleaseYear | backend/server.js:76 | "N/A" for a missing or empty date; otherwise a prefix of the date that contains no '-' and stops at the first '-' |
| Catalog.ReleaseYearOfDate | backend/server.js:76 | For a date "year-rest" with no '-' in the year, the release year is the year |
| Catalog.FormatTmdbMovie | backend/server.js:71-79 | The formatted movie keeps id, title, overview and rating, uses the poster and year rules above, and gives `genre_ids` or `[]` when absent |
| Catalog.GenreIdToName | backend/server.js:643-645 | The inverted genre table is a two-sided inverse of the name-to-id table; the ids of the table are distinct |
| Catalog.Invert | backend/server.js:643-645 | Inverting a table whose ids are distinct gives a map that sends each id back to its name, and each name forward to its id |
| Catalog.GenreNamesLowerCase | backend/server.js:262-282 | Every genre name of the table is non-empty and starts with a lower-case letter |
| Catalog.LookupIds | backend/server.js:140-142 | Looking names up and dropping the falsy results (unknown names and an id 0) gives at most as many ids as names, each a non-zero id of the table, and none exactly when no name is kept |
| Catalog.GenreIdsNonZero | backend/server.js:262-282 | Every genre of the table has a non-zero id, so the filter drops only unknown names |
| Catalog.JoinIds | backend/server.js:143 | The comma join is empty exactly when there are no ids |
| Catalog.SplitJoinIds | backend/server.js:140-143 | Splitting the comma-joined ids at ',' gives back the decimal numeral of each id, in order |
| Catalog.GenreQuery | backend/server.js:140-147 | No query (fallback to top-rated movies) exactly when no name is in the genre table; otherwise the query splits at ',' into the numerals of the known names' ids, in order |
| Catalog.Capitalize | backend/server.js:648-649 | Capitalising keeps the length and every character after the first, and leaves no lower-case letter first |
| Catalog.UncapitalizeCapitalize | backend/server.js:648-649 | For a name that starts with a lower-case letter, capitalising can be undone |
| Catalog.NamesOfIds | backend/server.js:647-649 | At most one name per id, and each name produced is capitalised (it equals `Capitalize` of its uncapitalised form), and uncapitalised it is a name in the inverted table |
| Catalog.NamesOfIdsConcat | backend/server.js:647-649 | Rendering a list of ids is rendering its parts one after the other, so the single-id case fixes the result of every list |
| Catalog.NamesOfIdsSingle | backend/server.js:647-649 | One id renders as its capitalised name when the inverted table knows it, and as nothing otherwise (the `filter(Boolean)` step) |
| Catalog.NamesOfIdsSkipsUnknown | backend/server.js:647-649 | For any table whose names start with a lower-case letter, an unknown id between two known ones is dropped and the two known ones render in order |
| Catalog.GetGenreNames | backend/server.js:642-650 | `getGenreNames` yields at most one name per id, and each is capitalised (it equals `Capitalize` of its uncapitalised form), and uncapitalised it is a genre of the table |
| Catalog.GetGenreNamesConcat | backend/server.js:642-650 | The names of a concatenation of id lists are the names of the parts, concatenated |
| Catalog.GetGenreNamesDropsUnknown | backend/server.js:642-650 | `getGenreNames([28, 999, 12])` is `["Action", "Adventure"]`: the unknown id is dropped |
| Catalog.KnownNames | backend/server.js:140-142 | Every name kept is a name of the table with a non-zero id |
| Catalog.KnownNamesExactly | backend/server.js:140-142 | The names kept are exactly the names of the list that the table knows with a non-zero id, and there are no more of them than names |
| Catalog.KnownNamesConcat | backend/server.js:140-142 | The known names of a concatenation are those of the parts in order, so the original order is kept |
| Catalog.CapitalizeAll | backend/server.js:648-649 | Each name capitalised, position by position |
| Catalog.NamesOfLookupIds | backend/server.js:642-650 | For any table with distinct ids whose names start with a lower-case letter, mapping names to ids and back through the inverted table gives the known names, capitalised, in their original order |
| Catalog.GenreNamesOfGenreIds | backend/server.js:642-650 | The genre-query ids of a list of names, rendered by `getGenreNames`, are the known names capitalised in order |
| Catalog.GetGenreNamesSingle | backend/server.js:642-650 | A single id renders as its capitalised table name when the table knows it, and as nothing otherwise |
| Catalog.GetGenreNamesLowerInitial | backend/server.js:262-282 | Every name in the inverted table starts with a lower-case letter |
| Catalog.HistoryGenreNames | backend/server.js:523-530 | The inline table of the reached history handler yields at most one name per id, each a value of that table |
| Catalog.HistoryGenreNamesConcat | backend/server.js:530 | The inline names of a concatenation of id lists are the names of the parts, concatenated |
| Catalog.HistoryGenreNamesSingle | backend/server.js:530 | One id gives its inline-table name, or nothing for an id the table lacks; with the concatenation lemma this fixes every list |
| Catalog.HistoryGenreNamesDiffer | backend/server.js:523-528 | The two renderings disagree: id 878 is "Science fiction" from `getGenreNames` but "Science Fiction" inline, and id 10770 is "Tv movie" versus "TV Movie" |
| Decimal.NatToString | backend/server.js:143 | The decimal numeral of an id is non-empty, all digits, has no leading zero, and contains no ',' or ':' |
| Decimal.ParseNatToString | backend/server.js:143 | Reading the numeral of a natural number gives the number back |
| Decimal.NatToStringInjective | backend/server.js:143 | Distinct ids have distinct numerals |
| History.TimeAgo | backend/server.js:622-639 | "Just now" exactly below one minute; otherwise a count of at least 1 of the largest whole unit: days exactly from 24 hours, minutes exactly below one hour, with count·unit ≤ diff < (count+1)·unit |
| History.WatchedAgo | backend/server.js:504-519 | "Just now" exactly below two minutes, a calendar date exactly from 30 days, otherwise a whole number of minutes, hours or days that brackets the difference |
| History.WatchedAgoAgreesWithTimeAgo | backend/server.js:504-519 | From two minutes up to 30 days the inline label and `getTimeAgo` give the same unit and count; between one and two minutes the inline label says "Just now" while `getTimeAgo` says "1 minute" |
| History.Paginate | backend/server.js:539-547 | `hasMore` exactly when offset + limit < total; `currentPage` is the page containing the offset; `totalPages` is the least number of pages that holds every item |
| History.HasMoreMeansLaterPage | backend/server.js:539-547 | When there is more, the current page is before the last; for an offset on a page boundary, being before the last page also means there is more |
| Strings.Before | backend/server.js:76 | The text before the first separator is a prefix containing no separator, and is followed by the separator when shorter than the input |
| Strings.SecondField | backend/server.js:930 | `split(sep)[1]` exists exactly when the separator occurs |
| Strings.BeforeOfJoined | backend/server.js:76 | For a field with no separator, the text before the first separator of field + sep + rest is that field |
| Strings.Split | backend/server.js:930 | `split` gives at least one field, and the first field is the text before the first separator |
| Strings.SplitOfJoined | backend/server.js:930 | Splitting field + sep + rest gives the field followed by the split of the rest |
| Messages.Route | backend/server.js:843-854 | A message is published exactly when it parsed and its type is controls, chat, user_joined or user_left; it is published unchanged on the channel `party-<type>:<partyId>` of its own type and the sender's party, which the subscriber listens to and which reads back as the sender's party when the party id has no ':' |
| Messages.RouteOfChat | backend/server.js:852-854 | A chat message is published unchanged on `party-chat:<party>` |
| Messages.ChannelSubscribed | backend/server.js:929 | Every channel the message handler publishes on matches one of the subscriber's four patterns |
| Messages.PartyOfChannel | backend/server.js:930 | The subscriber finds a party in a channel exactly when the channel contains ':' |
| Messages.PartyOfChannelRoundTrip | backend/server.js:930 | For a party id without ':', `split(":")[1]` of the channel gives the party id back |
| Messages.ChannelRoundTripWhenPlain | backend/server.js:930 | The same round trip, stated as an implication for any party id |
| Messages.ColonInPartyIdMisroutes | backend/server.js:930 | A chat message of party "a:b" is read back as party "a" |
| Messages.PartyOfChannelCutsAtColon | backend/server.js:930 | For every relay type and party id, the party read back from the channel is the party id up to its first ':' |
| Messages.Engagement | backend/server.js:856-881 | user_joined gives "user-joined" and user_left gives "user-left", each with "User <username or userId> joined/left"; chat and controls give "message-sent"; chat content is the privacy placeholder and controls content is the message field |
| Messages.ChatTextNeverLogged | backend/server.js:866-868 | Two chat messages with any texts or names produce the same engagement event |
| PartyStore.KeyInjective | backend/server.js:709 | Distinct party ids have distinct record keys |
| PartyStore.NewParty | backend/server.js:712-718 | A new record carries the given media, host and creation time, and is paused at position 0 |
| PartyStore.WithPlayback | backend/server.js:785-786 | An update changes only the position and the state; media, host and creation time are kept |
| PartyStore.LastWriteWins | backend/server.js:785-789 | Two updates in a row leave only the second, and the host never changes |
| PartyStore.Store.Set | backend/server.js:789 | `SET` stores the value and discards any expiry the key had |
| PartyStore.Store.Expire | backend/server.js:732 | `EXPIRE` gives an existing key its time to live and leaves a missing key alone |
| PartyStore.Store.Get | backend/server.js:752 | `GET` finds a value exactly when the key is stored, and returns that value |
| PartyStore.Store.Del | backend/server.js:914 | `DEL` removes the key together with its expiry |
| WatchParty.Server.CreateParty | backend/server.js:700-740 | 400 and nothing stored without a media id and a host id; otherwise 201 with the new id, `<HOST>/party/<id>` and the record, which is stored paused at 0 under `party:<id>` with an 86400 s expiry, with a create-party event |
| WatchParty.Server.GetParty | backend/server.js:742-761 | 400 for an empty id, 404 when `party:<id>` is absent, otherwise the stored record |
| WatchParty.Server.UpdatePartyState | backend/server.js:763-803 | 400 without an id, a position or a state; 404 without a record; otherwise only position and state change, and the key loses its expiry |
| WatchParty.Server.Join | backend/server.js:811-927 | Without a party id and a user id the socket is closed and nothing else changes; otherwise a new socket joins its party's room (created when absent), is in no other room, every other room is unchanged, a join-party event is logged, and the socket is sent the welcome frame |
| WatchParty.Server.Inbound | backend/server.js:843-885 | A routed message is appended to the bus with its engagement event; anything else changes nothing; no socket is written to and no room changes |
| WatchParty.Server.Close | backend/server.js:887-924 | Nothing happens if the party has no room; otherwise only this socket leaves the room, and exactly when the stored record names this user as host the termination message is published on `party-controls:<party>` and the record is deleted |
| WatchParty.Server.OnPublished | backend/server.js:929-944 | Sends the message to each member of the channel's room in the room's order, then for a termination closes each with 1000 and removes the room; a channel naming no local room changes nothing |
| WatchParty.Server.SendToAll | backend/server.js:934-936 | One text frame per visited socket, in order, and nothing else changes |
| WatchParty.Server.CloseAll | backend/server.js:938-940 | One close with 1000 "party ended by host" per visited socket, in order, and nothing else changes |
| WatchParty.Server.Deliver | backend/server.js:929-944 | The oldest published message is taken off the bus and handled by the subscriber; an empty bus changes nothing |
| WatchParty.Enumerate | backend/server.js:934-939 | The iteration order of a room lists each member exactly once |
| WatchParty.EnumerationOfSingleton | backend/server.js:934 | A room of one socket is visited as that socket alone |
| WatchParty.AtMostOneRoom | backend/server.js:824-830 | With rooms keyed by party, a socket sits in at most one room |
| WatchParty.TargetRoom | backend/server.js:930-932 | The room reached is an existing room whose id the channel reads back to; no room is reached when the channel names no party or an absent one |
| WatchParty.TextFramesAt | backend/server.js:934-936 | The k-th send goes to the k-th visited socket |
| WatchParty.CloseFramesAt | backend/server.js:938-940 | The k-th close goes to the k-th visited socket with 1000 "party ended by host" |
| WatchParty.SentExactlyOnce | backend/server.js:929-936 | Each member of the reached room receives the message exactly once, and a socket outside it never |
| WatchParty.TextCount | backend/server.js:934-936 | In the sends over distinct sockets, a socket receives the message once if it is visited and never otherwise |
| WatchParty.FanoutAddressedToOrder | backend/server.js:934-940 | Every send and every close of a fan-out goes to a member of the room visited |
| WatchParty.RoomIsolation | backend/server.js:929-944 | A message published for party P sends nothing to, and closes nothing of, a socket of any other room |
| WatchParty.PlainFanoutToOne | backend/server.js:934-937 | A message other than the termination, reaching a one-member room, gives that member exactly one frame |
| WatchParty.TerminationTearsDown | backend/server.js:934-942 | A termination first sends the message to every member, then closes every member with 1000; the room is gone and every other room is as it was |
| WatchParty.SecondTerminationIsNoop | backend/server.js:937-942 | After a termination the channel reaches no room, and handling the termination again leaves the registry as it is |
| WatchParty.NoRoomNoFanout | backend/server.js:931-932 | A channel that names no local room leaves the registry as it is |
| WatchParty.RoomsAfterKeyed | backend/server.js:941 | Handling a published message keeps every room holding only sockets of its party |
| Scenarios.HostDepartureEndsParty | backend/server.js:811-944 | Host and guest join a new party and the host leaves: the guest gets the termination message and then a 1000 close; room and record are gone; the same message delivered again does nothing |
| Scenarios.UpdateThenGet | backend/server.js:700-803 | After a playback update, a read returns the new position and state with the original media and host, and the record no longer has its 24-hour expiry |
| Scenarios.GuestCanEndRoom | backend/server.js:843-942 | A guest who sends the termination message gets the host's socket closed and the room removed, while the record stays |
| Scenarios.ColonPartyIdReachesOtherRoom | backend/server.js:853-936 | A chat message of a socket in party "a:b" is sent to the one member of room "a" |

## Left out

- Inbound: a frame that parses to `null` makes `data.type` throw outside the `try`, in the message listener. Nothing in the file catches that error, so the process goes down. The model's parsed frame is either absent or a payload object, so it has no `null` case and does not capture this crash.
- UpdatePartyState: a failing store call makes the handler answer 500 from its `catch`. The model's store never fails, so this answer is not modelled.
- GetParty: a failing store `GET` rejects without a handler. The store cannot fail in the model, so this path is not modelled.
- Close: the same holds for a failing store `GET` in the close handler.
- JSON parsing and serialisation: inbound frames are structured payloads, or None when parsing fails. Records are stored as values, not as JSON text. Payload fields other than type, message, username and userId are not represented.
- Kafka delivery, its connection setup and the event timestamps: events are appended to a log as values, and delivery failures are not modelled.
- Redis connection setup and the asynchronous, unawaited `set`/`expire`/`publish` calls: the model runs each handler's steps in order, one handler at a time. It does not model interleavings between handlers or between server instances.
- Expiry over time: the store records each key's time to live but no clock advances it, so records never expire in the model.
- The new party id (`uuid.v4()`), the `HOST` environment value and the creation time are parameters of the model.
- Wall-clock time and locale formatting: time differences come in as integer milliseconds. The `toLocaleDateString` label is the constant `CalendarDate`.
- History.GetTimeAgo and History.Render: `getTimeAgo` is modelled as `Render` of `TimeAgo` and has no contract of its own. The unit and count it picks are stated on `TimeAgo`, but the exact English label text (for example "1 hour ago" against "2 hours ago") is computed but not stated in a contract.
- Floating point: the playback position is a `real`, `parseFloat` of non-numeric input (NaN) is not modelled, and a present `null` timestamp is treated as present. `Math.floor` and `Math.ceil` are restated over integers, with `limit > 0` required.
- Parsing `limit` and `offset` with `parseInt` is not modelled: pagination takes integers.
- JavaScript loose equality and truthiness on values that are not strings (a numeric `hostId` or `type`, say) are not modelled: all such fields are strings here.
- Property names inherited from `Object.prototype` (for example a genre name "constructor") are not looked up in the genre tables.
- Case mapping is ASCII only: `toUpperCase`/`toLowerCase` beyond ASCII letters are not modelled.
- The genre query starts from names that have already been trimmed and lower-cased: prompting Gemini and parsing its text are outside the model.
- TMDB, Gemini and Supabase calls and the Express and `ws` plumbing are outside the model. `getTimeAgo` and `getGenreNames` are modelled even though only the shadowed second `/api/user-history` handler calls them. The reached first handler (backend/server.js:449) is the one whose pagination and inline labels are modelled.
- Catalog.GetGenreNames: the lemma `Catalog.GenreNamesOfGenreIds` ties it to the genre query, but there is no lemma that proves it agrees with the history handler's inline table on ids other than 878 and 10770.
- The move from the URL query string to `partyId`/`userId` (`URLSearchParams`) is not modelled: the connection handler receives the two parameters as options.
