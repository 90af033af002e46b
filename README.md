# Message store with an event log

A Dafny model of the core of `graphql-rest-server.js`: an in-memory
collection of messages (`{ id, content, word }`) that two surfaces mutate.
The GraphQL resolvers `addMessage` and `updateMessage` and the REST
handlers `POST /messages` and `PUT /messages/:id` each read the collection,
append or replace one record, write the whole collection back, and publish
the record on the pubsub channel MESSAGE_ADDED or MESSAGE_UPDATED. The
`messageUpdated(id)` subscription filters MESSAGE_UPDATED events with
`payload.id === parseInt(id, 10)`.

The model has five modules:

- `Wrappers` holds `Option` (a JavaScript value that may be `undefined`
  or `null`) and `Result` (a resolver's value or the error it throws).
- `IntParsing` holds `ParseInt`, which is `parseInt(s, 10)`: skip white
  space, take an optional sign, then the longest run of digits, or NaN
  (None). It also holds `Decimal` (`String(n)`) and the round-trip lemmas
  between the two.
- `Messages` holds the record and the pure steps of every mutation:
  `FindIndex` (`findIndex` by id) and `Merge` (the spread with `??`). It
  also holds the invariant that ids equal 1-based positions.
- `Events` holds the pubsub as an append-only log of `(topic, payload)`
  events, and what each subscription receives from it (`AddedFeed`,
  `UpdatedFeed`).
- `Server` holds the class `MessageServer`. Its field `messages` is the
  content of data.json and its field `events` is the publish log. Its
  methods are the four mutations and the `messages` query. Each
  mutation's postcondition states the new store, the new log, and the
  return value or HTTP response. It also holds two clients: one serves
  any sequence of requests from an empty store, and one runs the
  create-then-update session.

I/O is a parameter. Each mutation takes `writeOk`, which says whether
`writeData` succeeds. A failed write publishes nothing. The model assumes
a failed write leaves data.json as it was.

Three behaviours of the code are worth knowing:
- The GraphQL and REST handlers each carry their own copy of the logic,
  so the REST PUT answers 400 for a non-numeric id, while the GraphQL
  update answers "Message not found" for the same id.
- The schema declares no `word` argument on `addMessage`, so the
  resolver's destructured `word` is always undefined. `AddMessage` takes
  no word and stores the new message without one.
- GraphQL's `String!` accepts an empty `content` on create, where REST
  answers 400.

## Model

| member | source | states |
|---|---|---|
| IntParsing.TrimStart | graphql-rest-server.js:155 | parseInt's white-space skip leaves text that does not start with white space and is no longer than the input |
| IntParsing.TrimStartDropsWhiteSpace | graphql-rest-server.js:155 | what the skip removes is a prefix of white space and nothing else |
| IntParsing.DigitPrefix | graphql-rest-server.js:155 | parseInt reads the longest prefix of decimal digits: a prefix, all digits, and followed by a non-digit or the end |
| IntParsing.ParseSigned | graphql-rest-server.js:155 | the sign step: NaN exactly when no digit follows one optional '-' or '+'; a '-' gives a value at most zero, otherwise at least zero |
| IntParsing.ParseInt | graphql-rest-server.js:155-157 | parseInt(s, 10) is NaN exactly when, after the leading white space and one optional sign, the text does not start with a digit: the case the isNaN check rejects; the same parse reads the GraphQL id and the subscription argument |
| IntParsing.ParseSignedOfSign | graphql-rest-server.js:155 | no sign, '+' or '-' in front of a number gives its value, itself or its negation |
| IntParsing.ParseIntOfDigits | graphql-rest-server.js:155 | white space, an optional sign, any digit run (leading zeros allowed) and a non-digit continuation parse to the signed value of the digits |
| IntParsing.ParseIntAcceptsPlusAndZeros | graphql-rest-server.js:155-159 | "+007" parses to 7, so it names message 7 |
| IntParsing.ParseIntAcceptsSpaceAndMinus | graphql-rest-server.js:155 | " -12px" parses to -12 |
| IntParsing.ParseIntRejectsLooseSigns | graphql-rest-server.js:155-159 | "+ 1" and "--1" parse to NaN: one sign at most, directly followed by the digits |
| IntParsing.ParseDigits | graphql-rest-server.js:155-157 | the digits after the sign give NaN (None) exactly when they do not start with a digit, which is the case `isNaN` rejects |
| IntParsing.ParseIntOfDecimal | graphql-rest-server.js:155 | round trip: parseInt(String(n) + rest) == n for every integer n when rest does not start with a digit |
| IntParsing.ParseIntInvertsDecimal | graphql-rest-server.js:76 | parseInt(String(n), 10) == n: an id written as text is read back as the same number |
| IntParsing.ParseIntReadsPrefix | graphql-rest-server.js:155-159 | "1abc" and "1.5" parse to 1 and "0x1A" to 0, so such path ids pass the isNaN check |
| IntParsing.ParseIntRejects | graphql-rest-server.js:155-159 | "abc", "" and "-" parse to NaN, which the PUT handler answers with 400 |
| IntParsing.ParseIntSkipsWhiteSpace | graphql-rest-server.js:155 | leading white space never changes what parseInt returns |
| Messages.FindIndex | graphql-rest-server.js:77 | findIndex returns -1 exactly when no message has the id; otherwise the first position that holds it |
| Messages.IndexOf | graphql-rest-server.js:76-78 | a lookup with a NaN id finds nothing; with a number it returns -1 exactly when no message has that id, and otherwise the first position holding it |
| Messages.Merge | graphql-rest-server.js:80-84 | partial update: the id is kept, a supplied field (even "") replaces the stored one, an omitted field keeps it |
| Messages.MergeNothingIsIdentity | graphql-rest-server.js:168-172 | an update that supplies neither content nor word returns the stored message unchanged |
| Messages.MergeIsIdempotent | graphql-rest-server.js:80-84 | repeating an update changes nothing further |
| Messages.MergeComposes | graphql-rest-server.js:80-84 | two updates in a row equal one in which the later supplied fields win |
| Messages.PositionalIdsIncrease | graphql-rest-server.js:68 | when ids are positions they are unique and increase by exactly one |
| Messages.FindIndexOfPositional | graphql-rest-server.js:162 | when ids are positions, id k is found at position k - 1 and an id outside 1..length is not found |
| Messages.AppendNextKeepsPositions | graphql-rest-server.js:139-140 | appending the record with id length + 1 keeps ids positional |
| Messages.ReplaceSameIdKeepsPositions | graphql-rest-server.js:174 | writing back a record with the same id keeps ids positional |
| Events.UpdateMatches | graphql-rest-server.js:99-101 | the withFilter predicate: an argument that parses to NaN matches no payload, and the id's own text String(id) always matches |
| Events.AddedFeed | graphql-rest-server.js:93-95 | a messageAdded subscriber receives only payloads that were published on MESSAGE_ADDED |
| Events.UpdatedFeed | graphql-rest-server.js:96-103 | a messageUpdated(id) subscriber receives only MESSAGE_UPDATED payloads whose id equals parseInt(id, 10) |
| Events.UpdatedFeedComplete | graphql-rest-server.js:99-101 | every MESSAGE_UPDATED event that passes the filter reaches the subscriber |
| Events.AddedFeedComplete | graphql-rest-server.js:94 | every MESSAGE_ADDED event reaches a messageAdded subscriber |
| Events.UpdatedFeedSplits | graphql-rest-server.js:97-102 | a subscriber that joins late receives exactly the filtered events published after it joined, in order |
| Events.AddedFeedSplits | graphql-rest-server.js:94 | the same for messageAdded subscribers |
| Events.PublishAdded | graphql-rest-server.js:71 | a MESSAGE_ADDED publish extends every messageAdded feed by its payload and no messageUpdated feed |
| Events.PublishUpdated | graphql-rest-server.js:88 | a MESSAGE_UPDATED publish extends exactly the messageUpdated feeds whose argument parses to the payload's id |
| Events.SubscriptionReceivesOnlyItsId | graphql-rest-server.js:99-101 | a subscription for message n never receives an update of another message |
| Events.NonNumericSubscriptionIsSilent | graphql-rest-server.js:100 | an argument that parses to NaN matches no event: the subscription stays silent and raises no error |
| Server.Truthy | graphql-rest-server.js:135 | the `!content` test: a missing, null or empty content is falsy, every non-empty string is truthy |
| Server.AddKeepsConsistent | graphql-rest-server.js:138-143 | appending the next message and announcing it keeps positional ids and a one-for-one MESSAGE_ADDED record |
| Server.UpdateKeepsConsistent | graphql-rest-server.js:174-178 | replacing a message by one with the same id and announcing it keeps the same invariant |
| Server.MessageServer.constructor | graphql-rest-server.js:30-33 | the server starts from the stored collection (empty without data.json) and an empty event log |
| Server.MessageServer.ListMessages | graphql-rest-server.js:63 | the messages query returns the whole collection in insertion order |
| Server.MessageServer.AddMessage | graphql-rest-server.js:66-73 | appends one record with id old length + 1, the given content and no word, publishes exactly it on MESSAGE_ADDED and returns it; a failed write changes nothing and publishes nothing |
| Server.MessageServer.UpdateMessage | graphql-rest-server.js:74-90 | an absent or NaN id throws "Message not found" with no write and no publish; otherwise replaces only the found element with the merge, publishes it once on MESSAGE_UPDATED and returns it; the length never changes and an update that supplies nothing leaves the store equal |
| Server.MessageServer.PostMessage | graphql-rest-server.js:132-149 | a falsy content gives 400 "Content is required" with no write and no publish; otherwise as addMessage with 200, or 500 and no publish when the write fails |
| Server.MessageServer.PutMessage | graphql-rest-server.js:151-185 | a NaN id gives 400 and an absent id gives 404, both with no write and no publish; otherwise replaces only the found element, publishes it once and answers 200, or 500 and no publish when the write fails |
| Server.ServeOne | graphql-rest-server.js:66-185 | one request to any of the four entry points keeps the store consistent with the event log, and grows the store by one message exactly when it is a create whose content passes and whose write succeeds |
| Server.ServeFromEmpty | graphql-rest-server.js:66-185 | from an empty store, after any sequence of requests to either surface, the store holds one message per creating request, every id is its 1-based position, MESSAGE_ADDED announced each stored message exactly once in id order, and every event concerns a stored message |
| Server.CreateThenUpdate | graphql-rest-server.js:132-185 | create then update message 1 gives {1, content, word} with one MESSAGE_ADDED and one MESSAGE_UPDATED event; an update of an absent id throws "Message not found" and publishes nothing |

## Left out

- The Apollo server, `expressMiddleware`, the `gql` schema and `makeExecutableSchema` are framework wiring. The GraphQL type checking they do appears only in the parameter types: `content: string` on add, and ids passed as strings (`ID`).
- The HTTP and WebSocket servers, `useServer`, `listen`, the `/test` route and console logging are transport and I/O.
- AddMessage, UpdateMessage, PostMessage, PutMessage: their `!writeOk` cases promise an unchanged collection, which the code does not guarantee. `writeFileSync` opens data.json with flag `'w'` and so empties it before writing; a write that fails part-way leaves the file empty or partial, and every later `readData` then throws in `JSON.parse`. The model takes a failed write to leave the file as it was, and the count and consistency that `ServeFromEmpty` proves hold under that assumption.
- `readData` and `writeData` are not modelled. The `messages` field stands for the content of data.json. A failed write is the parameter `writeOk`. A failed read (a corrupt file) and JSON encoding are not modelled.
- The real `PubSub.asyncIterator` fan-out, subscriber registration and teardown are not modelled. A subscription is a function over the event log from the moment it joined (`UpdatedFeedSplits`).
- Concurrent interleaving of requests is not modelled. Each handler reads and writes data.json with `readFileSync` and `writeFileSync` and has no `await` between the read and the write, so Node runs it to completion before the next request; the methods are therefore sequential.
- Request fields are modelled as strings or absent. JSON numbers, booleans or objects in a REST body, and their JavaScript truthiness, are not modelled.
- `null` and `undefined` are both None. `??` treats them alike, and JSON persistence turns `undefined` into an absent field.
- Stored records have exactly the fields `id`, `content` and `word`. Extra fields that the spread would copy are not modelled.
- Floating-point numbers are not modelled. JavaScript's parseInt returns a double, so digit strings above 2^53 lose precision, and "-0" gives -0. The model returns the exact integer, and 0 for "-0".
- Message ids are unbounded integers, not doubles.
