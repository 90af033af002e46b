/** The server's state and its entry points: the GraphQL resolvers
    (`messages`, `addMessage`, `updateMessage`) and the REST handlers
    (`POST /messages`, `PUT /messages/:id`). The contents of data.json and
    the pubsub's event log are fields of one object; every entry point is
    a read-modify-write step on them. */
module Server {
  import opened Wrappers
  import opened IntParsing
  import opened Messages
  import opened Events

  /** Why a GraphQL mutation throws: "Message not found", or the error of
      a failed `writeData`. */
  datatype Failure = MessageNotFound | WriteFailed

  /** A REST reply: the status code and the JSON body. */
  datatype Body = MessageBody(message: Message) | ErrorBody(error: string)
  datatype Response = Response(status: int, body: Body)

  /** JavaScript truthiness of a string request field: missing, null and
      "" are falsy, every other string is truthy. */
  predicate Truthy(v: Option<string>): (b: bool)
    ensures v.None? ==> !b
    ensures v == Some("") ==> !b
    ensures v.Some? && |v.value| > 0 ==> b
  {
    v.Some? && v.value != ""
  }

  /** What serving requests from an empty store keeps true of the store
      and the event log: ids are 1-based positions, the MESSAGE_ADDED
      events announce the stored messages one for one and in id order, and
      every event published is about a stored message. */
  ghost predicate ConsistentState(ms: seq<Message>, log: seq<Event>) {
    && IdsArePositions(ms)
    && |AddedFeed(log)| == |ms|
    && (forall i :: 0 <= i < |ms| ==> AddedFeed(log)[i].id == i + 1)
    && (forall e :: e in log ==> 1 <= e.payload.id <= |ms|)
  }

  /** Appending the next message and announcing it keeps the state consistent. */
  lemma AddKeepsConsistent(ms: seq<Message>, log: seq<Event>, m: Message)
    requires ConsistentState(ms, log)
    requires m.id == |ms| + 1
    ensures ConsistentState(ms + [m], log + [Event(MessageAdded, m)])
  {
  }

  /** Replacing a message by one with the same id and announcing the
      update keeps the state consistent. */
  lemma UpdateKeepsConsistent(ms: seq<Message>, log: seq<Event>, i: int, m: Message)
    requires ConsistentState(ms, log)
    requires 0 <= i < |ms| && m.id == ms[i].id
    ensures ConsistentState(ms[i := m], log + [Event(MessageUpdated, m)])
  {
  }

  class MessageServer {
    /** The collection in data.json, read at the start of every operation
        and overwritten as a whole by every successful write. A failed
        write is assumed to leave the file as it was; `writeFileSync`
        truncates first, so that is an assumption, not a guarantee. */
    var messages: seq<Message>
    /** Every `pubsub.publish` so far, in order. */
    var events: seq<Event>

    /** A server over the collection found on disk (empty when data.json
        does not exist); nothing has been published yet. */
    constructor (stored: seq<Message>)
      ensures messages == stored && events == []
    {
      messages := stored;
      events := [];
    }

    /** `Query.messages`: the whole collection, unfiltered, in insertion order. */
    method ListMessages() returns (ms: seq<Message>)
      ensures ms == messages
    {
      ms := messages;
    }

    /** `Mutation.addMessage`: append a message whose id is the old length
        plus one, persist, publish it on MESSAGE_ADDED and return it. A
        failed write publishes nothing, and the store is taken to be as it
        was (see the class comment). The
        schema gives `addMessage` no `word` argument, so the resolver's
        `word` is always undefined and the new message has none. */
    method AddMessage(content: string, writeOk: bool)
      returns (r: Result<Message, Failure>)
      modifies this
      ensures writeOk ==> r == Ok(Message(|old(messages)| + 1, content, None))
      ensures writeOk ==> messages == old(messages) + [r.value]
      ensures writeOk ==> events == old(events) + [Event(MessageAdded, r.value)]
      ensures !writeOk ==> r == Err(WriteFailed) && messages == old(messages) && events == old(events)
      ensures IdsArePositions(old(messages)) ==> IdsArePositions(messages)
    {
      var newMessage := Message(|messages| + 1, content, None);
      var written := messages + [newMessage];
      if !writeOk {
        return Err(WriteFailed);
      }
      messages := written;
      events := events + [Event(MessageAdded, newMessage)];
      r := Ok(newMessage);
    }

    /** `Mutation.updateMessage`: find the message whose id is
        `parseInt(id, 10)`, merge the supplied fields over it, write it
        back at the same position, persist, publish it on MESSAGE_UPDATED
        and return it. An id that is absent or not a number throws
        "Message not found"; a failed call publishes nothing. */
    method UpdateMessage(id: string, content: Option<string>, word: Option<string>, writeOk: bool)
      returns (r: Result<Message, Failure>)
      modifies this
      ensures var i := IndexOf(old(messages), ParseInt(id));
              i == -1 ==> r == Err(MessageNotFound) && messages == old(messages) && events == old(events)
      ensures var i := IndexOf(old(messages), ParseInt(id));
              i >= 0 && !writeOk ==> r == Err(WriteFailed) && messages == old(messages) && events == old(events)
      ensures var i := IndexOf(old(messages), ParseInt(id));
              i >= 0 && writeOk ==>
                && r == Ok(Merge(old(messages)[i], content, word))
                && messages == old(messages)[i := r.value]
                && events == old(events) + [Event(MessageUpdated, r.value)]
      ensures r.Ok? ==> ParseInt(id) == Some(r.value.id)
      ensures |messages| == |old(messages)|
      ensures content.None? && word.None? ==> messages == old(messages)
      ensures IdsArePositions(old(messages)) ==> IdsArePositions(messages)
    {
      var numericId := ParseInt(id);
      var index := IndexOf(messages, numericId);
      if index == -1 {
        return Err(MessageNotFound);
      }
      var updatedMessage := Merge(messages[index], content, word);
      var written := messages[index := updatedMessage];
      if !writeOk {
        return Err(WriteFailed);
      }
      messages := written;
      events := events + [Event(MessageUpdated, updatedMessage)];
      r := Ok(updatedMessage);
    }

    /** `POST /messages`: a falsy `content` is answered 400 before the
        store is read; otherwise as `addMessage`, answered 200 with the new
        message, or 500 when the write fails. */
    method PostMessage(content: Option<string>, word: Option<string>, writeOk: bool)
      returns (resp: Response)
      modifies this
      ensures !Truthy(content) ==>
                resp == Response(400, ErrorBody("Content is required"))
                && messages == old(messages) && events == old(events)
      ensures Truthy(content) && !writeOk ==>
                resp == Response(500, ErrorBody("Internal Server Error"))
                && messages == old(messages) && events == old(events)
      ensures Truthy(content) && writeOk ==>
                var m := Message(|old(messages)| + 1, content.value, word);
                && resp == Response(200, MessageBody(m))
                && messages == old(messages) + [m]
                && events == old(events) + [Event(MessageAdded, m)]
      ensures IdsArePositions(old(messages)) ==> IdsArePositions(messages)
    {
      if !Truthy(content) {
        return Response(400, ErrorBody("Content is required"));
      }
      var newMessage := Message(|messages| + 1, content.value, word);
      var written := messages + [newMessage];
      if !writeOk {
        return Response(500, ErrorBody("Internal Server Error"));
      }
      messages := written;
      // the handler publishes `{ ...newMessage, word }`, the same record
      events := events + [Event(MessageAdded, newMessage.(word := word))];
      resp := Response(200, MessageBody(newMessage));
    }

    /** `PUT /messages/:id`: an id that parseInt turns into NaN is answered
        400 before the store is read, an absent id 404; otherwise as
        `updateMessage`, answered 200 with the merged message, or 500 when
        the write fails. */
    method PutMessage(id: string, content: Option<string>, word: Option<string>, writeOk: bool)
      returns (resp: Response)
      modifies this
      ensures ParseInt(id).None? ==>
                resp == Response(400, ErrorBody("Invalid ID format"))
                && messages == old(messages) && events == old(events)
      ensures ParseInt(id).Some? && IndexOf(old(messages), ParseInt(id)) == -1 ==>
                resp == Response(404, ErrorBody("Message not found"))
                && messages == old(messages) && events == old(events)
      ensures var i := IndexOf(old(messages), ParseInt(id));
              i >= 0 && !writeOk ==>
                resp == Response(500, ErrorBody("Internal Server Error"))
                && messages == old(messages) && events == old(events)
      ensures var i := IndexOf(old(messages), ParseInt(id));
              i >= 0 && writeOk ==>
                var m := Merge(old(messages)[i], content, word);
                && resp == Response(200, MessageBody(m))
                && messages == old(messages)[i := m]
                && events == old(events) + [Event(MessageUpdated, m)]
      ensures resp.status == 200 ==> resp.body.MessageBody? && ParseInt(id) == Some(resp.body.message.id)
      ensures |messages| == |old(messages)|
      ensures content.None? && word.None? ==> messages == old(messages)
      ensures IdsArePositions(old(messages)) ==> IdsArePositions(messages)
    {
      var numericId := ParseInt(id);
      if numericId.None? {
        return Response(400, ErrorBody("Invalid ID format"));
      }
      var index := FindIndex(messages, numericId.value);
      if index == -1 {
        return Response(404, ErrorBody("Message not found"));
      }
      var updatedMessage := Merge(messages[index], content, word);
      var written := messages[index := updatedMessage];
      if !writeOk {
        return Response(500, ErrorBody("Internal Server Error"));
      }
      messages := written;
      events := events + [Event(MessageUpdated, updatedMessage)];
      resp := Response(200, MessageBody(updatedMessage));
    }
  }

  /** One request to either surface, with whether its `writeData` succeeds. */
  datatype Request =
    | GraphQLAdd(text: string, writeOk: bool)
    | GraphQLUpdate(id: string, content: Option<string>, word: Option<string>, writeOk: bool)
    | RestPost(content: Option<string>, word: Option<string>, writeOk: bool)
    | RestPut(id: string, content: Option<string>, word: Option<string>, writeOk: bool)

  /** Whether a request creates a message. That depends on the request
      alone, never on the store: an add whose write succeeds, or a POST
      with truthy content whose write succeeds. */
  predicate Creates(q: Request) {
    match q
    case GraphQLAdd(_, ok) => ok
    case RestPost(c, _, ok) => Truthy(c) && ok
    case _ => false
  }

  /** How many of the requests create a message. */
  function Creations(requests: seq<Request>): (n: nat)
    ensures n <= |requests|
  {
    if requests == [] then 0
    else
      var last := requests[|requests| - 1];
      Creations(requests[..|requests| - 1]) + if Creates(last) then 1 else 0
  }

  /** One more request adds one creation exactly when it creates. */
  lemma CreationsStep(requests: seq<Request>, n: nat)
    requires n < |requests|
    ensures Creations(requests[..n + 1]) == Creations(requests[..n]) + if Creates(requests[n]) then 1 else 0
  {
    assert requests[..n + 1][..n] == requests[..n];
  }

  /** Serves one request through the matching entry point: the store
      grows by one message exactly when the request creates, and stays
      consistent with the event log. */
  method ServeOne(server: MessageServer, q: Request)
    requires ConsistentState(server.messages, server.events)
    modifies server
    ensures ConsistentState(server.messages, server.events)
    ensures |server.messages| == |old(server.messages)| + if Creates(q) then 1 else 0
  {
    ghost var ms0, log0 := server.messages, server.events;
    match q {
      case GraphQLAdd(c, ok) =>
        var r := server.AddMessage(c, ok);
        if r.Ok? { AddKeepsConsistent(ms0, log0, r.value); }
      case GraphQLUpdate(id, c, w, ok) =>
        var r := server.UpdateMessage(id, c, w, ok);
        if r.Ok? { UpdateKeepsConsistent(ms0, log0, IndexOf(ms0, ParseInt(id)), r.value); }
      case RestPost(c, w, ok) =>
        var resp := server.PostMessage(c, w, ok);
        if resp.status == 200 { AddKeepsConsistent(ms0, log0, resp.body.message); }
      case RestPut(id, c, w, ok) =>
        var resp := server.PutMessage(id, c, w, ok);
        if resp.status == 200 { UpdateKeepsConsistent(ms0, log0, IndexOf(ms0, ParseInt(id)), resp.body.message); }
    }
  }

  /** A server started without data.json, serving any sequence of requests
      through either surface: it stores one message per creating request,
      every stored id is its 1-based position, a `messageAdded` subscriber
      present from the start has seen each stored message's creation
      exactly once and in id order, and every published event is about a
      stored message. */
  method ServeFromEmpty(requests: seq<Request>) returns (ms: seq<Message>, log: seq<Event>)
    ensures |ms| == Creations(requests)
    ensures IdsArePositions(ms)
    ensures |AddedFeed(log)| == |ms|
    ensures forall i :: 0 <= i < |ms| ==> AddedFeed(log)[i].id == ms[i].id
    ensures forall e :: e in log ==> 1 <= e.payload.id <= |ms|
  {
    var server := new MessageServer([]);
    var n := 0;
    while n < |requests|
      invariant 0 <= n <= |requests|
      invariant ConsistentState(server.messages, server.events)
      invariant |server.messages| == Creations(requests[..n])
    {
      CreationsStep(requests, n);
      ServeOne(server, requests[n]);
      n := n + 1;
    }
    assert requests[..n] == requests;
    ms, log := server.messages, server.events;
  }

  /** A create-then-update session, for any content, word and absent id:
      on a fresh server, create a message, set its word through the GraphQL
      update, then update an id that does not exist. The first two calls
      publish exactly one event each; the third publishes nothing. */
  method CreateThenUpdate(content: string, word: string, absent: int)
    returns (created: Response, updated: Result<Message, Failure>,
             missing: Result<Message, Failure>, log: seq<Event>)
    requires content != ""
    requires absent != 1
    ensures created == Response(200, MessageBody(Message(1, content, None)))
    ensures updated == Ok(Message(1, content, Some(word)))
    ensures missing == Err(MessageNotFound)
    ensures log == [Event(MessageAdded, Message(1, content, None)),
                    Event(MessageUpdated, Message(1, content, Some(word)))]
  {
    var server := new MessageServer([]);
    var first := Message(1, content, None);
    var second := Message(1, content, Some(word));
    created := server.PostMessage(Some(content), None, true);
    assert server.messages == [first] && server.events == [Event(MessageAdded, first)];
    ParseIntInvertsDecimal(1);
    updated := server.UpdateMessage(Decimal(1), None, Some(word), true);
    assert server.messages == [second];
    assert server.events == [Event(MessageAdded, first), Event(MessageUpdated, second)];
    ParseIntInvertsDecimal(absent);
    missing := server.UpdateMessage(Decimal(absent), Some(content), None, true);
    log := server.events;
  }
}
