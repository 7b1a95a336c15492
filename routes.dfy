/**
 * The HTTP routes of the service: `/health`, `/publish`, `/ingest` and `/fetch`. Each
 * route answers with a status code and a JSON body; an exception a route does not catch
 * becomes the framework's generic 500 page (`InternalServerError`).
 */
module Routes {
  import opened Wrappers
  import opened Json
  import opened Queue
  import opened Db
  import opened Batch
  import opened PubSubUtils

  /** One entry of the `/fetch` answer: the message id and its text, `None` for an empty payload. */
  datatype FetchEntry = FetchEntry(id: string, data: Option<string>)

  datatype Body =
    | StatusBody(status: string)
    | ErrorBody(error: string)
    | MessageBody(message: string)
    | InsertedIdsBody(insertedIds: seq<int>)
    | MessagesBody(messages: seq<FetchEntry>)
    | InternalServerError

  datatype Response = Response(code: int, body: Body)

  // ---------------------------------------------------------------------------
  // /health
  // ---------------------------------------------------------------------------

  /** `GET /health`: 200 exactly when the connection exists and answers the probe; 500 otherwise. */
  function Health(conn: Connection): (resp: Response)
    ensures resp.code == 200 <==> conn == Open(Completes)
    ensures resp.code == 200 ==> resp.body == StatusBody("ok")
    ensures resp.code != 200 ==> resp == Response(500, StatusBody("db unreachable"))
  {
    if CheckDbConnection(conn) then Response(200, StatusBody("ok"))
    else Response(500, StatusBody("db unreachable"))
  }

  // ---------------------------------------------------------------------------
  // /publish
  // ---------------------------------------------------------------------------

  /**
   * The answer of `POST /publish`. A body that is not a JSON object has no `.get`, which
   * raises (500). A missing or falsy `message` is refused with 400. Otherwise the route
   * answers 200 whatever publishing did, since publishing swallows its own failures.
   */
  function PublishResponse(request: JsonValue): (resp: Response)
    ensures !request.JObject? ==> resp == Response(500, InternalServerError)
    ensures request.JObject? ==> (resp.code == 200 <==> Truthy(Get(request.fields, "message")))
    ensures request.JObject? && !Truthy(Get(request.fields, "message")) ==>
              resp == Response(400, ErrorBody("Missing 'message'"))
    ensures resp.code == 200 ==> resp.body == StatusBody("message published")
  {
    if !request.JObject? then Response(500, InternalServerError)
    else if !Truthy(Get(request.fields, "message")) then Response(400, ErrorBody("Missing 'message'"))
    else Response(200, StatusBody("message published"))
  }

  /** `POST /publish`: validate the request, then hand the message to the publisher. */
  method Publish(svc: Service, topic: Option<string>, project: Option<string>, request: JsonValue,
                 publisherUp: bool)
    returns (resp: Response)
    modifies svc
    ensures resp == PublishResponse(request)
    ensures resp.code == 200 ==>
              svc.log == old(svc.log) + PublishEffect(topic, project, Get(request.fields, "message"), publisherUp)
    ensures resp.code != 200 ==> unchanged(svc)
  {
    if !request.JObject? {
      return Response(500, InternalServerError);
    }
    var message := Get(request.fields, "message");
    if !Truthy(message) {
      return Response(400, ErrorBody("Missing 'message'"));
    }
    PublishToPubSub(svc, topic, project, message, publisherUp);
    return Response(200, StatusBody("message published"));
  }

  /**
   * `/publish` reports success for a valid request even when nothing reached the topic:
   * the configuration is missing, the publisher is down, or the message is not a string.
   */
  lemma {:induction false} PublishSuccessNotDelivery(topic: Option<string>, project: Option<string>,
                                                   request: JsonValue, publisherUp: bool)
    requires request.JObject? && Truthy(Get(request.fields, "message"))
    requires !publisherUp || !Configured(topic) || !Get(request.fields, "message").JStr?
    ensures PublishResponse(request).code == 200
    ensures PublishEffect(topic, project, Get(request.fields, "message"), publisherUp) == []
  {
  }

  // ---------------------------------------------------------------------------
  // /ingest
  // ---------------------------------------------------------------------------

  /**
   * One message of `/ingest`: the raw payload is UTF-8-decoded (no base64 step) and
   * inserted; a failure of either skips the message.
   */
  function ClassifyIngested(m: ReceivedMessage, codecs: Codecs, commits: bool): (o: Outcome)
    ensures o.Stored? <==> codecs.utf8(m.data).Some? && commits
    ensures o.Stored? ==> Some(o.text) == codecs.utf8(m.data)
    ensures o == NotUtf8 <==> codecs.utf8(m.data).None?
    ensures !o.NotBase64?
  {
    match codecs.utf8(m.data)
    case None => NotUtf8
    case Some(text) => if commits then Stored(text) else InsertFailed
  }

  /** The outcome of every delivered message; `commits(i)` is whether the insert for message i commits. */
  function IngestOutcomes(ms: seq<ReceivedMessage>, codecs: Codecs, commits: nat -> bool): seq<Outcome>
  {
    seq(|ms|, i requires 0 <= i < |ms| => ClassifyIngested(ms[i], codecs, commits(i)))
  }

  /** The body of the `/ingest` loop: decode one message and insert it, skipping it on any failure. */
  method DecodeUtf8AndInsert(store: Store, m: ReceivedMessage, codecs: Codecs, commits: bool)
    returns (inserted: Option<int>)
    requires store.Valid()
    modifies store
    ensures store.Valid()
    ensures var o := ClassifyIngested(m, codecs, commits);
            && (inserted.Some? <==> o.Stored?)
            && (o.Stored? ==> && inserted == Some(old(store.nextId))
                              && store.rows == old(store.rows) + [Row(old(store.nextId), o.text)]
                              && store.nextId == old(store.nextId) + 1)
            && (!o.Stored? ==> store.rows == old(store.rows) && store.nextId == old(store.nextId))
  {
    var text := codecs.utf8(m.data);
    if text.None? {
      return None;
    }
    var r := store.Insert(text.value, commits);
    if r.Err? {
      return None;
    }
    return Some(r.value);
  }

  /** The loop of `/ingest`: every delivered message in order, collecting the ids of the rows inserted. */
  method InsertDelivered(store: Store, ms: seq<ReceivedMessage>, codecs: Codecs, commits: nat -> bool)
    returns (insertedIds: seq<int>)
    requires store.Valid()
    modifies store
    ensures store.Valid()
    ensures var added := RowsFrom(old(store.nextId), StoredTexts(IngestOutcomes(ms, codecs, commits)));
            && store.rows == old(store.rows) + added
            && store.nextId == old(store.nextId) + |added|
            && insertedIds == IdsOf(added)
  {
    ghost var outs := IngestOutcomes(ms, codecs, commits);
    ghost var first := store.nextId;
    ghost var rows0 := store.rows;
    ghost var texts: seq<string> := [];
    insertedIds := [];
    for i := 0 to |ms|
      invariant store.Valid()
      invariant texts == StoredTexts(outs[..i])
      invariant store.rows == rows0 + RowsFrom(first, texts)
      invariant store.nextId == first + |texts|
      invariant insertedIds == IdsOf(RowsFrom(first, texts))
    {
      SelectionsSnoc(ms, outs, i);
      var inserted := DecodeUtf8AndInsert(store, ms[i], codecs, commits(i));
      if inserted.Some? {
        insertedIds := insertedIds + [inserted.value];
        RowsFromSnoc(first, texts, outs[i].text);
        IdsOfAppend(RowsFrom(first, texts), [Row(first + |texts|, outs[i].text)]);
        texts := texts + [outs[i].text];
      }
    }
    assert outs[..|outs|] == outs;
  }

  /**
   * `POST /ingest`: pull (acknowledging everything), then store each delivered message that
   * is UTF-8 and whose insert commits. Only an exception escaping the pull helper, its
   * client construction, reaches the outer handler (500).
   */
  method Ingest(svc: Service, store: Store, cond: Conditions, codecs: Codecs, commits: nat -> bool)
    returns (resp: Response)
    requires store.Valid()
    modifies svc, store
    ensures store.Valid()
    ensures !cond.clientUp ==> resp == Response(500, ErrorBody("Failed to ingest messages")) && unchanged(svc, store)
    ensures cond.clientUp ==> svc.log == old(svc.log) + SubscriptionPullLog(DefaultMaxMessages, cond.response)
    ensures cond.clientUp && Delivered(cond) == [] ==>
              resp == Response(200, MessageBody("No messages to ingest.")) && unchanged(store)
    ensures cond.clientUp && Delivered(cond) != [] ==>
              var added := RowsFrom(old(store.nextId), StoredTexts(IngestOutcomes(Delivered(cond), codecs, commits)));
              && store.rows == old(store.rows) + added
              && store.nextId == old(store.nextId) + |added|
              && resp == Response(200, InsertedIdsBody(IdsOf(added)))
  {
    var pulled := PullMessagesFromSubscription(svc, DefaultMaxMessages, cond);
    if pulled.Err? {
      return Response(500, ErrorBody("Failed to ingest messages"));
    }
    var messages := pulled.value;
    if messages == [] {
      return Response(200, MessageBody("No messages to ingest."));
    }
    var insertedIds := InsertDelivered(store, messages, codecs, commits);
    return Response(200, InsertedIdsBody(insertedIds));
  }

  /**
   * `/ingest` acknowledges before it stores: every delivered message is acknowledged, but
   * one that is not UTF-8 or whose insert fails is not stored, so it is lost.
   */
  lemma {:induction false} IngestAckedButNotStored(cond: Conditions, codecs: Codecs, commits: nat -> bool, i: nat)
    requires cond.clientUp
    requires i < |Delivered(cond)|
    requires codecs.utf8(Delivered(cond)[i].data).None? || !commits(i)
    ensures Delivered(cond)[i].ackId in SubscriptionPullLog(DefaultMaxMessages, cond.response)[1].ackIds
    ensures i !in StoredIndices(IngestOutcomes(Delivered(cond), codecs, commits))
  {
    var ms := Delivered(cond);
    assert SubscriptionPullLog(DefaultMaxMessages, cond.response)[1].ackIds[i] == ms[i].ackId;
    StoredIndicesExact(IngestOutcomes(ms, codecs, commits));
  }

  /**
   * The ids `/ingest` answers with are one per delivered message that is UTF-8 and whose
   * insert commits, in pull order, each the text of that message.
   */
  lemma {:induction false} IngestStoresExactly(ms: seq<ReceivedMessage>, codecs: Codecs, commits: nat -> bool)
    ensures var outs := IngestOutcomes(ms, codecs, commits);
            var idx := StoredIndices(outs);
            && |StoredTexts(outs)| == |idx|
            && (forall j, k :: 0 <= j < k < |idx| ==> idx[j] < idx[k])
            && (forall j :: 0 <= j < |idx| ==> idx[j] < |ms| && Some(StoredTexts(outs)[j]) == codecs.utf8(ms[idx[j]].data))
            && (forall i :: 0 <= i < |ms| ==> (i in idx <==> codecs.utf8(ms[i].data).Some? && commits(i)))
  {
    var outs := IngestOutcomes(ms, codecs, commits);
    SelectionsAligned(ms, outs);
    StoredIndicesExact(outs);
  }

  // ---------------------------------------------------------------------------
  // /fetch
  // ---------------------------------------------------------------------------

  /**
   * The `/fetch` projection of a batch: each message's id and its payload as text, `None`
   * for an empty payload. Decoding a nonempty payload that is not UTF-8 raises (`None`).
   */
  function FetchEntries(ms: seq<ReceivedMessage>, codecs: Codecs): (r: Option<seq<FetchEntry>>)
    ensures r.Some? <==> forall i :: 0 <= i < |ms| && ms[i].data != [] ==> codecs.utf8(ms[i].data).Some?
    ensures r.Some? ==> |r.value| == |ms|
    ensures r.Some? ==> forall i :: 0 <= i < |ms| ==>
              && r.value[i].id == ms[i].messageId
              && (ms[i].data == [] ==> r.value[i].data.None?)
              && (ms[i].data != [] ==> r.value[i].data == codecs.utf8(ms[i].data))
  {
    if ms == [] then Some([])
    else
      var init := ms[..|ms| - 1];
      var m := ms[|ms| - 1];
      assert forall i :: 0 <= i < |init| ==> init[i] == ms[i];
      match FetchEntries(init, codecs)
      case None => None
      case Some(entries) =>
        if m.data == [] then Some(entries + [FetchEntry(m.messageId, None)])
        else match codecs.utf8(m.data)
             case None => None
             case Some(text) => Some(entries + [FetchEntry(m.messageId, Some(text))])
  }

  /** The answer of `/fetch` for the messages the pull returned. */
  function FetchResponse(ms: seq<ReceivedMessage>, codecs: Codecs): (resp: Response)
    ensures resp.code == 200 <==> FetchEntries(ms, codecs).Some?
    ensures resp.code == 200 ==> resp.body == MessagesBody(FetchEntries(ms, codecs).value)
    ensures resp.code != 200 ==> resp == Response(500, InternalServerError)
  {
    match FetchEntries(ms, codecs)
    case None => Response(500, InternalServerError)
    case Some(entries) => Response(200, MessagesBody(entries))
  }

  /**
   * `GET /fetch`: refuse with 400 when the subscription or project is missing; otherwise
   * pull (acknowledging everything) and answer with the projected messages. Nothing here
   * catches an exception, so a client that cannot be created is a 500.
   */
  method Fetch(svc: Service, subscription: Option<string>, project: Option<string>, cond: Conditions, codecs: Codecs)
    returns (resp: Response)
    modifies svc
    ensures !(Configured(subscription) && Configured(project)) ==>
              resp == Response(400, ErrorBody("Missing environment variables for Pub/Sub")) && unchanged(svc)
    ensures Configured(subscription) && Configured(project) && !cond.clientUp ==>
              resp == Response(500, InternalServerError) && unchanged(svc)
    ensures Configured(subscription) && Configured(project) && cond.clientUp ==>
              && svc.log == old(svc.log) + SubscriptionPullLog(DefaultMaxMessages, cond.response)
              && resp == FetchResponse(Delivered(cond), codecs)
  {
    if !Configured(subscription) || !Configured(project) {
      return Response(400, ErrorBody("Missing environment variables for Pub/Sub"));
    }
    var pulled := PullMessagesFromSubscription(svc, DefaultMaxMessages, cond);
    if pulled.Err? {
      return Response(500, InternalServerError);
    }
    return FetchResponse(pulled.value, codecs);
  }

  /**
   * `/fetch` acknowledges before it answers: when one nonempty payload of a delivered batch
   * is not UTF-8 the route fails with 500, yet every handle of the batch was acknowledged,
   * so the whole batch is lost.
   */
  lemma {:induction false} FetchFailureLosesBatch(cond: Conditions, codecs: Codecs, i: nat)
    requires cond.clientUp
    requires i < |Delivered(cond)|
    requires Delivered(cond)[i].data != [] && codecs.utf8(Delivered(cond)[i].data).None?
    ensures FetchResponse(Delivered(cond), codecs) == Response(500, InternalServerError)
    ensures SubscriptionPullLog(DefaultMaxMessages, cond.response)[1] == Acknowledged(AckIdsOf(Delivered(cond)))
  {
  }

  /** A batch whose payloads are all empty or UTF-8 is answered with 200 and one entry per message. */
  lemma {:induction false} FetchAnswersWholeBatch(ms: seq<ReceivedMessage>, codecs: Codecs)
    requires forall i :: 0 <= i < |ms| && ms[i].data != [] ==> codecs.utf8(ms[i].data).Some?
    ensures FetchResponse(ms, codecs).code == 200
    ensures |FetchResponse(ms, codecs).body.messages| == |ms|
  {
  }
}
