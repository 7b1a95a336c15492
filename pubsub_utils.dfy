/**
 * The Pub/Sub helpers: publishing a message, the ack-after-insert pipeline that pulls,
 * decodes, stores and then acknowledges, and the pull that acknowledges every message it
 * receives before returning it.
 */
module PubSubUtils {
  import opened Wrappers
  import opened Json
  import opened Queue
  import opened Db
  import opened Batch

  /** The batch size both pulls use when the caller gives none. */
  const DefaultMaxMessages: nat := 5

  // ---------------------------------------------------------------------------
  // Publishing
  // ---------------------------------------------------------------------------

  /**
   * What publishing adds to the service log: nothing when the topic or project is missing,
   * when the publisher client cannot be created, or when the message is not a string
   * (encoding it raises); otherwise the one publish call. Every failure is swallowed.
   */
  function PublishEffect(topic: Option<string>, project: Option<string>, message: JsonValue, publisherUp: bool)
    : (events: seq<Event>)
    ensures |events| <= 1
    ensures events != [] <==> Configured(topic) && Configured(project) && publisherUp && message.JStr?
    ensures events != [] ==> events[0] == Published(message.s)
  {
    if Configured(topic) && Configured(project) && publisherUp && message.JStr? then [Published(message.s)]
    else []
  }

  method PublishToPubSub(svc: Service, topic: Option<string>, project: Option<string>, message: JsonValue,
                         publisherUp: bool)
    modifies svc
    ensures svc.log == old(svc.log) + PublishEffect(topic, project, message, publisherUp)
  {
    if !Configured(topic) || !Configured(project) {
      return;
    }
    if publisherUp && message.JStr? {
      svc.Publish(message.s);
    }
  }

  // ---------------------------------------------------------------------------
  // Pull, decode, insert, then acknowledge
  // ---------------------------------------------------------------------------

  /**
   * One message of `pull_messages_and_insert`: base64-decode, then UTF-8-decode, then
   * insert. It is stored exactly when both decodings succeed and the insert commits.
   */
  function ClassifyPulled(m: ReceivedMessage, codecs: Codecs, commits: bool): (o: Outcome)
    ensures o.Stored? <==> StoredByCycle(m, codecs, commits)
    ensures o.Stored? ==> Some(o.text) == codecs.utf8(codecs.base64(m.data).value)
    ensures o == NotBase64 <==> codecs.base64(m.data).None?
  {
    match codecs.base64(m.data)
    case None => NotBase64
    case Some(raw) =>
      match codecs.utf8(raw)
      case None => NotUtf8
      case Some(text) => if commits then Stored(text) else InsertFailed
  }

  /**
   * The body of the loop in `pull_messages_and_insert`: base64-decode, UTF-8-decode and
   * insert one message. Any failure is caught and the message skipped (`None`); on success
   * the id of the new row is returned.
   */
  method DecodeAndInsert(store: Store, m: ReceivedMessage, codecs: Codecs, commits: bool)
    returns (inserted: Option<int>)
    requires store.Valid()
    modifies store
    ensures store.Valid()
    ensures var o := ClassifyPulled(m, codecs, commits);
            && (inserted.Some? <==> o.Stored?)
            && (o.Stored? ==> && inserted == Some(old(store.nextId))
                              && store.rows == old(store.rows) + [Row(old(store.nextId), o.text)]
                              && store.nextId == old(store.nextId) + 1)
            && (!o.Stored? ==> store.rows == old(store.rows) && store.nextId == old(store.nextId))
  {
    var decoded := codecs.base64(m.data);
    if decoded.None? {
      return None;
    }
    var text := codecs.utf8(decoded.value);
    if text.None? {
      return None;
    }
    var r := store.Insert(text.value, commits);
    if r.Err? {
      return None;
    }
    return Some(r.value);
  }

  /** The outcome of every message of a batch; `commits(i)` is whether the insert for message i commits. */
  function CycleOutcomes(ms: seq<ReceivedMessage>, codecs: Codecs, commits: nat -> bool): seq<Outcome>
  {
    seq(|ms|, i requires 0 <= i < |ms| => ClassifyPulled(ms[i], codecs, commits(i)))
  }

  /** Message i is stored by the cycle exactly when it decodes twice and its insert commits. */
  predicate StoredByCycle(m: ReceivedMessage, codecs: Codecs, commits: bool)
  {
    && codecs.base64(m.data).Some?
    && codecs.utf8(codecs.base64(m.data).value).Some?
    && commits
  }

  /**
   * The calls a cycle makes on the service once it has pulled: one acknowledge, and only
   * when something was inserted.
   */
  function CycleLog(maxMessages: nat, acked: seq<string>): (events: seq<Event>)
    ensures 1 <= |events| <= 2 && events[0] == Pulled(maxMessages)
    ensures forall e :: e in events && e.Acknowledged? ==> e == Acknowledged(acked) && acked != []
    ensures acked != [] ==> Acknowledged(acked) in events
    ensures |events| == 2 <==> acked != []
    ensures |events| == 2 ==> events[1] == Acknowledged(acked)
  {
    [Pulled(maxMessages)] + (if acked == [] then [] else [Acknowledged(acked)])
  }

  /**
   * The loop of `pull_messages_and_insert`: every message of the batch in pull order, the
   * ids of the rows it inserted and the ack handles of the messages those rows came from.
   */
  method StoreBatch(store: Store, ms: seq<ReceivedMessage>, codecs: Codecs, commits: nat -> bool)
    returns (ackIds: seq<string>, insertedIds: seq<int>)
    requires store.Valid()
    modifies store
    ensures store.Valid()
    ensures var outs := CycleOutcomes(ms, codecs, commits);
            var added := RowsFrom(old(store.nextId), StoredTexts(outs));
            && ackIds == AckedHandles(ms, outs)
            && store.rows == old(store.rows) + added
            && store.nextId == old(store.nextId) + |added|
            && insertedIds == IdsOf(added)
  {
    ghost var outs := CycleOutcomes(ms, codecs, commits);
    ghost var first := store.nextId;
    ghost var rows0 := store.rows;
    ghost var texts: seq<string> := [];
    ackIds, insertedIds := [], [];
    for i := 0 to |ms|
      invariant store.Valid()
      invariant texts == StoredTexts(outs[..i])
      invariant ackIds == AckedHandles(ms[..i], outs[..i])
      invariant store.rows == rows0 + RowsFrom(first, texts)
      invariant store.nextId == first + |texts|
      invariant insertedIds == IdsOf(RowsFrom(first, texts))
    {
      SelectionsSnoc(ms, outs, i);
      var inserted := DecodeAndInsert(store, ms[i], codecs, commits(i));
      if inserted.Some? {
        insertedIds := insertedIds + [inserted.value];
        ackIds := ackIds + [ms[i].ackId];
        RowsFromSnoc(first, texts, outs[i].text);
        IdsOfAppend(RowsFrom(first, texts), [Row(first + |texts|, outs[i].text)]);
        texts := texts + [outs[i].text];
      }
    }
    assert ms[..|ms|] == ms;
    assert outs[..|outs|] == outs;
  }

  /**
   * `pull_messages_and_insert`: with both configuration values present, pull once, store
   * each message that decodes (base64, then UTF-8) and whose insert commits, collecting its
   * id and then its ack handle, and acknowledge the collected handles in one call. A failure
   * on one message skips that message only. The pull and the acknowledge are not guarded:
   * when they raise, the exception propagates (`Err`), after any inserts already committed.
   */
  method PullMessagesAndInsert(svc: Service, store: Store, subscription: Option<string>, project: Option<string>,
                               maxMessages: nat, cond: Conditions, codecs: Codecs, commits: nat -> bool)
    returns (r: Result<seq<int>>)
    requires store.Valid()
    modifies svc, store
    ensures store.Valid()
    ensures !(Configured(subscription) && Configured(project)) ==> r == Ok([]) && unchanged(svc, store)
    ensures Configured(subscription) && Configured(project) && !cond.clientUp ==> r.Err? && unchanged(svc, store)
    ensures Configured(subscription) && Configured(project) && cond.clientUp && cond.response.PullRaised? ==>
              r.Err? && svc.log == old(svc.log) + [Pulled(maxMessages)] && unchanged(store)
    ensures Configured(subscription) && Configured(project) && cond.clientUp && cond.response.Received? ==>
              var ms := cond.response.messages;
              var outs := CycleOutcomes(ms, codecs, commits);
              var acked := AckedHandles(ms, outs);
              var added := RowsFrom(old(store.nextId), StoredTexts(outs));
              && store.rows == old(store.rows) + added
              && store.nextId == old(store.nextId) + |added|
              && svc.log == old(svc.log) + CycleLog(maxMessages, acked)
              && r == (if acked != [] && !cond.ackReachable then Err("acknowledge failed") else Ok(IdsOf(added)))
  {
    if !Configured(subscription) || !Configured(project) {
      return Ok([]);
    }
    if !cond.clientUp {
      return Err("subscriber client unavailable");
    }
    var response := svc.Pull(maxMessages, cond.response);
    if response.PullRaised? {
      return Err("pull failed");
    }
    var ackIds, insertedIds := StoreBatch(store, response.messages, codecs, commits);
    if ackIds != [] {
      var raised := svc.Acknowledge(ackIds, cond.ackReachable);
      if raised {
        return Err("acknowledge failed");
      }
    }
    return Ok(insertedIds);
  }

  /**
   * The central invariant of the ack-after-insert pipeline: the handles acknowledged and the
   * texts inserted are selected by the same ascending list of pull positions, and a
   * position is selected exactly when its message decodes twice and its insert commits.
   */
  lemma {:induction false} AckedIffInserted(ms: seq<ReceivedMessage>, codecs: Codecs, commits: nat -> bool)
    ensures var outs := CycleOutcomes(ms, codecs, commits);
            var idx := StoredIndices(outs);
            && |AckedHandles(ms, outs)| == |StoredTexts(outs)| == |idx|
            && (forall j, k :: 0 <= j < k < |idx| ==> idx[j] < idx[k])
            && (forall j :: 0 <= j < |idx| ==>
                  && idx[j] < |ms|
                  && AckedHandles(ms, outs)[j] == ms[idx[j]].ackId
                  && StoredByCycle(ms[idx[j]], codecs, commits(idx[j]))
                  && Some(StoredTexts(outs)[j]) == codecs.utf8(codecs.base64(ms[idx[j]].data).value))
            && (forall i :: 0 <= i < |ms| ==> (i in idx <==> StoredByCycle(ms[i], codecs, commits(i))))
  {
    var outs := CycleOutcomes(ms, codecs, commits);
    SelectionsAligned(ms, outs);
    StoredIndicesExact(outs);
  }

  /** A message whose payload is not base64, or whose bytes are not UTF-8, is neither inserted nor acknowledged. */
  lemma {:induction false} UndecodableSkipped(ms: seq<ReceivedMessage>, codecs: Codecs, commits: nat -> bool, i: nat)
    requires i < |ms|
    requires codecs.base64(ms[i].data).None? || codecs.utf8(codecs.base64(ms[i].data).value).None?
    ensures i !in StoredIndices(CycleOutcomes(ms, codecs, commits))
  {
    AckedIffInserted(ms, codecs, commits);
  }

  /**
   * A failing insert on message k does not stop the loop: every later message is stored
   * (and acknowledged) exactly as if message k's insert had committed.
   */
  lemma {:induction false} InsertFailureIsolated(ms: seq<ReceivedMessage>, codecs: Codecs, commits: nat -> bool,
                              commitsAll: nat -> bool, k: nat)
    requires k < |ms| && !commits(k)
    requires forall i: nat :: i != k ==> commits(i) == commitsAll(i)
    ensures var idx := StoredIndices(CycleOutcomes(ms, codecs, commits));
            var idxAll := StoredIndices(CycleOutcomes(ms, codecs, commitsAll));
            && k !in idx
            && forall i :: 0 <= i < |ms| && i != k ==> (i in idx <==> i in idxAll)
  {
    AckedIffInserted(ms, codecs, commits);
    AckedIffInserted(ms, codecs, commitsAll);
  }

  /** Scenario: three messages that all decode and all commit give three ids and three acknowledged handles. */
  lemma {:induction false} AllStored(ms: seq<ReceivedMessage>, codecs: Codecs, commits: nat -> bool)
    requires |ms| == 3
    requires forall i :: 0 <= i < 3 ==> StoredByCycle(ms[i], codecs, commits(i))
    ensures AckedHandles(ms, CycleOutcomes(ms, codecs, commits)) == [ms[0].ackId, ms[1].ackId, ms[2].ackId]
    ensures |StoredTexts(CycleOutcomes(ms, codecs, commits))| == 3
  {
    var outs := CycleOutcomes(ms, codecs, commits);
    SelectionsSnoc(ms, outs, 0);
    SelectionsSnoc(ms, outs, 1);
    SelectionsSnoc(ms, outs, 2);
    assert outs[..0] == [] && ms[..0] == [];
    assert outs[..3] == outs && ms[..3] == ms;
  }

  /** Scenario: the middle message of three is not UTF-8; the other two are stored and only their handles acknowledged. */
  lemma {:induction false} MalformedMiddleSkipped(ms: seq<ReceivedMessage>, codecs: Codecs, commits: nat -> bool)
    requires |ms| == 3
    requires forall i :: 0 <= i < 3 ==> codecs.base64(ms[i].data).Some? && commits(i)
    requires codecs.utf8(codecs.base64(ms[0].data).value) == Some("ok")
    requires codecs.utf8(codecs.base64(ms[1].data).value).None?
    requires codecs.utf8(codecs.base64(ms[2].data).value) == Some("ok2")
    ensures AckedHandles(ms, CycleOutcomes(ms, codecs, commits)) == [ms[0].ackId, ms[2].ackId]
    ensures StoredTexts(CycleOutcomes(ms, codecs, commits)) == ["ok", "ok2"]
  {
    var outs := CycleOutcomes(ms, codecs, commits);
    SelectionsSnoc(ms, outs, 0);
    SelectionsSnoc(ms, outs, 1);
    SelectionsSnoc(ms, outs, 2);
    assert outs[..0] == [] && ms[..0] == [];
    assert outs[..3] == outs && ms[..3] == ms;
  }

  /** Scenario: of two messages, only the second insert fails; one text is stored and only the first handle acknowledged. */
  lemma {:induction false} SecondInsertFails(ms: seq<ReceivedMessage>, codecs: Codecs, commits: nat -> bool)
    requires |ms| == 2
    requires StoredByCycle(ms[0], codecs, commits(0))
    requires codecs.base64(ms[1].data).Some? && codecs.utf8(codecs.base64(ms[1].data).value).Some? && !commits(1)
    ensures AckedHandles(ms, CycleOutcomes(ms, codecs, commits)) == [ms[0].ackId]
    ensures StoredTexts(CycleOutcomes(ms, codecs, commits)) == [codecs.utf8(codecs.base64(ms[0].data).value).value]
  {
    var outs := CycleOutcomes(ms, codecs, commits);
    SelectionsSnoc(ms, outs, 0);
    SelectionsSnoc(ms, outs, 1);
    assert outs[..0] == [] && ms[..0] == [];
    assert outs[..2] == outs && ms[..2] == ms;
  }

  /** An empty pull stores nothing and makes no acknowledge call. */
  lemma {:induction false} EmptyPullNoAcknowledge(maxMessages: nat, codecs: Codecs, commits: nat -> bool)
    ensures StoredTexts(CycleOutcomes([], codecs, commits)) == []
    ensures CycleLog(maxMessages, AckedHandles([], CycleOutcomes([], codecs, commits))) == [Pulled(maxMessages)]
  {
    assert CycleOutcomes([], codecs, commits) == [];
  }

  /**
   * Storing is not idempotent: a cycle whose acknowledge fails leaves its batch to be
   * redelivered, and the next cycle over the same batch stores every stored text again,
   * under a larger id. `j` is the position of message i among the stored messages; the
   * rows of the two cycles follow the rows the table held before.
   */
  method RedeliveryDuplicates(svc: Service, store: Store, subscription: Option<string>, project: Option<string>,
                              maxMessages: nat, ms: seq<ReceivedMessage>, codecs: Codecs, commits: nat -> bool,
                              i: nat)
    returns (failed: Result<seq<int>>, ghost j: nat)
    requires store.Valid()
    requires Configured(subscription) && Configured(project)
    requires i < |ms| && StoredByCycle(ms[i], codecs, commits(i))
    modifies svc, store
    ensures store.Valid()
    ensures failed == Err("acknowledge failed")
    ensures var texts := StoredTexts(CycleOutcomes(ms, codecs, commits));
            var n := |old(store.rows)|;
            && j < |texts|
            && n + |texts| + j < |store.rows|
            && Some(store.rows[n + j].message) == codecs.utf8(codecs.base64(ms[i].data).value)
            && store.rows[n + |texts| + j].message == store.rows[n + j].message
            && store.rows[n + j].id < store.rows[n + |texts| + j].id
  {
    ghost var texts := StoredTexts(CycleOutcomes(ms, codecs, commits));
    ghost var rows0, n0 := store.rows, store.nextId;
    j := StoredPosition(ms, codecs, commits, i);
    failed := PullMessagesAndInsert(svc, store, subscription, project, maxMessages,
                                    Conditions(true, Received(ms), false), codecs, commits);
    var again := PullMessagesAndInsert(svc, store, subscription, project, maxMessages,
                                       Conditions(true, Received(ms), true), codecs, commits);
    RowsFromTwice(rows0, n0, texts, j);
  }

  /** A message the cycle stores has a position among the stored texts, holding its decoded payload. */
  lemma {:induction false} StoredPosition(ms: seq<ReceivedMessage>, codecs: Codecs, commits: nat -> bool, i: nat)
    returns (j: nat)
    requires i < |ms| && StoredByCycle(ms[i], codecs, commits(i))
    ensures var outs := CycleOutcomes(ms, codecs, commits);
            && j < |StoredTexts(outs)|
            && Some(StoredTexts(outs)[j]) == codecs.utf8(codecs.base64(ms[i].data).value)
            && AckedHandles(ms, outs) != []
  {
    var outs := CycleOutcomes(ms, codecs, commits);
    assert outs[i] == ClassifyPulled(ms[i], codecs, commits(i));
    StoredIndicesExact(outs);
    SelectionsAligned(ms, outs);
    var idx := StoredIndices(outs);
    j :| 0 <= j < |idx| && idx[j] == i;
  }

  // ---------------------------------------------------------------------------
  // Pull and acknowledge everything
  // ---------------------------------------------------------------------------

  /**
   * What `pull_messages_from_subscription` returns when its client could be created: the
   * received batch unchanged, or nothing when the pull raised, the batch was empty or the
   * acknowledge raised.
   */
  function Delivered(cond: Conditions): (ms: seq<ReceivedMessage>)
    ensures ms != [] <==> cond.response.Received? && cond.response.messages != [] && cond.ackReachable
    ensures ms != [] ==> ms == cond.response.messages
  {
    match cond.response
    case PullRaised => []
    case Received(received) => if received != [] && cond.ackReachable then received else []
  }

  /** The calls `pull_messages_from_subscription` makes: one pull, then one acknowledge of every received handle. */
  function SubscriptionPullLog(maxMessages: nat, response: PullResponse): (events: seq<Event>)
    ensures 1 <= |events| <= 2 && events[0] == Pulled(maxMessages)
    ensures |events| == 2 <==> response.Received? && response.messages != []
    ensures |events| == 2 ==> events[1] == Acknowledged(AckIdsOf(response.messages))
  {
    [Pulled(maxMessages)]
    + (if response.Received? && response.messages != [] then [Acknowledged(AckIdsOf(response.messages))] else [])
  }

  /**
   * `pull_messages_from_subscription`: pull once and acknowledge every received handle,
   * whatever the payloads hold, before returning the batch. Creating the client is not
   * guarded (`Err`); a pull or acknowledge that raises is caught and yields no messages.
   */
  method PullMessagesFromSubscription(svc: Service, maxMessages: nat, cond: Conditions)
    returns (r: Result<seq<ReceivedMessage>>)
    modifies svc
    ensures !cond.clientUp ==> r.Err? && unchanged(svc)
    ensures cond.clientUp ==> r == Ok(Delivered(cond))
                              && svc.log == old(svc.log) + SubscriptionPullLog(maxMessages, cond.response)
  {
    if !cond.clientUp {
      return Err("subscriber client unavailable");
    }
    var response := svc.Pull(maxMessages, cond.response);
    if response.PullRaised? {
      return Ok([]);
    }
    var received := response.messages;
    if received == [] {
      return Ok([]);
    }
    var ackIds: seq<string> := [];
    for i := 0 to |received|
      invariant ackIds == AckIdsOf(received[..i])
    {
      assert received[..i + 1][..i] == received[..i];
      ackIds := ackIds + [received[i].ackId];
    }
    assert received[..|received|] == received;
    if ackIds != [] {
      var raised := svc.Acknowledge(ackIds, cond.ackReachable);
      if raised {
        return Ok([]);
      }
    }
    return Ok(received);
  }

  /**
   * The pull that acknowledges everything acknowledges every received handle whatever its
   * payload, so a message the ack-after-insert cycle would skip is acknowledged here.
   */
  lemma {:induction false} AckAllIgnoresPayload(maxMessages: nat, ms: seq<ReceivedMessage>, codecs: Codecs, commits: nat -> bool, i: nat)
    requires i < |ms|
    requires !StoredByCycle(ms[i], codecs, commits(i))
    ensures ms[i].ackId in SubscriptionPullLog(maxMessages, Received(ms))[1].ackIds
    ensures i !in StoredIndices(CycleOutcomes(ms, codecs, commits))
  {
    assert SubscriptionPullLog(maxMessages, Received(ms))[1].ackIds[i] == ms[i].ackId;
    AckedIffInserted(ms, codecs, commits);
  }
}
