/**
 * What happens to each message of a pulled batch, and which messages a pipeline stores
 * and acknowledges. Both pipelines walk the batch in pull order; the functions below
 * select, in that order, the messages whose outcome is `Stored`.
 */
module Batch {
  import opened Queue

  /** The fate of one message in one cycle. */
  datatype Outcome = NotBase64 | NotUtf8 | InsertFailed | Stored(text: string)

  /** Positions of the stored messages, in pull order. */
  function StoredIndices(outs: seq<Outcome>): seq<nat>
  {
    if outs == [] then []
    else StoredIndices(outs[..|outs| - 1]) + (if outs[|outs| - 1].Stored? then [|outs| - 1] else [])
  }

  /** The texts inserted into the table, in insertion order. */
  function StoredTexts(outs: seq<Outcome>): seq<string>
  {
    if outs == [] then []
    else StoredTexts(outs[..|outs| - 1]) + (if outs[|outs| - 1].Stored? then [outs[|outs| - 1].text] else [])
  }

  /** The ack handles collected for the stored messages, in the order they were collected. */
  function AckedHandles(ms: seq<ReceivedMessage>, outs: seq<Outcome>): seq<string>
    requires |ms| == |outs|
  {
    if outs == [] then []
    else AckedHandles(ms[..|ms| - 1], outs[..|outs| - 1])
         + (if outs[|outs| - 1].Stored? then [ms[|ms| - 1].ackId] else [])
  }

  /** The stored positions are exactly the positions whose outcome is `Stored`, ascending. */
  lemma {:induction false} StoredIndicesExact(outs: seq<Outcome>)
    ensures forall j :: 0 <= j < |StoredIndices(outs)| ==>
              StoredIndices(outs)[j] < |outs| && outs[StoredIndices(outs)[j]].Stored?
    ensures forall j, k :: 0 <= j < k < |StoredIndices(outs)| ==> StoredIndices(outs)[j] < StoredIndices(outs)[k]
    ensures forall i :: 0 <= i < |outs| ==> (i in StoredIndices(outs) <==> outs[i].Stored?)
  {
    if outs != [] {
      var init := outs[..|outs| - 1];
      StoredIndicesExact(init);
      assert forall i :: 0 <= i < |init| ==> init[i] == outs[i];
    }
  }

  /**
   * Acked handles and inserted texts line up: entry j of each comes from the same
   * message, the j-th stored one in pull order.
   */
  lemma {:induction false} SelectionsAligned(ms: seq<ReceivedMessage>, outs: seq<Outcome>)
    requires |ms| == |outs|
    ensures |AckedHandles(ms, outs)| == |StoredIndices(outs)|
    ensures |StoredTexts(outs)| == |StoredIndices(outs)|
    ensures forall j :: 0 <= j < |StoredIndices(outs)| ==>
              && StoredIndices(outs)[j] < |outs|
              && outs[StoredIndices(outs)[j]].Stored?
              && AckedHandles(ms, outs)[j] == ms[StoredIndices(outs)[j]].ackId
              && StoredTexts(outs)[j] == outs[StoredIndices(outs)[j]].text
  {
    StoredIndicesExact(outs);
    if outs != [] {
      var ms', outs' := ms[..|ms| - 1], outs[..|outs| - 1];
      SelectionsAligned(ms', outs');
      assert forall i :: 0 <= i < |outs'| ==> outs'[i] == outs[i] && ms'[i] == ms[i];
    }
  }

  /** Growing a batch by one message extends each selection by at most that message. */
  lemma {:induction false} SelectionsSnoc(ms: seq<ReceivedMessage>, outs: seq<Outcome>, i: nat)
    requires |ms| == |outs| && i < |outs|
    ensures StoredTexts(outs[..i + 1]) == StoredTexts(outs[..i]) + (if outs[i].Stored? then [outs[i].text] else [])
    ensures AckedHandles(ms[..i + 1], outs[..i + 1])
            == AckedHandles(ms[..i], outs[..i]) + (if outs[i].Stored? then [ms[i].ackId] else [])
  {
    assert outs[..i + 1][..i] == outs[..i];
    assert ms[..i + 1][..i] == ms[..i];
  }
}
