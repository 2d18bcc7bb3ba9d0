/** Identifiers and the three header fields that correlate messages with operations.
    The byte layout of the header is not modelled; a header is just its fields. */
module Protocol {

  /** A driver address. Its wire format is treated as the address itself, so
      encoding it into a header and decoding it back is the identity. */
  type Address = nat

  /** An operation id: the transport id of the manager that issued it and the
      sequence number drawn from that manager's counter. */
  datatype OpId = OpId(transportId: nat, sequence: nat)

  /** The value of a default-constructed OpId. */
  const DEFAULT_OP_ID: OpId := OpId(0, 0)

  /** The two reserved stage ids. */
  const ULTIMATE_RESPONSE_ID: nat := 0
  const INITIAL_REQUEST_ID: nat := 1

  /** The fields of Protocol::Message::Header that this layer reads and writes. */
  datatype Header = Header(opId: OpId, stageId: nat, replyAddress: Address)

  /** A message whose header carries the ultimate-response sentinel is a
      response to some RemoteOp; every other message is a request for a stage. */
  predicate IsResponse(h: Header)
  {
    h.stageId == ULTIMATE_RESPONSE_ID
  }

  /** The stage id delegate() writes into the forwarded request's header. */
  function DelegatedStage(stageId: nat): (r: nat)
    ensures stageId < r
    ensures r != ULTIMATE_RESPONSE_ID
  {
    stageId + 1
  }

  /** The stage ids seen along a chain of `hops` delegations of one request
      whose first stage had id `first`: each stage receives the id written by
      the previous stage's delegate(). */
  function StageChain(first: nat, hops: nat): (r: seq<nat>)
    ensures |r| == hops + 1
    ensures r[0] == first
  {
    if hops == 0 then [first]
    else
      var earlier := StageChain(first, hops - 1);
      earlier + [DelegatedStage(earlier[hops - 1])]
  }

  /** Along a delegation chain the stage id strictly increases, so no stage is
      visited twice, and no forwarded request is ever mistaken for a response. */
  lemma {:induction false} StageChainIncreases(first: nat, hops: nat)
    ensures forall i, j :: 0 <= i < j <= hops ==> StageChain(first, hops)[i] < StageChain(first, hops)[j]
    ensures forall i :: 0 < i <= hops ==> StageChain(first, hops)[i] != ULTIMATE_RESPONSE_ID
  {
    if hops > 0 {
      StageChainIncreases(first, hops - 1);
      var earlier := StageChain(first, hops - 1);
      assert StageChain(first, hops) == earlier + [DelegatedStage(earlier[hops - 1])];
    }
  }
}
