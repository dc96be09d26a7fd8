/**
 * The worker's queue consumer: every delivery is decoded; a vote that decodes is forwarded
 * on the output channel, modelled as the sequence of votes sent so far, and a delivery that
 * does not decode is dropped. Deliveries are auto-acknowledged, so each is seen exactly once.
 */
module WorkerQueue {
  import opened Wrappers
  import opened VoteModel

  datatype Delivery = Delivery(body: string)

  /** The vote serializer's `Decode`: a vote, or None for a body it cannot parse. */
  type Decoder = string -> Option<Vote>

  /** The votes forwarded for `msgs`, in delivery order. */
  function Forwarded(msgs: seq<Delivery>, decode: Decoder): seq<Vote> {
    if msgs == [] then []
    else
      var last := msgs[|msgs| - 1];
      Forwarded(msgs[..|msgs| - 1], decode) + (if decode(last.body).Some? then [decode(last.body).value] else [])
  }

  /** How many of `msgs` decode. */
  function DecodableCount(msgs: seq<Delivery>, decode: Decoder): nat {
    if msgs == [] then 0
    else DecodableCount(msgs[..|msgs| - 1], decode) + (if decode(msgs[|msgs| - 1].body).Some? then 1 else 0)
  }

  /** `processMessage`: forward the decoded vote, or drop the delivery. */
  method ProcessMessage(msg: Delivery, decode: Decoder, sent: seq<Vote>) returns (sent': seq<Vote>)
    ensures decode(msg.body).None? ==> sent' == sent
    ensures decode(msg.body).Some? ==> sent' == sent + [decode(msg.body).value]
  {
    var v := decode(msg.body);
    if v.None? {
      return sent;
    }
    sent' := sent + [v.value];
  }

  /** The `for msg := range msgs` loop of `Consume`. */
  method Consume(msgs: seq<Delivery>, decode: Decoder) returns (sent: seq<Vote>)
    ensures sent == Forwarded(msgs, decode)
  {
    sent := [];
    for i := 0 to |msgs|
      invariant sent == Forwarded(msgs[..i], decode)
    {
      assert msgs[..i + 1][..i] == msgs[..i];
      sent := ProcessMessage(msgs[i], decode, sent);
    }
    assert msgs[..|msgs|] == msgs;
  }

  /** Exactly the deliveries that decode are forwarded, so never more votes than deliveries. */
  lemma {:induction false} ForwardedLength(msgs: seq<Delivery>, decode: Decoder)
    ensures |Forwarded(msgs, decode)| == DecodableCount(msgs, decode) <= |msgs|
  {
    if msgs != [] {
      ForwardedLength(msgs[..|msgs| - 1], decode);
    }
  }

  /** Consuming a concatenation forwards the votes of each part in turn. */
  lemma {:induction false} ForwardedConcat(a: seq<Delivery>, b: seq<Delivery>, decode: Decoder)
    ensures Forwarded(a + b, decode) == Forwarded(a, decode) + Forwarded(b, decode)
    ensures DecodableCount(a + b, decode) == DecodableCount(a, decode) + DecodableCount(b, decode)
  {
    if b != [] {
      assert (a + b)[..|a + b| - 1] == a + b[..|b| - 1];
      ForwardedConcat(a, b[..|b| - 1], decode);
    } else {
      assert a + b == a;
    }
  }

  /** A delivery that does not decode is dropped and does not stop the deliveries after it. */
  lemma {:induction false} MalformedDropped(before: seq<Delivery>, bad: Delivery, after: seq<Delivery>, decode: Decoder)
    requires decode(bad.body).None?
    ensures Forwarded(before + [bad] + after, decode) == Forwarded(before, decode) + Forwarded(after, decode)
  {
    ForwardedConcat(before + [bad], after, decode);
    ForwardedConcat(before, [bad], decode);
    assert [bad][..0] == [];
    assert Forwarded([bad], decode) == [];
  }

  /**
   * The delivery at position `i`, if it decodes, is forwarded exactly once, as its decoded
   * vote, right after the votes of the deliveries before it.
   */
  lemma {:induction false} ForwardedInOrder(msgs: seq<Delivery>, decode: Decoder, i: nat)
    requires i < |msgs| && decode(msgs[i].body).Some?
    ensures DecodableCount(msgs[..i], decode) < |Forwarded(msgs, decode)|
    ensures Forwarded(msgs, decode)[DecodableCount(msgs[..i], decode)] == decode(msgs[i].body).value
  {
    var pre, here, post := msgs[..i], [msgs[i]], msgs[i + 1..];
    assert msgs == pre + here + post;
    ForwardedConcat(pre + here, post, decode);
    ForwardedConcat(pre, here, decode);
    assert here[..0] == [];
    ForwardedLength(pre, decode);
  }
}
