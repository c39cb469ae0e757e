/** streamTransport: framed messages on a byte stream. */
module Transport {
  import opened Bytes
  import opened Bufio
  import opened Streams

  /** Up to this capacity the transport keeps its write buffer for the next batch. */
  const MAX_RETAINED: nat := 0x10_0000

  /** What the connection does with one write. */
  datatype WriteOutcome =
    | DeadlineFailed(error: Error)
    | Wrote
    | Failed(taken: nat, error: Error)

  /** The bytes that reach the connection when a batch is written. */
  function OnWire(c: Codec, msgs: seq<Bytes>, outcome: WriteOutcome): Bytes {
    if !AllEncodable(c, msgs) then []
    else match outcome
      case DeadlineFailed(_) => []
      case Wrote => EncodeAll(c, msgs)
      case Failed(n, _) =>
        var all := EncodeAll(c, msgs);
        if n < |all| then all[..n] else all
  }

  function WriteError(c: Codec, msgs: seq<Bytes>, outcome: WriteOutcome): Option<Error> {
    if !AllEncodable(c, msgs) then Some(FrameTooLarge)
    else match outcome
      case DeadlineFailed(e) => Some(e)
      case Wrote => None
      case Failed(_, e) => Some(e)
  }

  class StreamTransport {
    const codec: Codec
    const max: nat
    const r: Reader
    /** Capacity of the retained write buffer; its contents are never read again. */
    var retained: nat
    var wire: Bytes

    constructor (codec: Codec, max: nat, r: Reader)
      ensures this.codec == codec && this.max == max && this.r == r && wire == [] && retained == 0
    {
      this.codec, this.max, this.r := codec, max, r;
      retained, wire := 0, [];
    }

    method ReadMessage(deadline: Option<Error>) returns (result: Result<Bytes>)
      modifies r`rest
      ensures deadline.Some? ==> result == Err(deadline.value) && r.rest == old(r.rest)
      ensures deadline.None? ==>
                var (o, used) := Next(codec, old(r.rest), max, r.size, r.terminal);
                result == o && r.rest == old(r.rest)[used..]
    {
      if deadline.Some? {
        return Err(deadline.value);
      }
      result := Read(codec, r, max);
    }

    /** A batch is a single write, and none at all when one of its messages cannot be encoded. */
    method WriteMessages(msgs: seq<Bytes>, outcome: WriteOutcome) returns (error: Option<Error>)
      requires codec.UvarintCodec? ==> AllEncodable(codec, msgs)
      requires retained <= MAX_RETAINED
      modifies this
      ensures !AllEncodable(codec, msgs) || outcome.DeadlineFailed? ==>
                wire == old(wire) && retained == old(retained)
      ensures !AllEncodable(codec, msgs) ==> error == Some(FrameTooLarge)
      ensures AllEncodable(codec, msgs) && !outcome.DeadlineFailed? ==>
                var all := EncodeAll(codec, msgs);
                && (outcome.Wrote? ==> wire == old(wire) + all)
                && (outcome.Failed? && outcome.taken < |all| ==> wire == old(wire) + all[..outcome.taken])
                && (outcome.Failed? && outcome.taken >= |all| ==> wire == old(wire) + all)
                && (retained == 0 || retained >= |all|)
                && (|all| <= old(retained) ==> retained == old(retained))
      ensures AllEncodable(codec, msgs) ==> error == if outcome.Wrote? then None else Some(outcome.error)
      ensures retained <= 1024 * 1024
      ensures wire == old(wire) + OnWire(codec, msgs, outcome)
      ensures error == WriteError(codec, msgs, outcome)
    {
      hide Encode, Encodable;
      var buf: Bytes := [];
      var capacity := retained;
      for i := 0 to |msgs|
        invariant AllEncodable(codec, msgs[..i]) && buf == EncodeAll(codec, msgs[..i])
        invariant |buf| <= capacity && (capacity == retained || |buf| > retained)
        invariant retained == old(retained) && wire == old(wire)
      {
        var e: Option<Error>;
        buf, e := Append(codec, buf, msgs[i]);
        if e != None {
          assert !Encodable(codec, msgs[i]);
          assert FrameTooLarge == e.value;
          return e;
        }
        EncodeAllSnoc(codec, msgs, i);
        if |buf| > capacity {
          // append grows the array by an unspecified amount
          capacity :| capacity >= |buf|;
        }
      }
      assert msgs[..|msgs|] == msgs;
      match outcome {
        case DeadlineFailed(e) =>
          return Some(e);
        case Wrote =>
          wire := wire + buf;
          error := None;
        case Failed(n, e) =>
          wire := wire + if n < |buf| then buf[..n] else buf;
          error := Some(e);
      }
      retained := if capacity <= MAX_RETAINED then capacity else 0;
    }
  }

  lemma EncodeAllSnoc(c: Codec, msgs: seq<Bytes>, i: nat)
    requires i < |msgs| && AllEncodable(c, msgs[..i]) && Encodable(c, msgs[i])
    ensures AllEncodable(c, msgs[..i + 1])
    ensures EncodeAll(c, msgs[..i + 1]) == EncodeAll(c, msgs[..i]) + Encode(c, msgs[i])
  {
    hide Encode, Encodable;
    assert msgs[..i + 1] == msgs[..i] + [msgs[i]];
    EncodeAllConcat(c, msgs[..i], [msgs[i]]);
    assert EncodeAll(c, [msgs[i]]) == Encode(c, msgs[i]) + EncodeAll(c, []);
  }

  /** Splitting a batch in two changes nothing on the wire. */
  lemma BatchingIsInvisible(c: Codec, b1: seq<Bytes>, b2: seq<Bytes>)
    requires AllEncodable(c, b1) && AllEncodable(c, b2)
    ensures OnWire(c, b1 + b2, Wrote) == OnWire(c, b1, Wrote) + OnWire(c, b2, Wrote)
  {
    EncodeAllConcat(c, b1, b2);
  }
}
