/** The packet writer seen from above the byte level: an append-only trace of
    typed write calls. How each token becomes bytes (VarInt layout, length
    prefixes) belongs to the encoding package, which is not part of this model. */
module Wire {
  import opened Common

  /** One call on the writer, with the value it was given. */
  datatype Token =
    | UUID(id: Uuid)
    | VarInt(value: int)
    | Bool(flag: bool)
    | FixedBytes(bytes: seq<byte>)
    | Str(text: string)
    | Int64(long: int64)
    | ByteArray(bytes: seq<byte>)

  /** The calls made so far, and the positions at which the underlying sink
      reports a failure (the k-th call fails iff k is in `faults`). A failing
      call is still a call the encoder made, so it is recorded in `tokens`. */
  datatype Writer = Writer(tokens: seq<Token>, faults: set<nat>)

  /** One write call: record it, and report the sink's verdict for its position. */
  function Put(w: Writer, t: Token): (r: (Writer, Option<Error>))
    ensures r.0.tokens == w.tokens + [t] && r.0.faults == w.faults
    ensures r.1.Some? <==> |w.tokens| in w.faults
  {
    (w.(tokens := w.tokens + [t]), if |w.tokens| in w.faults then Some(WriteFailed) else None)
  }

  /** A run of write calls whose errors the caller discards. */
  function PutAll(w: Writer, ts: seq<Token>): (r: Writer)
    ensures r.tokens == w.tokens + ts && r.faults == w.faults
    decreases |ts|
  {
    if ts == [] then w
    else
      var w1 := Put(w, ts[0]).0;
      assert w1.tokens + ts[1..] == w.tokens + ts;
      PutAll(w1, ts[1..])
  }
}
