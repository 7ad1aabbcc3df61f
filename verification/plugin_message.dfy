/** The plugin-message packet (packet/plugin_message.go): a channel name and
    an opaque payload. */
module PluginMessages {
  import opened Common
  import opened Wire

  datatype PluginMessage = PluginMessage(channel: string, data: seq<byte>)

  /** The packet ID the message is framed with. */
  function Id(): (id: int32)
    ensures id == 0x17
  {
    0x17
  }

  /** Reads a plugin message back from the writes of one Encode call: a string
      then a byte array, and nothing else. */
  function Parse(ts: seq<Token>): (r: Option<PluginMessage>)
    ensures r.Some? <==> |ts| == 2 && ts[0].Str? && ts[1].ByteArray?
  {
    if |ts| == 2 && ts[0].Str? && ts[1].ByteArray? then
      Some(PluginMessage(ts[0].text, ts[1].bytes))
    else
      None
  }

  /** Writes the channel as a string and then the data as a byte array. The
      string write's error is dropped; the byte array write's error is the
      result. */
  function Encode(p: PluginMessage, w: Writer): (r: (Writer, Option<Error>))
    ensures r.0.faults == w.faults
    ensures |r.0.tokens| == |w.tokens| + 2 && r.0.tokens[..|w.tokens|] == w.tokens
    ensures Parse(r.0.tokens[|w.tokens|..]) == Some(p)
    ensures r.1.Some? <==> |w.tokens| + 1 in w.faults
  {
    var (w1, _) := Put(w, Str(p.channel));
    var (w2, err) := Put(w1, ByteArray(p.data));
    assert w2.tokens[|w.tokens|..] == [Str(p.channel), ByteArray(p.data)];
    (w2, err)
  }

  /** Decoding is not implemented: every call panics, whatever the input. */
  function Decode(p: PluginMessage, input: seq<Token>): (r: Outcome)
    ensures r.Panicked?
  {
    Panicked("implement me")
  }

  /** Two writers that agree everywhere except on whether the channel write
      fails give Encode the same result: that write's error never surfaces. */
  lemma ChannelWriteErrorIgnored(p: PluginMessage, w1: Writer, w2: Writer)
    requires w1.tokens == w2.tokens
    requires w1.faults - {|w1.tokens|} == w2.faults - {|w2.tokens|}
    ensures Encode(p, w1).1 == Encode(p, w2).1
    ensures Encode(p, w1).0.tokens == Encode(p, w2).0.tokens
  {
    var k := |w1.tokens| + 1;
    assert k in w1.faults <==> k in w1.faults - {|w1.tokens|};
    assert k in w2.faults <==> k in w2.faults - {|w2.tokens|};
  }
}
