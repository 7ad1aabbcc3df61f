/** The player-chat-message packet (packet/player_chat_message.go): only its
    encoder is implemented. The encoder is modelled as the exact run of writer
    calls it makes; `Parse` is an independent reader of that run, and the round
    trip `Parse(encoding) == View(message)` is what pins the layout down. */
module PlayerChat {
  import opened Common
  import opened Wire

  /** A reference to an earlier message: its ID and, when the ID is -1, the
      full signature of that message. */
  datatype PreviousMessage = PreviousMessage(messageId: int32, signature: seq<byte>)

  /** `messageSignature` is None for a nil slice; an empty but non-nil slice is
      `Some([])` and is written as present. */
  datatype PlayerChatMessage = PlayerChatMessage(
    sender: Uuid,
    index: int32,
    messageSignature: Option<seq<byte>>,
    message: string,
    timestamp: int64,
    salt: int64,
    previousMessages: seq<PreviousMessage>,
    unsignedContent: string,
    filterType: int32,
    filterTypeBits: seq<int64>,
    chatType: int32,
    networkName: string,
    networkTargetName: string)

  /** `chat.NewMessage(s).String()`: the chat package's JSON wrapping of a plain
      string. It is not part of this model and is taken as a parameter. */
  type ChatWrap = string -> string

  /** The packet ID the message is framed with. */
  function Id(): (id: int32)
    ensures id == 0x35
  {
    0x35
  }

  /** Decoding is not implemented: it fails with NotImplemented and leaves the
      receiver as it was, whatever the input. */
  function Decode(m: PlayerChatMessage, input: seq<Token>): (r: (PlayerChatMessage, Option<Error>))
    ensures r.0 == m && r.1 == Some(NotImplemented)
  {
    (m, Some(NotImplemented))
  }

  // ---------------------------------------------------------------------------
  // What a reader of the encoding sees
  // ---------------------------------------------------------------------------

  /** A previous-message entry as written: the shifted ID, and the signature
      when one follows it. */
  datatype PreviousView = PreviousView(wireId: int, signature: Option<seq<byte>>)

  /** The unsigned-content section when present: the wrapped content, the
      filter type, and the filter bits when the type is 2. */
  datatype UnsignedView = UnsignedView(content: string, filterType: int, filterBits: Option<seq<int64>>)

  datatype ChatView = ChatView(
    sender: Uuid,
    index: int,
    signature: Option<seq<byte>>,
    message: string,
    timestamp: int64,
    salt: int64,
    previous: seq<PreviousView>,
    unsigned: Option<UnsignedView>,
    chatType: int,
    networkName: string,
    targetName: Option<string>)

  /** The intended meaning of a previous-message entry on the wire: the ID is
      shifted up by one in int32 arithmetic, and the signature travels exactly
      for the entry whose ID is -1 (shifted value 0). */
  function PreviousViewOf(p: PreviousMessage): (r: PreviousView) {
    PreviousView(Wrap32(p.messageId + 1), if p.messageId == -1 then Some(p.signature) else None)
  }

  /** One view per entry, in order. */
  function PreviousViews(ps: seq<PreviousMessage>): (vs: seq<PreviousView>)
    ensures |vs| == |ps|
  {
    seq(|ps|, i requires 0 <= i < |ps| => PreviousViewOf(ps[i]))
  }

  /** The message as a reader of its encoding should see it: optional parts
      are absent exactly when the in-memory value is nil or empty, the filter
      type exists only alongside unsigned content, and strings other than the
      message body are chat-wrapped. */
  function View(m: PlayerChatMessage, wrap: ChatWrap): (r: ChatView) {
    ChatView(
      m.sender, m.index, m.messageSignature,
      m.message, m.timestamp, m.salt,
      PreviousViews(m.previousMessages),
      if m.unsignedContent == "" then None
      else Some(UnsignedView(wrap(m.unsignedContent), m.filterType,
                             if m.filterType == 2 then Some(m.filterTypeBits) else None)),
      m.chatType, wrap(m.networkName),
      if m.networkTargetName == "" then None else Some(wrap(m.networkTargetName)))
  }

  // ---------------------------------------------------------------------------
  // The encoder, section by section, in the order of its writer calls
  // ---------------------------------------------------------------------------

  function HeaderTokens(m: PlayerChatMessage): (r: seq<Token>) {
    [UUID(m.sender), VarInt(m.index)]
    + (match m.messageSignature
       case Some(s) => [Bool(true), FixedBytes(s)]
       case None => [Bool(false)])
  }

  function BodyTokens(m: PlayerChatMessage): (r: seq<Token>) {
    [Str(m.message), Int64(m.timestamp), Int64(m.salt)]
  }

  function EntryTokens(p: PreviousMessage): (r: seq<Token>) {
    var wire := Wrap32(p.messageId + 1);
    if wire == 0 then [VarInt(wire), FixedBytes(p.signature)] else [VarInt(wire)]
  }

  // The source ranges over `m.PreviousMesages` (sic), a field the struct does
  // not declare, right after writing `len(m.PreviousMessages)`; the evident
  // intent, modelled here, is to iterate `PreviousMessages`.
  function PreviousTokens(ps: seq<PreviousMessage>): (r: seq<Token>)
    decreases |ps|
  {
    if ps == [] then [] else EntryTokens(ps[0]) + PreviousTokens(ps[1..])
  }

  function LongTokens(bs: seq<int64>): (r: seq<Token>)
    decreases |bs|
  {
    if bs == [] then [] else [Int64(bs[0])] + LongTokens(bs[1..])
  }

  function UnsignedTokens(m: PlayerChatMessage, wrap: ChatWrap): (r: seq<Token>) {
    if m.unsignedContent != "" then
      [Bool(true), Str(wrap(m.unsignedContent)), VarInt(m.filterType)]
      + (if m.filterType == 2 then [VarInt(|m.filterTypeBits|)] + LongTokens(m.filterTypeBits) else [])
    else
      [Bool(false)]
  }

  function TrailerTokens(m: PlayerChatMessage, wrap: ChatWrap): (r: seq<Token>) {
    [VarInt(m.chatType), Str(wrap(m.networkName))]
    + (if m.networkTargetName != "" then [Bool(true), Str(wrap(m.networkTargetName))] else [Bool(false)])
  }

  function ChatTokens(m: PlayerChatMessage, wrap: ChatWrap): (r: seq<Token>) {
    HeaderTokens(m)
    + (BodyTokens(m)
    + ([VarInt(|m.previousMessages|)] + PreviousTokens(m.previousMessages)
    + (UnsignedTokens(m, wrap)
    + TrailerTokens(m, wrap))))
  }

  /** Encode writes every section, ignores every write error and returns nil;
      what it appends reads back as exactly the message's view. */
  function Encode(m: PlayerChatMessage, w: Writer, wrap: ChatWrap): (r: (Writer, Option<Error>))
    ensures r.1 == None
    ensures r.0.faults == w.faults
    ensures |w.tokens| <= |r.0.tokens| && r.0.tokens[..|w.tokens|] == w.tokens
    ensures Parse(r.0.tokens[|w.tokens|..]) == Some(View(m, wrap))
  {
    var w' := PutAll(w, ChatTokens(m, wrap));
    ChatRoundTrip(m, wrap);
    assert w'.tokens[|w.tokens|..] == ChatTokens(m, wrap);
    (w', None)
  }

  // ---------------------------------------------------------------------------
  // An independent reader of the encoding
  // ---------------------------------------------------------------------------

  function ParseHeader(ts: seq<Token>): (r: Option<((Uuid, int, Option<seq<byte>>), seq<Token>)>) {
    if |ts| < 3 || !ts[0].UUID? || !ts[1].VarInt? || !ts[2].Bool? then None
    else if !ts[2].flag then Some(((ts[0].id, ts[1].value, None), ts[3..]))
    else if |ts| < 4 || !ts[3].FixedBytes? then None
    else Some(((ts[0].id, ts[1].value, Some(ts[3].bytes)), ts[4..]))
  }

  function ParseBody(ts: seq<Token>): (r: Option<((string, int64, int64), seq<Token>)>) {
    if |ts| < 3 || !ts[0].Str? || !ts[1].Int64? || !ts[2].Int64? then None
    else Some(((ts[0].text, ts[1].long, ts[2].long), ts[3..]))
  }

  /** Reads `n` entries; an entry whose shifted ID is 0 carries a signature. */
  function ParseEntries(ts: seq<Token>, n: nat): (r: Option<(seq<PreviousView>, seq<Token>)>)
    decreases n
  {
    if n == 0 then Some(([], ts))
    else if |ts| == 0 || !ts[0].VarInt? then None
    else if ts[0].value == 0 && (|ts| < 2 || !ts[1].FixedBytes?) then None
    else
      var entry := if ts[0].value == 0 then PreviousView(0, Some(ts[1].bytes)) else PreviousView(ts[0].value, None);
      var after := if ts[0].value == 0 then ts[2..] else ts[1..];
      match ParseEntries(after, n - 1)
      case None => None
      case Some((entries, rest)) => Some(([entry] + entries, rest))
  }

  function ParsePrevious(ts: seq<Token>): (r: Option<(seq<PreviousView>, seq<Token>)>) {
    if |ts| == 0 || !ts[0].VarInt? || ts[0].value < 0 then None
    else ParseEntries(ts[1..], ts[0].value)
  }

  function ParseLongs(ts: seq<Token>, n: nat): (r: Option<(seq<int64>, seq<Token>)>)
    decreases n
  {
    if n == 0 then Some(([], ts))
    else if |ts| == 0 || !ts[0].Int64? then None
    else
      match ParseLongs(ts[1..], n - 1)
      case None => None
      case Some((longs, after)) => Some(([ts[0].long] + longs, after))
  }

  function ParseUnsigned(ts: seq<Token>): (r: Option<(Option<UnsignedView>, seq<Token>)>) {
    if |ts| == 0 || !ts[0].Bool? then None
    else if !ts[0].flag then Some((None, ts[1..]))
    else if |ts| < 3 || !ts[1].Str? || !ts[2].VarInt? then None
    else if ts[2].value != 2 then Some((Some(UnsignedView(ts[1].text, ts[2].value, None)), ts[3..]))
    else if |ts| < 4 || !ts[3].VarInt? || ts[3].value < 0 then None
    else
      match ParseLongs(ts[4..], ts[3].value)
      case None => None
      case Some((bits, rest)) => Some((Some(UnsignedView(ts[1].text, 2, Some(bits))), rest))
  }

  /** The trailer ends the packet: nothing may follow it. */
  function ParseTrailer(ts: seq<Token>): (r: Option<(int, string, Option<string>)>) {
    if |ts| < 3 || !ts[0].VarInt? || !ts[1].Str? || !ts[2].Bool? then None
    else if !ts[2].flag then (if |ts| == 3 then Some((ts[0].value, ts[1].text, None)) else None)
    else if |ts| == 4 && ts[3].Str? then Some((ts[0].value, ts[1].text, Some(ts[3].text)))
    else None
  }

  function Parse(ts: seq<Token>): (r: Option<ChatView>) {
    var h :- ParseHeader(ts);
    var b :- ParseBody(h.1);
    var p :- ParsePrevious(b.1);
    var u :- ParseUnsigned(p.1);
    var t :- ParseTrailer(u.1);
    Some(ChatView(h.0.0, h.0.1, h.0.2, b.0.0, b.0.1, b.0.2, p.0, u.0, t.0, t.1, t.2))
  }

  // ---------------------------------------------------------------------------
  // Properties
  // ---------------------------------------------------------------------------

  /** The encoder's test `MessageID + 1 == 0`, evaluated in int32, holds for
      exactly one ID: -1. In particular the largest ID wraps to the smallest
      int32 rather than to 0, so it carries no signature. */
  lemma ShiftedIdZeroIff(id: int32)
    ensures Wrap32(id + 1) == 0 <==> id == -1
    ensures id == 0x7fff_ffff ==> Wrap32(id + 1) == -0x8000_0000
    ensures id != 0x7fff_ffff ==> Wrap32(id + 1) == id + 1
  {
  }

  /** Two sample entries: ID -1 is written as 0 followed by the signature,
      ID 5 as 6 with no signature. */
  lemma PreviousMessageExamples(sig: seq<byte>)
    ensures EntryTokens(PreviousMessage(-1, sig)) == [VarInt(0), FixedBytes(sig)]
    ensures EntryTokens(PreviousMessage(5, sig)) == [VarInt(6)]
  {
  }

  lemma {:induction false} EntriesRoundTrip(ps: seq<PreviousMessage>, rest: seq<Token>)
    ensures ParseEntries(PreviousTokens(ps) + rest, |ps|)
            == Some((PreviousViews(ps), rest))
    decreases |ps|
  {
    if ps != [] {
      var p := ps[0];
      ShiftedIdZeroIff(p.messageId);
      EntriesRoundTrip(ps[1..], rest);
      var ts := PreviousTokens(ps) + rest;
      assert ts == EntryTokens(p) + (PreviousTokens(ps[1..]) + rest);
      var after := if Wrap32(p.messageId + 1) == 0 then ts[2..] else ts[1..];
      assert after == PreviousTokens(ps[1..]) + rest;
      assert PreviousViews(ps) == [PreviousViewOf(p)] + PreviousViews(ps[1..]);
    } else {
      assert PreviousTokens(ps) + rest == rest;
      assert PreviousViews(ps) == [];
    }
  }

  lemma {:induction false} LongsRoundTrip(bs: seq<int64>, rest: seq<Token>)
    ensures ParseLongs(LongTokens(bs) + rest, |bs|) == Some((bs, rest))
    decreases |bs|
  {
    if bs != [] {
      LongsRoundTrip(bs[1..], rest);
      var ts := LongTokens(bs) + rest;
      assert ts == [Int64(bs[0])] + (LongTokens(bs[1..]) + rest);
      assert ts[0] == Int64(bs[0]);
      assert ts[1..] == LongTokens(bs[1..]) + rest;
      assert ParseLongs(ts[1..], |bs| - 1) == Some((bs[1..], rest));
      assert [bs[0]] + bs[1..] == bs;
    } else {
      assert LongTokens(bs) + rest == rest;
    }
  }

  lemma UnsignedRoundTrip(m: PlayerChatMessage, wrap: ChatWrap, rest: seq<Token>)
    ensures ParseUnsigned(UnsignedTokens(m, wrap) + rest) == Some((View(m, wrap).unsigned, rest))
  {
    var ts := UnsignedTokens(m, wrap) + rest;
    if m.unsignedContent != "" {
      if m.filterType == 2 {
        LongsRoundTrip(m.filterTypeBits, rest);
        assert ts[4..] == LongTokens(m.filterTypeBits) + rest;
      } else {
        assert ts[3..] == rest;
      }
    } else {
      assert ts[1..] == rest;
    }
  }

  lemma HeaderRoundTrip(m: PlayerChatMessage, rest: seq<Token>)
    ensures ParseHeader(HeaderTokens(m) + rest) == Some(((m.sender, m.index as int, m.messageSignature), rest))
  {
    var ts := HeaderTokens(m) + rest;
    if m.messageSignature.Some? {
      assert ts[4..] == rest;
    } else {
      assert ts[3..] == rest;
    }
  }

  lemma TrailerRoundTrip(m: PlayerChatMessage, wrap: ChatWrap)
    ensures ParseTrailer(TrailerTokens(m, wrap))
            == Some((m.chatType as int, wrap(m.networkName), View(m, wrap).targetName))
  {
  }

  lemma BodyRoundTrip(m: PlayerChatMessage, rest: seq<Token>)
    ensures ParseBody(BodyTokens(m) + rest) == Some(((m.message, m.timestamp, m.salt), rest))
  {
    assert (BodyTokens(m) + rest)[3..] == rest;
  }

  lemma PreviousRoundTrip(ps: seq<PreviousMessage>, rest: seq<Token>)
    ensures ParsePrevious([VarInt(|ps|)] + (PreviousTokens(ps) + rest)) == Some((PreviousViews(ps), rest))
  {
    var entries := PreviousTokens(ps) + rest;
    EntriesRoundTrip(ps, rest);
    assert ([VarInt(|ps|)] + entries)[1..] == entries;
  }

  /** Everything Encode writes, and nothing else, reads back as the view. */
  lemma ChatRoundTrip(m: PlayerChatMessage, wrap: ChatWrap)
    ensures Parse(ChatTokens(m, wrap)) == Some(View(m, wrap))
  {
    var trailer := TrailerTokens(m, wrap);
    var tail := UnsignedTokens(m, wrap) + trailer;
    var prev := [VarInt(|m.previousMessages|)] + (PreviousTokens(m.previousMessages) + tail);
    var body := BodyTokens(m) + prev;
    assert ChatTokens(m, wrap) == HeaderTokens(m) + body;
    HeaderRoundTrip(m, body);
    BodyRoundTrip(m, prev);
    PreviousRoundTrip(m.previousMessages, tail);
    UnsignedRoundTrip(m, wrap, trailer);
    TrailerRoundTrip(m, wrap);
    ParseSteps(ChatTokens(m, wrap), body, prev, tail, trailer);
  }

  /** Parse is the sections' readers run one after another. */
  lemma ParseSteps(ts: seq<Token>, body: seq<Token>, prev: seq<Token>, tail: seq<Token>, trailer: seq<Token>)
    requires ParseHeader(ts).Some? && ParseHeader(ts).value.1 == body
    requires ParseBody(body).Some? && ParseBody(body).value.1 == prev
    requires ParsePrevious(prev).Some? && ParsePrevious(prev).value.1 == tail
    requires ParseUnsigned(tail).Some? && ParseUnsigned(tail).value.1 == trailer
    requires ParseTrailer(trailer).Some?
    ensures
      var h := ParseHeader(ts).value.0;
      var b := ParseBody(body).value.0;
      var t := ParseTrailer(trailer).value;
      Parse(ts) == Some(ChatView(h.0, h.1, h.2, b.0, b.1, b.2, ParsePrevious(prev).value.0,
                                 ParseUnsigned(tail).value.0, t.0, t.1, t.2))
  {
  }
}
