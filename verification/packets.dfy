/** The packets the proxy itself handles during the handshake and login
    phases. Their own files (handshake, login start, login success, set
    compression, the raw "unknown" packet) are not part of this model; the
    fields kept are the ones the proxy reads or forwards. */
module Packets {
  import opened Common

  /** The first packet of every connection; `nextState` selects status (1) or login (2). */
  datatype Handshake = Handshake(protocolVersion: int32, serverAddress: string, serverPort: uint16, nextState: int32)

  datatype LoginStart = LoginStart(name: string, uuid: Uuid)

  /** One profile property of a logged-in player. */
  datatype Property = Property(name: string, value: string, signature: Option<string>)

  datatype LoginSuccess = LoginSuccess(uuid: Uuid, name: string, properties: seq<Property>)

  /** A packet as the proxy sees it: one of the typed packets it builds, or a
      raw packet (`packet.Unknown`) carrying its numeric ID and undecoded payload. */
  datatype Packet =
    | HandshakePacket(handshake: Handshake)
    | LoginStartPacket(loginStart: LoginStart)
    | LoginSuccessPacket(success: LoginSuccess)
    | SetCompressionPacket(threshold: int32)
    | Unknown(id: int32, payload: seq<byte>)

  /** The decoders the proxy calls but whose code is not part of this model:
      `Conn.DecodePacket` into a handshake or a login start, and the
      `Decode` methods of login success and set compression applied to a raw
      payload. None stands for a decoding error. */
  datatype Codec = Codec(
    handshake: Packet -> Option<Handshake>,
    loginStart: Packet -> Option<LoginStart>,
    loginSuccess: seq<byte> -> Option<LoginSuccess>,
    setCompression: seq<byte> -> Option<int32>)
}
