/**
 * The wire format of the configuration protocol: the 32-byte report, how a command is framed into it,
 * the byte layout of every request the client sends and the fixed offsets its responses are read at.
 */
module Protocol {
  import opened Bytes
  import opened Commands

  /** PACKET_SIZE: every report is exactly this long, in both directions. */
  const PacketSize: nat := 32

  type Packet = p: seq<byte> | |p| == PacketSize witness seq(PacketSize, _ => 0)

  /** The ways an operation of the client fails; the C program prints a message and exits on each. */
  datatype Error =
    | NoDevice              // "--device flag required."
    | WriteFailed           // "Error writing request": the write did not report 32 bytes
    | ReadFailed            // "Error reading response": the read did not report 32 bytes
    | InvalidConfiguration  // dump_keymap: the computed map size is zero
    | DeviceNotFound        // open_device: no enumerated raw-HID interface matched the selector

  datatype Result<T> = Ok(value: T) | Err(error: Error) {
    /** Applies `f` to a success value; an error passes through. */
    function Map<U>(f: T -> U): Result<U> {
      match this
      case Ok(v) => Ok(f(v))
      case Err(e) => Err(e)
    }
  }

  /**
   * The outbound report for command bytes `data`: the buffer is zeroed, then `data` is copied in at
   * offset 1 (main.c:58-59). Byte 0 stays zero and nothing of an earlier exchange survives.
   */
  function Frame(data: seq<byte>): (p: Packet)
    requires |data| < PacketSize
    ensures p[0] == 0
    ensures p[1..|data| + 1] == data
    ensures forall i :: |data| < i < PacketSize ==> p[i] == 0
  {
    [0] + data + seq(PacketSize - 1 - |data|, _ => 0)
  }

  /** Two command byte strings of the same length share a report only if they are equal. */
  lemma FrameInjective(a: seq<byte>, b: seq<byte>)
    requires |a| == |b| < PacketSize
    ensures Frame(a) == Frame(b) <==> a == b
  {
    if Frame(a) == Frame(b) {
      assert a == Frame(a)[1..|a| + 1] == Frame(b)[1..|b| + 1] == b;
    }
  }

  /**
   * How the device answers one exchange: the count `hid_write` returns, the count `hid_read_timeout`
   * returns, and the 32 bytes the read leaves in the buffer.
   */
  datatype Turn = Turn(writeCount: int, readCount: int, reply: Packet)

  predicate Completes(t: Turn) {
    t.writeCount == PacketSize && t.readCount == PacketSize
  }

  /** The result of one `send` against a device that will answer as `script` says (no script left: the write fails). */
  function ExchangeResult(script: seq<Turn>): Result<Packet> {
    if script == [] || script[0].writeCount != PacketSize then Err(WriteFailed)
    else if script[0].readCount != PacketSize then Err(ReadFailed)
    else Ok(script[0].reply)
  }

  /** What is left of the script after one `send`: a read, attempted only after a full write, uses up one turn. */
  function Remaining(script: seq<Turn>): seq<Turn> {
    if script == [] || script[0].writeCount != PacketSize then script else script[1..]
  }

  lemma ExchangeSucceeds(script: seq<Turn>)
    ensures ExchangeResult(script).Ok? <==> script != [] && Completes(script[0])
    ensures ExchangeResult(script).Ok? ==>
              ExchangeResult(script).value == script[0].reply && Remaining(script) == script[1..]
    ensures ExchangeResult(script).Err? ==> ExchangeResult(script).error in {WriteFailed, ReadFailed}
  {
  }

  // Requests: the command bytes each command hands to `send`, as the firmware will see them.

  function VersionRequest(): seq<byte> {
    [IdGetProtocolVersion]
  }

  function UptimeRequest(): seq<byte> {
    [IdGetKeyboardValue, IdUptime]
  }

  function GetLightingRequest(valueId: byte): seq<byte> {
    [IdLightingGetValue, valueId]
  }

  function SetLightingRequest(valueId: byte, values: seq<byte>): seq<byte> {
    [IdLightingSetValue, valueId] + values
  }

  function GetRgbBrightnessRequest(): seq<byte> {
    GetLightingRequest(IdQmkRgblightBrightness)
  }

  function GetRgbModeRequest(): seq<byte> {
    GetLightingRequest(IdQmkRgblightEffect)
  }

  function GetRgbSpeedRequest(): seq<byte> {
    GetLightingRequest(IdQmkRgblightEffectSpeed)
  }

  function GetRgbColourRequest(): seq<byte> {
    GetLightingRequest(IdQmkRgblightColor)
  }

  /** `set_rgb_brightness` as the source builds it: the brightness goes out under the colour sub-id. */
  function SetRgbBrightnessRequestAsWritten(brightness: byte): seq<byte> {
    SetLightingRequest(IdQmkRgblightColor, [brightness])
  }

  /** `set_rgb_brightness` addressing the rgblight brightness value that `get_rgb_brightness` reads. */
  function SetRgbBrightnessRequest(brightness: byte): seq<byte> {
    SetLightingRequest(IdQmkRgblightBrightness, [brightness])
  }

  function SetRgbModeRequest(mode: byte): seq<byte> {
    SetLightingRequest(IdQmkRgblightEffect, [mode])
  }

  function SetRgbSpeedRequest(speed: byte): seq<byte> {
    SetLightingRequest(IdQmkRgblightEffectSpeed, [speed])
  }

  function SetRgbColourRequest(hue: byte, saturation: byte): seq<byte> {
    SetLightingRequest(IdQmkRgblightColor, [hue, saturation])
  }

  function GetKeycodeRequest(layer: byte, row: byte, column: byte): seq<byte> {
    [IdDynamicKeymapGetKeycode, layer, row, column]
  }

  function SetKeycodeRequest(layer: byte, row: byte, column: byte, keycode: u16): seq<byte> {
    [IdDynamicKeymapSetKeycode, layer, row, column] + Be16(keycode)
  }

  function ResetKeymapRequest(): seq<byte> {
    [IdDynamicKeymapReset]
  }

  /** One chunk of the keymap buffer: `size` bytes from byte `offset`, the offset sent high byte first. */
  function GetBufferRequest(offset: u16, size: byte): seq<byte> {
    [IdDynamicKeymapGetBuffer] + Be16(offset) + [size]
  }

  /** The literal bytes every command puts on the wire, all short enough to frame. */
  lemma RequestLayouts(layer: byte, row: byte, column: byte, keycode: u16, value: byte, hue: byte,
                       saturation: byte, offset: u16, size: byte)
    ensures VersionRequest() == [0x01]
    ensures UptimeRequest() == [0x02, 0x01]
    ensures GetRgbBrightnessRequest() == [0x08, 0x80]
    ensures GetRgbModeRequest() == [0x08, 0x81]
    ensures GetRgbSpeedRequest() == [0x08, 0x82]
    ensures GetRgbColourRequest() == [0x08, 0x83]
    ensures SetRgbBrightnessRequestAsWritten(value) == [0x07, 0x83, value]
    ensures SetRgbBrightnessRequest(value) == [0x07, 0x80, value]
    ensures SetRgbModeRequest(value) == [0x07, 0x81, value]
    ensures SetRgbSpeedRequest(value) == [0x07, 0x82, value]
    ensures SetRgbColourRequest(hue, saturation) == [0x07, 0x83, hue, saturation]
    ensures GetKeycodeRequest(layer, row, column) == [0x04, layer, row, column]
    ensures SetKeycodeRequest(layer, row, column, keycode) == [0x05, layer, row, column, keycode / 0x100, keycode % 0x100]
    ensures ResetKeymapRequest() == [0x06]
    ensures GetBufferRequest(offset, size) == [0x12, offset / 0x100, offset % 0x100, size]
  {
  }

  // Responses: fields read at fixed offsets of the 32 bytes the device returns; the firmware echoes the
  // request at the start of its reply.

  /** `packet[1] << 8 | packet[2]` */
  function VersionOf(reply: Packet): u16 {
    ReadBe16(reply, 1)
  }

  /** `packet[2] << 24 | packet[3] << 16 | packet[4] << 8 | packet[5]` */
  function UptimeOf(reply: Packet): u32 {
    ReadBe32(reply, 2)
  }

  /** The single lighting value echoed or reported at `packet[2]`. */
  function LightingValueOf(reply: Packet): byte {
    reply[2]
  }

  /** Hue at `packet[2]`, saturation at `packet[3]`. */
  function ColourOf(reply: Packet): (byte, byte) {
    (reply[2], reply[3])
  }

  /** `packet[4] << 8 | packet[5]` */
  function KeycodeOf(reply: Packet): u16 {
    ReadBe16(reply, 4)
  }

  /** A version reply decodes to `v` exactly when it carries the command id and `v` big-endian at bytes 1-2. */
  lemma VersionDecodes(reply: Packet, v: u16)
    ensures reply[..3] == VersionRequest() + Be16(v) <==> reply[0] == IdGetProtocolVersion && VersionOf(reply) == v
  {
    Be16RoundTrip(v, reply, 1);
    assert reply[..3] == [reply[0]] + reply[1..3];
  }

  /** An uptime reply decodes to `t` exactly when it echoes the request and carries `t` big-endian at bytes 2-5. */
  lemma UptimeDecodes(reply: Packet, t: u32)
    ensures reply[..6] == UptimeRequest() + Be32(t) <==> reply[..2] == UptimeRequest() && UptimeOf(reply) == t
  {
    Be32RoundTrip(t, reply, 2);
    assert reply[..6] == reply[..2] + reply[2..6];
  }

  /**
   * A reply that echoes a `set_keycode` request decodes to the keycode that was sent, and a reply whose
   * bytes 0-5 decode that way is that echo: the request's `kc >> 8, kc & 0xff` and the response's
   * `packet[4] << 8 | packet[5]` are inverse.
   */
  lemma KeycodeDecodes(reply: Packet, layer: byte, row: byte, column: byte, keycode: u16)
    ensures reply[..6] == SetKeycodeRequest(layer, row, column, keycode)
        <==> reply[..4] == [IdDynamicKeymapSetKeycode, layer, row, column] && KeycodeOf(reply) == keycode
  {
    Be16RoundTrip(keycode, reply, 4);
    assert reply[..6] == reply[..4] + reply[4..6];
  }

  /** Sample replies: version bytes 00 01 read as 1, uptime bytes 00 00 00 0A as 10. */
  lemma DecodeExamples(reply: Packet)
    ensures reply[1] == 0x00 && reply[2] == 0x01 ==> VersionOf(reply) == 1
    ensures reply[2..6] == [0x00, 0x00, 0x00, 0x0A] ==> UptimeOf(reply) == 10
  {
    if reply[2..6] == [0x00, 0x00, 0x00, 0x0A] {
      assert reply[2] == 0 && reply[3] == 0 && reply[4] == 0 && reply[5] == 0x0A;
    }
  }

  /**
   * As written, `set_rgb_brightness` sends exactly the report that `set_rgb_colour` sends for hue `brightness`
   * and saturation 0, and names a different lighting value from the one `get_rgb_brightness` reads.
   */
  lemma BrightnessAsWrittenSetsColour(brightness: byte)
    ensures Frame(SetRgbBrightnessRequestAsWritten(brightness)) == Frame(SetRgbColourRequest(brightness, 0))
    ensures SetRgbBrightnessRequestAsWritten(brightness)[1] != GetRgbBrightnessRequest()[1]
  {
    var p, q := Frame(SetRgbBrightnessRequestAsWritten(brightness)), Frame(SetRgbColourRequest(brightness, 0));
    forall i | 0 <= i < PacketSize
      ensures p[i] == q[i]
    {
      if 1 <= i < 4 {
        assert p[i] == p[1..4][i - 1];
        assert q[i] == q[1..5][i - 1];
      }
    }
  }

  /**
   * The corrected `set_rgb_brightness` request names the value `get_rgb_brightness` reads, and its report
   * differs from every report `set_rgb_colour` can send.
   */
  lemma BrightnessRequestSetsBrightness(brightness: byte, hue: byte, saturation: byte)
    ensures SetRgbBrightnessRequest(brightness)[1] == GetRgbBrightnessRequest()[1]
    ensures Frame(SetRgbBrightnessRequest(brightness)) != Frame(SetRgbColourRequest(hue, saturation))
  {
    var p, q := Frame(SetRgbBrightnessRequest(brightness)), Frame(SetRgbColourRequest(hue, saturation));
    assert p[2] == p[1..4][1] == IdQmkRgblightBrightness;
    assert q[2] == q[1..5][1] == IdQmkRgblightColor;
  }
}
