/**
 * The client proper: the single scratch `packet` buffer and the selected device (`flag_device`), the
 * framing exchange `send`, every command built on it, and the chunked keymap dump.
 */
module Client {
  import opened Bytes
  import opened Commands
  import opened Protocol
  import opened Keycodes
  import opened Keymap
  import opened Arith

  /** RAW_USAGE_PAGE and RAW_USAGE_ID: the vendor-defined interface the protocol rides on. */
  const RawUsagePage: u16 := 0xFF60
  const RawUsageId: u16 := 0x61

  /** The fields of one HID enumeration entry that `open_device` looks at. */
  datatype DeviceInfo = DeviceInfo(vendorId: u16, productId: u16, usagePage: u16, usage: u16, path: string)

  predicate Selects(info: DeviceInfo, vendorId: u16, productId: u16) {
    info.vendorId == vendorId && info.productId == productId
    && info.usagePage == RawUsagePage && info.usage == RawUsageId
  }

  /**
   * The search loop of `open_device`: the first enumerated interface with the selected vendor and product
   * that is the raw-HID interface; none is "No such device".
   */
  method FindDevice(enumeration: seq<DeviceInfo>, vendorId: u16, productId: u16) returns (r: Result<nat>)
    ensures r.Ok? ==>
              r.value < |enumeration| && Selects(enumeration[r.value], vendorId, productId)
              && forall j :: 0 <= j < r.value ==> !Selects(enumeration[j], vendorId, productId)
    ensures r.Err? ==>
              r.error == DeviceNotFound
              && forall j :: 0 <= j < |enumeration| ==> !Selects(enumeration[j], vendorId, productId)
  {
    var i := 0;
    while i < |enumeration|
      invariant 0 <= i <= |enumeration|
      invariant forall j :: 0 <= j < i ==> !Selects(enumeration[j], vendorId, productId)
    {
      if Selects(enumeration[i], vendorId, productId) {
        return Ok(i);
      }
      i := i + 1;
    }
    return Err(DeviceNotFound);
  }

  /**
   * The device end of the raw-HID channel as `hid_write` and `hid_read_timeout` see it: `script` is how the
   * device will answer the coming exchanges, `written` every report written to it so far.
   */
  class Transport {
    var script: seq<Turn>
    var written: seq<seq<byte>>

    constructor (script: seq<Turn>)
      ensures this.script == script && written == []
    {
      this.script := script;
      written := [];
    }

    /** `hid_write`: the device takes the buffer and reports a count; -1 once it has no answer left. */
    method Write(buffer: array<byte>) returns (count: int)
      modifies this
      ensures written == old(written) + [buffer[..]] && script == old(script)
      ensures count == if script == [] then -1 else script[0].writeCount
    {
      written := written + [buffer[..]];
      count := if script == [] then -1 else script[0].writeCount;
    }

    /** `hid_read_timeout`: the device overwrites the 32-byte buffer with its reply and reports a count. */
    method Read(buffer: array<byte>) returns (count: int)
      requires buffer.Length == PacketSize
      modifies this, buffer
      ensures written == old(written)
      ensures old(script) == [] ==> count == -1 && script == [] && buffer[..] == old(buffer[..])
      ensures old(script) != [] ==>
                count == old(script)[0].readCount && buffer[..] == old(script)[0].reply
                && script == old(script)[1..]
    {
      if script == [] {
        return -1;
      }
      var reply := script[0].reply;
      forall i | 0 <= i < PacketSize {
        buffer[i] := reply[i];
      }
      count := script[0].readCount;
      script := script[1..];
    }
  }

  /** What is in the buffer after one `send` of `data`: the reply once the write went through, else the request. */
  function AfterSend(data: seq<byte>, script: seq<Turn>): Packet
    requires |data| < PacketSize
  {
    if script == [] || script[0].writeCount != PacketSize then Frame(data) else script[0].reply
  }

  /** What `get_keycode` prints: the echoed layer, row and column, and the keycode with its name. */
  datatype KeyReport = KeyReport(layer: byte, row: byte, column: byte, keycode: u16, name: string)

  /** What `set_keycode` prints: the keycode the device reports and its name. */
  datatype NamedKeycode = NamedKeycode(keycode: u16, name: string)

  function KeyReportOf(table: KeyTable, reply: Packet): KeyReport {
    KeyReport(reply[1], reply[2], reply[3], KeycodeOf(reply), KeycodeName(table, KeycodeOf(reply)))
  }

  function NamedKeycodeOf(table: KeyTable, reply: Packet): NamedKeycode {
    NamedKeycode(KeycodeOf(reply), KeycodeName(table, KeycodeOf(reply)))
  }

  /** The reports written for a sequence of chunk requests. */
  function ChunkFrames(chunks: seq<Chunk>): seq<seq<byte>> {
    seq(|chunks|, j requires 0 <= j < |chunks| => Frame(GetBufferRequest(chunks[j].offset, chunks[j].size)))
  }

  /** The replies of a sequence of turns. */
  function Replies(turns: seq<Turn>): seq<Packet> {
    seq(|turns|, j requires 0 <= j < |turns| => turns[j].reply)
  }

  /** The first `n` exchanges of a script all go through. */
  predicate AllComplete(turns: seq<Turn>, n: nat) {
    n <= |turns| && forall j :: 0 <= j < n ==> Completes(turns[j])
  }

  lemma ChunkFramesSnoc(chunks: seq<Chunk>, n: nat)
    requires n < |chunks|
    ensures ChunkFrames(chunks[..n + 1])
         == ChunkFrames(chunks[..n]) + [Frame(GetBufferRequest(chunks[n].offset, chunks[n].size))]
  {
  }

  lemma RepliesSnoc(turns: seq<Turn>, n: nat)
    requires n < |turns|
    ensures Replies(turns[..n + 1]) == Replies(turns[..n]) + [turns[n].reply]
  {
  }

  /** Appending one chunk's decoded slots extends the dump by the slots of the next reply. */
  lemma KeymapEntriesAppend(table: KeyTable, columns: nat, rows: nat, replies: seq<Packet>, reply: Packet, slots: nat)
    requires columns > 0 && rows > 0 && slots <= 14
    ensures KeymapEntries(table, columns, rows, 14 * |replies|, replies)
            + ChunkEntries(table, columns, rows, 14 * |replies|, reply, slots)
         == KeymapEntries(table, columns, rows, 14 * |replies| + slots, replies + [reply])
  {
    var n := |replies|;
    var count := 14 * n;
    var before := KeymapEntries(table, columns, rows, count, replies);
    var chunk := ChunkEntries(table, columns, rows, count, reply, slots);
    var after := KeymapEntries(table, columns, rows, count + slots, replies + [reply]);
    forall k | 0 <= k < count + slots
      ensures (before + chunk)[k] == after[k]
    {
      QuotientBelow(k, 14, n + 1);
      var entry := EntryAt(table, columns, rows, k, (replies + [reply])[k / 14], k % 14);
      assert after[k] == entry;
      if k < count {
        QuotientBelow(k, 14, n);
        assert (replies + [reply])[k / 14] == replies[k / 14];
        assert before[k] == entry;
      } else {
        DivModUnique(k, 14, n, k - count);
        assert chunk[k - count] == entry;
      }
    }
    assert before + chunk == after;
  }

  lemma ChunkEntriesSnoc(table: KeyTable, columns: nat, rows: nat, first: nat, reply: Packet, slots: nat)
    requires columns > 0 && rows > 0 && slots < 14
    ensures ChunkEntries(table, columns, rows, first, reply, slots + 1)
         == ChunkEntries(table, columns, rows, first, reply, slots) + [EntryAt(table, columns, rows, first + slots, reply, slots)]
  {
  }

  /**
   * How far the cursor loop has got: the first `done` chunks of the plan were answered by the first `done`
   * turns, the cursor stands at `offset`, and `entries` are the lines decoded so far.
   */
  ghost predicate Fetched(table: KeyTable, columns: nat, rows: nat, mapSize: u16, turns: seq<Turn>, done: nat,
                          offset: nat, entries: seq<KeyEntry>)
    requires columns > 0 && rows > 0
  {
    done <= |Plan(mapSize)| && offset == Min(28 * done, mapSize) && offset / 2 <= 14 * done
    && AllComplete(turns, done)
    && entries == KeymapEntries(table, columns, rows, offset / 2, Replies(turns[..done]))
  }

  /** One more completed exchange moves the cursor over the next chunk of the plan and appends its lines. */
  lemma FetchedStep(table: KeyTable, columns: nat, rows: nat, mapSize: u16, turns: seq<Turn>, done: nat,
                    offset: nat, entries: seq<KeyEntry>)
    requires columns > 0 && rows > 0 && offset < mapSize && mapSize % 2 == 0
    requires Fetched(table, columns, rows, mapSize, turns, done, offset, entries)
    ensures offset == 28 * done && done < |Plan(mapSize)|
    ensures offset % 2 == 0 && Min(28, mapSize - offset) % 2 == 0
    ensures Plan(mapSize)[done].offset == offset && Plan(mapSize)[done].size == Min(28, mapSize - offset)
    ensures done < |turns| && Completes(turns[done]) ==>
              Fetched(table, columns, rows, mapSize, turns, done + 1, offset + Min(28, mapSize - offset),
                      entries + ChunkEntries(table, columns, rows, offset / 2, turns[done].reply,
                                             Min(28, mapSize - offset) / 2))
  {
    PlanStep(mapSize, done);
    CursorStep(mapSize, done);
    if done < |turns| && Completes(turns[done]) {
      var size := Min(28, mapSize - offset);
      RepliesSnoc(turns, done);
      KeymapEntriesAppend(table, columns, rows, Replies(turns[..done]), turns[done].reply, size / 2);
    }
  }

  /** When the cursor reaches the map size every chunk of the plan has been answered and decoded. */
  lemma FetchedEnd(table: KeyTable, columns: nat, rows: nat, mapSize: u16, turns: seq<Turn>, done: nat,
                   entries: seq<KeyEntry>)
    requires columns > 0 && rows > 0 && 0 < mapSize
    requires Fetched(table, columns, rows, mapSize, turns, done, mapSize, entries)
    ensures done == |Plan(mapSize)| && AllComplete(turns, done)
    ensures entries == DumpEntries(table, columns, rows, mapSize, Replies(turns[..done]))
  {
    PlanEnd(mapSize, done);
  }

  class Client {
    /** The global `packet`: the one buffer every exchange is framed in and answered into. */
    const packet: array<byte>
    /** `flag_device`: the device opened at start-up, or null when none was selected. */
    const device: Transport?

    ghost predicate Valid()
      reads this
    {
      packet.Length == PacketSize
    }

    /** The buffer starts zeroed, as a C global does. */
    constructor (device: Transport?)
      ensures Valid() && this.device == device && fresh(packet)
      ensures packet[..] == seq(PacketSize, _ => 0)
    {
      this.device := device;
      packet := new byte[PacketSize](_ => 0);
    }

    /** The result one `send` yields, judged from how the device was scripted to answer before it. */
    twostate function Response(): Result<Packet>
      reads this
    {
      if device == null then Err(NoDevice) else ExchangeResult(old(device.script))
    }

    /**
     * The state one `send` of `data` leaves: with no device nothing is touched; otherwise the framed request
     * was written, the device used up one answer if the write went through, and the buffer holds the reply.
     */
    twostate predicate Sent(data: seq<byte>)
      requires |data| < PacketSize
      reads this, packet, device
    {
      if device == null then packet[..] == old(packet[..])
      else
        device.written == old(device.written) + [Frame(data)]
        && device.script == Remaining(old(device.script))
        && packet[..] == AfterSend(data, old(device.script))
    }

    /**
     * `send`: zero the buffer, copy the command in at offset 1, write the 32 bytes, read 32 bytes back into
     * the same buffer. No device, or a write or read that does not report 32 bytes, is an error.
     */
    method Send(data: seq<byte>) returns (r: Result<Packet>)
      requires Valid() && |data| < PacketSize
      modifies packet, device
      ensures Sent(data) && r == Response()
    {
      if device == null {
        return Err(NoDevice);
      }
      forall i | 0 <= i < PacketSize {
        packet[i] := 0;
      }
      forall i | 0 <= i < |data| {
        packet[i + 1] := data[i];
      }
      assert packet[..] == Frame(data);
      var count := device.Write(packet);
      if count != PacketSize {
        return Err(WriteFailed);
      }
      count := device.Read(packet);
      if count != PacketSize {
        return Err(ReadFailed);
      }
      return Ok(packet[..]);
    }

    /** `version`: the protocol version, big-endian at bytes 1-2 of the reply. */
    method Version() returns (r: Result<u16>)
      requires Valid()
      modifies packet, device
      ensures Sent(VersionRequest()) && r == Response().Map(VersionOf)
    {
      var sent := Send([IdGetProtocolVersion]);
      if sent.Err? {
        return Err(sent.error);
      }
      r := Ok(packet[1] as int * 0x100 + packet[2]);
    }

    /** `uptime`: the 32-bit uptime, big-endian at bytes 2-5 of the reply. */
    method Uptime() returns (r: Result<u32>)
      requires Valid()
      modifies packet, device
      ensures Sent(UptimeRequest()) && r == Response().Map(UptimeOf)
    {
      var sent := Send([IdGetKeyboardValue, IdUptime]);
      if sent.Err? {
        return Err(sent.error);
      }
      r := Ok(((packet[2] as int * 0x100 + packet[3]) * 0x100 + packet[4]) * 0x100 + packet[5]);
    }

    /** `get_rgb_brightness`: byte 2 of the reply. */
    method GetRgbBrightness() returns (r: Result<byte>)
      requires Valid()
      modifies packet, device
      ensures Sent(GetRgbBrightnessRequest()) && r == Response().Map(LightingValueOf)
    {
      var sent := Send([IdLightingGetValue, IdQmkRgblightBrightness]);
      if sent.Err? {
        return Err(sent.error);
      }
      r := Ok(packet[2]);
    }

    /** `get_rgb_mode`: byte 2 of the reply. */
    method GetRgbMode() returns (r: Result<byte>)
      requires Valid()
      modifies packet, device
      ensures Sent(GetRgbModeRequest()) && r == Response().Map(LightingValueOf)
    {
      var sent := Send([IdLightingGetValue, IdQmkRgblightEffect]);
      if sent.Err? {
        return Err(sent.error);
      }
      r := Ok(packet[2]);
    }

    /** `get_rgb_speed`: byte 2 of the reply. */
    method GetRgbSpeed() returns (r: Result<byte>)
      requires Valid()
      modifies packet, device
      ensures Sent(GetRgbSpeedRequest()) && r == Response().Map(LightingValueOf)
    {
      var sent := Send([IdLightingGetValue, IdQmkRgblightEffectSpeed]);
      if sent.Err? {
        return Err(sent.error);
      }
      r := Ok(packet[2]);
    }

    /** `get_rgb_colour`: hue at byte 2, saturation at byte 3 of the reply. */
    method GetRgbColour() returns (r: Result<(byte, byte)>)
      requires Valid()
      modifies packet, device
      ensures Sent(GetRgbColourRequest()) && r == Response().Map(ColourOf)
    {
      var sent := Send([IdLightingGetValue, IdQmkRgblightColor]);
      if sent.Err? {
        return Err(sent.error);
      }
      r := Ok((packet[2], packet[3]));
    }

    /** `set_rgb_brightness`, sending the brightness under the rgblight brightness sub-id; byte 2 echoes it. */
    method SetRgbBrightness(brightness: byte) returns (r: Result<byte>)
      requires Valid()
      modifies packet, device
      ensures Sent(SetRgbBrightnessRequest(brightness)) && r == Response().Map(LightingValueOf)
    {
      var request := [IdLightingSetValue, IdQmkRgblightBrightness, brightness];
      assert request == SetRgbBrightnessRequest(brightness);
      var sent := Send(request);
      if sent.Err? {
        return Err(sent.error);
      }
      r := Ok(packet[2]);
    }

    /** `set_rgb_mode`: byte 2 of the reply echoes the mode. */
    method SetRgbMode(mode: byte) returns (r: Result<byte>)
      requires Valid()
      modifies packet, device
      ensures Sent(SetRgbModeRequest(mode)) && r == Response().Map(LightingValueOf)
    {
      var request := [IdLightingSetValue, IdQmkRgblightEffect, mode];
      assert request == SetRgbModeRequest(mode);
      var sent := Send(request);
      if sent.Err? {
        return Err(sent.error);
      }
      r := Ok(packet[2]);
    }

    /** `set_rgb_speed`: byte 2 of the reply echoes the speed. */
    method SetRgbSpeed(speed: byte) returns (r: Result<byte>)
      requires Valid()
      modifies packet, device
      ensures Sent(SetRgbSpeedRequest(speed)) && r == Response().Map(LightingValueOf)
    {
      var request := [IdLightingSetValue, IdQmkRgblightEffectSpeed, speed];
      assert request == SetRgbSpeedRequest(speed);
      var sent := Send(request);
      if sent.Err? {
        return Err(sent.error);
      }
      r := Ok(packet[2]);
    }

    /** `set_rgb_colour`: bytes 2 and 3 of the reply echo hue and saturation. */
    method SetRgbColour(hue: byte, saturation: byte) returns (r: Result<(byte, byte)>)
      requires Valid()
      modifies packet, device
      ensures Sent(SetRgbColourRequest(hue, saturation)) && r == Response().Map(ColourOf)
    {
      var request := [IdLightingSetValue, IdQmkRgblightColor, hue, saturation];
      assert request == SetRgbColourRequest(hue, saturation);
      var sent := Send(request);
      if sent.Err? {
        return Err(sent.error);
      }
      r := Ok((packet[2], packet[3]));
    }

    /** `get_keycode`: layer, row and column echoed at bytes 1-3, the keycode big-endian at bytes 4-5. */
    method GetKeycode(table: KeyTable, layer: byte, row: byte, column: byte) returns (r: Result<KeyReport>)
      requires Valid()
      modifies packet, device
      ensures Sent(GetKeycodeRequest(layer, row, column))
      ensures r == Response().Map(reply => KeyReportOf(table, reply))
    {
      var sent := Send([IdDynamicKeymapGetKeycode, layer, row, column]);
      if sent.Err? {
        return Err(sent.error);
      }
      var keycode := packet[4] as int * 0x100 + packet[5];
      r := Ok(KeyReport(packet[1], packet[2], packet[3], keycode, KeycodeName(table, keycode)));
    }

    /** `set_keycode`: the keycode goes out as `kc >> 8, kc & 0xff`; the reply's bytes 4-5 are read back. */
    method SetKeycode(table: KeyTable, layer: byte, row: byte, column: byte, keycode: u16)
      returns (r: Result<NamedKeycode>)
      requires Valid()
      modifies packet, device
      ensures Sent(SetKeycodeRequest(layer, row, column, keycode))
      ensures r == Response().Map(reply => NamedKeycodeOf(table, reply))
    {
      var request := [IdDynamicKeymapSetKeycode, layer, row, column, keycode / 0x100, keycode % 0x100];
      assert request == SetKeycodeRequest(layer, row, column, keycode);
      var sent := Send(request);
      if sent.Err? {
        return Err(sent.error);
      }
      var echoed := packet[4] as int * 0x100 + packet[5];
      r := Ok(NamedKeycode(echoed, KeycodeName(table, echoed)));
    }

    /** `reset_keymap`: the reply carries nothing the client reads. */
    method ResetKeymap() returns (r: Result<()>)
      requires Valid()
      modifies packet, device
      ensures Sent(ResetKeymapRequest()) && r == Response().Map(reply => ())
    {
      var sent := Send([IdDynamicKeymapReset]);
      if sent.Err? {
        return Err(sent.error);
      }
      r := Ok(());
    }

    /**
     * The inner loop of `dump_keymap`: decodes the `fetchSize` bytes of the reply in the buffer, two at a
     * time from byte 4, into keycode numbers `offset / 2` onwards.
     */
    method DecodeChunk(table: KeyTable, offset: nat, fetchSize: nat, columns: nat, rows: nat)
      returns (chunk: seq<KeyEntry>)
      requires Valid() && columns > 0 && rows > 0
      requires offset % 2 == 0 && fetchSize % 2 == 0 && fetchSize <= 28
      ensures chunk == ChunkEntries(table, columns, rows, offset / 2, packet[..], fetchSize / 2)
    {
      chunk := [];
      ghost var reply, first := packet[..], offset / 2;
      ghost var slot := 0;
      var i := 0;
      while i < fetchSize
        invariant i == 2 * slot && slot <= fetchSize / 2
        invariant chunk == ChunkEntries(table, columns, rows, first, reply, slot)
      {
        var keycode := packet[4 + i] as int * 0x100 + packet[5 + i];
        var index := (offset + i) / 2;
        DivModUnique(offset + i, 2, first + slot, 0);
        ChunkEntriesSnoc(table, columns, rows, first, reply, slot);
        assert keycode == SlotKeycode(reply, slot);
        chunk := chunk + [KeyEntry(PositionOf(index, columns, rows), keycode, KeycodeName(table, keycode))];
        i := i + 2;
        slot := slot + 1;
      }
    }

    /**
     * One pass of the cursor loop of `dump_keymap`: request `size` bytes at `offset`, then decode them. The
     * device has already answered `done` turns of its script `turns`.
     */
    method FetchChunk(table: KeyTable, offset: u16, size: byte, columns: nat, rows: nat, ghost turns: seq<Turn>,
                      ghost done: nat)
      returns (r: Result<seq<KeyEntry>>)
      requires Valid() && columns > 0 && rows > 0
      requires offset % 2 == 0 && size % 2 == 0 && size <= 28
      requires device != null ==> done <= |turns| && device.script == turns[done..]
      modifies packet, device
      ensures device == null ==> r == Err(NoDevice) && packet[..] == old(packet[..])
      ensures device != null ==>
                device.written == old(device.written) + [Frame(GetBufferRequest(offset, size))]
                && (r.Ok? <==> done < |turns| && Completes(turns[done]))
                && (r.Ok? ==>
                      device.script == turns[done + 1..]
                      && r.value == ChunkEntries(table, columns, rows, offset / 2, turns[done].reply, size / 2))
                && (r.Err? ==>
                      ExchangeResult(turns[done..]) == Err(r.error) && device.script == Remaining(turns[done..]))
                && packet[..] == AfterSend(GetBufferRequest(offset, size), turns[done..])
    {
      var request := [IdDynamicKeymapGetBuffer, offset / 0x100, offset % 0x100, size];
      assert request == GetBufferRequest(offset, size);
      var sent := Send(request);
      if sent.Err? {
        return Err(sent.error);
      }
      var chunk := DecodeChunk(table, offset, size, columns, rows);
      r := Ok(chunk);
    }

    /**
     * `dump_keymap`: a zero map size (the 16-bit product of the counts and 2) is rejected before any
     * exchange; otherwise the chunk loop below fetches and decodes the whole map.
     */
    method DumpKeymap(table: KeyTable, layers: byte, columns: byte, rows: byte) returns (r: Result<seq<KeyEntry>>)
      requires Valid()
      modifies packet, device
      ensures MapSize(layers, columns, rows) == 0 ==>
                r == Err(InvalidConfiguration) && packet[..] == old(packet[..])
                && (device != null ==> device.written == old(device.written) && device.script == old(device.script))
      ensures MapSize(layers, columns, rows) != 0 && device == null ==>
                r == Err(NoDevice) && packet[..] == old(packet[..])
      ensures MapSize(layers, columns, rows) != 0 && device != null ==>
                var plan, turns := Plan(MapSize(layers, columns, rows)), old(device.script);
                (r.Ok? <==> AllComplete(turns, |plan|))
                && (r.Ok? ==>
                      device.written == old(device.written) + ChunkFrames(plan)
                      && device.script == turns[|plan|..]
                      && r.value == Dump(table, layers, columns, rows, Replies(turns[..|plan|]))
                      && packet[..] == turns[|plan| - 1].reply)
                && (r.Err? ==>
                      exists failed :: 0 <= failed < |plan| && AllComplete(turns, failed)
                        && ExchangeResult(turns[failed..]) == Err(r.error)
                        && device.written == old(device.written) + ChunkFrames(plan[..failed + 1])
                        && device.script == Remaining(turns[failed..])
                        && packet[..] == AfterSend(GetBufferRequest(plan[failed].offset, plan[failed].size), turns[failed..]))
    {
      var mapSize := MapSize(layers, columns, rows);
      if mapSize == 0 {
        return Err(InvalidConfiguration);
      }
      MapSizeFacts(layers, columns, rows);
      r := FetchChunks(table, mapSize, columns, rows);
    }

    /**
     * The cursor loop of `dump_keymap`: requests the chunks of Plan(mapSize) in order, each as
     * [0x12, offset >> 8, offset & 0xff, size], and decodes every reply as it arrives; the first failed
     * exchange ends the dump with its error.
     */
    method FetchChunks(table: KeyTable, mapSize: u16, columns: nat, rows: nat) returns (r: Result<seq<KeyEntry>>)
      requires Valid() && mapSize > 0 && mapSize % 2 == 0 && columns > 0 && rows > 0
      modifies packet, device
      ensures device == null ==> r == Err(NoDevice) && packet[..] == old(packet[..])
      ensures device != null ==>
                var plan, turns := Plan(mapSize), old(device.script);
                (r.Ok? <==> AllComplete(turns, |plan|))
                && (r.Ok? ==>
                      device.written == old(device.written) + ChunkFrames(plan)
                      && device.script == turns[|plan|..]
                      && r.value == DumpEntries(table, columns, rows, mapSize, Replies(turns[..|plan|]))
                      && packet[..] == turns[|plan| - 1].reply)
                && (r.Err? ==>
                      exists failed :: 0 <= failed < |plan| && AllComplete(turns, failed)
                        && ExchangeResult(turns[failed..]) == Err(r.error)
                        && device.written == old(device.written) + ChunkFrames(plan[..failed + 1])
                        && device.script == Remaining(turns[failed..])
                        && packet[..] == AfterSend(GetBufferRequest(plan[failed].offset, plan[failed].size), turns[failed..]))
    {
      ghost var plan := Plan(mapSize);
      ghost var turns: seq<Turn> := if device == null then [] else device.script;
      var entries: seq<KeyEntry> := [];
      var offset: u16 := 0;
      ghost var done: nat := 0;
      while offset < mapSize
        invariant device == null ==> offset == 0 && packet[..] == old(packet[..])
        invariant device != null ==>
                    Fetched(table, columns, rows, mapSize, turns, done, offset, entries)
                    && device.script == turns[done..]
                    && device.written == old(device.written) + ChunkFrames(plan[..done])
                    && (done > 0 ==> packet[..] == turns[done - 1].reply)
        decreases mapSize - offset
      {
        var remaining := mapSize - offset;
        var fetchSize: byte := if remaining > 28 then 28 else remaining;
        assert fetchSize == Min(28, mapSize - offset);
        if device != null {
          FetchedStep(table, columns, rows, mapSize, turns, done, offset, entries);
          ChunkFramesSnoc(plan, done);
        }
        var fetched := FetchChunk(table, offset, fetchSize, columns, rows, turns, done);
        if fetched.Err? {
          return Err(fetched.error);
        }
        entries := entries + fetched.value;
        offset := offset + fetchSize;
        done := done + 1;
      }
      if device != null {
        FetchedEnd(table, columns, rows, mapSize, turns, done, entries);
        assert plan[..done] == plan;
      }
      r := Ok(entries);
    }
  }
}
