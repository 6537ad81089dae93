# via-cli client core in Dafny

This project models the core of `via-cli`. The tool is a command-line client for the VIA configuration
protocol of QMK keyboards, spoken over a raw-HID interface. The model covers:

- the 32-byte report (`packet`) and the `send` exchange that frames a command in it, writes it and reads
  the reply back into the same buffer;
- the command identifiers of `commands.h`, the request each command sends, and the big-endian decoding of
  each reply;
- keycode naming: `key_name`, `mod_name` and `keycode_name`, with the QMK keycode table as a parameter;
- `dump_keymap`: the 16-bit map size, the rejection of a zero size, the cursor loop that fetches chunks of at
  most 28 bytes, and the inner loop that decodes every two-byte slot into a (layer, row, column) position
  and a named keycode;
- the device search of `open_device`, which picks the first enumerated interface with the requested vendor
  and product ids on usage page 0xFF60, usage 0x61.

Modules:

- `Arith` holds small arithmetic lemmas.
- `Bytes` holds the byte, u16 and u32 types and big-endian encoding.
- `Commands` holds the identifiers of `commands.h`, bit-exact.
- `Protocol` holds the framing of a report, one exchange as a scripted `Turn`, the request builders and the
  reply decoders.
- `Text` holds decimal and four-digit hexadecimal rendering.
- `Keycodes` holds keycode classification and naming.
- `Keymap` holds the map size, the chunk plan, positions and the entries a dump yields.
- `Client` holds the `Transport` and `Client` classes and `FindDevice`.

Where the C code calls `exit(EXIT_FAILURE)`, the model returns an `Err` of `Protocol.Error`. Where it
prints, the model returns the printed values. The HID device becomes a `Transport` object. It holds a
script of how the device answers each exchange and a log of every report written to it. Every contract
holds for every script, so it holds for any device behaviour.

Modifier letters follow the bit tests of `mod_name` exactly. For example, keycode 0x1900 carries the Right,
Ctrl and GUI bits, so `keycode_name` yields `RCG(...)` for it (see `Keycodes.KeycodeNameExamples`).

## Model

| member | source | states |
|---|---|---|
| Protocol.Frame | main.c:58-59 | the request is the zeroed 32-byte report with a 0 report id at byte 0, the command at bytes 1.., and zeros after it |
| Protocol.FrameInjective | main.c:58-59 | two commands of equal length are framed into the same report exactly when they are equal |
| Protocol.ExchangeSucceeds | main.c:63-71 | an exchange succeeds exactly when the device has an answer, the write reports 32 bytes and the read reports 32 bytes; the result is then the reply, and otherwise WriteFailed or ReadFailed |
| Protocol.RequestLayouts | main.c:196-305 | the byte layout of every request: version, uptime, the four lighting getters, the lighting setters, get/set keycode with the keycode big-endian, reset, and get-buffer with the offset big-endian |
| Protocol.VersionDecodes | main.c:196-198 | a reply carries version v at bytes 1-2 big-endian exactly when the decoded version is v |
| Protocol.UptimeDecodes | main.c:201-205 | a reply carries uptime t at bytes 2-5 big-endian exactly when the decoded uptime is t |
| Protocol.KeycodeDecodes | main.c:263-271 | a set-keycode echo decodes to the keycode that was sent, with layer, row and column at bytes 1-3 |
| Protocol.DecodeExamples | main.c:196-205 | bytes 00 01 decode to version 1; bytes 00 00 00 0A decode to uptime 10 |
| Protocol.BrightnessAsWrittenSetsColour | main.c:229-234 | as written, `set_rgb_brightness` sends the report `set_rgb_colour` sends for hue b and saturation 0, and its value id differs from the brightness id `get_rgb_brightness` uses |
| Protocol.BrightnessRequestSetsBrightness | main.c:208-209 | the corrected brightness request uses the brightness id of `get_rgb_brightness`, and it is never the same report as a colour request |
| Bytes.Be16RoundTrip | main.c:263 | two bytes at a position encode v big-endian exactly when `hi << 8 \| lo` reads back v |
| Bytes.Be32RoundTrip | main.c:203-204 | four bytes encode v big-endian exactly when the shifted-or of `uptime` reads back v |
| Text.DecimalRoundTrip | main.c:110 | the decimal rendering of n consists of digits, has no leading zero, reads back as n, and has at most 1, 2 or 3 digits below 10, 100 or 1000 |
| Text.Hex4RoundTrip | main.c:112 | the `%04hx` rendering is exactly four zero-padded lower-case hexadecimal digits and reads back as the value |
| Keycodes.ModName | main.c:80-100 | the letters written into the 6-byte buffer are the modifier prefix of the keycode, at most 5 of them |
| Keycodes.PutLetter | main.c:83-97 | one conditional store appends the letter exactly when its flag is set, and advances the cursor by that much |
| Keycodes.ModPrefixLetters | main.c:80-100 | R, C, S, A and G each appear in the prefix exactly when bit 0x1000, 0x100, 0x200, 0x400 or 0x800 is set; they appear in that order; no other character occurs, so there are at most five |
| Keycodes.FlagInModifierBits | main.c:83-97 | testing a modifier flag on the keycode is the same as testing it on the keycode's modifier bits alone |
| Keycodes.ModPrefixIgnoresOtherBits | main.c:80-100 | the prefix depends only on bits 0x100-0x1000 of the keycode |
| Keycodes.Classify | main.c:105-113 | the four branches of `keycode_name` partition the 16-bit keycodes: plain up to 0xFF, modified 0x100-0x1FFF, momentary layer 0x5100-0x51FF, everything else vendor |
| Keycodes.ClassifyRoundTrip | main.c:104-113 | every keycode's class is well formed and rebuilds the same keycode |
| Keycodes.CodeOfRoundTrip | main.c:104-113 | every well-formed class is a 16-bit keycode that classifies back to itself |
| Keycodes.Bounded | main.c:103 | `snprintf` into the 128-byte buffer keeps the whole text when it fits, and otherwise exactly its first 127 characters |
| Keycodes.KeycodeNamePlain | main.c:76-78 | a plain keycode is named from the table when the table has it, else "UNKNOWN" |
| Keycodes.KeycodeNameModified | main.c:108 | a modified keycode is named `<prefix>(<key name>)`, truncated to the buffer, with a non-empty prefix |
| Keycodes.KeycodeNameLayer | main.c:110 | a momentary-layer keycode is named `MO(<low byte in decimal>)` |
| Keycodes.KeycodeNameVendor | main.c:112 | any other keycode is named `QMK(0x<four hex digits>)` |
| Keycodes.KeycodeNameExamples | main.c:102-115 | concrete names: 0x0000 and 0x00FF are table entries, 0x0100 is C(...), 0x1900 and 0x1904 are RCG(...), 0x5105 is MO(5), 0x6000 is QMK(0x6000) |
| Keymap.MapSizeFacts | main.c:276-282 | a zero count makes the map size zero, so a non-zero size has all counts positive; the size is even and never above twice the product of the counts |
| Keymap.MapSizeWraps | main.c:276 | the `uint16_t` map size wraps: 128 layers of 16x16, or 2 layers of 128x128, give 0 and are rejected |
| Keymap.ChunksFromAt | main.c:284-300 | from a cursor, the loop requests ceil(remaining/28) chunks, chunk j at cursor + 28j with size min(28, what is left) |
| Keymap.PlanTiles | main.c:284-300 | the chunks of a dump start at 0, follow each other without gap or overlap, have even sizes for an even map, and cover every byte of the map exactly once |
| Keymap.PlanStep | main.c:285-288 | after `done` full chunks with bytes still left, the next request is at 28*done with size min(28, remaining) |
| Keymap.PlanEnd | main.c:284 | the loop stops exactly when the cursor reaches the map size, after the last planned chunk |
| Keymap.PlanExample | main.c:284-300 | a 48-byte map is fetched as 28 bytes at 0 then 20 bytes at 28 |
| Keymap.IndexOfPositionOf | main.c:292-295 | the (layer, row, column) of a slot index maps back to the same index |
| Keymap.PositionOfIndexOf | main.c:292-295 | a position with row and column in range is the position of its own index |
| Keymap.PositionInBounds | main.c:293-295 | an index inside the map has layer, row and column inside the counts |
| Keymap.DumpPositions | main.c:290-298 | every slot of a dump has an in-range position, and distinct slots have distinct positions |
| Client.FindDevice | main.c:314-329 | the result is the first interface with the requested vendor and product on the raw-HID usage page and usage; none matching is DeviceNotFound |
| Client.Transport.constructor | main.c:331 | a freshly opened device has its script and nothing written to it |
| Client.Transport.Write | main.c:63 | a write logs the report and returns the count the device reports, -1 when it does not answer |
| Client.Transport.Read | main.c:68 | a read copies the reply into the buffer and uses up one answer, or returns -1 and leaves the buffer alone |
| Client.Client.constructor | main.c:19-21 | the global report buffer starts as 32 zero bytes with the selected device |
| Client.Client.Send | main.c:52-74 | with no device nothing changes and the result is NoDevice; otherwise the framed request is written, one answer is used up once the write reports 32 bytes, the buffer holds the reply (or the request when the write failed), and the result is the exchange's outcome |
| Client.Client.Version | main.c:196-199 | sends [0x01] and yields the version decoded from the reply, or the exchange's error |
| Client.Client.Uptime | main.c:201-206 | sends [0x02, 0x01] and yields the 32-bit uptime decoded from the reply, or the exchange's error |
| Client.Client.GetRgbBrightness | main.c:208-211 | sends the brightness query and yields reply byte 2 |
| Client.Client.GetRgbMode | main.c:213-216 | sends the effect query and yields reply byte 2 |
| Client.Client.GetRgbSpeed | main.c:218-221 | sends the effect-speed query and yields reply byte 2 |
| Client.Client.GetRgbColour | main.c:223-227 | sends the colour query and yields hue and saturation from reply bytes 2-3 |
| Client.Client.SetRgbBrightness | main.c:229-234 | sends the corrected brightness setter (value id 0x80) and yields reply byte 2 |
| Client.Client.SetRgbMode | main.c:236-240 | sends the effect setter and yields reply byte 2 |
| Client.Client.SetRgbSpeed | main.c:242-247 | sends the effect-speed setter and yields reply byte 2 |
| Client.Client.SetRgbColour | main.c:249-255 | sends the colour setter and yields hue and saturation from the reply |
| Client.Client.GetKeycode | main.c:257-265 | sends [0x04, layer, row, column] and yields the echoed layer, row and column with the keycode and its name |
| Client.Client.SetKeycode | main.c:267-273 | sends [0x05, layer, row, column, keycode high, keycode low] and yields the reported keycode and its name |
| Client.Client.ResetKeymap | main.c:303-305 | sends [0x06] and yields success or the exchange's error |
| Client.Client.DecodeChunk | main.c:290-298 | the entries decoded from the buffer are the expected chunk entries: slot i is keycode (offset/2 + i), read big-endian at bytes 4+2i, at its position and with its name |
| Client.Client.FetchChunk | main.c:285-298 | one chunk request is written; it succeeds exactly when the device's next answer completes, and then yields that chunk's entries; the buffer holds the reply, or the request after a failed write |
| Client.Client.DumpKeymap | main.c:275-301 | a zero map size is InvalidConfiguration and touches nothing; otherwise the dump succeeds exactly when every planned exchange completes, after writing every chunk request in order, and yields the whole decoded map; on failure it stops at the first failed chunk with that chunk's error; the buffer ends holding the last reply, or what the failed exchange left in it |
| Client.Client.FetchChunks | main.c:283-300 | the cursor loop writes the planned chunk requests in order and yields every slot of the map decoded, or stops at the first failed exchange; the buffer ends holding the last reply, or what the failed exchange left in it |
| Client.FetchedStep | main.c:284-299 | one more completed chunk keeps the loop invariant: cursor, written requests and decoded entries advance together |
| Client.FetchedEnd | main.c:284-300 | at the end of the loop the entries are those of the whole map |
| Client.KeymapEntriesAppend | main.c:290-299 | appending one chunk's entries to those of the previous chunks gives the entries of all of them |

## Left out

- hidapi itself (`hid_init`, `hid_enumerate`, `hid_open_path`, `hid_write`, `hid_read_timeout`) is foreign code. The enumeration is a sequence argument of `FindDevice`, and the opened device is a `Transport` with a script of answers.
- The 500 ms read timeout is not modelled: a read that times out is a read that does not report 32 bytes.
- `hid_open_path` failing ("Cannot open device") is left to the caller: the `Client` takes the opened device, or null.
- Parsing the device id (`sscanf` of `%hx:%hx`), `getopt`, `main`, the `u8`/`x16` option parsers, `help`, `devices`, `keycodes`, `dump_packet`, `atexit` and `hid_exit` are user-interface plumbing and are not part of this model.
- Printing is modelled as returning the printed values. The text written to stdout and stderr, and the output a dump printed before it failed, are not modelled.
- The contents of `keycodes.h` (`qmk_keycodes`, `MAX_KEYCODE`) are not part of this model. The table is a parameter of every naming function, and `MAX_KEYCODE` is its length.
- Protocol.UptimeOf: `packet[2] << 24` overflows a signed `int` in C when byte 2 is 128 or more; the model gives the unsigned value the code evidently means.
- Keycodes.ModName and Keycodes.KeycodeName return fresh strings: the aliasing of the static `name` buffers between calls is not modelled.
- The command identifiers the client never sends (set keyboard value, unhandled, lighting save, EEPROM reset, bootloader jump, macros, layer count, set buffer, layout options, switch matrix state, backlight values) are declared in `Commands` but no operation uses them.

## Findings

| source | as written | input that shows it | evidently intended | confidence | as-written member | corrected member |
|---|---|---|---|---|---|---|
| main.c:229-232 | `set_rgb_brightness` sends value id `id_qmk_rgblight_color` (0x83) | any brightness b: the report equals the one `set_rgb_colour` sends for hue b, saturation 0 | value id `id_qmk_rgblight_brightness` (0x80), the id `get_rgb_brightness` queries | high, not executed | Protocol.BrightnessAsWrittenSetsColour | Protocol.BrightnessRequestSetsBrightness |
