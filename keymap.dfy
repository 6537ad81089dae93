/**
 * The dynamic keymap as `dump_keymap` sees it: the size of the buffer, the chunks the cursor loop requests,
 * and the (layer, row, column) each two-byte slot of the buffer decodes to.
 */
module Keymap {
  import opened Bytes
  import opened Protocol
  import opened Keycodes
  import opened Arith

  /*
   * One get-buffer reply carries at most 28 keymap bytes (the 32-byte report minus command id, offset high,
   * offset low and size), that is 14 two-byte keycodes. Both numbers are written out as literals, as in the
   * client's own loop.
   */

  /** `map_size`: layers * columns * rows * 2, computed in `int` and stored in a `uint16_t`. */
  function MapSize(layers: byte, columns: byte, rows: byte): u16 {
    (layers as int * columns * rows * 2) % 0x1_0000
  }

  /**
   * A zero count makes the map size zero; a non-zero map size therefore has every count positive (so the
   * divisions of the decoding are defined); it is even, and the 16-bit truncation never makes it larger
   * than the true size.
   */
  lemma MapSizeFacts(layers: byte, columns: byte, rows: byte)
    ensures layers == 0 || columns == 0 || rows == 0 ==> MapSize(layers, columns, rows) == 0
    ensures MapSize(layers, columns, rows) != 0 ==> layers > 0 && columns > 0 && rows > 0
    ensures MapSize(layers, columns, rows) % 2 == 0
    ensures MapSize(layers, columns, rows) / 2 <= layers as int * columns * rows
  {
    var product := layers as int * columns * rows;
    if layers == 0 || columns == 0 || rows == 0 {
      assert product == 0;
    }
    TruncatedDouble(product);
  }

  /** Counts that are all present can still wrap to a zero map size: 128 * 16 * 16 * 2 is 65536. */
  lemma MapSizeWraps()
    ensures MapSize(128, 16, 16) == 0
    ensures MapSize(2, 128, 128) == 0
    ensures MapSize(2, 4, 3) == 48
  {
  }

  /** One get-buffer request: `size` bytes from byte `offset`. */
  datatype Chunk = Chunk(offset: u16, size: byte)

  function Min(a: int, b: int): int {
    if a < b then a else b
  }

  /** The chunks the cursor loop requests from `offset` on: `min(28, remaining)` bytes at a time. */
  function ChunksFrom(mapSize: u16, offset: u16): seq<Chunk>
    decreases mapSize - offset
  {
    if offset >= mapSize then []
    else
      var size := if mapSize - offset > 28 then 28 else mapSize - offset;
      [Chunk(offset, size)] + ChunksFrom(mapSize, offset + size)
  }

  /** Every chunk `dump_keymap` requests, in order. */
  function Plan(mapSize: u16): seq<Chunk> {
    ChunksFrom(mapSize, 0)
  }

  /** Chunk j from a cursor `offset` starts 28 * j further on and is min(28, what is left) long. */
  lemma {:induction false} ChunksFromAt(mapSize: u16, offset: u16)
    requires offset <= mapSize
    ensures |ChunksFrom(mapSize, offset)| == (mapSize - offset + 27) / 28
    ensures forall j :: 0 <= j < |ChunksFrom(mapSize, offset)| ==>
              ChunksFrom(mapSize, offset)[j]
              == Chunk(offset + 28 * j, Min(28, mapSize - offset - 28 * j))
    decreases mapSize - offset
  {
    if offset < mapSize {
      var size := if mapSize - offset > 28 then 28 else mapSize - offset;
      ChunksFromAt(mapSize, offset + size);
      var chunks, rest := ChunksFrom(mapSize, offset), ChunksFrom(mapSize, offset + size);
      assert chunks == [Chunk(offset, size)] + rest;
      forall j | 0 <= j < |chunks|
        ensures chunks[j] == Chunk(offset + 28 * j, Min(28, mapSize - offset - 28 * j))
      {
        if j > 0 {
          assert chunks[j] == rest[j - 1];
        }
      }
    }
  }

  /** Byte `b` of the buffer lies in chunk `c`. */
  predicate Covers(c: Chunk, b: int) {
    c.offset <= b < c.offset + c.size
  }

  /**
   * The plan for a buffer of `mapSize` bytes: ceil(mapSize / 28) chunks at offsets 0, 28, 56, ..., each
   * min(28, remaining) bytes, none empty and none past the end; each starts where the previous one ended,
   * the first at 0 and the last ending at mapSize, so every byte lies in exactly one chunk (the one at
   * b / 28). For an even size every chunk is even and at least 2 bytes long.
   */
  lemma PlanTiles(mapSize: u16)
    ensures |Plan(mapSize)| == (mapSize + 27) / 28
    ensures forall j :: 0 <= j < |Plan(mapSize)| ==>
              Plan(mapSize)[j].offset == 28 * j
              && Plan(mapSize)[j].size == Min(28, mapSize - 28 * j)
              && 0 < Plan(mapSize)[j].size
              && Plan(mapSize)[j].offset + Plan(mapSize)[j].size <= mapSize
    ensures mapSize % 2 == 0 ==>
              forall j :: 0 <= j < |Plan(mapSize)| ==> Plan(mapSize)[j].size % 2 == 0 && Plan(mapSize)[j].size >= 2
    ensures forall j :: 0 < j < |Plan(mapSize)| ==>
              Plan(mapSize)[j].offset == Plan(mapSize)[j - 1].offset + Plan(mapSize)[j - 1].size
    ensures mapSize > 0 ==>
              Plan(mapSize)[0].offset == 0
              && Plan(mapSize)[|Plan(mapSize)| - 1].offset + Plan(mapSize)[|Plan(mapSize)| - 1].size == mapSize
    ensures forall j, b :: 0 <= j < |Plan(mapSize)| && 0 <= b < mapSize ==>
              (Covers(Plan(mapSize)[j], b) <==> j == b / 28)
  {
    ChunksFromAt(mapSize, 0);
  }

  /** While `28 * done` bytes fall short of the map size, the cursor's next request is chunk `done` of the plan. */
  lemma PlanStep(mapSize: u16, done: nat)
    requires 28 * done < mapSize
    ensures done < |Plan(mapSize)|
    ensures Plan(mapSize)[done] == Chunk(28 * done, Min(28, mapSize - 28 * done))
  {
    PlanTiles(mapSize);
  }

  /** The cursor arithmetic of one pass: 28 * done bytes are 14 * done keycodes, and the cursor advances by the chunk. */
  lemma CursorStep(mapSize: u16, done: nat)
    requires 28 * done < mapSize
    ensures 28 * done / 2 == 14 * done
    ensures Min(28 * (done + 1), mapSize)
         == 28 * done + Min(28, mapSize - 28 * done)
  {
  }

  /** Once `28 * done` bytes reach the map size, the cursor has requested the whole plan. */
  lemma PlanEnd(mapSize: u16, done: nat)
    requires 0 < mapSize <= 28 * done && done <= |Plan(mapSize)|
    ensures done == |Plan(mapSize)|
  {
    PlanTiles(mapSize);
  }

  /** Two chunks, of 28 and 20 bytes, for a 48-byte buffer. */
  lemma PlanExample()
    ensures Plan(48) == [Chunk(0, 28), Chunk(28, 20)]
  {
    PlanTiles(48);
  }

  /** A keymap position. */
  datatype Position = Position(layer: nat, row: nat, column: nat)

  /** How `dump_keymap` decodes keycode number `index`: row-major within a layer, layer-major overall. */
  function PositionOf(index: nat, columns: nat, rows: nat): Position
    requires columns > 0 && rows > 0
  {
    Position(index / (columns * rows), (index / columns) % rows, index % columns)
  }

  /** The index of a position: layer * rows * columns + row * columns + column. */
  function IndexOf(p: Position, columns: nat, rows: nat): nat {
    p.layer * rows * columns + p.row * columns + p.column
  }

  /** Decoding an index and encoding the position again gives the index back. */
  lemma IndexOfPositionOf(index: nat, columns: nat, rows: nat)
    requires columns > 0 && rows > 0
    ensures IndexOf(PositionOf(index, columns, rows), columns, rows) == index
  {
    var area := columns * rows;
    var layer, rest := index / area, index % area;
    var row, column := rest / columns, rest % columns;
    QuotientBelow(rest, columns, rows);
    Regroup(layer, columns, rows, row, column);
    DivModUnique(index, columns, layer * rows + row, column);
    DivModUnique(index / columns, rows, layer, row);
  }

  /** Encoding an in-bounds position and decoding the index gives the position back. */
  lemma PositionOfIndexOf(p: Position, columns: nat, rows: nat)
    requires columns > 0 && rows > 0 && p.row < rows && p.column < columns
    ensures PositionOf(IndexOf(p, columns, rows), columns, rows) == p
  {
    var index := IndexOf(p, columns, rows);
    Regroup(p.layer, columns, rows, p.row, p.column);
    DivModUnique(index, columns, p.layer * rows + p.row, p.column);
    DivModUnique(index / columns, rows, p.layer, p.row);
    SlotBelow(p.row, p.column, columns, rows);
    DivModUnique(index, columns * rows, p.layer, p.row * columns + p.column);
  }

  /** An index below layers * columns * rows decodes to a position inside the keymap. */
  lemma PositionInBounds(index: nat, layers: nat, columns: nat, rows: nat)
    requires columns > 0 && rows > 0 && index < layers * columns * rows
    ensures PositionOf(index, columns, rows).layer < layers
    ensures PositionOf(index, columns, rows).row < rows
    ensures PositionOf(index, columns, rows).column < columns
  {
    var area := columns * rows;
    var layer := index / area;
    assert index == layer * area + index % area;
    assert layers * columns * rows == layers * area;
    if layer >= layers {
      MulLeft(layers, layer, area);
      assert false;
    }
  }

  /**
   * Every keycode number `dump_keymap` decodes (0 .. map_size / 2 - 1) lands inside the keymap, at the
   * position whose index it is, so no two of them land on the same position.
   */
  lemma DumpPositions(layers: byte, columns: byte, rows: byte)
    requires MapSize(layers, columns, rows) != 0
    ensures columns > 0 && rows > 0
    ensures forall k :: 0 <= k < MapSize(layers, columns, rows) / 2 ==>
              PositionOf(k, columns, rows).layer < layers
              && PositionOf(k, columns, rows).row < rows
              && PositionOf(k, columns, rows).column < columns
              && IndexOf(PositionOf(k, columns, rows), columns, rows) == k
    ensures forall k1, k2 :: 0 <= k1 < k2 < MapSize(layers, columns, rows) / 2 ==>
              PositionOf(k1, columns, rows) != PositionOf(k2, columns, rows)
  {
    MapSizeFacts(layers, columns, rows);
    forall k | 0 <= k < MapSize(layers, columns, rows) / 2
      ensures PositionOf(k, columns, rows).layer < layers
      ensures PositionOf(k, columns, rows).row < rows
      ensures PositionOf(k, columns, rows).column < columns
      ensures IndexOf(PositionOf(k, columns, rows), columns, rows) == k
    {
      PositionInBounds(k, layers, columns, rows);
      IndexOfPositionOf(k, columns, rows);
    }
  }

  /** One decoded slot of the dump: where it is, the keycode and the name it is shown under. */
  datatype KeyEntry = KeyEntry(position: Position, keycode: u16, name: string)

  /** Slot `slot` of a get-buffer reply: `packet[4 + 2 * slot] << 8 | packet[5 + 2 * slot]`. */
  function SlotKeycode(reply: Packet, slot: nat): u16
    requires slot < 14
  {
    ReadBe16(reply, 4 + 2 * slot)
  }

  /** The line `dump_keymap` prints for keycode number `index`, read from slot `slot` of `reply`. */
  function EntryAt(table: KeyTable, columns: nat, rows: nat, index: nat, reply: Packet, slot: nat): KeyEntry
    requires columns > 0 && rows > 0 && slot < 14
  {
    var keycode := SlotKeycode(reply, slot);
    KeyEntry(PositionOf(index, columns, rows), keycode, KeycodeName(table, keycode))
  }

  /** The lines decoded from the first `slots` slots of one reply: keycode numbers `first` onwards. */
  function ChunkEntries(table: KeyTable, columns: nat, rows: nat, first: nat, reply: Packet, slots: nat): seq<KeyEntry>
    requires columns > 0 && rows > 0 && slots <= 14
  {
    seq(slots, i requires 0 <= i < slots => EntryAt(table, columns, rows, first + i, reply, i))
  }

  /**
   * The first `count` lines of a dump whose chunk requests were answered by `replies`, in order: keycode
   * number k comes from reply k / 14, slot k % 14.
   */
  function KeymapEntries(table: KeyTable, columns: nat, rows: nat, count: nat, replies: seq<Packet>): seq<KeyEntry>
    requires columns > 0 && rows > 0 && count <= 14 * |replies|
  {
    seq(count, k requires 0 <= k < count => EntryAt(table, columns, rows, k, replies[k / 14], k % 14))
  }

  /** The lines of a dump of `mapSize` bytes whose chunk requests, one per chunk of the plan, were answered by `replies`. */
  function DumpEntries(table: KeyTable, columns: nat, rows: nat, mapSize: u16, replies: seq<Packet>): seq<KeyEntry>
    requires columns > 0 && rows > 0 && |replies| == |Plan(mapSize)|
  {
    PlanTiles(mapSize);
    KeymapEntries(table, columns, rows, mapSize / 2, replies)
  }

  /** The whole dump of a `layers` x `rows` x `columns` keymap, chunk requests answered by `replies`. */
  function Dump(table: KeyTable, layers: byte, columns: byte, rows: byte, replies: seq<Packet>): seq<KeyEntry>
    requires MapSize(layers, columns, rows) != 0 && |replies| == |Plan(MapSize(layers, columns, rows))|
  {
    MapSizeFacts(layers, columns, rows);
    DumpEntries(table, columns, rows, MapSize(layers, columns, rows), replies)
  }
}
