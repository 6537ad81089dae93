/**
 * Naming of 16-bit keycodes (`key_name`, `mod_name`, `keycode_name`): every keycode falls in exactly one of
 * four ranges — a plain key, a key wrapped in modifiers, a momentary layer, or an opaque QMK code.
 */
module Keycodes {
  import opened Bytes
  import opened Text
  import opened Arith

  /**
   * `qmk_keycodes`: entry k names plain key k. Its length plays the part of MAX_KEYCODE; both come from a
   * header that is not part of this model, so the table is an input of every naming function.
   */
  type KeyTable = seq<string>

  /** `keycode_name` formats into a `char[128]`: at most 127 characters before the terminator. */
  const NameBufferSize: nat := 128

  // Modifier flags of the high byte.
  const ModRight: u16 := 0x1000
  const ModCtrl: u16 := 0x100
  const ModShift: u16 := 0x200
  const ModAlt: u16 := 0x400
  const ModGui: u16 := 0x800

  /** `key_name`: the table entry below the bound, "UNKNOWN" from it on. */
  function KeyName(table: KeyTable, key: byte): string {
    if key < |table| then table[key] else "UNKNOWN"
  }

  /** `code & flag != 0` for a flag of a single bit. */
  predicate HasFlag(code: u16, flag: u16)
    requires flag > 0
  {
    (code / flag) % 2 == 1
  }

  function Letter(code: u16, flag: u16, letter: char): string
    requires flag > 0
  {
    if HasFlag(code, flag) then [letter] else []
  }

  /** The modifier letters `mod_name` writes for `code`, in the fixed order R, C, S, A, G. */
  function ModPrefix(code: u16): string {
    Letter(code, ModRight, 'R') + Letter(code, ModCtrl, 'C') + Letter(code, ModShift, 'S')
      + Letter(code, ModAlt, 'A') + Letter(code, ModGui, 'G')
  }

  /** Position of a modifier letter in the order R, C, S, A, G. */
  function Rank(c: char): nat {
    match c
    case 'R' => 0
    case 'C' => 1
    case 'S' => 2
    case 'A' => 3
    case 'G' => 4
    case _ => 5
  }

  /** `keycode & 0x1f00`: the five modifier bits and nothing else. */
  function ModifierBits(code: u16): u16 {
    (code / 0x100) % 0x20 * 0x100
  }

  /**
   * `mod_name`: writes one letter per set flag through the cursor `next` into a 6-character buffer, then the
   * terminator. The buffer writes are checked in bounds, so at most five letters are ever written.
   */
  method ModName(keycode: u16) returns (name: string)
    ensures name == ModPrefix(keycode)
    ensures |name| < 6
  {
    var buffer := new char[6];
    var next := 0;
    next := PutLetter(buffer, next, keycode, ModRight, 'R');
    next := PutLetter(buffer, next, keycode, ModCtrl, 'C');
    next := PutLetter(buffer, next, keycode, ModShift, 'S');
    next := PutLetter(buffer, next, keycode, ModAlt, 'A');
    next := PutLetter(buffer, next, keycode, ModGui, 'G');
    buffer[next] := 0 as char;
    name := buffer[..next];
  }

  /** One `if (kc & flag) buf[i++] = letter;` step of `mod_name`: the letters written so far stay. */
  method PutLetter(buffer: array<char>, next: nat, code: u16, flag: u16, letter: char) returns (after: nat)
    requires next < buffer.Length && flag > 0
    modifies buffer
    ensures after == next + |Letter(code, flag, letter)|
    ensures buffer[..after] == old(buffer[..next]) + Letter(code, flag, letter)
  {
    after := next;
    if HasFlag(code, flag) {
      buffer[next] := letter;
      after := next + 1;
    }
  }


  /** Modifier letters strictly in the order R, C, S, A, G. */
  ghost predicate Ascending(s: string) {
    forall i, j :: 0 <= i < j < |s| ==> Rank(s[i]) < Rank(s[j])
  }

  ghost predicate RanksBelow(s: string, n: nat) {
    forall i :: 0 <= i < |s| ==> Rank(s[i]) < n
  }

  lemma AppendLetter(s: string, x: string, n: nat)
    requires Ascending(s) && RanksBelow(s, n) && |s| <= n
    requires x == [] || (|x| == 1 && Rank(x[0]) == n)
    ensures Ascending(s + x) && RanksBelow(s + x, n + 1) && |s + x| <= n + 1
  {
  }

  /** Five optional letters, one per rank, concatenated in rank order, come out in rank order. */
  lemma OptionalLettersInOrder(r: string, c: string, sh: string, a: string, g: string)
    requires r == [] || r == ['R']
    requires c == [] || c == ['C']
    requires sh == [] || sh == ['S']
    requires a == [] || a == ['A']
    requires g == [] || g == ['G']
    ensures |r + c + sh + a + g| <= 5 && Ascending(r + c + sh + a + g) && RanksBelow(r + c + sh + a + g, 5)
  {
    assert Ascending(r) && RanksBelow(r, 1);
    AppendLetter(r, c, 1);
    AppendLetter(r + c, sh, 2);
    AppendLetter(r + c + sh, a, 3);
    AppendLetter(r + c + sh + a, g, 4);
  }

  /** Which of five optional letters, one per rank, occur in their concatenation. */
  lemma OptionalLettersPresent(r: string, c: string, sh: string, a: string, g: string)
    requires r == [] || r == ['R']
    requires c == [] || c == ['C']
    requires sh == [] || sh == ['S']
    requires a == [] || a == ['A']
    requires g == [] || g == ['G']
    ensures 'R' in r + c + sh + a + g <==> r != []
    ensures 'C' in r + c + sh + a + g <==> c != []
    ensures 'S' in r + c + sh + a + g <==> sh != []
    ensures 'A' in r + c + sh + a + g <==> a != []
    ensures 'G' in r + c + sh + a + g <==> g != []
  {
    forall ch
      ensures ch in r + c + sh + a + g <==> ch in r || ch in c || ch in sh || ch in a || ch in g
    {
      MemberOfAppend(r + c + sh + a, g, ch);
      MemberOfAppend(r + c + sh, a, ch);
      MemberOfAppend(r + c, sh, ch);
      MemberOfAppend(r, c, ch);
    }
  }

  lemma MemberOfAppend(s: string, x: string, ch: char)
    ensures ch in s + x <==> ch in s || ch in x
  {
    if ch in s + x {
      var i :| 0 <= i < |s + x| && (s + x)[i] == ch;
      if i >= |s| {
        assert x[i - |s|] == ch;
      }
    }
    if ch in x {
      var i :| 0 <= i < |x| && x[i] == ch;
      assert (s + x)[|s| + i] == ch;
    }
  }

  /**
   * The letters of ModPrefix: each appears exactly when its flag is set, and they come strictly in the order
   * R, C, S, A, G, so none repeats and there are at most five; no other character occurs.
   */
  lemma ModPrefixLetters(code: u16)
    ensures |ModPrefix(code)| <= 5
    ensures 'R' in ModPrefix(code) <==> HasFlag(code, ModRight)
    ensures 'C' in ModPrefix(code) <==> HasFlag(code, ModCtrl)
    ensures 'S' in ModPrefix(code) <==> HasFlag(code, ModShift)
    ensures 'A' in ModPrefix(code) <==> HasFlag(code, ModAlt)
    ensures 'G' in ModPrefix(code) <==> HasFlag(code, ModGui)
    ensures Ascending(ModPrefix(code))
    ensures forall i :: 0 <= i < |ModPrefix(code)| ==> ModPrefix(code)[i] in "RCSAG"
  {
    var r, c, sh := Letter(code, ModRight, 'R'), Letter(code, ModCtrl, 'C'), Letter(code, ModShift, 'S');
    var a, g := Letter(code, ModAlt, 'A'), Letter(code, ModGui, 'G');
    OptionalLettersInOrder(r, c, sh, a, g);
    OptionalLettersPresent(r, c, sh, a, g);
    forall i | 0 <= i < |ModPrefix(code)|
      ensures ModPrefix(code)[i] in "RCSAG"
    {
      assert Rank(ModPrefix(code)[i]) < 5;
    }
  }

  /** One modifier flag reads the same in a keycode and in its modifier bits alone. */
  lemma FlagInModifierBits(code: u16, flag: u16)
    requires flag == ModRight || flag == ModCtrl || flag == ModShift || flag == ModAlt || flag == ModGui
    ensures HasFlag(code, flag) <==> HasFlag(ModifierBits(code), flag)
  {
    var high, mods, low := (code / 0x100) / 0x20, (code / 0x100) % 0x20, code % 0x100;
    assert code == 0x2000 * high + 0x100 * mods + low;
    assert ModifierBits(code) == 0x100 * mods;
    if flag == ModRight {
      FlagBit(code, high, mods, low, 0x10);
    } else if flag == ModGui {
      FlagBit(code, high, mods, low, 0x8);
    } else if flag == ModAlt {
      FlagBit(code, high, mods, low, 0x4);
    } else if flag == ModShift {
      FlagBit(code, high, mods, low, 0x2);
    } else {
      FlagBit(code, high, mods, low, 0x1);
    }
  }

  /** Bit `weight` of the five modifier bits, read from the whole keycode and from the modifier bits alone. */
  lemma FlagBit(code: int, high: int, mods: int, low: int, weight: int)
    requires 0 <= mods < 0x20 && 0 <= low < 0x100 && 0 <= high
    requires weight == 0x10 || weight == 0x8 || weight == 0x4 || weight == 0x2 || weight == 0x1
    requires code == 0x2000 * high + 0x100 * mods + low
    ensures (code / (0x100 * weight)) % 2 == (mods / weight) % 2
    ensures ((0x100 * mods) / (0x100 * weight)) % 2 == (mods / weight) % 2
  {
    if weight == 0x10 {
      DivModUnique(code, 0x1000, 2 * high + mods / 0x10, 0x100 * (mods % 0x10) + low);
      DivModUnique(0x100 * mods, 0x1000, mods / 0x10, 0x100 * (mods % 0x10));
      ParityOfSum(high, mods / 0x10);
    } else if weight == 0x8 {
      DivModUnique(code, 0x800, 4 * high + mods / 0x8, 0x100 * (mods % 0x8) + low);
      DivModUnique(0x100 * mods, 0x800, mods / 0x8, 0x100 * (mods % 0x8));
      ParityOfSum(2 * high, mods / 0x8);
    } else if weight == 0x4 {
      DivModUnique(code, 0x400, 8 * high + mods / 0x4, 0x100 * (mods % 0x4) + low);
      DivModUnique(0x100 * mods, 0x400, mods / 0x4, 0x100 * (mods % 0x4));
      ParityOfSum(4 * high, mods / 0x4);
    } else if weight == 0x2 {
      DivModUnique(code, 0x200, 16 * high + mods / 0x2, 0x100 * (mods % 0x2) + low);
      DivModUnique(0x100 * mods, 0x200, mods / 0x2, 0x100 * (mods % 0x2));
      ParityOfSum(8 * high, mods / 0x2);
    } else {
      DivModUnique(code, 0x100, 32 * high + mods, low);
      ParityOfSum(16 * high, mods);
    }
  }

  /** Bits of the keycode outside 0x1f00 never change what `mod_name` writes. */
  lemma ModPrefixIgnoresOtherBits(code: u16)
    ensures ModPrefix(code) == ModPrefix(ModifierBits(code))
  {
    FlagInModifierBits(code, ModRight);
    FlagInModifierBits(code, ModCtrl);
    FlagInModifierBits(code, ModShift);
    FlagInModifierBits(code, ModAlt);
    FlagInModifierBits(code, ModGui);
  }

  /** The four classes of keycode; the modifier class keeps the whole high byte (its modifier bits). */
  datatype KeyClass =
    | PlainKey(key: byte)
    | ModifiedKey(mods: byte, key: byte)
    | LayerRef(layer: byte)
    | VendorCode(raw: u16)

  /** The range tests of `keycode_name`, in its order, with `key` the low byte. */
  function Classify(code: u16): (c: KeyClass)
    ensures c.PlainKey? <==> code <= 0xFF
    ensures c.ModifiedKey? <==> 0x100 <= code <= 0x1FFF
    ensures c.LayerRef? <==> 0x5100 <= code <= 0x51FF
    ensures c.VendorCode? <==> 0x2000 <= code < 0x5100 || 0x5200 <= code
  {
    var key := code % 0x100;
    if code <= 0xFF then PlainKey(key)
    else if 0x100 <= code <= 0x1FFF then ModifiedKey(code / 0x100, key)
    else if 0x5100 <= code <= 0x51FF then LayerRef(key)
    else VendorCode(code)
  }

  /** The classes Classify can produce. */
  predicate WellFormed(c: KeyClass) {
    match c
    case PlainKey(_) => true
    case ModifiedKey(mods, _) => 0x01 <= mods <= 0x1F
    case LayerRef(_) => true
    case VendorCode(raw) => 0x2000 <= raw < 0x5100 || 0x5200 <= raw
  }

  /** The keycode a class stands for. */
  function CodeOf(c: KeyClass): int {
    match c
    case PlainKey(key) => key
    case ModifiedKey(mods, key) => mods * 0x100 + key
    case LayerRef(layer) => 0x5100 + layer
    case VendorCode(raw) => raw
  }

  /** Classification loses nothing: the class of a keycode gives the keycode back, and is well formed. */
  lemma ClassifyRoundTrip(code: u16)
    ensures WellFormed(Classify(code)) && CodeOf(Classify(code)) == code
  {
  }

  /** Every well-formed class is the class of the keycode it stands for. */
  lemma CodeOfRoundTrip(c: KeyClass)
    requires WellFormed(c)
    ensures 0 <= CodeOf(c) < 0x1_0000 && Classify(CodeOf(c)) == c
  {
  }

  /** What `snprintf` keeps of `s` in the 128-character name buffer. */
  function Bounded(s: string): (r: string)
    ensures |r| < NameBufferSize && r <= s
    ensures |s| < NameBufferSize ==> r == s
    ensures |s| >= NameBufferSize ==> |r| == NameBufferSize - 1
  {
    if |s| < NameBufferSize then s else s[..NameBufferSize - 1]
  }

  /** `keycode_name`: the name a keycode is displayed under. */
  function KeycodeName(table: KeyTable, code: u16): string {
    match Classify(code)
    case PlainKey(key) => KeyName(table, key)
    case ModifiedKey(_, key) => Bounded(ModPrefix(code) + "(" + KeyName(table, key) + ")")
    case LayerRef(layer) => Bounded("MO(" + Decimal(layer) + ")")
    case VendorCode(raw) => Bounded("QMK(0x" + Hex4(raw) + ")")
  }

  /** A plain keycode is named by its table entry, or "UNKNOWN" from the table's bound on. */
  lemma KeycodeNamePlain(table: KeyTable, code: u16)
    requires code <= 0xFF
    ensures code < |table| ==> KeycodeName(table, code) == table[code]
    ensures code >= |table| ==> KeycodeName(table, code) == "UNKNOWN"
  {
  }

  /** A modified keycode is named by its modifier letters wrapping the low byte's name, cut to the buffer. */
  lemma KeycodeNameModified(table: KeyTable, code: u16)
    requires 0x100 <= code <= 0x1FFF
    ensures KeycodeName(table, code) == Bounded(ModPrefix(code) + "(" + KeyName(table, code % 0x100) + ")")
    ensures 1 <= |ModPrefix(code)|
  {
    var mods := code / 0x100;
    assert 1 <= mods < 0x20;
    assert code / 0x200 == mods / 2 && code / 0x400 == mods / 4 && code / 0x800 == mods / 8 && code / 0x1000 == mods / 16;
    assert HasFlag(code, ModRight) || HasFlag(code, ModCtrl) || HasFlag(code, ModShift)
        || HasFlag(code, ModAlt) || HasFlag(code, ModGui);
  }

  /** A momentary-layer keycode is named `MO(n)` with n the layer in decimal, which reads back from the name. */
  lemma KeycodeNameLayer(table: KeyTable, code: u16)
    requires 0x5100 <= code <= 0x51FF
    ensures KeycodeName(table, code) == "MO(" + Decimal(code - 0x5100) + ")"
    ensures var name := KeycodeName(table, code);
            5 <= |name| <= 7 && ValueIn(10, name[3..|name| - 1]) == code - 0x5100
  {
    assert code % 0x100 == code - 0x5100;
    DecimalRoundTrip(code - 0x5100);
    var name := "MO(" + Decimal(code - 0x5100) + ")";
    assert KeycodeName(table, code) == Bounded(name) == name;
    assert name[3..|name| - 1] == Decimal(code - 0x5100);
  }

  /** Any other keycode is named `QMK(0x....)` with its four hex digits, which read back as the keycode. */
  lemma KeycodeNameVendor(table: KeyTable, code: u16)
    requires 0x2000 <= code < 0x5100 || 0x5200 <= code
    ensures KeycodeName(table, code) == "QMK(0x" + Hex4(code) + ")"
    ensures var name := KeycodeName(table, code);
            |name| == 11 && ValueIn(16, name[6..10]) == code
  {
    Hex4RoundTrip(code);
    var name := "QMK(0x" + Hex4(code) + ")";
    assert name[6..10] == Hex4(code);
  }

  /** Boundary keycodes: 0x00FF is still a plain key, 0x0100 is Ctrl, 0x1900 is Right+Ctrl+GUI, 0x5105 is layer 5. */
  lemma KeycodeNameExamples(table: KeyTable)
    requires |table| == 0x100 && forall k :: 0 <= k < |table| ==> |table[k]| < 100
    ensures KeycodeName(table, 0x0000) == table[0x00]
    ensures KeycodeName(table, 0x00FF) == table[0xFF]
    ensures KeycodeName(table, 0x0100) == "C(" + table[0x00] + ")"
    ensures KeycodeName(table, 0x1900) == "RCG(" + table[0x00] + ")"
    ensures KeycodeName(table, 0x1904) == "RCG(" + table[0x04] + ")"
    ensures KeycodeName(table, 0x5105) == "MO(5)"
    ensures KeycodeName(table, 0x6000) == "QMK(0x6000)"
  {
  }
}
