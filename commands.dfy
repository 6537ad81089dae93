/** Identifiers of the configuration protocol (commands.h:3-42), bit-exact: they cross the wire to the firmware. */
module Commands {
  import opened Bytes

  // Command identifiers (byte 0 of a request as the firmware sees it).
  const IdGetProtocolVersion: byte := 0x01
  const IdGetKeyboardValue: byte := 0x02
  const IdSetKeyboardValue: byte := 0x03
  const IdDynamicKeymapGetKeycode: byte := 0x04
  const IdDynamicKeymapSetKeycode: byte := 0x05
  const IdDynamicKeymapReset: byte := 0x06
  const IdLightingSetValue: byte := 0x07
  const IdLightingGetValue: byte := 0x08
  const IdLightingSave: byte := 0x09
  const IdEepromReset: byte := 0x0A
  const IdBootloaderJump: byte := 0x0B
  const IdDynamicKeymapMacroGetCount: byte := 0x0C
  const IdDynamicKeymapMacroGetBufferSize: byte := 0x0D
  const IdDynamicKeymapMacroGetBuffer: byte := 0x0E
  const IdDynamicKeymapMacroSetBuffer: byte := 0x0F
  const IdDynamicKeymapMacroReset: byte := 0x10
  const IdDynamicKeymapGetLayerCount: byte := 0x11
  const IdDynamicKeymapGetBuffer: byte := 0x12
  const IdDynamicKeymapSetBuffer: byte := 0x13
  const IdUnhandled: byte := 0xFF

  // Keyboard-value sub-identifiers.
  const IdUptime: byte := 0x01
  const IdLayoutOptions: byte := 0x02
  const IdSwitchMatrixState: byte := 0x03

  // Lighting-value sub-identifiers: QMK backlight, then QMK rgblight.
  const IdQmkBacklightBrightness: byte := 0x09
  const IdQmkBacklightEffect: byte := 0x0A
  const IdQmkRgblightBrightness: byte := 0x80
  const IdQmkRgblightEffect: byte := 0x81
  const IdQmkRgblightEffectSpeed: byte := 0x82
  const IdQmkRgblightColor: byte := 0x83
}
