/** Sizes of the machine and the built-in font. */
module Config {
  import opened Bytes

  /** Framebuffer width in pixels. */
  const WIDTH: nat := 64
  /** Framebuffer height in pixels. */
  const HEIGHT: nat := 32
  /** Bytes of addressable memory. */
  const MEMORY_SIZE: nat := 4096
  /** Address where programs are loaded and execution starts. */
  const PROGRAM_START: nat := 0x200
  /** Number of general registers, of call-stack slots and of keys. */
  const REGISTER_COUNT: nat := 16
  const STACK_SIZE: nat := 16
  const KEY_COUNT: nat := 16
  /** Index of the flag register VF. */
  const VF: nat := 15

  /** The 16 five-byte glyphs for the hexadecimal digits 0 to F, stored at address 0. */
  const FONTSET: seq<U8> := [
    0xF0, 0x90, 0x90, 0x90, 0xF0, // 0
    0x20, 0x60, 0x20, 0x20, 0x70, // 1
    0xF0, 0x10, 0xF0, 0x80, 0xF0, // 2
    0xF0, 0x10, 0xF0, 0x10, 0xF0, // 3
    0x90, 0x90, 0xF0, 0x10, 0x10, // 4
    0xF0, 0x80, 0xF0, 0x10, 0xF0, // 5
    0xF0, 0x80, 0xF0, 0x90, 0xF0, // 6
    0xF0, 0x10, 0x20, 0x40, 0x40, // 7
    0xF0, 0x90, 0xF0, 0x90, 0xF0, // 8
    0xF0, 0x90, 0xF0, 0x10, 0xF0, // 9
    0xF0, 0x90, 0xF0, 0x90, 0x90, // A
    0xE0, 0x90, 0xE0, 0x90, 0xE0, // B
    0xF0, 0x80, 0x80, 0x80, 0xF0, // C
    0xE0, 0x90, 0x90, 0x90, 0xE0, // D
    0xF0, 0x80, 0xF0, 0x80, 0xF0, // E
    0xF0, 0x80, 0xF0, 0x80, 0x80  // F
  ]
}
