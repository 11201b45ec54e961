/** RAM, call stack and the built-in font of `src/memory.rs`. */
module Memory {
  import opened Types

  const RamSize := 4096
  const StackSize := 16
  const StartingAddressRom := 0x200
  const StartingAddressFont := 0x50

  /** Rows per glyph; each row is one byte whose high nibble is the pixel pattern. */
  const GlyphHeight := 5

  /** `KEYBOARD`: the sixteen hexadecimal digit glyphs 0..F. */
  const Keyboard: seq<seq<Byte>> := [
    [0xF0, 0x90, 0x90, 0x90, 0xF0], // 0
    [0x20, 0x60, 0x20, 0x20, 0x70], // 1
    [0xF0, 0x10, 0xF0, 0x80, 0xF0], // 2
    [0xF0, 0x10, 0xF0, 0x10, 0xF0], // 3
    [0x90, 0x90, 0xF0, 0x10, 0x10], // 4
    [0xF0, 0x80, 0xF0, 0x10, 0xF0], // 5
    [0xF0, 0x80, 0xF0, 0x90, 0xF0], // 6
    [0xF0, 0x10, 0x20, 0x40, 0x40], // 7
    [0xF0, 0x90, 0xF0, 0x90, 0xF0], // 8
    [0xF0, 0x90, 0xF0, 0x10, 0xF0], // 9
    [0xF0, 0x90, 0xF0, 0x90, 0x90], // A
    [0xE0, 0x90, 0xE0, 0x90, 0xE0], // B
    [0xF0, 0x80, 0x80, 0x80, 0xF0], // C
    [0xE0, 0x90, 0x90, 0x90, 0xE0], // D
    [0xF0, 0x80, 0xF0, 0x80, 0xF0], // E
    [0xF0, 0x80, 0xF0, 0x80, 0x80]  // F
  ]

  /** First address past the font. */
  const FontEnd := StartingAddressFont + 16 * GlyphHeight

  /** The 80 font bytes in the order `load_fontset` writes them: glyph by glyph, row by row. */
  function Fontset(): (f: seq<Byte>)
    ensures |f| == FontEnd - StartingAddressFont
  {
    seq(16 * GlyphHeight, k requires 0 <= k < 16 * GlyphHeight => Keyboard[k / GlyphHeight][k % GlyphHeight])
  }

  /** Glyph `d`, row `r` is font byte `5 * d + r`. */
  lemma FontsetAt(d: nat, r: nat)
    requires d < 16 && r < GlyphHeight
    ensures Fontset()[GlyphHeight * d + r] == Keyboard[d][r]
  {
    var k := GlyphHeight * d + r;
    assert k / GlyphHeight == d && k % GlyphHeight == r;
  }

  /** RAM after `load_fontset`: the font at 0x50..0xA0, every other byte as before. */
  function WithFont(ram: seq<Byte>): (r: seq<Byte>)
    requires |ram| == RamSize
    ensures |r| == RamSize
  {
    seq(RamSize, a requires 0 <= a < RamSize =>
      if StartingAddressFont <= a < FontEnd then Fontset()[a - StartingAddressFont] else ram[a])
  }

  /** RAM after the copy step of `load_rom`, or the panic of an out-of-range slice. */
  function WithRom(ram: seq<Byte>, buffer: seq<Byte>): (r: Result<seq<Byte>>)
    requires |ram| == RamSize
    ensures r.Ok? ==> |r.value| == RamSize
  {
    if StartingAddressRom + |buffer| > |ram| then Err(SliceOutOfRange)
    else Ok(ram[..StartingAddressRom] + buffer + ram[StartingAddressRom + |buffer|..])
  }

  /** Every glyph byte has a zero low nibble: glyphs are at most 4 pixels wide. */
  lemma GlyphsFourPixelsWide()
    ensures forall d, r :: 0 <= d < 16 && 0 <= r < GlyphHeight ==> Keyboard[d][r] % 16 == 0
  {
  }

  /** `load_fontset` puts row `r` of digit `d` at `0x50 + 5 * d + r`. */
  lemma FontsetPlaced(ram: seq<Byte>, d: nat, r: nat)
    requires |ram| == RamSize
    requires d < 16 && r < GlyphHeight
    ensures WithFont(ram)[StartingAddressFont + GlyphHeight * d + r] == Keyboard[d][r]
  {
    FontsetAt(d, r);
  }

  /** `load_fontset` leaves every byte outside 0x50..0xA0 unchanged. */
  lemma FontsetFrame(ram: seq<Byte>, a: nat)
    requires |ram| == RamSize && a < RamSize
    requires a < StartingAddressFont || FontEnd <= a
    ensures WithFont(ram)[a] == ram[a]
  {
  }

  /** Loading the font twice is the same as loading it once. */
  lemma FontsetIdempotent(ram: seq<Byte>)
    requires |ram| == RamSize
    ensures WithFont(WithFont(ram)) == WithFont(ram)
  {
  }

  /** The ROM copy fails exactly when the ROM is longer than 4096 - 0x200 = 3584 bytes. */
  lemma RomFits(ram: seq<Byte>, buffer: seq<Byte>)
    requires |ram| == RamSize
    ensures WithRom(ram, buffer).Ok? <==> |buffer| <= 3584
  {
  }

  /** A ROM that fits lands at 0x200 byte for byte; nothing else changes. */
  lemma RomPlaced(ram: seq<Byte>, buffer: seq<Byte>, a: nat)
    requires |ram| == RamSize && a < RamSize
    requires WithRom(ram, buffer).Ok?
    ensures |WithRom(ram, buffer).value| == RamSize
    ensures WithRom(ram, buffer).value[a] ==
              if StartingAddressRom <= a < StartingAddressRom + |buffer|
              then buffer[a - StartingAddressRom] else ram[a]
  {
  }

  /** Loading a ROM after the font leaves the font intact: the regions are disjoint. */
  lemma RomKeepsFont(ram: seq<Byte>, buffer: seq<Byte>)
    requires |ram| == RamSize
    requires WithRom(WithFont(ram), buffer).Ok?
    ensures WithRom(WithFont(ram), buffer).value[StartingAddressFont..FontEnd] == Fontset()
  {
    var loaded := WithRom(WithFont(ram), buffer).value;
    forall a | StartingAddressFont <= a < FontEnd
      ensures loaded[a] == Fontset()[a - StartingAddressFont]
    {
      RomPlaced(WithFont(ram), buffer, a);
    }
    assert loaded[StartingAddressFont..FontEnd] == Fontset();
  }

  /** `struct Memory`: a 4096-byte RAM and a 16-entry stack of return addresses. */
  class Memory {
    const ram: array<Byte>
    const stack: array<Word>

    ghost predicate Valid()
      reads this
    {
      ram.Length == RamSize && stack.Length == StackSize
    }

    /** `Memory::new`: all RAM and all stack entries zero. */
    constructor ()
      ensures Valid() && fresh(ram) && fresh(stack)
      ensures forall a :: 0 <= a < ram.Length ==> ram[a] == 0
      ensures forall k :: 0 <= k < stack.Length ==> stack[k] == 0
    {
      ram := new Byte[RamSize](_ => 0);
      stack := new Word[StackSize](_ => 0);
    }

    /** The copy step of `load_rom`, given the bytes the file contained. */
    method LoadRom(buffer: seq<Byte>) returns (r: Outcome)
      requires Valid()
      modifies ram
      ensures r.Pass? == WithRom(old(ram[..]), buffer).Ok?
      ensures r.Pass? ==> ram[..] == WithRom(old(ram[..]), buffer).value
      ensures r.Fail? ==> r.fault == SliceOutOfRange && ram[..] == old(ram[..])
    {
      if StartingAddressRom + |buffer| > ram.Length {
        return Fail(SliceOutOfRange);
      }
      forall k | 0 <= k < |buffer| {
        ram[StartingAddressRom + k] := buffer[k];
      }
      assert ram[..] == WithRom(old(ram[..]), buffer).value;
      r := Pass;
    }

    /** `load_fontset`: writes the glyphs one byte at a time from 0x50 on. */
    method LoadFontset() returns (r: Outcome)
      requires Valid()
      modifies ram
      ensures r == Pass
      ensures ram[..] == WithFont(old(ram[..]))
    {
      var i := 0;
      for d := 0 to |Keyboard|
        invariant i == GlyphHeight * d
        invariant forall a :: 0 <= a < RamSize ==>
          ram[a] == if StartingAddressFont <= a < StartingAddressFont + i
                    then Fontset()[a - StartingAddressFont] else old(ram[a])
      {
        for t := 0 to |Keyboard[d]|
          invariant i == GlyphHeight * d + t
          invariant forall a :: 0 <= a < RamSize ==>
            ram[a] == if StartingAddressFont <= a < StartingAddressFont + i
                      then Fontset()[a - StartingAddressFont] else old(ram[a])
        {
          FontsetAt(d, t);
          ram[StartingAddressFont + i] := Keyboard[d][t];
          i := i + 1;
        }
      }
      assert forall a :: 0 <= a < RamSize ==> ram[..][a] == WithFont(old(ram[..]))[a];
      r := Pass;
    }
  }
}
