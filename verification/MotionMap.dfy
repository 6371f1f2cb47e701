/** The motion map: a grid of cells, packed with PackBits and written in Base64. */
module MotionMap {
  import opened PackBits
  import Base64

  type byte = Base64.byte

  /** Signed and unsigned readings of the same eight bits. */
  function Unsigned(s: seq<int8>): (r: seq<byte>)
    ensures |r| == |s|
  {
    seq(|s|, i requires 0 <= i < |s| => if s[i] < 0 then s[i] as int + 256 else s[i] as int)
  }

  function Signed(s: seq<byte>): (r: seq<int8>)
    ensures |r| == |s|
  {
    seq(|s|, i requires 0 <= i < |s| => var b: int := s[i]; (if b >= 128 then b - 256 else b) as int8)
  }

  /** They are the same modulo 256, each within its range. */
  lemma SameBits(s: seq<int8>, b: seq<byte>, i: nat)
    ensures i < |s| ==> (Unsigned(s)[i] as int - s[i] as int) % 256 == 0
    ensures i < |b| ==> (Signed(b)[i] as int - b[i] as int) % 256 == 0
  {
  }

  lemma SignedOfUnsigned(s: seq<int8>)
    ensures Signed(Unsigned(s)) == s
  {
  }

  /** The map fits, or the packed grid is larger than the memory reserved for it. */
  datatype PackResult = Map(text: string) | TooBig

  /** Packs a grid into memory of one byte more than the grid has. */
  method Pack(grid: seq<int8>) returns (r: PackResult)
    requires grid != []
    ensures r == if |PackBits.Pack(grid)| <= |grid| + 1
                 then Map(Base64.Encode(Unsigned(PackBits.Pack(grid)), false)) else TooBig
    ensures |grid| <= 128 ==> r.Map?
  {
    var reserved := |grid| + 1;
    var packed, size := PackBits.PackBits(grid);
    ghost var blocks := PackIsCompressed(grid);
    if size > reserved {
      return TooBig;
    }
    var text := Base64.EncodeBytes(Unsigned(packed), false);
    r := Map(text);
  }

  /** What was unpacked, and zeros up to one cell past the grid. */
  function ZeroFilled(out: seq<int8>, cells: nat): seq<int8>
    requires |out| <= cells
  {
    out + Repeat(cells + 1 - |out|, 0)
  }

  lemma FilledIs(written: seq<int8>, out: seq<int8>, cells: nat)
    requires |written| == cells + 1 && |out| <= cells && written[..|out|] == out
    requires forall i :: |out| <= i <= cells ==> written[i] == 0
    ensures written == ZeroFilled(out, cells)
  {
    assert forall i :: 0 <= i < |out| ==> written[i] == written[..|out|][i];
  }

  /** The memory unpacked into: zeros but for what is unpacked. */
  method UnpackGrid(packed: seq<int8>, cells: nat) returns (written: seq<int8>)
    ensures var out := Unpack(packed, cells, []).out;
            |out| <= cells && written == ZeroFilled(out, cells)
  {
    var grid := new int8[cells + 1](i => 0);
    ghost var zeros := grid[..];
    var outcome := UnpackBits(packed, grid, cells);
    grid[cells] := 0;
    written := grid[..];
    ghost var out := Unpack(packed, cells, []).out;
    assert written[..|out|] == out;
    forall i | |out| <= i < cells
      ensures written[i] == 0
    {
      assert zeros[|out|..][i - |out|] == zeros[i];
    }
    FilledIs(written, out, cells);
  }

  /** Unpacks a map text; a text that is no Base64 throws, and what cannot be
      unpacked stays zero. */
  method UnpackMap(text: string, cells: nat) returns (r: Base64.Result<seq<int8>>)
    ensures Base64.Decode(text).Thrown? ==> r.Thrown?
    ensures Base64.Decode(text).Ok? ==>
              var out := Unpack(Signed(Base64.Decode(text).value), cells, []).out;
              |out| <= cells && r == Base64.Ok(ZeroFilled(out, cells))
  {
    var decoded := Base64.DecodeString(text);
    if decoded.Thrown? {
      return Base64.Thrown;
    }
    var grid := UnpackGrid(Signed(decoded.value), cells);
    r := Base64.Ok(grid);
  }

  /** What a map text stands for is the grid it was made from. */
  lemma MapRoundTrip(grid: seq<int8>)
    requires grid != []
    ensures var text := Base64.Encode(Unsigned(PackBits.Pack(grid)), false);
            && Base64.Decode(text).Ok?
            && Unpack(Signed(Base64.Decode(text).value), |grid|, []) == Done([], grid)
  {
    var packed := PackBits.Pack(grid);
    Base64.RoundTrip(Unsigned(packed), false);
    SignedOfUnsigned(packed);
    RoundTrip(grid, []);
    assert packed + [] == packed;
  }

  /** One spare byte is enough for every grid of a given size exactly up to 128
      cells. */
  lemma ReservedMemorySufficesIff(cells: nat)
    requires cells > 0
    ensures (forall grid: seq<int8> :: |grid| == cells ==> |PackBits.Pack(grid)| <= cells + 1) <==> cells <= 128
  {
    if cells <= 128 {
      forall grid: seq<int8> | |grid| == cells
        ensures |PackBits.Pack(grid)| <= cells + 1
      {
        var blocks := PackIsCompressed(grid);
      }
    } else {
      var grid: seq<int8> := seq(cells, i => (i % 2) as int8);
      assert NoRepeats(grid);
      BoundIsReached(grid);
      assert |PackBits.Pack(grid)| > cells + 1;
    }
  }

  /** Unpacking a packed grid with its own size gives the grid and one zero. */
  method PackThenUnpack(grid: seq<int8>) returns (fits: bool, r: Base64.Result<seq<int8>>)
    requires grid != []
    ensures |grid| <= 128 ==> fits
    ensures fits <==> |PackBits.Pack(grid)| <= |grid| + 1
    ensures fits ==> r == Base64.Ok(grid + [0])
  {
    var m := Pack(grid);
    fits, r := m.Map?, Base64.Thrown;
    if fits {
      r := UnpackMap(m.text, |grid|);
      MapRoundTrip(grid);
      assert ZeroFilled(grid, |grid|) == grid + [0];
    }
  }
}
