/** The console's view of a frame: 32 rows of 128 half-block characters, one cell to two pixels. */
module FaceArt {
  import opened Bits
  import opened Raster

  const FULL := '\U{2588}'
  const UPPER := '\U{2580}'
  const LOWER := '\U{2584}'

  /** A byte off the end of a short buffer reads as dark. */
  predicate Px(buf: seq<bv8>, x: nat, y: nat)
    requires x < WIDTH
  {
    var i := (y / 8) * WIDTH + x;
    i < |buf| && Bit(buf[i], y % 8)
  }

  function HalfBlock(top: bool, bottom: bool): char {
    if top && bottom then FULL else if top then UPPER else if bottom then LOWER else ' '
  }

  predicate IsArt(art: seq<string>, buf: seq<bv8>) {
    && |art| == 32
    && forall row: nat :: row < 32 ==>
      && |art[row]| == WIDTH
      && forall x: nat :: x < WIDTH ==> art[row][x] == HalfBlock(Px(buf, x, 2 * row), Px(buf, x, 2 * row + 1))
  }

  method Art(buf: seq<bv8>) returns (art: seq<string>)
    ensures IsArt(art, buf)
  {
    art := [];
    for row := 0 to 32
      invariant |art| == row
      invariant forall q: nat :: q < row ==>
        && |art[q]| == WIDTH
        && forall x: nat :: x < WIDTH ==> art[q][x] == HalfBlock(Px(buf, x, 2 * q), Px(buf, x, 2 * q + 1))
    {
      var y := row * 2;
      var line := "";
      for x := 0 to WIDTH
        invariant |line| == x
        invariant forall j: nat :: j < x ==> line[j] == HalfBlock(Px(buf, j, y), Px(buf, j, y + 1))
      {
        line := line + [HalfBlock(Px(buf, x, y), Px(buf, x, y + 1))];
      }
      art := art + [line];
    }
  }

  /** Reading a pixel back off the page. */
  predicate Shown(art: seq<string>, x: nat, y: nat)
    requires |art| == 32 && x < WIDTH && y < HEIGHT && |art[y / 2]| == WIDTH
  {
    var c := art[y / 2][x];
    c == FULL || c == if y % 2 == 0 then UPPER else LOWER
  }

  predicate Page(art: seq<string>) { |art| == 32 && forall row: nat :: row < 32 ==> |art[row]| == WIDTH }

  /** The buffer, from the page alone. */
  function Rebuild(art: seq<string>): seq<bv8>
    requires Page(art)
  {
    seq(BYTES, i requires 0 <= i < BYTES =>
      ByteOf(seq(8, k requires 0 <= k < 8 => Shown(art, i % WIDTH, (i / WIDTH) * 8 + k))))
  }

  /** Nothing is lost on the way to the screen: the page rebuilds the frame (a short buffer as if
      padded with dark bytes, a long one without its tail). */
  lemma ArtLosesNothing(art: seq<string>, buf: seq<bv8>)
    requires IsArt(art, buf)
    ensures Rebuild(art) == (buf + seq(BYTES, _ => 0))[..BYTES]
  {
    var back, want := Rebuild(art), (buf + seq(BYTES, _ => 0))[..BYTES];
    forall i: nat | i < BYTES ensures back[i] == want[i] {
      forall k: nat | k < 8 ensures Bit(back[i], k) == Bit(want[i], k) {
        PixelSurvives(art, buf, i, k);
      }
      BitsDecide(back[i], want[i]);
    }
  }

  lemma PixelSurvives(art: seq<string>, buf: seq<bv8>, i: nat, k: nat)
    requires IsArt(art, buf) && i < BYTES && k < 8
    ensures Bit(Rebuild(art)[i], k) == Bit((buf + seq(BYTES, _ => 0))[i], k)
  {
    RebuiltBit(art, i, k);
    ShownIsPx(art, buf, i % WIDTH, (i / WIDTH) * 8 + k);
    PxOfByte(buf, i, k);
    PaddedBit(buf, i, k);
  }

  lemma PxOfByte(buf: seq<bv8>, i: nat, k: nat)
    requires i < BYTES && k < 8
    ensures Px(buf, i % WIDTH, (i / WIDTH) * 8 + k) == (i < |buf| && Bit(buf[i], k))
  {
    var x, y := i % WIDTH, (i / WIDTH) * 8 + k;
    assert (y / 8) * WIDTH + x == i && y % 8 == k;
  }

  lemma PaddedBit(buf: seq<bv8>, i: nat, k: nat)
    requires i < BYTES && k < 8
    ensures Bit((buf + seq(BYTES, _ => 0))[i], k) == (i < |buf| && Bit(buf[i], k))
  {
    ZeroHasNoBits(k);
  }

  lemma RebuiltBit(art: seq<string>, i: nat, k: nat)
    requires Page(art) && i < BYTES && k < 8
    ensures Bit(Rebuild(art)[i], k) == Shown(art, i % WIDTH, (i / WIDTH) * 8 + k)
  {
    ByteOfBits(seq(8, j requires 0 <= j < 8 => Shown(art, i % WIDTH, (i / WIDTH) * 8 + j)), k);
  }

  lemma ShownIsPx(art: seq<string>, buf: seq<bv8>, x: nat, y: nat)
    requires IsArt(art, buf) && x < WIDTH && y < HEIGHT
    ensures Shown(art, x, y) == Px(buf, x, y)
  {
    assert art[y / 2][x] == HalfBlock(Px(buf, x, 2 * (y / 2)), Px(buf, x, 2 * (y / 2) + 1));
    assert y == 2 * (y / 2) + y % 2;
  }

  /** And what the console shows is what the frame lit. */
  lemma ArtShowsTheImage(art: seq<string>, buf: seq<bv8>, x: nat, y: nat)
    requires |buf| == BYTES && IsArt(art, buf) && x < WIDTH && y < HEIGHT
    ensures Shown(art, x, y) <==> (x, y) in ImageOf(buf)
  {
    ShownIsPx(art, buf, x, y);
    assert Index(x, y) == (y / 8) * WIDTH + x;
  }

  lemma ShownIsHalfBlock(art: seq<string>, buf: seq<bv8>, x: nat, row: nat)
    requires IsArt(art, buf) && x < 128 && row < 32
    ensures art[row][x] == HalfBlock(Shown(art, x, 2 * row), Shown(art, x, 2 * row + 1))
  {
    ShownIsPx(art, buf, x, 2 * row);
    ShownIsPx(art, buf, x, 2 * row + 1);
  }

  /** The character of each cell, from the frame's lit points. */
  lemma ArtCells(art: seq<string>, buf: seq<bv8>, x: nat, row: nat)
    requires |buf| == BYTES && IsArt(art, buf) && x < 128 && row < 32
    ensures art[row][x] ==
            match ((x, 2 * row) in ImageOf(buf), (x, 2 * row + 1) in ImageOf(buf))
            case (true, true) => '\U{2588}'
            case (true, false) => '\U{2580}'
            case (false, true) => '\U{2584}'
            case (false, false) => ' '
  {
    ArtShowsTheImage(art, buf, x, 2 * row);
    ArtShowsTheImage(art, buf, x, 2 * row + 1);
    ShownIsHalfBlock(art, buf, x, row);
  }
}
