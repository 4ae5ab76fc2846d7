/**
 * `RGBImageData`: the map image's pixels, which the canvas hands over as
 * one flat run of red, green, blue and alpha bytes, unpacked into one
 * column-major table per colour channel.
 */
module Images {
  import opened Wrappers
  import opened Tables
  import Strings

  /** A value of the canvas's pixel array, which holds clamped bytes. */
  type Byte = b: nat | b < 256

  /** A pixel position: x across, y down. */
  datatype Position = Position(x: nat, y: nat)

  /** The three channels of one pixel as read back from the tables; `undefined` is None. */
  datatype RGBColor = RGBColor(red: Option<Byte>, green: Option<Byte>, blue: Option<Byte>)

  /** The cell of a column-major table at a position, `undefined` outside it. */
  function CellAt<V>(data: seq<seq<Option<V>>>, p: Position): Option<V> {
    if p.x < |data| then At(data[p.x], p.y) else None
  }

  /**
   * `getPositionFromPixelIndex(i, width)`: pixels are stored row by row, so
   * pixel i sits in column `i % width` of row `i / width`. The source reads
   * the row as `parseInt(i / width)`; `RowReadsQuotient` says exactly when
   * the two agree.
   */
  function PositionFromPixelIndex(i: nat, width: nat): (p: Position)
    requires width > 0
    ensures p.x < width
    ensures p.y * width + p.x == i
  {
    Position(i % width, i / width)
  }

  /**
   * The row `i / width` is what `parseInt(i / width)` reads exactly when the
   * quotient is written in full: when it is 0, or at least 10^-6 and below
   * 10^21. Otherwise `parseInt` reads the leading digit of its exponent form.
   */
  lemma RowReadsQuotient(i: nat, width: nat)
    requires width > 0
    ensures PositionFromPixelIndex(i, width).y == Strings.ParseIntOfNumber(i as real / width as real)
      <==> (i == 0 || width <= 1000000 * i) && i < 1000000000000000000000 * width
  {
    var q := i as real / width as real;
    if i == 0 {
      assert q == 0.0;
    } else if width > 1000000 * i {
      SmallQuotient(i, width);
    } else if i >= 1000000000000000000000 * width {
      LargeQuotient(i, width);
    } else {
      FullQuotient(i, width);
    }
  }

  /** Below 10^-6 the quotient is read in exponent form, as a digit from 1 to 9, while the row is 0. */
  lemma SmallQuotient(i: nat, width: nat)
    requires 0 < i && 1000000 * i < width
    ensures 1 <= Strings.ParseIntOfNumber(i as real / width as real) && i / width == 0
  {
    var q := i as real / width as real;
    assert (1000000 * i) as real == 1000000.0 * i as real;
    CompareQuotient(i as real, width as real, 1.0 / 1000000.0);
    CompareQuotient(i as real, width as real, 0.0);
    assert 0.0 < q < 1.0 / 1000000.0;
    assert Strings.ExponentForm(q);
  }

  /** From 10^21 up the quotient is read in exponent form, as a digit from 1 to 9, while the row is at least 10^21. */
  lemma LargeQuotient(i: nat, width: nat)
    requires width > 0 && 1000000000000000000000 * width <= i
    ensures Strings.ParseIntOfNumber(i as real / width as real) <= 9 && i / width >= 1000000000000000000000
  {
    var q := i as real / width as real;
    assert (1000000000000000000000 * width) as real == 1000000000000000000000.0 * width as real;
    CompareQuotient(i as real, width as real, 1000000000000000000000.0);
    assert Strings.ExponentForm(q);
  }

  /** Written in full, the quotient is truncated to the row. */
  lemma FullQuotient(i: nat, width: nat)
    requires 0 < i && width <= 1000000 * i && i < 1000000000000000000000 * width
    ensures Strings.ParseIntOfNumber(i as real / width as real) == i / width
  {
    var q := i as real / width as real;
    assert (1000000 * i) as real == 1000000.0 * i as real;
    assert (1000000000000000000000 * width) as real == 1000000000000000000000.0 * width as real;
    CompareQuotient(i as real, width as real, 1.0 / 1000000.0);
    CompareQuotient(i as real, width as real, 1000000000000000000000.0);
    assert !Strings.ExponentForm(q);
    QuotientBetweenRows(i, width);
  }

  /** The row lies within one of the exact quotient. */
  lemma QuotientBetweenRows(i: nat, width: nat)
    requires width > 0
    ensures var d := i / width; d as real <= i as real / width as real < d as real + 1.0
  {
    var d := i / width;
    var w := width as real;
    assert d * width <= i < d * width + width;
    assert (d * width) as real == d as real * w;
    CompareQuotient(i as real, w, d as real);
    CompareQuotient(i as real, w, d as real + 1.0);
    assert (d as real + 1.0) * w == d as real * w + w;
  }

  /** Comparing x / w with a is comparing x with a * w, for a positive w. */
  lemma CompareQuotient(x: real, w: real, a: real)
    requires w > 0.0
    ensures a <= x / w <==> a * w <= x
  {
    assert x / w * w == x;
    if a <= x / w {
      assert a * w <= x / w * w;
    } else {
      assert x / w * w < a * w;
    }
  }

  /** A product bound: a position inside a width-by-height image has an index below width times height. */
  lemma IndexBelowArea(x: nat, y: nat, width: nat, height: nat)
    requires x < width && y < height
    ensures y * width + x < width * height
  {
    assert y * width + x < (y + 1) * width;
    assert (y + 1) * width <= height * width;
  }

  /** Row y, column x of a row-by-row image is pixel y * width + x, and that pixel's position is (x, y). */
  lemma PixelIndexRoundTrip(x: nat, y: nat, width: nat)
    requires x < width
    ensures PositionFromPixelIndex(y * width + x, width) == Position(x, y)
  {
    var i := y * width + x;
    var p := PositionFromPixelIndex(i, width);
    if p.y < y {
      RowsApart(p.y, y, width);
    } else if y < p.y {
      RowsApart(y, p.y, width);
    }
  }

  /** A later row starts at least a whole row further on. */
  lemma RowsApart(a: nat, b: nat, width: nat)
    requires a < b
    ensures a * width + width <= b * width
  {
    var d: nat := b - a - 1;
    assert b * width == a * width + width + d * width;
  }

  /** Two pixels of a row-by-row image never share a position. */
  lemma PositionsDistinct(i: nat, j: nat, width: nat)
    requires width > 0 && i != j
    ensures PositionFromPixelIndex(i, width) != PositionFromPixelIndex(j, width)
  {
  }

  /** Every pixel of a width-by-height image lies in one of its rows. */
  lemma RowInsideImage(p: nat, width: nat, height: nat)
    requires width > 0 && p < width * height
    ensures PositionFromPixelIndex(p, width).y < height
  {
  }

  /** The channels of the pixel at column x of row y, which is pixel `y * width + x`. */
  function PixelAt(pixelData: seq<Byte>, width: nat, height: nat, x: nat, y: nat): RGBColor
    requires |pixelData| == 4 * (width * height) && x < width && y < height
  {
    IndexBelowArea(x, y, width, height);
    var p := y * width + x;
    RGBColor(Some(pixelData[4 * p]), Some(pixelData[4 * p + 1]), Some(pixelData[4 * p + 2]))
  }

  /** Where a channel sits among a pixel's four bytes; a name that is not a channel falls back to red. */
  function ChannelOffset(channel: string): (offset: nat)
    ensures offset < 4
    ensures channel == "green" ==> offset == 1
    ensures channel == "blue" ==> offset == 2
    ensures channel == "alpha" ==> offset == 3
    ensures channel != "green" && channel != "blue" && channel != "alpha" ==> offset == 0
  {
    match channel
    case "red" => 0
    case "green" => 1
    case "blue" => 2
    case "alpha" => 3
    case _ => 0
  }

  /**
   * `parseChannelData(pixelData, channel)` for an image of the given size:
   * a fresh table of width columns and height rows in which the cell at
   * pixel p's position holds byte `4 * p + offset` of the pixel data.
   */
  method ParseChannelData(pixelData: seq<Byte>, width: nat, height: nat, channel: string) returns (t: Table<Byte>)
    requires |pixelData| == 4 * (width * height)
    ensures fresh(t)
    ensures t.width == width && t.height == height && |t.data| == width
    ensures forall x :: 0 <= x < width ==> |t.data[x]| == height
    ensures width > 0 ==> forall p :: 0 <= p < width * height ==>
      CellAt(t.data, PositionFromPixelIndex(p, width)) == Some(pixelData[4 * p + ChannelOffset(channel)])
  {
    var channelOffset := ChannelOffset(channel);
    ghost var area := width * height;
    t := new Table(width, height);
    var pixelIndex := 0;
    var i := 0;
    while i < |pixelData|
      invariant i == 4 * pixelIndex && i <= |pixelData|
      invariant t.width == width && t.height == height && |t.data| == width
      invariant forall x :: 0 <= x < width ==> |t.data[x]| == height
      invariant width > 0 ==> forall q :: 0 <= q < pixelIndex ==>
        CellAt(t.data, PositionFromPixelIndex(q, width)) == Some(pixelData[4 * q + channelOffset])
    {
      assert pixelIndex < area;
      assert width > 0;
      var position := PositionFromPixelIndex(pixelIndex, width);
      RowInsideImage(pixelIndex, width, height);
      t.Set(position.x, position.y, Some(pixelData[i + channelOffset]));
      forall q | 0 <= q < pixelIndex
        ensures CellAt(t.data, PositionFromPixelIndex(q, width)) == Some(pixelData[4 * q + channelOffset])
      {
        PositionsDistinct(q, pixelIndex, width);
      }
      pixelIndex := pixelIndex + 1;
      i := i + 4;
    }
  }

  class RGBImageData {
    const width: nat
    const height: nat
    const pixelData: seq<Byte>
    const red: Table<Byte>
    const green: Table<Byte>
    const blue: Table<Byte>

    /** Each channel table holds, at every pixel's position, that pixel's byte of the channel. */
    ghost predicate Valid()
      reads this, red, green, blue
    {
      && |pixelData| == 4 * (width * height)
      && |red.data| == width && |green.data| == width && |blue.data| == width
      && (forall x :: 0 <= x < width ==> |red.data[x]| == height && |green.data[x]| == height && |blue.data[x]| == height)
      && (width > 0 ==> forall p :: 0 <= p < width * height ==>
            && CellAt(red.data, PositionFromPixelIndex(p, width)) == Some(pixelData[4 * p])
            && CellAt(green.data, PositionFromPixelIndex(p, width)) == Some(pixelData[4 * p + 1])
            && CellAt(blue.data, PositionFromPixelIndex(p, width)) == Some(pixelData[4 * p + 2]))
    }

    /** `new RGBImageData(img, g)`, given the image's size and the bytes the canvas returned for it. */
    constructor (pixelData: seq<Byte>, width: nat, height: nat)
      requires |pixelData| == 4 * (width * height)
      ensures this.pixelData == pixelData && this.width == width && this.height == height
      ensures Valid()
      ensures fresh(red) && fresh(green) && fresh(blue)
    {
      this.pixelData := pixelData;
      this.width := width;
      this.height := height;
      var r := ParseChannelData(pixelData, width, height, "red");
      var g := ParseChannelData(pixelData, width, height, "green");
      var b := ParseChannelData(pixelData, width, height, "blue");
      red, green, blue := r, g, b;
    }

    /**
     * `getPixelData(x, y)`: the three channels at (x, y). Inside the image
     * they are the bytes of pixel `y * width + x`; a row past the image
     * reads as three `undefined` channels, and a column past it is the fault
     * of reading a missing column.
     */
    method GetPixelData(x: nat, y: nat) returns (c: Result<RGBColor, Fault>)
      requires Valid()
      ensures c.Success? <==> x < width
      ensures x < width && y < height ==> c == Success(PixelAt(pixelData, width, height, x, y))
      ensures x < width && y >= height ==> c == Success(RGBColor(None, None, None))
    {
      var r := red.Get(x, y);
      var g := green.Get(x, y);
      var b := blue.Get(x, y);
      if r.Failure? || g.Failure? || b.Failure? {
        c := Failure(TypeError);
      } else {
        c := Success(RGBColor(r.value, g.value, b.value));
      }
      if x < width && y < height {
        var p := y * width + x;
        IndexBelowArea(x, y, width, height);
        PixelIndexRoundTrip(x, y, width);
        assert CellAt(red.data, PositionFromPixelIndex(p, width)) == Some(pixelData[4 * p]);
      }
    }
  }
}
