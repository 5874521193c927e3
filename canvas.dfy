/** The canvas (src/canvas.rs): a grid of colours, all black at first, and its rendering as a
    plain PPM ("P3") image whose lines the formatter keeps within 69 characters. */
module Canvases {
  import opened Numerics
  import opened Tuples
  import opened PpmFormatting

  /** Rust's `u8`. */
  newtype u8 = n: int | 0 <= n < 256

  /** The line length and the separator `to_ppm` hands to the formatter. */
  const MaxLineLength: nat := 69
  const Separator: string := " "

  /** `f32_to_u8`: the component times 255, rounded to the nearest integer (halves away from
      zero), then cast with Rust's saturating `as u8`. */
  function F32ToU8(value: real): (b: u8)
    ensures 0.0 <= value * 255.0 <= 255.0 ==> -0.5 <= b as real - value * 255.0 <= 0.5
    ensures value <= 0.0 ==> b == 0
    ensures value >= 1.0 ==> b == 255
  {
    var r := Round(value * 255.0);
    if r < 0 then 0 else if r > 255 then 255 else r as u8
  }

  function Digit(d: nat): (c: char)
    requires d < 10
    ensures '0' <= c <= '9'
  {
    (48 + d) as char
  }

  /** `format!("{}", n)` for an unsigned integer: its decimal digits, without leading zeros. */
  function NatToString(n: nat): (s: string)
    ensures |s| >= 1
    ensures forall i :: 0 <= i < |s| ==> '0' <= s[i] <= '9'
  {
    if n < 10 then [Digit(n)] else NatToString(n / 10) + [Digit(n % 10)]
  }

  /** The number a string of decimal digits denotes. */
  function DecimalValue(s: string): nat
    requires forall i :: 0 <= i < |s| ==> '0' <= s[i] <= '9'
  {
    if s == [] then 0 else DecimalValue(s[..|s| - 1]) * 10 + (s[|s| - 1] as int - 48)
  }

  /** The three channel tokens of a pixel. */
  function PixelTokens(c: Tuple): seq<string>
  {
    [NatToString(F32ToU8(Red(c)) as nat), NatToString(F32ToU8(Green(c)) as nat), NatToString(F32ToU8(Blue(c)) as nat)]
  }

  /** The tokens of a row of pixels, in order. */
  function RowTokens(row: seq<Tuple>): seq<string>
  {
    if row == [] then [] else RowTokens(row[..|row| - 1]) + PixelTokens(row[|row| - 1])
  }

  /** The lines of the rows, each row written from a fresh line and ended with `new_line`. */
  function RowsLines(rows: seq<seq<Tuple>>): seq<string>
  {
    if rows == [] then []
    else RowsLines(rows[..|rows| - 1]) + BlockLines(RowTokens(rows[|rows| - 1]), MaxLineLength, Separator)
  }

  /** The dimensions line: width and height separated by a space. */
  function Dimensions(width: nat, height: nat): string
  {
    NatToString(width) + " " + NatToString(height)
  }

  /** The header: the magic number, the dimensions and the maximum colour value, each written
      and ended with `new_line`. */
  function HeaderLines(width: nat, height: nat): seq<string>
  {
    BlockLines(["P3"], MaxLineLength, Separator)
    + BlockLines([Dimensions(width, height)], MaxLineLength, Separator)
    + BlockLines(["255"], MaxLineLength, Separator)
  }

  /** The lines of the image file `to_ppm` produces. */
  function PpmLines(width: nat, height: nat, pixels: seq<seq<Tuple>>): seq<string>
  {
    HeaderLines(width, height) + RowsLines(pixels)
  }

  class Canvas {
    const width: nat
    const height: nat
    var pixels: seq<seq<Tuple>>

    /** `height` rows of `width` pixels each. */
    ghost predicate Valid()
      reads this
    {
      |pixels| == height && forall y :: 0 <= y < height ==> |pixels[y]| == width
    }

    /** `Canvas::new`: every pixel black. */
    constructor (width: nat, height: nat)
      ensures this.width == width && this.height == height && Valid()
      ensures forall y, x :: 0 <= y < height && 0 <= x < width ==> PixelAt(x, y) == Black
    {
      var rows: seq<seq<Tuple>> := [];
      for y := 0 to height
        invariant |rows| == y
        invariant forall j :: 0 <= j < y ==> |rows[j]| == width
        invariant forall j, i :: 0 <= j < y && 0 <= i < width ==> rows[j][i] == Black
      {
        var row: seq<Tuple> := [];
        for x := 0 to width
          invariant |row| == x
          invariant forall i :: 0 <= i < x ==> row[i] == Black
        {
          row := row + [Black];
        }
        rows := rows + [row];
      }
      this.width := width;
      this.height := height;
      pixels := rows;
    }

    /** `pixel_at`: the colour in column x of row y (indexing out of range panics in the
        source). */
    function PixelAt(x: nat, y: nat): Tuple
      reads this
      requires Valid() && x < width && y < height
    {
      pixels[y][x]
    }

    /** `write_pixel`: pixel (x, y) takes the colour and every other pixel keeps its own. */
    method WritePixel(x: nat, y: nat, color: Tuple)
      requires Valid() && x < width && y < height
      modifies this
      ensures Valid()
      ensures PixelAt(x, y) == color
      ensures forall j, i :: 0 <= j < height && 0 <= i < width && (i != x || j != y) ==>
                PixelAt(i, j) == old(PixelAt(i, j))
    {
      pixels := pixels[y := pixels[y][x := color]];
    }

    /** `to_ppm`: the header, then each row's channel values starting on a line of its own. */
    method ToPpm() returns (ppm: string)
      ensures ppm == Render(PpmLines(width, height, pixels))
    {
      var formatter := new PpmFormatter(MaxLineLength, Separator);
      var dimensions := Dimensions(width, height);
      ShortHeaderTokens();
      formatter.Write("P3");
      formatter.NewLine();
      OneTokenBlock([], "P3");
      assert formatter.lines == ["P3"];
      formatter.Write(dimensions);
      formatter.NewLine();
      OneTokenBlock(["P3"], dimensions);
      formatter.Write("255");
      formatter.NewLine();
      OneTokenBlock(["P3"] + BlockLines([dimensions], MaxLineLength, Separator), "255");
      ghost var header := HeaderLines(width, height);
      assert formatter.lines == header;
      WriteRows(formatter, pixels);
      assert formatter.lines == PpmLines(width, height, pixels);
      ppm := formatter.ToString();
      assert formatter.lines == PpmLines(width, height, pixels);
    }
  }

  /** `to_ppm`'s loop over the rows. */
  method WriteRows(formatter: PpmFormatter, rows: seq<seq<Tuple>>)
    requires formatter.maxLength == MaxLineLength && formatter.separator == Separator
    requires formatter.Valid() && formatter.line == ""
    modifies formatter
    ensures formatter.Valid() && formatter.line == ""
    ensures formatter.lines == old(formatter.lines) + RowsLines(rows)
  {
    ghost var start := formatter.lines;
    for y := 0 to |rows|
      invariant formatter.Valid() && formatter.line == ""
      invariant formatter.lines == start + RowsLines(rows[..y])
    {
      ghost var block := BlockLines(RowTokens(rows[y]), MaxLineLength, Separator);
      WriteRow(formatter, rows[y]);
      RowsLinesSnoc(rows, y);
      AppendAssociative(start, RowsLines(rows[..y]), block);
    }
    assert rows[..|rows|] == rows;
  }

  /** Each row's block of lines follows the lines of the rows before it: every row starts on a
      line of its own. */
  lemma RowsLinesSnoc(rows: seq<seq<Tuple>>, y: nat)
    requires y < |rows|
    ensures RowsLines(rows[..y + 1]) == RowsLines(rows[..y]) + BlockLines(RowTokens(rows[y]), MaxLineLength, Separator)
  {
    assert rows[..y + 1][..y] == rows[..y];
  }

  /** Concatenation regrouped: stated once so that the loop of WriteRows need not prove it
      among its other facts. */
  lemma AppendAssociative<T>(a: seq<T>, b: seq<T>, c: seq<T>)
    ensures a + (b + c) == a + b + c
  {
  }

  /** The body of `to_ppm`'s loop over the rows: the three channels of every pixel, then
      `new_line`. */
  method WriteRow(formatter: PpmFormatter, row: seq<Tuple>)
    requires formatter.maxLength == MaxLineLength && formatter.separator == Separator
    requires formatter.Valid() && formatter.line == ""
    modifies formatter
    ensures formatter.Valid() && formatter.line == ""
    ensures formatter.lines == old(formatter.lines) + BlockLines(RowTokens(row), MaxLineLength, Separator)
  {
    ghost var start := formatter.lines;
    for x := 0 to |row|
      invariant formatter.Valid()
      invariant Layout(formatter.lines, formatter.line) ==
                WriteAll(Layout(start, ""), RowTokens(row[..x]), MaxLineLength, Separator)
    {
      var pixel := PixelTokens(row[x]);
      formatter.Write(pixel[0]);
      formatter.Write(pixel[1]);
      formatter.Write(pixel[2]);
      NextPixel(start, row, x);
    }
    assert row[..|row|] == row;
    WriteAllFromLines(start, "", RowTokens(row), MaxLineLength, Separator);
    formatter.NewLine();
  }

  /** The two fixed header tokens fit on a line of their own. */
  lemma ShortHeaderTokens()
    ensures BlockLines(["P3"], MaxLineLength, Separator) == ["P3"]
    ensures BlockLines(["255"], MaxLineLength, Separator) == ["255"]
  {
    SingleTokenBlock("P3", MaxLineLength, Separator);
    SingleTokenBlock("255", MaxLineLength, Separator);
  }

  /** A single token written after some lines, then `new_line`, adds the block of that token. */
  lemma OneTokenBlock(lines: seq<string>, t: string)
    ensures var layout := Step(Layout(lines, ""), t, MaxLineLength, Separator);
      layout.lines + [layout.line] == lines + BlockLines([t], MaxLineLength, Separator)
  {
    WriteAllSnoc(Layout([], ""), [], t, MaxLineLength, Separator);
    assert [] + [t] == [t];
    StepFromLines(lines, "", t, MaxLineLength, Separator);
  }

  /** The layout after the pixels before x and the three channels of pixel x is the layout
      after the pixels up to x. */
  lemma NextPixel(start: seq<string>, row: seq<Tuple>, x: nat)
    requires x < |row|
    ensures var pixel := PixelTokens(row[x]);
      var layout := WriteAll(Layout(start, ""), RowTokens(row[..x]), MaxLineLength, Separator);
      WriteAll(Layout(start, ""), RowTokens(row[..x + 1]), MaxLineLength, Separator) ==
      Step(Step(Step(layout, pixel[0], MaxLineLength, Separator), pixel[1], MaxLineLength, Separator),
           pixel[2], MaxLineLength, Separator)
  {
    var tokens := RowTokens(row[..x]);
    var pixel := PixelTokens(row[x]);
    assert row[..x + 1][..x] == row[..x];
    assert RowTokens(row[..x + 1]) == tokens + pixel;
    WriteAllSnoc(Layout(start, ""), tokens, pixel[0], MaxLineLength, Separator);
    WriteAllSnoc(Layout(start, ""), tokens + [pixel[0]], pixel[1], MaxLineLength, Separator);
    WriteAllSnoc(Layout(start, ""), tokens + [pixel[0]] + [pixel[1]], pixel[2], MaxLineLength, Separator);
    assert tokens + pixel == tokens + [pixel[0]] + [pixel[1]] + [pixel[2]];
  }

  // ---------------------------------------------------------------------------------------------
  // Properties

  /** The unit test's conversions: 1.5 saturates to 255, 0.5 rounds up to 128 and -0.5 to 0. */
  lemma F32ToU8Examples()
    ensures F32ToU8(1.5) == 255 && F32ToU8(0.5) == 128 && F32ToU8(-0.5) == 0
  {
  }

  /** Reading back the decimal digits gives the number: the formatting loses nothing. */
  lemma {:induction false} DecimalRoundTrip(n: nat)
    ensures DecimalValue(NatToString(n)) == n
  {
    if n >= 10 {
      var s := NatToString(n / 10);
      DecimalRoundTrip(n / 10);
      assert (s + [Digit(n % 10)])[..|s|] == s;
    }
  }

  /** Only zero is written with a leading zero. */
  lemma {:induction false} NoLeadingZero(n: nat)
    ensures NatToString(n)[0] == '0' <==> n == 0
  {
    if n >= 10 {
      NoLeadingZero(n / 10);
    }
  }

  /** A channel value takes at most three digits. */
  lemma ChannelTokenShort(b: u8)
    ensures |NatToString(b as nat)| <= 3
  {
    var n := b as nat;
    if n >= 10 {
      assert |NatToString(n / 10)| <= 2 by {
        if n / 10 >= 10 {
          assert |NatToString(n / 10 / 10)| == 1;
        }
      }
    }
  }

  /** A row has three tokens per pixel, none longer than three characters. */
  lemma {:induction false} RowTokensShort(row: seq<Tuple>)
    ensures |RowTokens(row)| == 3 * |row|
    ensures forall k :: 0 <= k < |RowTokens(row)| ==> |RowTokens(row)[k]| <= 3
  {
    if row != [] {
      var c := row[|row| - 1];
      RowTokensShort(row[..|row| - 1]);
      ChannelTokenShort(F32ToU8(Red(c)));
      ChannelTokenShort(F32ToU8(Green(c)));
      ChannelTokenShort(F32ToU8(Blue(c)));
    }
  }

  lemma {:induction false} RowsLinesBounded(rows: seq<seq<Tuple>>)
    ensures forall i :: 0 <= i < |RowsLines(rows)| ==> |RowsLines(rows)[i]| <= MaxLineLength
  {
    if rows != [] {
      var n := |rows| - 1;
      RowsLinesBounded(rows[..n]);
      RowTokensShort(rows[n]);
      BlockBounded(RowTokens(rows[n]), MaxLineLength, Separator);
    }
  }

  /** No line of the image is longer than 69 characters, as long as the dimensions line itself
      is not (a width and a height of about 33 digits each). */
  lemma PpmLinesBounded(width: nat, height: nat, pixels: seq<seq<Tuple>>)
    requires |Dimensions(width, height)| <= MaxLineLength
    ensures forall i :: 0 <= i < |PpmLines(width, height, pixels)| ==> |PpmLines(width, height, pixels)[i]| <= MaxLineLength
  {
    ShortHeaderTokens();
    BlockBounded([Dimensions(width, height)], MaxLineLength, Separator);
    RowsLinesBounded(pixels);
  }

  /** The file starts with the lines "P3", "<width> <height>" and "255", and the pixel rows
      follow, each starting on a line of its own. */
  lemma PpmHeader(width: nat, height: nat, pixels: seq<seq<Tuple>>)
    requires |Dimensions(width, height)| + |Separator| <= MaxLineLength
    ensures PpmLines(width, height, pixels) == ["P3", Dimensions(width, height), "255"] + RowsLines(pixels)
  {
    ShortHeaderTokens();
    SingleTokenBlock(Dimensions(width, height), MaxLineLength, Separator);
  }

  /** The PPM text ends with a newline, which some image readers require. */
  lemma PpmEndsWithNewline(width: nat, height: nat, pixels: seq<seq<Tuple>>)
    ensures var text := Render(PpmLines(width, height, pixels));
      |text| > 0 && text[|text| - 1] == '\n'
  {
    RenderEndsWithNewline(PpmLines(width, height, pixels));
  }
}
