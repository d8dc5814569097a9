/** `display_text`: the text is cut into 15-character slices drawn on
    successive 8-pixel rows until the display height is used up. The SSD1306
    driver itself is not part of this model; a drawn line is the pair
    (row, slice) handed to `ssd1306_draw_string`. */
module Display {

  /** Characters per line (`line_len`). */
  const LineLen: nat := 15
  /** Pixel rows from one line to the next. */
  const RowStep: nat := 8

  function Min(a: int, b: int): int { if a <= b then a else b }

  /** How many lines the loop can draw: line 0 always, line k > 0 only when
      the check `y >= ssd1306_height` after line k - 1 let the loop go on. */
  function RowCapacity(height: int): (n: nat)
    ensures n >= 1
    ensures n == 1 || RowStep * (n - 1) < height
    ensures RowStep * n >= height
  {
    if height <= RowStep then 1 else (height + RowStep - 1) / RowStep
  }

  /** Number of lines drawn for a text of `len` characters: one per started
      slice, but no more than the capacity. */
  function LineCount(len: nat, height: int): (n: nat)
    ensures n <= RowCapacity(height)
    ensures LineLen * n < len + LineLen
    ensures LineLen * n >= len || n == RowCapacity(height)
  {
    var slices := (len + LineLen - 1) / LineLen;
    if slices <= RowCapacity(height) then slices else RowCapacity(height)
  }

  /** The k-th slice: what `strncpy(line_buffer, text + 15k, 15)` leaves in the buffer. */
  function Slice(text: string, k: nat): (s: string)
    requires LineLen * k < |text|
    ensures 0 < |s| <= LineLen
  {
    text[LineLen * k .. Min(LineLen * k + LineLen, |text|)]
  }

  /** The lines `display_text` draws, as (row, slice) pairs. */
  function DisplayLines(text: string, height: int): (lines: seq<(nat, string)>)
    ensures |lines| == LineCount(|text|, height)
    ensures forall k :: 0 <= k < |lines| ==>
              lines[k].0 == RowStep * k && (k == 0 || lines[k].0 < height)
              && LineLen * k < |text| && lines[k].1 == Slice(text, k)
  {
    var n := LineCount(|text|, height);
    seq(n, k requires 0 <= k < n => (RowStep * k, Slice(text, k)))
  }

  /** The characters on the screen, line after line. */
  function Concat(lines: seq<(nat, string)>): string
  {
    if lines == [] then [] else Concat(lines[..|lines| - 1]) + lines[|lines| - 1].1
  }

  /** The first k drawn lines together hold the first 15k characters of the text. */
  lemma {:induction false} ConcatLinesPrefix(text: string, height: int, k: nat)
    requires k <= LineCount(|text|, height)
    ensures Concat(DisplayLines(text, height)[..k]) == text[..Min(LineLen * k, |text|)]
  {
    if k > 0 {
      var lines := DisplayLines(text, height);
      ConcatLinesPrefix(text, height, k - 1);
      assert lines[..k][..k - 1] == lines[..k - 1];
      assert text[..Min(LineLen * k, |text|)]
          == text[..LineLen * (k - 1)] + Slice(text, k - 1);
    }
  }

  /** What is shown is a prefix of the text, and all of it exactly when the
      text fits in the rows the display has; the rest is cut off. */
  lemma DisplayedIsPrefix(text: string, height: int)
    ensures Concat(DisplayLines(text, height)) <= text
    ensures Concat(DisplayLines(text, height)) == text
            <==> |text| <= LineLen * RowCapacity(height)
  {
    var lines := DisplayLines(text, height);
    ConcatLinesPrefix(text, height, |lines|);
    assert lines[..|lines|] == lines;
  }

  /** The loop of `display_text`: slices at offsets 0, 15, 30, ... drawn at
      rows 0, 8, 16, ... until the text ends or the row reaches the height. */
  method DisplayText(text: string, height: int) returns (drawn: seq<(nat, string)>)
    ensures drawn == DisplayLines(text, height)
  {
    drawn := [];
    var y: nat := 0;
    var i: nat := 0;
    while i < |text|
      invariant i == LineLen * |drawn| && y == RowStep * |drawn|
      invariant |drawn| <= LineCount(|text|, height)
      invariant |drawn| == 0 || y < height
      invariant forall k :: 0 <= k < |drawn| ==> drawn[k] == DisplayLines(text, height)[k]
      decreases |text| - i
    {
      drawn := drawn + [(y, text[i .. Min(i + LineLen, |text|)])];
      y := y + RowStep;
      if y >= height {
        break;
      }
      i := i + LineLen;
    }
  }
}
