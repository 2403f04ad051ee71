/** Python's idea of whitespace, and the trimming built on it. */
module Chars {

  /** The characters for which str.isspace() answers true. */
  predicate IsSpace(c: char) {
    var code := c as int;
    || 0x09 <= code <= 0x0D
    || 0x1C <= code <= 0x20
    || code == 0x85
    || code == 0xA0
    || code == 0x1680
    || 0x2000 <= code <= 0x200A
    || code == 0x2028
    || code == 0x2029
    || code == 0x202F
    || code == 0x205F
    || code == 0x3000
  }

  predicate Blank(text: string) {
    forall i | 0 <= i < |text| :: IsSpace(text[i])
  }

  function LStrip(text: string): string {
    if text != "" && IsSpace(text[0]) then LStrip(text[1..]) else text
  }

  function RStrip(text: string): string {
    if text != "" && IsSpace(text[|text| - 1]) then RStrip(text[..|text| - 1]) else text
  }

  function Strip(text: string): string {
    RStrip(LStrip(text))
  }

  /** Text that trimming leaves alone. */
  predicate Trimmed(text: string) {
    text == "" || (!IsSpace(text[0]) && !IsSpace(text[|text| - 1]))
  }

  lemma {:induction false} RStripDropsTail(text: string, tail: string)
    requires Blank(tail) && Trimmed(text)
    ensures RStrip(text + tail) == text
    decreases |tail|
  {
    if tail == "" {
      assert text + tail == text;
    } else {
      assert (text + tail)[..|text + tail| - 1] == text + tail[..|tail| - 1];
      RStripDropsTail(text, tail[..|tail| - 1]);
    }
  }

  lemma {:induction false} BlankStrips(text: string)
    requires Blank(text)
    ensures Strip(text) == "" && LStrip(text) == "" && RStrip(text) == ""
  {
    if text != "" {
      BlankStrips(text[1..]);
      RStripDropsTail("", text);
      assert "" + text == text;
    }
  }

  /** Trimming takes off exactly the blank text around what is left alone. */
  lemma StripUnpads(lead: string, text: string, tail: string)
    requires Blank(lead) && Blank(tail) && Trimmed(text)
    ensures Strip(lead + text + tail) == text
  {
    if text == "" {
      BlankStrips(lead + text + tail);
    } else {
      LStripKeepsTail(lead, text, tail);
      RStripDropsTail(text, tail);
    }
  }

  lemma {:induction false} LStripKeepsTail(lead: string, text: string, tail: string)
    requires Blank(lead) && text != "" && !IsSpace(text[0])
    ensures LStrip(lead + text + tail) == text + tail
    decreases |lead|
  {
    if lead == "" {
      assert lead + text + tail == text + tail;
    } else {
      assert (lead + text + tail)[1..] == lead[1..] + text + tail;
      LStripKeepsTail(lead[1..], text, tail);
    }
  }

  /** The whitespace characters one by one: the ASCII ones, the four separators below the blank, and those of
      Unicode. */
  lemma SpacesAreThese(c: char)
    ensures IsSpace(c) <==>
              c as int in {9, 10, 11, 12, 13, 28, 29, 30, 31, 32, 133, 160, 5760, 8192, 8193, 8194, 8195, 8196, 8197,
                           8198, 8199, 8200, 8201, 8202, 8232, 8233, 8239, 8287, 12288}
  {
  }
}
