/** The fixed-size WordStar file header that precedes the document body. */
module Header {
  import opened Text

  newtype byte = x: int | 0 <= x < 256

  /** Size of the header, in bytes of the decoded text. */
  const HEADER_SIZE: nat := 128

  /** A byte that continues a multi-byte UTF-8 sequence (0b10xx_xxxx). */
  predicate IsContinuationByte(b: byte) {
    0x80 <= b < 0xC0
  }

  /** Rust's `str::is_char_boundary` on the UTF-8 bytes of a string: the
      start, the end, or any byte that begins a character. */
  predicate IsCharBoundary(text: seq<byte>, i: nat) {
    i == 0 || i == |text| || (i < |text| && !IsContinuationByte(text[i]))
  }

  /** The body `&text[128..]`, where `text` is the UTF-8 encoding of the
      decoded file. The slice panics (`None`) when the text is shorter than
      the header or byte 128 falls inside a character. */
  function StripHeader(text: seq<byte>): (r: Option<seq<byte>>)
    ensures |text| < HEADER_SIZE ==> r.None?
    ensures r.Some? ==> |r.value| == |text| - HEADER_SIZE
    ensures r.Some? ==> text == text[..HEADER_SIZE] + r.value
    ensures r.Some? ==> r.value == [] || !IsContinuationByte(r.value[0])
  {
    if |text| >= HEADER_SIZE && IsCharBoundary(text, HEADER_SIZE)
    then Some(text[HEADER_SIZE..])
    else None
  }

  /** Whatever the 128 header bytes are, a body that starts on a character
      boundary comes back unchanged; a body starting inside a character makes
      the slice panic. */
  lemma StripHeaderOfFile(header: seq<byte>, body: seq<byte>)
    requires |header| == HEADER_SIZE
    ensures body == [] || !IsContinuationByte(body[0]) ==> StripHeader(header + body) == Some(body)
    ensures body != [] && IsContinuationByte(body[0]) ==> StripHeader(header + body).None?
  {
    assert (header + body)[HEADER_SIZE..] == body;
    if body != [] {
      assert (header + body)[HEADER_SIZE] == body[0];
    }
  }
}
