/** Fixed-buffer text decoding: `carray_to_string`, and the same
    `CStr::from_ptr` + `to_string_lossy` pattern written inline. */
module CText {
  import opened FfiTypes

  /** `to_string_lossy`: the standard library's lossy UTF-8 decoding, which
      never fails. It is not modelled; every decoding takes it as a parameter. */
  type Decoder = seq<bv8> -> string

  /** What `CStr::from_ptr` demands of its caller: a NUL inside the buffer. */
  predicate Terminated(buf: CBuffer) {
    0 in buf
  }

  /** The position of the first NUL. */
  function FirstNul(buf: CBuffer): (k: nat)
    requires Terminated(buf)
    ensures k < |buf| && buf[k] == 0
    ensures forall j :: 0 <= j < k ==> buf[j] != 0
  {
    if buf[0] == 0 then 0
    else
      assert buf == [buf[0]] + buf[1..];
      1 + FirstNul(buf[1..])
  }

  /** The bytes `CStr::from_ptr` reads: the prefix before the first NUL. */
  function CStrBytes(buf: CBuffer): (p: seq<bv8>)
    requires Terminated(buf)
    ensures p <= buf
    ensures 0 !in p
    ensures |p| < |buf| && buf[|p|] == 0
  {
    buf[..FirstNul(buf)]
  }

  /** `carray_to_string`: decode the bytes before the first NUL. */
  function CArrayToString(buf: CBuffer, lossy: Decoder): (s: string)
    requires Terminated(buf)
    ensures buf[0] == 0 ==> s == lossy([])
  {
    lossy(CStrBytes(buf))
  }

  /** The three properties of CStrBytes determine it: a NUL-free prefix that
      is followed by a NUL is the one `CStr::from_ptr` reads. */
  lemma CStrBytesUnique(buf: CBuffer, p: seq<bv8>)
    requires p <= buf && 0 !in p && |p| < |buf| && buf[|p|] == 0
    ensures Terminated(buf) && CStrBytes(buf) == p
  {
    assert buf[|p|] in buf;
  }

  /** Round trip: text written into a buffer, NUL-terminated and padded with
      anything, reads back as that text. */
  lemma TerminatedTextReadsBack(text: seq<bv8>, padding: seq<bv8>)
    requires 0 !in text
    ensures Terminated(text + [0] + padding)
    ensures CStrBytes(text + [0] + padding) == text
  {
    var buf := text + [0] + padding;
    assert text <= buf && buf[|text|] == 0;
    CStrBytesUnique(buf, text);
  }

  /** Decoding depends only on the bytes up to the first NUL: a buffer that
      agrees with `a` there decodes to the same text, whatever follows. */
  lemma DecodeIgnoresBytesAfterNul(a: CBuffer, b: CBuffer, lossy: Decoder)
    requires Terminated(a)
    requires a[..FirstNul(a) + 1] <= b
    ensures Terminated(b) && CStrBytes(b) == CStrBytes(a)
    ensures CArrayToString(b, lossy) == CArrayToString(a, lossy)
  {
    var p := CStrBytes(a);
    assert a[..FirstNul(a) + 1] == p + [0];
    assert p <= b && b[|p|] == 0;
    CStrBytesUnique(b, p);
  }

  /** A buffer that starts with NUL decodes to whatever the decoder makes of
      no bytes at all: the empty string, for a decoder that maps none to none. */
  lemma LeadingNulDecodesEmpty(buf: CBuffer, lossy: Decoder)
    requires |buf| > 0 && buf[0] == 0
    requires lossy([]) == []
    ensures Terminated(buf) && CStrBytes(buf) == []
    ensures CArrayToString(buf, lossy) == ""
  {
    assert buf[0] in buf;
  }
}
