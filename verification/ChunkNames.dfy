/** How a node names its chunk files: the hash text, its hex digits, and the path under the root. */
module ChunkNames {
  import opened Types

  const PREFIX: string := "sha256:"
  const SUFFIX: string := ".chunk"

  // ---- Hexadecimal ---------------------------------------------------------------------

  function HexDigit(d: nat): char
    requires d < 16
  {
    "0123456789abcdef"[d]
  }

  function HexText(bytes: Bytes): string {
    if bytes == [] then "" else
      [HexDigit(bytes[0] as nat / 16), HexDigit(bytes[0] as nat % 16)] + HexText(bytes[1..])
  }

  function DigitValue(c: char): Option<nat> {
    if '0' <= c <= '9' then Some(c as nat - '0' as nat)
    else if 'a' <= c <= 'f' then Some(c as nat - 'a' as nat + 10)
    else if 'A' <= c <= 'F' then Some(c as nat - 'A' as nat + 10)
    else None
  }

  lemma DigitBelow16(c: char)
    ensures DigitValue(c).Some? ==> DigitValue(c).value < 16
  {
  }

  function DecodeHex(s: string): Option<Bytes> {
    if s == "" then Some([])
    else if |s| == 1 || DigitValue(s[0]).None? || DigitValue(s[1]).None? then None
    else
      var rest := DecodeHex(s[2..]);
      if rest.None? then None else
        DigitBelow16(s[0]); DigitBelow16(s[1]);
        Some([(DigitValue(s[0]).value * 16 + DigitValue(s[1]).value) as Byte] + rest.value)
  }

  lemma DigitRoundTrip(d: nat)
    requires d < 16
    ensures DigitValue(HexDigit(d)) == Some(d)
  {
  }

  lemma {:induction false} HexRoundTrip(bytes: Bytes)
    ensures DecodeHex(HexText(bytes)) == Some(bytes) && |HexText(bytes)| == 2 * |bytes|
  {
    if bytes != [] {
      HexRoundTrip(bytes[1..]);
      DigitRoundTrip(bytes[0] as nat / 16);
      DigitRoundTrip(bytes[0] as nat % 16);
      ghost var text, rest := HexText(bytes), HexText(bytes[1..]);
      assert text[0] == HexDigit(bytes[0] as nat / 16) && text[1] == HexDigit(bytes[0] as nat % 16);
      assert text[2..] == rest;
      assert [bytes[0]] + bytes[1..] == bytes;
    }
  }

  /** Only an even number of hexadecimal digits decodes. */
  lemma {:induction false} DecodesOnlyHex(s: string, i: nat)
    requires DecodeHex(s).Some? && i < |s|
    ensures DigitValue(s[i]).Some?
  {
    if i >= 2 {
      DecodesOnlyHex(s[2..], i - 2);
    }
  }

  // ---- Paths ---------------------------------------------------------------------------

  function Clean(hash: string): string {
    if PREFIX <= hash then hash[|PREFIX|..] else hash
  }

  function FileOf(clean: string): string
    requires |clean| >= 2
  {
    clean[..2] + "/" + clean + SUFFIX
  }

  /** The chunk's file below the storage root, or None for a name that is not hexadecimal. */
  function Path(hash: string): Option<string> {
    var clean := Clean(hash);
    if |clean| < 2 || DecodeHex(clean).None? then None else Some(FileOf(clean))
  }

  function Temp(path: string): string {
    path + ".tmp"
  }

  predicate IsChunkName(path: string) {
    |path| >= |SUFFIX| && path[|path| - |SUFFIX|..] == SUFFIX
  }

  predicate IsHex(c: char) {
    '0' <= c <= '9' || 'a' <= c <= 'f' || 'A' <= c <= 'F'
  }

  predicate AllHex(s: string) {
    forall i :: 0 <= i < |s| ==> IsHex(s[i])
  }

  /** Exactly the texts with an even number of hexadecimal digits decode. */
  lemma {:induction false} DecodesIff(s: string)
    ensures DecodeHex(s).Some? <==> |s| % 2 == 0 && AllHex(s)
    decreases |s|
  {
    if |s| >= 2 {
      DecodesIff(s[2..]);
      assert forall i :: 2 <= i < |s| ==> s[i] == s[2..][i - 2];
      assert forall i :: 0 <= i < |s[2..]| ==> s[2..][i] == s[i + 2];
      assert IsHex(s[0]) <==> DigitValue(s[0]).Some?;
      assert IsHex(s[1]) <==> DigitValue(s[1]).Some?;
    }
  }

  /** What comes after "sha256:", if the name starts with that, has digits: an even number, and at least two. */
  predicate ValidName(hash: string) {
    var digits := if "sha256:" <= hash then hash[7..] else hash;
    |digits| >= 2 && |digits| % 2 == 0 && AllHex(digits)
  }

  /** Exactly these names are accepted. */
  lemma PathAcceptsIff(hash: string)
    ensures Path(hash).Some? <==> ValidName(hash)
  {
    var digits := if "sha256:" <= hash then hash[7..] else hash;
    assert Clean(hash) == digits;
    DecodesIff(digits);
  }

  lemma FileOfInjective(a: string, b: string)
    requires |a| >= 2 && |b| >= 2 && FileOf(a) == FileOf(b)
    ensures a == b
  {
    assert a == FileOf(a)[3..3 + |a|];
    assert b == FileOf(b)[3..3 + |b|];
  }

  /** Two accepted names share a file exactly when they differ at most in the prefix. */
  lemma SamePath(g: string, h: string)
    requires Path(g).Some? && Path(h).Some?
    ensures Path(g) == Path(h) <==> Clean(g) == Clean(h)
  {
    if Path(g) == Path(h) { FileOfInjective(Clean(g), Clean(h)); }
  }

  lemma FileOfIsChunkName(clean: string)
    requires |clean| >= 2
    ensures IsChunkName(FileOf(clean))
  {
    assert FileOf(clean)[3 + |clean|..] == SUFFIX;
  }

  lemma PathIsChunkName(hash: string)
    ensures Path(hash).Some? ==> IsChunkName(Path(hash).value)
  {
    if Path(hash).Some? { FileOfIsChunkName(Clean(hash)); }
  }

  lemma TempIsNoChunkName(path: string)
    ensures !IsChunkName(Temp(path))
  {
    var t := Temp(path);
    assert |t| >= 6 ==> t[|t| - |SUFFIX|..][5] == t[|t| - 1];
  }

  /** A chunk file lies in a directory of its own first two digits: no name leads anywhere else. */
  lemma PathStaysInside(hash: string, i: nat)
    requires Path(hash).Some? && i < |Path(hash).value|
    ensures var p := Path(hash).value; (p[i] == '/' <==> i == 2) && (p[i] == '.' <==> i == |p| - |SUFFIX|)
  {
    var clean, p := Clean(hash), Path(hash).value;
    if i < 2 { DecodesOnlyHex(clean, i); }
    if 3 <= i < 3 + |clean| { DecodesOnlyHex(clean, i - 3); }
    if i >= 3 + |clean| { assert p[i] == SUFFIX[i - 3 - |clean|]; }
  }
}
