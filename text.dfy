/** String primitives the credential code relies on: JavaScript's
    `String.prototype.trim` (applied to every secret read and to the pasted
    redirect URL) and the lower-case hex rendering of random bytes. */
module Text {
  import opened Wrappers

  newtype byte = x: int | 0 <= x < 256

  /** The characters `trim` removes: ECMAScript WhiteSpace (tab, vertical tab,
      form feed, space, no-break space, byte-order mark and the Space_Separator
      category) and LineTerminator (line feed, carriage return, line and
      paragraph separators). */
  predicate IsTrimmable(c: char) {
    || c == '\t' || c == '\n' || c == '\U{B}' || c == '\U{C}' || c == '\r' || c == ' '
    || c == '\U{A0}' || c == '\U{1680}' || ('\U{2000}' <= c <= '\U{200A}')
    || c == '\U{2028}' || c == '\U{2029}' || c == '\U{202F}' || c == '\U{205F}'
    || c == '\U{3000}' || c == '\U{FEFF}'
  }

  /** A string that `trim` leaves alone: empty, or with no trimmable character at either end. */
  predicate Trimmed(s: string) {
    s == [] || (!IsTrimmable(s[0]) && !IsTrimmable(s[|s| - 1]))
  }

  /** How many trimmable characters `s` starts with. */
  function LeadingBlanks(s: string): (n: nat)
    ensures n <= |s|
    ensures forall i :: 0 <= i < n ==> IsTrimmable(s[i])
    ensures n < |s| ==> !IsTrimmable(s[n])
  {
    if s != [] && IsTrimmable(s[0]) then 1 + LeadingBlanks(s[1..]) else 0
  }

  /** Drops trailing trimmable characters: the result is the longest prefix
      that does not end with one, and everything dropped is trimmable. */
  function TrimEnd(s: string): (r: string)
    ensures |r| <= |s| && r == s[..|r|]
    ensures r == [] || !IsTrimmable(r[|r| - 1])
    ensures forall i :: |r| <= i < |s| ==> IsTrimmable(s[i])
    decreases |s|
  {
    if s != [] && IsTrimmable(s[|s| - 1]) then TrimEnd(s[..|s| - 1]) else s
  }

  /** `String.prototype.trim`: the result is a slice of `s` with only
      trimmable characters cut from either end, and no trimmable character at
      either of its own ends. */
  function Trim(s: string): (r: string)
    ensures Trimmed(r)
    ensures LeadingBlanks(s) + |r| <= |s|
    ensures r == s[LeadingBlanks(s)..LeadingBlanks(s) + |r|]
    ensures forall i :: LeadingBlanks(s) + |r| <= i < |s| ==> IsTrimmable(s[i])
  {
    var a := LeadingBlanks(s);
    var r := TrimEnd(s[a..]);
    assert forall i :: a + |r| <= i < |s| ==> s[i] == s[a..][i - a];
    r
  }

  lemma TrimEndOfTrimmed(s: string)
    requires s == [] || !IsTrimmable(s[|s| - 1])
    ensures TrimEnd(s) == s
  {
  }

  /** A string without surrounding whitespace is its own trim. */
  lemma TrimOfTrimmed(s: string)
    requires Trimmed(s)
    ensures Trim(s) == s
  {
    assert s[LeadingBlanks(s)..] == s;
    TrimEndOfTrimmed(s);
  }

  /** Trimming twice is trimming once. */
  lemma TrimIdempotent(s: string)
    ensures Trim(Trim(s)) == Trim(s)
  {
    TrimOfTrimmed(Trim(s));
  }

  /** The lower-case hex digit of a value below 16. */
  function HexDigit(k: nat): (c: char)
    requires k < 16
    ensures ('0' <= c <= '9') || ('a' <= c <= 'f')
  {
    if k < 10 then ('0' as int + k) as char else ('a' as int + k - 10) as char
  }

  /** One byte as two lower-case hex digits, as Node's `toString("hex")` writes it. */
  function HexByte(b: byte): (r: string)
    ensures |r| == 2
  {
    [HexDigit(b as int / 16), HexDigit(b as int % 16)]
  }

  function Hex(bs: seq<byte>): (r: string)
    ensures |r| == 2 * |bs|
  {
    if bs == [] then "" else HexByte(bs[0]) + Hex(bs[1..])
  }

  /** A hex rendering holds only digits and the letters `a` to `f`. */
  lemma {:induction false} HexAlphabet(bs: seq<byte>)
    ensures forall i :: 0 <= i < |Hex(bs)| ==> ('0' <= Hex(bs)[i] <= '9') || ('a' <= Hex(bs)[i] <= 'f')
  {
    if bs != [] {
      HexAlphabet(bs[1..]);
      assert Hex(bs) == HexByte(bs[0]) + Hex(bs[1..]);
    }
  }

  /** The value of a lower-case hex digit. */
  function HexDigitValue(c: char): (r: Option<nat>)
    ensures r.Some? ==> r.value < 16
  {
    if '0' <= c <= '9' then Some(c as int - '0' as int)
    else if 'a' <= c <= 'f' then Some(c as int - 'a' as int + 10)
    else None
  }

  /** Reads back a lower-case hex rendering, two digits per byte. */
  function UnHex(s: string): Option<seq<byte>>
    decreases |s|
  {
    if s == [] then Some([])
    else if |s| < 2 then None
    else
      var hi := HexDigitValue(s[0]);
      var lo := HexDigitValue(s[1]);
      var rest := UnHex(s[2..]);
      if hi.None? || lo.None? || rest.None? then None
      else Some([(hi.value * 16 + lo.value) as byte] + rest.value)
  }

  /** Each hex digit reads back as its own value. */
  lemma HexDigitInverse(k: nat)
    requires k < 16
    ensures HexDigitValue(HexDigit(k)) == Some(k)
  {
  }

  /** Reading back one rendered byte in front of any text. */
  lemma UnHexCons(b: byte, t: string)
    ensures UnHex(HexByte(b) + t) == if UnHex(t).None? then None else Some([b] + UnHex(t).value)
  {
    var hi, lo := b as int / 16, b as int % 16;
    var h := [HexDigit(hi), HexDigit(lo)] + t;
    assert h[0] == HexDigit(hi) && h[1] == HexDigit(lo) && h[2..] == t;
    HexDigitInverse(hi);
    HexDigitInverse(lo);
    ByteDigits(b);
    assert UnHex(h) == if UnHex(t).None? then None else Some([(hi * 16 + lo) as byte] + UnHex(t).value);
  }

  /** The two hex digits of a byte recombine to the byte. */
  lemma ByteDigits(b: byte)
    ensures ((b as int / 16) * 16 + b as int % 16) as byte == b
  {
  }

  /** Hex rendering loses nothing: distinct byte strings render differently. */
  lemma {:induction false} HexRoundTrip(bs: seq<byte>)
    ensures UnHex(Hex(bs)) == Some(bs)
  {
    if bs != [] {
      HexRoundTrip(bs[1..]);
      UnHexCons(bs[0], Hex(bs[1..]));
      assert [bs[0]] + bs[1..] == bs;
    }
  }
}
