/** Decoding of one name or value of an `application/x-www-form-urlencoded` query, as
    Python's `parse_qsl` does it: `+` becomes a space, then `unquote` with UTF-8 and the
    `replace` error handler. `unquote` leaves a string without `%` alone; otherwise it
    splits the string into runs of ASCII and non-ASCII characters, passes the non-ASCII
    runs through, turns every `%XY` (two hex digits) of an ASCII run into the byte XY and
    decodes the run's bytes as UTF-8, each ill-formed subpart becoming U+FFFD. */
module FormDecoding {

  type Byte = b: int | 0 <= b < 256

  const Replacement: char := '�'

  predicate IsHexDigit(c: char)
  {
    '0' <= c <= '9' || 'a' <= c <= 'f' || 'A' <= c <= 'F'
  }

  function HexValue(c: char): (v: nat)
    requires IsHexDigit(c)
    ensures v < 16
  {
    if '0' <= c <= '9' then c as int - '0' as int
    else if 'a' <= c <= 'f' then c as int - 'a' as int + 10
    else c as int - 'A' as int + 10
  }

  predicate IsAscii(c: char)
  {
    c as int < 128
  }

  predicate AllAscii(s: string)
  {
    forall i :: 0 <= i < |s| ==> IsAscii(s[i])
  }

  /** `s.replace('+', ' ')`. */
  function PlusToSpace(s: string): (r: string)
  {
    seq(|s|, i requires 0 <= i < |s| => if s[i] == '+' then ' ' else s[i])
  }

  /** `unquote_to_bytes` of a run of ASCII characters. */
  function UnquoteToBytes(run: string): (b: seq<Byte>)
    requires AllAscii(run)
    decreases |run|
  {
    if run == [] then []
    else if run[0] == '%' && |run| >= 3 && IsHexDigit(run[1]) && IsHexDigit(run[2]) then
      [16 * HexValue(run[1]) + HexValue(run[2])] + UnquoteToBytes(run[3..])
    else
      [run[0] as int] + UnquoteToBytes(run[1..])
  }

  /** How many bytes a UTF-8 sequence led by `lead` has; 0 when `lead` cannot lead one. */
  function SequenceLength(lead: Byte): (n: nat)
    ensures n <= 4
  {
    if lead < 0x80 then 1
    else if 0xC2 <= lead <= 0xDF then 2
    else if 0xE0 <= lead <= 0xEF then 3
    else if 0xF0 <= lead <= 0xF4 then 4
    else 0
  }

  /** Whether `b` may stand at position `k` (1, 2 or 3) of a sequence led by `lead`
      (the second byte's range is narrowed after E0, ED, F0 and F4, which excludes
      overlong forms, surrogates and code points above U+10FFFF). */
  predicate ContinuationOk(lead: Byte, k: nat, b: Byte)
  {
    if k == 1 then
      if lead == 0xE0 then 0xA0 <= b <= 0xBF
      else if lead == 0xED then 0x80 <= b <= 0x9F
      else if lead == 0xF0 then 0x90 <= b <= 0xBF
      else if lead == 0xF4 then 0x80 <= b <= 0x8F
      else 0x80 <= b <= 0xBF
    else 0x80 <= b <= 0xBF
  }

  /** Length of the longest prefix of `b`, of at most `need` bytes, whose bytes after the
      first may all continue the sequence that `b[0]` leads (the maximal subpart). */
  function ValidPrefix(b: seq<Byte>, need: nat, k: nat): (n: nat)
    requires 1 <= k <= need && k <= |b|
    ensures k <= n <= need && n <= |b|
    ensures forall j :: k <= j < n ==> ContinuationOk(b[0], j, b[j])
    ensures n < need && n < |b| ==> !ContinuationOk(b[0], n, b[n])
    decreases need - k
  {
    if k == need || k == |b| || !ContinuationOk(b[0], k, b[k]) then k
    else ValidPrefix(b, need, k + 1)
  }

  /** The character that a complete, well-formed sequence `b[..n]` encodes. */
  function CharOf(b: seq<Byte>, n: nat): char
    requires 1 <= n <= |b| && n == SequenceLength(b[0])
    requires forall j :: 1 <= j < n ==> ContinuationOk(b[0], j, b[j])
  {
    var b0: int, b1: int := b[0], if n > 1 then b[1] else 0;
    if n == 1 then
      b[0] as char
    else if n == 2 then
      ((b0 - 0xC0) * 64 + (b1 - 0x80)) as char
    else if n == 3 then
      assert ContinuationOk(b[0], 1, b[1]) && ContinuationOk(b[0], 2, b[2]);
      var b2: int := b[2];
      ((b0 - 0xE0) * 4096 + (b1 - 0x80) * 64 + (b2 - 0x80)) as char
    else
      assert ContinuationOk(b[0], 1, b[1]) && ContinuationOk(b[0], 2, b[2]);
      assert ContinuationOk(b[0], 3, b[3]);
      var b2: int, b3: int := b[2], b[3];
      ((b0 - 0xF0) * 262144 + (b1 - 0x80) * 4096 + (b2 - 0x80) * 64 + (b3 - 0x80)) as char
  }

  /** `bytes.decode('utf-8', 'replace')`. */
  function Utf8Decode(b: seq<Byte>): string
    decreases |b|
  {
    if b == [] then ""
    else
      var need := SequenceLength(b[0]);
      if need == 0 then [Replacement] + Utf8Decode(b[1..])
      else
        var n := ValidPrefix(b, need, 1);
        if n == need then [CharOf(b, n)] + Utf8Decode(b[n..])
        else [Replacement] + Utf8Decode(b[n..])
  }

  /** Length of the run of ASCII characters at the start of `s`. */
  function AsciiRun(s: string): (k: nat)
    ensures k <= |s|
    ensures AllAscii(s[..k])
    ensures k < |s| ==> !IsAscii(s[k])
  {
    if s == [] || !IsAscii(s[0]) then 0
    else
      var k := AsciiRun(s[1..]);
      assert s[..k + 1] == [s[0]] + s[1..][..k];
      k + 1
  }

  /** The general path of `unquote`: non-ASCII characters pass through, each ASCII run is
      percent-decoded to bytes and decoded as UTF-8. */
  function UnquoteParts(s: string): string
    decreases |s|
  {
    if s == [] then ""
    else if !IsAscii(s[0]) then [s[0]] + UnquoteParts(s[1..])
    else
      var k := AsciiRun(s);
      Utf8Decode(UnquoteToBytes(s[..k])) + UnquoteParts(s[k..])
  }

  /** `unquote(s)` with its shortcut for strings without `%`. */
  function Unquote(s: string): string
  {
    if '%' !in s then s else UnquoteParts(s)
  }

  /** One name or value of a query pair, decoded as `parse_qsl` does. */
  function Decode(s: string): string
  {
    Unquote(PlusToSpace(s))
  }

  /** A string with neither `%` nor `+` decodes to itself. */
  lemma DecodePlainIsIdentity(s: string)
    requires '%' !in s && '+' !in s
    ensures Decode(s) == s
  {
    assert PlusToSpace(s) == s;
  }

  /** Without a `%` in it, an ASCII run's bytes are its characters' codes. */
  lemma {:induction false} UnquoteToBytesPlain(run: string)
    requires AllAscii(run) && '%' !in run
    ensures UnquoteToBytes(run) == seq(|run|, i requires 0 <= i < |run| => run[i] as int)
  {
    if run != [] {
      assert '%' !in run[1..] by {
        forall i | 0 <= i < |run[1..]| ensures run[1..][i] != '%' { assert run[1..][i] == run[i + 1]; }
      }
      UnquoteToBytesPlain(run[1..]);
    }
  }

  /** UTF-8 bytes below 0x80 decode one to one. */
  lemma {:induction false} Utf8DecodeAscii(s: string)
    requires AllAscii(s)
    ensures Utf8Decode(seq(|s|, i requires 0 <= i < |s| => s[i] as int)) == s
  {
    var b: seq<Byte> := seq(|s|, i requires 0 <= i < |s| => s[i] as int);
    if s != [] {
      assert SequenceLength(b[0]) == 1;
      assert ValidPrefix(b, 1, 1) == 1;
      assert b[1..] == seq(|s[1..]|, i requires 0 <= i < |s[1..]| => s[1..][i] as int);
      Utf8DecodeAscii(s[1..]);
      assert [CharOf(b, 1)] == [s[0]];
      assert s == [s[0]] + s[1..];
    }
  }

  /** The shortcut of `unquote` is only an optimisation: on a string without `%` the
      general path gives the string back as well. */
  lemma {:induction false} UnquoteShortcutAgrees(s: string)
    requires '%' !in s
    ensures UnquoteParts(s) == s
    decreases |s|
  {
    if s != [] {
      if !IsAscii(s[0]) {
        NoPercentInSlice(s, 1, |s|);
        UnquoteShortcutAgrees(s[1..]);
        PassThroughStep(s);
      } else {
        NoPercentInSlice(s, AsciiRun(s), |s|);
        UnquoteShortcutAgrees(s[AsciiRun(s)..]);
        AsciiRunStep(s);
      }
    }
  }

  lemma PassThroughStep(s: string)
    requires s != [] && !IsAscii(s[0]) && UnquoteParts(s[1..]) == s[1..]
    ensures UnquoteParts(s) == s
  {
    assert s == [s[0]] + s[1..];
  }

  lemma AsciiRunStep(s: string)
    requires s != [] && IsAscii(s[0]) && '%' !in s
    requires UnquoteParts(s[AsciiRun(s)..]) == s[AsciiRun(s)..]
    ensures UnquoteParts(s) == s
  {
    var k := AsciiRun(s);
    PlainRunDecodes(s, k);
    RunThenRest(s, k, Utf8Decode(UnquoteToBytes(s[..k])), UnquoteParts(s[k..]));
  }

  lemma RunThenRest(s: string, k: nat, run: string, rest: string)
    requires k <= |s| && run == s[..k] && rest == s[k..]
    ensures run + rest == s
  {
  }

  lemma NoPercentInSlice(s: string, i: nat, j: nat)
    requires i <= j <= |s| && '%' !in s
    ensures '%' !in s[i..j]
  {
    forall m | 0 <= m < j - i ensures s[i..j][m] != '%' { assert s[i..j][m] == s[i + m]; }
  }

  /** An ASCII run without `%` decodes to itself. */
  lemma PlainRunDecodes(s: string, k: nat)
    requires k <= |s| && '%' !in s && AllAscii(s[..k])
    ensures Utf8Decode(UnquoteToBytes(s[..k])) == s[..k]
  {
    NoPercentInSlice(s, 0, k);
    assert s[0..k] == s[..k];
    UnquoteToBytesPlain(s[..k]);
    Utf8DecodeAscii(s[..k]);
  }

  lemma {:induction false} UnquoteToBytesNonEmpty(run: string)
    requires AllAscii(run) && run != []
    ensures UnquoteToBytes(run) != []
  {
  }

  lemma {:induction false} Utf8DecodeNonEmpty(b: seq<Byte>)
    requires b != []
    ensures Utf8Decode(b) != ""
  {
  }

  lemma {:induction false} UnquotePartsNonEmpty(s: string)
    requires s != ""
    ensures UnquoteParts(s) != ""
  {
    if IsAscii(s[0]) {
      var k := AsciiRun(s);
      assert k > 0;
      UnquoteToBytesNonEmpty(s[..k]);
      Utf8DecodeNonEmpty(UnquoteToBytes(s[..k]));
    }
  }

  /** Decoding never empties a value: a pair with a non-empty raw value keeps a non-empty
      decoded value, which is why "first value" and "first non-blank value" coincide. */
  lemma DecodeNonEmpty(s: string)
    requires s != ""
    ensures Decode(s) != ""
  {
    if '%' in PlusToSpace(s) {
      UnquotePartsNonEmpty(PlusToSpace(s));
    }
  }
}
