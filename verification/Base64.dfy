// The standard base64 encoding of section 4 of RFC 4648, with padding, as used
// for encrypted spool records.
module Base64 {
  import opened ByteStrings

  const PAD: byte := 61

  type Sextet = v: int | 0 <= v < 64

  function EncodeChar(v: Sextet): byte {
    if v < 26 then v + 65          // A-Z
    else if v < 52 then v + 71     // a-z
    else if v < 62 then v - 4      // 0-9
    else if v == 62 then 43        // +
    else 47                        // /
  }

  function DecodeChar(c: byte): Option<Sextet> {
    if 65 <= c <= 90 then Some(c - 65)
    else if 97 <= c <= 122 then Some(c - 71)
    else if 48 <= c <= 57 then Some(c + 4)
    else if c == 43 then Some(62)
    else if c == 47 then Some(63)
    else None
  }

  predicate InAlphabet(c: byte) {
    DecodeChar(c).Some? || c == PAD
  }

  function EncodeGroup(x: byte, y: byte, z: byte): (r: Bytes)
    ensures |r| == 4 && forall i :: 0 <= i < 4 ==> DecodeChar(r[i]).Some?
  {
    [EncodeChar(x / 4), EncodeChar(x % 4 * 16 + y / 16), EncodeChar(y % 16 * 4 + z / 64), EncodeChar(z % 64)]
  }

  function Encode(s: Bytes): (r: Bytes)
    ensures |r| == (|s| + 2) / 3 * 4
    ensures forall i :: 0 <= i < |r| ==> InAlphabet(r[i])
  {
    if s == [] then []
    else if |s| == 1 then
      [EncodeChar(s[0] / 4), EncodeChar(s[0] % 4 * 16), PAD, PAD]
    else if |s| == 2 then
      [EncodeChar(s[0] / 4), EncodeChar(s[0] % 4 * 16 + s[1] / 16), EncodeChar(s[1] % 16 * 4), PAD]
    else EncodeGroup(s[0], s[1], s[2]) + Encode(s[3..])
  }

  // Three octets out of four sextets; the decoder does not insist that unused
  // trailing bits are zero.
  function Octets(a: Sextet, b: Sextet, c: Sextet, d: Sextet): Bytes {
    [a * 4 + b / 16, b % 16 * 16 + c / 4, c % 4 * 64 + d]
  }

  function DecodeGroups(s: Bytes): Option<Bytes> {
    if s == [] then Some([])
    else if |s| < 4 then None
    else
      match (DecodeChar(s[0]), DecodeChar(s[1]), DecodeChar(s[2]), DecodeChar(s[3])) {
        case (Some(a), Some(b), Some(c), Some(d)) =>
          (match DecodeGroups(s[4..])
           case Some(rest) => Some(Octets(a, b, c, d) + rest)
           case None => None)
        case (Some(a), Some(b), Some(c), None) =>
          if s[3] == PAD && |s| == 4 then Some(Octets(a, b, c, 0)[..2]) else None
        case (Some(a), Some(b), None, _) =>
          if s[2] == PAD && s[3] == PAD && |s| == 4 then Some(Octets(a, b, 0, 0)[..1]) else None
        case _ => None
      }
  }

  // Line breaks inside the encoded text are skipped.
  function DropLineBreaks(s: Bytes): (r: Bytes)
    ensures (forall i :: 0 <= i < |s| ==> s[i] != NEWLINE && s[i] != CARRIAGE_RETURN) ==> r == s
  {
    if s == [] then []
    else if s[0] == NEWLINE || s[0] == CARRIAGE_RETURN then DropLineBreaks(s[1..])
    else [s[0]] + DropLineBreaks(s[1..])
  }

  function Decode(s: Bytes): Option<Bytes> {
    DecodeGroups(DropLineBreaks(s))
  }

  // The alphabet of table 1 of RFC 4648: A-Z, a-z, 0-9, plus, slash.
  lemma EncodesByAlphabet(v: Sextet)
    ensures v < 26 ==> EncodeChar(v) == 'A' as int + v
    ensures 26 <= v < 52 ==> EncodeChar(v) == 'a' as int + (v - 26)
    ensures 52 <= v < 62 ==> EncodeChar(v) == '0' as int + (v - 52)
    ensures EncodeChar(62) == '+' as int && EncodeChar(63) == '/' as int && PAD == '=' as int
  {
  }

  // Octets are read six bits at a time from the front, the last group padded:
  // "f", "fo" and "foo" of section 10 of RFC 4648.
  lemma Vectors()
    ensures Encode([102]) == [90, 103, PAD, PAD]
    ensures Encode([102, 111]) == [90, 109, 56, PAD]
    ensures Encode([102, 111, 111]) == [90, 109, 57, 118]
  {
    assert [102, 111, 111][3..] == [];
    assert Encode([]) == [];
  }

  lemma CharRoundTrip(v: Sextet)
    ensures DecodeChar(EncodeChar(v)) == Some(v)
  {
  }

  // Two digits put together come apart again.
  lemma SplitAt16(high: nat, low: nat)
    requires low < 16
    ensures (high * 16 + low) / 16 == high && (high * 16 + low) % 16 == low
  {
  }

  lemma SplitAt4(high: nat, low: nat)
    requires low < 4
    ensures (high * 4 + low) / 4 == high && (high * 4 + low) % 4 == low
  {
  }

  lemma OctetsRoundTrip(x: byte, y: byte, z: byte)
    ensures Octets(x / 4, x % 4 * 16 + y / 16, y % 16 * 4 + z / 64, z % 64) == [x, y, z]
  {
    SplitAt16(x % 4, y / 16);
    SplitAt4(y % 16, z / 64);
  }

  lemma GroupRoundTrip(x: byte, y: byte, z: byte)
    ensures var r := EncodeGroup(x, y, z);
      Octets(DecodeChar(r[0]).value, DecodeChar(r[1]).value, DecodeChar(r[2]).value, DecodeChar(r[3]).value) == [x, y, z]
  {
    CharRoundTrip(x / 4);
    CharRoundTrip(x % 4 * 16 + y / 16);
    CharRoundTrip(y % 16 * 4 + z / 64);
    CharRoundTrip(z % 64);
    hide EncodeChar, DecodeChar;
    OctetsRoundTrip(x, y, z);
  }

  lemma FullGroupFirst(x: byte, y: byte, z: byte, s: Bytes)
    requires DecodeGroups(Encode(s)) == Some(s)
    ensures DecodeGroups(EncodeGroup(x, y, z) + Encode(s)) == Some([x, y, z] + s)
  {
    var head := EncodeGroup(x, y, z);
    var r := head + Encode(s);
    GroupRoundTrip(x, y, z);
    hide EncodeGroup, DecodeChar, EncodeChar, Octets, Encode;
    assert r[..4] == head && r[4..] == Encode(s);
    assert r[0] == head[0] && r[1] == head[1] && r[2] == head[2] && r[3] == head[3];
    assert DecodeChar(head[0]).Some? && DecodeChar(head[1]).Some? && DecodeChar(head[2]).Some? && DecodeChar(head[3]).Some?;
  }

  lemma PadIsNoDigit()
    ensures DecodeChar(PAD) == None
  {
  }

  lemma EncodeTwo(x: byte, y: byte)
    ensures Encode([x, y]) == [EncodeChar(x / 4), EncodeChar(x % 4 * 16 + y / 16), EncodeChar(y % 16 * 4), PAD]
  {
    hide EncodeChar;
  }

  lemma TwoLeft(x: byte, y: byte)
    ensures DecodeGroups(Encode([x, y])) == Some([x, y])
  {
    var a, b, c := x / 4, x % 4 * 16 + y / 16, y % 16 * 4;
    hide EncodeChar, DecodeChar, Octets, Encode;
    EncodeTwo(x, y);
    CharRoundTrip(a);
    CharRoundTrip(b);
    CharRoundTrip(c);
    OctetsRoundTrip(x, y, 0);
    PadIsNoDigit();
    assert Octets(a, b, c, 0)[..2] == [x, y];
  }

  lemma OneLeft(x: byte)
    ensures DecodeGroups(Encode([x])) == Some([x])
  {
    var a, b := x / 4, x % 4 * 16;
    CharRoundTrip(a);
    CharRoundTrip(b);
    OctetsRoundTrip(x, 0, 0);
    assert Encode([x]) == [EncodeChar(a), EncodeChar(b), PAD, PAD];
    assert DecodeChar(PAD) == None;
    hide EncodeChar, DecodeChar, Octets, Encode;
    assert Octets(a, b, 0, 0)[..1] == [x];
  }

  lemma {:induction false} GroupsRoundTrip(s: Bytes)
    ensures DecodeGroups(Encode(s)) == Some(s)
  {
    hide DecodeGroups, EncodeChar, EncodeGroup;
    if |s| >= 3 {
      GroupsRoundTrip(s[3..]);
      FullGroupFirst(s[0], s[1], s[2], s[3..]);
      assert s == [s[0], s[1], s[2]] + s[3..];
    } else if |s| == 2 {
      TwoLeft(s[0], s[1]);
      assert s == [s[0], s[1]];
    } else if |s| == 1 {
      OneLeft(s[0]);
      assert s == [s[0]];
    } else {
      EmptyRoundTrip();
    }
  }

  lemma EmptyRoundTrip()
    ensures DecodeGroups(Encode([])) == Some([])
  {
  }

  lemma AlphabetHasNoBreaks(c: byte)
    requires InAlphabet(c)
    ensures c != NEWLINE && c != CARRIAGE_RETURN
  {
  }

  lemma RoundTrip(s: Bytes)
    ensures Decode(Encode(s)) == Some(s)
  {
    GroupsRoundTrip(s);
    var r := Encode(s);
    hide Encode, DecodeGroups, InAlphabet;
    forall i | 0 <= i < |r| ensures r[i] != NEWLINE && r[i] != CARRIAGE_RETURN {
      AlphabetHasNoBreaks(r[i]);
    }
  }
}
