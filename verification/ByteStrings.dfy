// Byte strings as the collector sees them: raw event payloads, stored spool
// lines and file contents are all sequences of octets.
module ByteStrings {

  datatype Option<+T> = None | Some(value: T)
  {
    function GetOr(default: T): T {
      if Some? then value else default
    }
  }

  type byte = b: int | 0 <= b < 256

  type Bytes = seq<byte>

  const NEWLINE: byte := 10
  const CARRIAGE_RETURN: byte := 13

  // The ASCII white space that Go's TrimSpace removes.
  predicate IsSpace(b: byte) {
    b == 32 || 9 <= b <= 13
  }

  // The first position from `from` on that holds no white space.
  function SkipSpace(s: Bytes, from: nat): (i: nat)
    requires from <= |s|
    ensures from <= i <= |s| && forall k :: from <= k < i ==> IsSpace(s[k])
    ensures i < |s| ==> !IsSpace(s[i])
    decreases |s| - from
  {
    if from < |s| && IsSpace(s[from]) then SkipSpace(s, from + 1) else from
  }

  // Where the white space at the end of s[..to] begins.
  function SkipSpaceBack(s: Bytes, to: nat): (i: nat)
    requires to <= |s|
    ensures i <= to && forall k :: i <= k < to ==> IsSpace(s[k])
    ensures 0 < i ==> !IsSpace(s[i - 1])
  {
    if 0 < to && IsSpace(s[to - 1]) then SkipSpaceBack(s, to - 1) else to
  }

  function TrimSpace(s: Bytes): Bytes {
    var first, last := SkipSpace(s, 0), SkipSpaceBack(s, |s|);
    if first < last then s[first..last] else []
  }

  // No octet of s is white space: TrimSpace cannot touch it and no line break hides in it.
  predicate SpaceFree(s: Bytes) {
    forall i :: 0 <= i < |s| ==> !IsSpace(s[i])
  }

  lemma TrimSpaceFree(s: Bytes)
    requires SpaceFree(s)
    ensures TrimSpace(s) == s
  {
  }

  // Some octet of s is not white space.
  predicate NotBlank(s: Bytes) {
    exists i :: 0 <= i < |s| && !IsSpace(s[i])
  }

  lemma TrimEmptyIff(s: Bytes)
    ensures TrimSpace(s) == [] <==> !NotBlank(s)
  {
    var first, last := SkipSpace(s, 0), SkipSpaceBack(s, |s|);
    if i :| 0 <= i < |s| && !IsSpace(s[i]) {
      assert first <= i < last;
    }
  }

  // Exactly the texts without white space at either end stay as they are.
  lemma TrimKeepsIff(s: Bytes)
    requires s != []
    ensures TrimSpace(s) == s <==> !IsSpace(s[0]) && !IsSpace(s[|s| - 1])
  {
    var first, last := SkipSpace(s, 0), SkipSpaceBack(s, |s|);
    if first < last { assert |TrimSpace(s)| == last - first; }
  }

  lemma TrimSpaceEnds(s: Bytes)
    ensures TrimSpace(s) != [] ==> !IsSpace(TrimSpace(s)[|TrimSpace(s)| - 1])
  {
  }

  predicate HasPrefix(s: Bytes, prefix: Bytes) {
    prefix <= s
  }
}
