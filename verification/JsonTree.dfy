// Decoded JSON. An object is its members in the order in which a traversal
// meets them; Go's map order is arbitrary, so what is proved for every order
// holds for whichever one a run takes.
module JsonTree {
  import opened ByteStrings
  import Strings

  datatype Json =
    | Scalar(text: string)          // null, booleans and numbers
    | Text(s: string)
    | Array(items: seq<Json>)
    | Object(members: seq<Member>)

  // The octets of a character in UTF-8, and of a text: what Go's len counts.
  function Octets(c: char): nat {
    if c as int < 0x80 then 1 else if c as int < 0x800 then 2 else if c as int < 0x1_0000 then 3 else 4
  }

  function ByteLength(s: string): nat {
    if s == "" then 0 else Octets(s[0]) + ByteLength(s[1..])
  }

  lemma OctetWidths()
    ensures ByteLength("a") == 1 && ByteLength("\U{e9}") == 2 && ByteLength("\U{20ac}") == 3 && ByteLength("\U{1f600}") == 4
  {
    assert ByteLength("") == 0;
    assert "a"[1..] == "" && "\U{e9}"[1..] == "" && "\U{20ac}"[1..] == "" && "\U{1f600}"[1..] == "";
  }

  datatype Member = Member(key: string, value: Json)

  // A place in a tree: which member or item to enter, level by level.
  type Place = seq<nat>

  function Lookup(j: Json, at: Place): Option<Json>
    decreases at
  {
    if at == [] then Some(j)
    else
      match j
      case Object(ms) => if at[0] < |ms| then Lookup(ms[at[0]].value, at[1..]) else None
      case Array(items) => if at[0] < |items| then Lookup(items[at[0]], at[1..]) else None
      case _ => None
  }

  function MemberPath(path: string, key: string): string {
    if path == "" then key else path + "." + key
  }

  function ItemPath(path: string, i: nat): string {
    path + "[" + Strings.Digits(i) + "]"
  }

  // The printed path of a place, below a value whose own path is given.
  function PathOf(j: Json, at: Place, path: string): string
    decreases at
  {
    if at == [] then path
    else
      match j
      case Object(ms) => if at[0] < |ms| then PathOf(ms[at[0]].value, at[1..], MemberPath(path, ms[at[0]].key)) else path
      case Array(items) => if at[0] < |items| then PathOf(items[at[0]], at[1..], ItemPath(path, at[0])) else path
      case _ => path
  }
}
