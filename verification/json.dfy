/** JSON documents as values: the model of what `encoding/json` writes and
    reads, without the text syntax. Objects keep their members in order, as
    they appear on the wire. */
module Json {

  /** A JSON number: an integer literal, or any other literal (fraction or
      exponent) kept as the opaque bits of the float64 it denotes. */
  datatype Number = Int(value: int) | Float(bits: bv64)

  datatype Json =
    | Null
    | Bool(b: bool)
    | Num(n: Number)
    | Str(s: string)
    | Arr(items: seq<Json>)
    | Obj(members: seq<Member>)

  datatype Member = Member(key: string, value: Json)

  /** The keys of an object, in wire order. */
  function Keys(members: seq<Member>): (keys: seq<string>)
    ensures |keys| == |members|
    ensures forall i :: 0 <= i < |members| ==> keys[i] == members[i].key
  {
    seq(|members|, i requires 0 <= i < |members| => members[i].key)
  }

  /** A JSON array of strings, in order. */
  function Strings(ss: seq<string>): (j: Json)
    ensures j.Arr? && |j.items| == |ss|
    ensures forall i :: 0 <= i < |ss| ==> j.items[i] == Str(ss[i])
  {
    Arr(seq(|ss|, i requires 0 <= i < |ss| => Str(ss[i])))
  }
}
