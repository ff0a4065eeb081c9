/** An abstract stand-in for the host library's parsed JSON element: what the converter reads from
    it, and nothing about how it was produced. */
module HostJson {

  /** The kind of a host element: the seven kinds of value of section 3 of RFC 8259, plus the
      host library's `Undefined`, the kind of an element that holds no value. */
  datatype ValueKind = Undefined | Object | Array | String | Number | True | False | Null

  /** A host element. `rawText` is the element's source text; `items` is what enumerating an array
      yields and `members` what enumerating an object yields, each in document order. Only the
      field its kind selects is ever read. */
  datatype JsonElement = JsonElement(kind: ValueKind, rawText: string, items: seq<JsonElement>, members: seq<JsonProperty>)

  /** One property of an object: its unquoted name and its value. */
  datatype JsonProperty = JsonProperty(name: string, value: JsonElement)

  /** The five kinds that carry no children. */
  predicate IsScalar(kind: ValueKind) {
    kind.String? || kind.Number? || kind.True? || kind.False? || kind.Null?
  }

  /** The number of levels of the element tree below and including `e`, following only the
      children its kind selects. */
  function Depth(e: JsonElement): nat
    decreases e, 1
  {
    if e.kind.Array? then 1 + ItemsDepth(e.items)
    else if e.kind.Object? then 1 + MembersDepth(e.members)
    else 1
  }

  /** The greatest depth among `es`, or 0 when there are none. */
  function ItemsDepth(es: seq<JsonElement>): nat
    decreases es, 0
  {
    if |es| == 0 then 0
    else
      var d := Depth(es[0]);
      var rest := ItemsDepth(es[1..]);
      if d < rest then rest else d
  }

  /** The greatest depth among the values of `ms`, or 0 when there are none. */
  function MembersDepth(ms: seq<JsonProperty>): nat
    decreases ms, 0
  {
    if |ms| == 0 then 0
    else
      var d := Depth(ms[0].value);
      var rest := MembersDepth(ms[1..]);
      if d < rest then rest else d
  }
}
