/** A model of the conversion from a host library's JSON element to the formatter's item tree. */
module DomConverter {
  import opened Wrappers
  import opened HostJson
  import I = JsonItems

  /** The message of the exception raised for an element the formatter cannot represent. */
  const ConvertError: string := "Unable to convert document"

  /** The item type a value kind maps to, or None for a kind with no item type. */
  function ItemTypeOf(kind: ValueKind): (t: Option<I.JsonItemType>)
    ensures t.None? <==> kind.Undefined?
  {
    match kind
    case Array => Some(I.JsonItemType.Array)
    case Object => Some(I.JsonItemType.Object)
    case String => Some(I.JsonItemType.String)
    case Number => Some(I.JsonItemType.Number)
    case True => Some(I.JsonItemType.True)
    case False => Some(I.JsonItemType.False)
    case Null => Some(I.JsonItemType.Null)
    case Undefined => None
  }

  /** The value kind an item type comes from: an independent statement of the same naming. */
  function KindOf(t: I.JsonItemType): ValueKind {
    match t
    case Array => Array
    case Object => Object
    case String => String
    case Number => Number
    case True => True
    case False => False
    case Null => Null
  }

  /** The mapping of kinds to item types is a bijection between the seven value kinds and the
      seven item types: each kind maps to the same-named type and back. */
  lemma KindMappingIsBijective(kind: ValueKind, t: I.JsonItemType)
    ensures ItemTypeOf(KindOf(t)) == Some(t)
    ensures ItemTypeOf(kind) == Some(t) <==> kind == KindOf(t)
  {
  }

  /** A property name wrapped in double quotes, with no escaping of its contents. */
  function Quote(name: string): (q: string)
    ensures |q| == |name| + 2
    ensures q[0] == '"' && q[|q| - 1] == '"'
    ensures q[1..|q| - 1] == name
  {
    ['"'] + name + ['"']
  }

  /** The name given to an item: empty for a null property name, the quoted name otherwise. */
  function NameOf(propName: Option<string>): (n: string)
    ensures propName.None? ==> n == []
    ensures propName.Some? ==> n == Quote(propName.value)
  {
    match propName
    case None => []
    case Some(p) => Quote(p)
  }

  /** Quoting loses nothing: distinct names give distinct item names. */
  lemma QuoteInjective(a: string, b: string)
    requires Quote(a) == Quote(b)
    ensures a == b
  {
  }

  /** Whether the converter succeeds on `e`: neither `e` nor any element it visits is of a kind
      without an item type. */
  predicate Convertible(e: JsonElement)
    decreases e
  {
    && !e.kind.Undefined?
    && (e.kind.Array? ==> forall i :: 0 <= i < |e.items| ==> Convertible(e.items[i]))
    && (e.kind.Object? ==> forall i :: 0 <= i < |e.members| ==> Convertible(e.members[i].value))
  }

  /** Convert(elem, propName): map the element's kind to an item type, or fail; name the item after
      the property; convert the children of a container in order (array elements without a name,
      object properties under their names) or take a scalar's raw text as its value; and give a
      container with children a complexity one more than the largest among them. */
  function Convert(e: JsonElement, propName: Option<string>): (r: Result<I.JsonItem>)
    ensures r.Ok? <==> Convertible(e)
    ensures r.Err? ==> r.message == ConvertError
    ensures r.Ok? ==> ItemTypeOf(e.kind) == Some(r.value.itemType)
    ensures r.Ok? ==> r.value.name == NameOf(propName)
    ensures r.Ok? && IsScalar(e.kind) ==> r.value.value == e.rawText && r.value.children == []
    ensures r.Ok? && e.kind.Array? ==> r.value.value == [] && |r.value.children| == |e.items|
    ensures r.Ok? && e.kind.Object? ==> r.value.value == [] && |r.value.children| == |e.members|
    ensures r.Ok? ==> r.value.complexity + 1 == Depth(e)
    decreases e, 2
  {
    match ItemTypeOf(e.kind)
    case None => Err(ConvertError)
    case Some(itemType) =>
      match ConvertChildren(e)
      case Err(msg) => Err(msg)
      case Ok(children) => Ok(Assemble(itemType, NameOf(propName), ScalarValue(e), children))
  }

  /** The item's literal text: a scalar's raw text; a container's value is never assigned. */
  function ScalarValue(e: JsonElement): string {
    if e.kind.Array? || e.kind.Object? then [] else e.rawText
  }

  /** The converted children the element's kind selects; none for a scalar. */
  function ConvertChildren(e: JsonElement): (r: Result<seq<I.JsonItem>>)
    ensures r.Ok? <==>
      (e.kind.Array? ==> forall i :: 0 <= i < |e.items| ==> Convertible(e.items[i]))
      && (e.kind.Object? ==> forall i :: 0 <= i < |e.members| ==> Convertible(e.members[i].value))
    ensures r.Err? ==> r.message == ConvertError
    ensures r.Ok? && e.kind.Array? ==> |r.value| == |e.items|
    ensures r.Ok? && e.kind.Object? ==> |r.value| == |e.members|
    ensures r.Ok? && !e.kind.Array? && !e.kind.Object? ==> r.value == []
    ensures r.Ok? && r.value != [] ==> I.MaxComplexity(r.value) + 2 == Depth(e)
    decreases e, 1
  {
    if e.kind.Array? then ConvertItems(e.items)
    else if e.kind.Object? then ConvertMembers(e.members)
    else Ok([])
  }

  /** The item built from its parts; a complexity is assigned only when there are children. */
  function Assemble(itemType: I.JsonItemType, name: string, value: string, children: seq<I.JsonItem>): (item: I.JsonItem)
    ensures item.itemType == itemType && item.name == name && item.value == value && item.children == children
    ensures children == [] ==> item.complexity == 0
    ensures forall i :: 0 <= i < |children| ==> children[i].complexity < item.complexity
    ensures children != [] ==> exists i :: 0 <= i < |children| && item.complexity == children[i].complexity + 1
  {
    var complexity := if |children| > 0 then I.MaxComplexity(children) + 1 else 0;
    I.JsonItem(itemType, name, value, children, complexity)
  }

  /** The elements of an array, each converted without a name, in order; the first failure fails
      the whole sequence. */
  function ConvertItems(es: seq<JsonElement>): (r: Result<seq<I.JsonItem>>)
    ensures r.Ok? <==> forall i :: 0 <= i < |es| ==> Convertible(es[i])
    ensures r.Err? ==> r.message == ConvertError
    ensures r.Ok? ==>
      && |r.value| == |es|
      && (|es| > 0 ==> I.MaxComplexity(r.value) + 1 == ItemsDepth(es))
    decreases es, 0
  {
    if |es| == 0 then Ok([])
    else
      match Convert(es[0], None)
      case Err(msg) => Err(msg)
      case Ok(head) =>
        match ConvertItems(es[1..])
        case Err(msg) => Err(msg)
        case Ok(tail) =>
          var r := [head] + tail;
          assert r[1..] == tail;
          assert forall i :: 1 <= i < |es| ==> es[i] == es[1..][i - 1];
          Ok(r)
  }

  /** The properties of an object, each value converted under its property's name, in order; the
      first failure fails the whole sequence. */
  function ConvertMembers(ms: seq<JsonProperty>): (r: Result<seq<I.JsonItem>>)
    ensures r.Ok? <==> forall i :: 0 <= i < |ms| ==> Convertible(ms[i].value)
    ensures r.Err? ==> r.message == ConvertError
    ensures r.Ok? ==>
      && |r.value| == |ms|
      && (|ms| > 0 ==> I.MaxComplexity(r.value) + 1 == MembersDepth(ms))
    decreases ms, 0
  {
    if |ms| == 0 then Ok([])
    else
      match Convert(ms[0].value, Some(ms[0].name))
      case Err(msg) => Err(msg)
      case Ok(head) =>
        match ConvertMembers(ms[1..])
        case Err(msg) => Err(msg)
        case Ok(tail) =>
          var r := [head] + tail;
          assert r[1..] == tail;
          assert forall i :: 1 <= i < |ms| ==> ms[i] == ms[1..][i - 1];
          Ok(r)
  }

  /** Converting a sequence of array elements converts each of them on its own, without a name,
      and keeps their order. */
  lemma {:induction false} ConvertItemsElementwise(es: seq<JsonElement>)
    requires ConvertItems(es).Ok?
    ensures forall i :: 0 <= i < |es| ==> Convert(es[i], None) == Ok(ConvertItems(es).value[i])
    decreases es
  {
    if |es| > 0 {
      ConvertItemsElementwise(es[1..]);
      var r := ConvertItems(es).value;
      assert r[1..] == ConvertItems(es[1..]).value;
      forall i | 1 <= i < |es|
        ensures Convert(es[i], None) == Ok(r[i])
      {
        assert es[i] == es[1..][i - 1];
        assert r[i] == r[1..][i - 1];
      }
    }
  }

  /** Converting a sequence of object properties converts each value on its own, under its
      property's name, and keeps their order. */
  lemma {:induction false} ConvertMembersElementwise(ms: seq<JsonProperty>)
    requires ConvertMembers(ms).Ok?
    ensures forall i :: 0 <= i < |ms| ==>
      Convert(ms[i].value, Some(ms[i].name)) == Ok(ConvertMembers(ms).value[i])
    decreases ms
  {
    if |ms| > 0 {
      ConvertMembersElementwise(ms[1..]);
      var r := ConvertMembers(ms).value;
      assert r[1..] == ConvertMembers(ms[1..]).value;
      forall i | 1 <= i < |ms|
        ensures Convert(ms[i].value, Some(ms[i].name)) == Ok(r[i])
      {
        assert ms[i] == ms[1..][i - 1];
        assert r[i] == r[1..][i - 1];
      }
    }
  }

  /** The children of a converted array are its elements converted in order, each without a name,
      so each child's name is empty. */
  lemma ConvertArrayChildren(e: JsonElement, propName: Option<string>)
    requires e.kind.Array? && Convert(e, propName).Ok?
    ensures var item := Convert(e, propName).value;
      && |item.children| == |e.items|
      && forall i :: 0 <= i < |e.items| ==>
           Convert(e.items[i], None) == Ok(item.children[i]) && item.children[i].name == []
  {
    ConvertItemsElementwise(e.items);
  }

  /** The children of a converted object are its property values converted in order, and child i
      carries the quoted name of property i. */
  lemma ConvertObjectChildren(e: JsonElement, propName: Option<string>)
    requires e.kind.Object? && Convert(e, propName).Ok?
    ensures var item := Convert(e, propName).value;
      && |item.children| == |e.members|
      && forall i :: 0 <= i < |e.members| ==>
           && Convert(e.members[i].value, Some(e.members[i].name)) == Ok(item.children[i])
           && item.children[i].name == Quote(e.members[i].name)
  {
    ConvertMembersElementwise(e.members);
  }

  /** Each of the seven value kinds becomes the same-named item type; any other kind raises the
      conversion error and produces no item. */
  lemma ConvertKindMapping(e: JsonElement, propName: Option<string>)
    ensures e.kind.Undefined? ==> Convert(e, propName) == Err(ConvertError)
    ensures Convert(e, propName).Ok? ==>
      var t := Convert(e, propName).value.itemType;
      && (e.kind.Array? <==> t.Array?)
      && (e.kind.Object? <==> t.Object?)
      && (e.kind.String? <==> t.String?)
      && (e.kind.Number? <==> t.Number?)
      && (e.kind.True? <==> t.True?)
      && (e.kind.False? <==> t.False?)
      && (e.kind.Null? <==> t.Null?)
  {
  }

  /** A converted item is strictly more complex than each of its children. */
  lemma ConvertChildrenSimpler(e: JsonElement, propName: Option<string>)
    requires Convert(e, propName).Ok?
    ensures var item := Convert(e, propName).value;
      forall i :: 0 <= i < |item.children| ==> item.children[i].complexity < item.complexity
  {
  }

  /** Every item of a converted tree obeys the complexity rule: 0 without children, one more than
      the largest child complexity with them. */
  lemma {:induction false} ConvertComplexityConsistent(e: JsonElement, propName: Option<string>)
    requires Convert(e, propName).Ok?
    ensures I.ComplexityConsistent(Convert(e, propName).value)
    decreases e
  {
    var item := Convert(e, propName).value;
    if e.kind.Array? {
      ConvertItemsElementwise(e.items);
      forall i | 0 <= i < |item.children|
        ensures I.ComplexityConsistent(item.children[i])
      {
        ConvertComplexityConsistent(e.items[i], None);
      }
    } else if e.kind.Object? {
      ConvertMembersElementwise(e.members);
      forall i | 0 <= i < |item.children|
        ensures I.ComplexityConsistent(item.children[i])
      {
        ConvertComplexityConsistent(e.members[i].value, Some(e.members[i].name));
      }
    }
  }

  /** The part of an element the converter reads: the kind, the raw text of a scalar, and the
      children its kind selects, themselves reduced the same way. */
  function Normalize(e: JsonElement): JsonElement
    decreases e, 1
  {
    if e.kind.Array? then JsonElement(e.kind, [], NormalizeItems(e.items), [])
    else if e.kind.Object? then JsonElement(e.kind, [], [], NormalizeMembers(e.members))
    else JsonElement(e.kind, e.rawText, [], [])
  }

  function NormalizeItems(es: seq<JsonElement>): seq<JsonElement>
    decreases es, 0
  {
    if |es| == 0 then [] else [Normalize(es[0])] + NormalizeItems(es[1..])
  }

  function NormalizeMembers(ms: seq<JsonProperty>): seq<JsonProperty>
    decreases ms, 0
  {
    if |ms| == 0 then []
    else [JsonProperty(ms[0].name, Normalize(ms[0].value))] + NormalizeMembers(ms[1..])
  }

  /** A quoted name with its quotes removed. */
  function Unquote(q: string): string {
    if |q| >= 2 then q[1..|q| - 1] else q
  }

  /** Rebuild a host element from an item: the inverse of Convert on its image. */
  function Restore(item: I.JsonItem): JsonElement
    decreases item, 1
  {
    var kind := KindOf(item.itemType);
    if kind.Array? then JsonElement(kind, [], RestoreItems(item.children), [])
    else if kind.Object? then JsonElement(kind, [], [], RestoreMembers(item.children))
    else JsonElement(kind, item.value, [], [])
  }

  function RestoreItems(items: seq<I.JsonItem>): seq<JsonElement>
    decreases items, 0
  {
    if |items| == 0 then [] else [Restore(items[0])] + RestoreItems(items[1..])
  }

  function RestoreMembers(items: seq<I.JsonItem>): seq<JsonProperty>
    decreases items, 0
  {
    if |items| == 0 then []
    else [JsonProperty(Unquote(items[0].name), Restore(items[0]))] + RestoreMembers(items[1..])
  }

  /** Nothing the converter reads is lost: restoring a converted item gives back the element, up to
      the fields its kind leaves unread. */
  lemma {:induction false} RestoreAfterConvert(e: JsonElement, propName: Option<string>)
    requires Convert(e, propName).Ok?
    ensures Restore(Convert(e, propName).value) == Normalize(e)
    decreases e, 1
  {
    var item := Convert(e, propName).value;
    KindMappingIsBijective(e.kind, item.itemType);
    if e.kind.Array? {
      RestoreItemsAfterConvert(e.items);
    } else if e.kind.Object? {
      RestoreMembersAfterConvert(e.members);
    }
  }

  lemma {:induction false} RestoreItemsAfterConvert(es: seq<JsonElement>)
    requires ConvertItems(es).Ok?
    ensures RestoreItems(ConvertItems(es).value) == NormalizeItems(es)
    decreases es, 0
  {
    if |es| > 0 {
      var r := ConvertItems(es).value;
      assert r[1..] == ConvertItems(es[1..]).value;
      RestoreAfterConvert(es[0], None);
      RestoreItemsAfterConvert(es[1..]);
    }
  }

  lemma {:induction false} RestoreMembersAfterConvert(ms: seq<JsonProperty>)
    requires ConvertMembers(ms).Ok?
    ensures RestoreMembers(ConvertMembers(ms).value) == NormalizeMembers(ms)
    decreases ms, 0
  {
    if |ms| > 0 {
      var r := ConvertMembers(ms).value;
      assert r[1..] == ConvertMembers(ms[1..]).value;
      assert Unquote(r[0].name) == ms[0].name;
      RestoreAfterConvert(ms[0].value, Some(ms[0].name));
      RestoreMembersAfterConvert(ms[1..]);
    }
  }

  /** The converter reads nothing beyond the normalized element. */
  lemma {:induction false} ConvertNormalize(e: JsonElement, propName: Option<string>)
    ensures Convert(Normalize(e), propName) == Convert(e, propName)
    decreases e, 1
  {
    if e.kind.Array? {
      ConvertItemsNormalize(e.items);
    } else if e.kind.Object? {
      ConvertMembersNormalize(e.members);
    }
    ConvertCongruent(Normalize(e), e, propName);
  }

  /** Two elements that agree on kind, on a scalar's raw text and on the conversion of the children
      their kind selects convert alike. */
  lemma ConvertCongruent(a: JsonElement, b: JsonElement, propName: Option<string>)
    requires a.kind == b.kind
    requires IsScalar(a.kind) ==> a.rawText == b.rawText
    requires a.kind.Array? ==> ConvertItems(a.items) == ConvertItems(b.items)
    requires a.kind.Object? ==> ConvertMembers(a.members) == ConvertMembers(b.members)
    ensures Convert(a, propName) == Convert(b, propName)
  {
  }

  lemma {:induction false} ConvertItemsNormalize(es: seq<JsonElement>)
    ensures ConvertItems(NormalizeItems(es)) == ConvertItems(es)
    decreases es, 0
  {
    if |es| > 0 {
      var ns := NormalizeItems(es);
      assert ns[0] == Normalize(es[0]) && ns[1..] == NormalizeItems(es[1..]);
      ConvertNormalize(es[0], None);
      ConvertItemsNormalize(es[1..]);
    }
  }

  lemma {:induction false} ConvertMembersNormalize(ms: seq<JsonProperty>)
    ensures ConvertMembers(NormalizeMembers(ms)) == ConvertMembers(ms)
    decreases ms, 0
  {
    if |ms| > 0 {
      var ns := NormalizeMembers(ms);
      assert ns[0] == JsonProperty(ms[0].name, Normalize(ms[0].value));
      assert ns[1..] == NormalizeMembers(ms[1..]);
      ConvertNormalize(ms[0].value, Some(ms[0].name));
      ConvertMembersNormalize(ms[1..]);
    }
  }

  /** Round trip: converting the element restored from a converted item gives the same item. */
  lemma ConvertRestoreRoundTrip(e: JsonElement, propName: Option<string>)
    requires Convert(e, propName).Ok?
    ensures Convert(Restore(Convert(e, propName).value), propName) == Convert(e, propName)
  {
    RestoreAfterConvert(e, propName);
    ConvertNormalize(e, propName);
  }
}
