# FracturedJson: line buffer and element converter

This project models two self-contained parts of FracturedJson, a JSON pretty-printer, in Dafny:

- **`LineWriterBuffer`** (`line_writer_buffer.dfy`). This is the output buffer the formatter writes
  into. Text is added to a pending line. Ending a line, or flushing, pushes the pending line to a
  `TextWriter` followed by an end-of-line string. When trimming is on, the line's trailing spaces
  and tabs are removed first. A completion with an empty pending line and an empty end-of-line
  string is skipped. The buffer is a record `Buffer(trimTrailingWhitespace, lineBuff, written)`.
  The writer is the append-only string `written`. Each public method is a pure transition. The
  trimming loop of `AddLineToWriter` is also modelled as a method with that loop, and is proved to
  compute the same transition.
- **`DomConverter.Convert`** (`dom_converter.dfy`, with `host_json.dfy` and `json_item.dfy`). It
  turns a host library's parsed JSON element into the formatter's `JsonItem` tree. Seven value
  kinds map to the same-named item types. Property names are wrapped in quotes. Children are
  converted in order. A scalar keeps its raw text. A container with children gets a complexity of
  one more than the largest child complexity. The host element is an abstract datatype with a kind,
  a raw text, array items and object members. Any other kind raises
  `"Unable to convert document"`, modelled as `Err`.

Main results:
- A converted item's complexity is the element's depth minus one (`Convert`). Every node of the
  converted tree obeys the complexity rule (`ConvertComplexityConsistent`).
- Conversion loses nothing: converting the element rebuilt from a converted item gives the same
  item back (`ConvertRestoreRoundTrip`).
- With trimming off, the writer ends up holding every added string and every end-of-line string
  in call order (`UntrimmedNothingLost`, `UntrimmedFlushedOutput`). With trimming on or off, only
  spaces and tabs are ever dropped (`OnlyBlanksDropped`).
- The early return in `AddLineToWriter` cannot be observed (`SkipRuleUnobservable`).

Files: `wrappers.dfy` (Option/Result), `line_writer_buffer.dfy`, `host_json.dfy` (the abstract
host element), `json_item.dfy` (the item tree and its complexity rule), `dom_converter.dfy`.

## Model

| member | source | states |
|---|---|---|
| LineWriterBuffer.Add | FracturedJson/Formatting/LineWriterBuffer.cs:26-30 | Add only appends the value to the pending line; the writer and the trimming setting are unchanged |
| LineWriterBuffer.AddTwice | FracturedJson/Formatting/LineWriterBuffer.cs:26-30 | two successive adds equal one add of the concatenation |
| LineWriterBuffer.AddAll | FracturedJson/Formatting/LineWriterBuffer.cs:35-40 | adding an array of strings one by one, in order, equals adding their concatenation |
| LineWriterBuffer.TrimEnd | FracturedJson/Formatting/LineWriterBuffer.cs:71-82 | the trimmed line is a prefix of the line, is empty or ends in neither space nor tab, and everything removed is a space or a tab |
| LineWriterBuffer.TrimmedUnique | FracturedJson/Formatting/LineWriterBuffer.cs:74-81 | the trimming predicate IsTrimmedOf admits a single result, so the longest trailing run of spaces and tabs is what goes |
| LineWriterBuffer.TrimKeepsUpToLastNonBlank | FracturedJson/Formatting/LineWriterBuffer.cs:75-81 | every character up to the last one that is not a space or tab survives, so interior whitespace and a trailing newline are kept |
| LineWriterBuffer.TrimExamples | FracturedJson/Formatting/LineWriterBuffer.cs:75-81 | "a b \t " trims to "a b"; "a \n" is unchanged; " \t" trims to "" |
| LineWriterBuffer.TrimEndIsIdempotent | FracturedJson/Formatting/LineWriterBuffer.cs:75-81 | trimming an already trimmed line changes nothing |
| LineWriterBuffer.LineBody | FracturedJson/Formatting/LineWriterBuffer.cs:71-85 | the text written for the pending line is that line trimmed when trimming is on, the line verbatim when off, and always a prefix of it |
| LineWriterBuffer.CompleteLine | FracturedJson/Formatting/LineWriterBuffer.cs:66-88 | with an empty line and an empty EOL nothing changes; otherwise the writer gets the line's body then the EOL, and the pending line is cleared |
| LineWriterBuffer.SkipRuleUnobservable | FracturedJson/Formatting/LineWriterBuffer.cs:68-69 | the early return produces exactly the state the general completion rule would |
| LineWriterBuffer.CompleteIsNoOpIff | FracturedJson/Formatting/LineWriterBuffer.cs:68-69 | completion leaves the buffer unchanged if and only if the pending line and the EOL are both empty |
| LineWriterBuffer.EndLine | FracturedJson/Formatting/LineWriterBuffer.cs:46-50 | EndLine clears the pending line and appends to the writer: with trimming, a body satisfying IsTrimmedOf (the line minus its trailing spaces and tabs) then the EOL; without, the line verbatim then the EOL |
| LineWriterBuffer.Flush | FracturedJson/Formatting/LineWriterBuffer.cs:55-60 | Flush completes a partial line with no EOL and clears the pending line |
| LineWriterBuffer.FlushTwice | FracturedJson/Formatting/LineWriterBuffer.cs:55-60 | a second Flush in a row changes nothing |
| LineWriterBuffer.FlushBlankLine | FracturedJson/Formatting/LineWriterBuffer.cs:66-88 | with trimming on, flushing a line of only spaces and tabs writes nothing but still clears the line |
| LineWriterBuffer.AddLineToWriter | FracturedJson/Formatting/LineWriterBuffer.cs:66-88 | the imperative trimming loop computes the same transition as CompleteLine |
| LineWriterBuffer.RunAppendsOnly | FracturedJson/Formatting/LineWriterBuffer.cs:85-86 | over any sequence of calls the writer's earlier contents are kept as a prefix, and the trimming setting never changes |
| LineWriterBuffer.UntrimmedNothingLost | FracturedJson/Formatting/LineWriterBuffer.cs:26-88 | with trimming off, the writer followed by the pending line is always the initial contents followed by every added string and every EOL, in call order |
| LineWriterBuffer.UntrimmedFlushedOutput | FracturedJson/Formatting/LineWriterBuffer.cs:55-88 | with trimming off, after a final Flush the writer holds every added string and EOL in call order and the pending line is empty |
| LineWriterBuffer.OnlyBlanksDropped | FracturedJson/Formatting/LineWriterBuffer.cs:26-88 | with trimming on or off, once spaces and tabs are deleted, the writer followed by the pending line is the initial contents followed by all the calls' text |
| DomConverter.ItemTypeOf | FracturedJson/Parsing/DomConverter.cs:18-28 | a kind has an item type exactly when it is not the undefined kind |
| DomConverter.KindMappingIsBijective | FracturedJson/Parsing/DomConverter.cs:18-28 | the kind-to-type mapping pairs each of the seven kinds with the same-named type, one to one |
| DomConverter.ConvertKindMapping | FracturedJson/Parsing/DomConverter.cs:18-28 | any other kind raises the conversion error; on success Array, Object, String, Number, True, False and Null each become the same-named type |
| DomConverter.Quote | FracturedJson/Parsing/DomConverter.cs:33 | a quoted name is the name between two double quotes, unescaped, two characters longer |
| DomConverter.NameOf | FracturedJson/Parsing/DomConverter.cs:33 | a null property name gives an empty item name; any other name gives the quoted name |
| DomConverter.QuoteInjective | FracturedJson/Parsing/DomConverter.cs:33 | distinct property names give distinct item names |
| DomConverter.Convert | FracturedJson/Parsing/DomConverter.cs:16-47 | succeeds exactly when no visited element has an undefined kind, failing with "Unable to convert document"; sets the type and the name; a scalar gets its raw text and no children; a container gets no value and one child per element or property; the complexity is the element's depth minus one |
| DomConverter.ConvertChildren | FracturedJson/Parsing/DomConverter.cs:36-41 | an array converts its items, an object its members, and a scalar has no children; when children exist, their largest complexity plus two is the element's depth |
| DomConverter.ConvertItems | FracturedJson/Parsing/DomConverter.cs:37 | the array's elements convert exactly when each is convertible; the result has one item per element, and its largest complexity is one less than the largest element depth |
| DomConverter.ConvertMembers | FracturedJson/Parsing/DomConverter.cs:39 | the object's property values convert exactly when each is convertible; the result has one item per property, and its largest complexity is one less than the largest value depth |
| DomConverter.Assemble | FracturedJson/Parsing/DomConverter.cs:43-44 | with no children the complexity keeps its default 0; with children it exceeds every child's and is one more than some child's |
| DomConverter.ConvertItemsElementwise | FracturedJson/Parsing/DomConverter.cs:37 | item i of a converted array sequence is element i converted without a name |
| DomConverter.ConvertMembersElementwise | FracturedJson/Parsing/DomConverter.cs:39 | item i of a converted property sequence is property i's value converted under its name |
| DomConverter.ConvertArrayChildren | FracturedJson/Parsing/DomConverter.cs:36-37 | an array item's children keep the elements' number and order, each converted with a null name and so with an empty name |
| DomConverter.ConvertObjectChildren | FracturedJson/Parsing/DomConverter.cs:38-39 | an object item's children keep the properties' order, and child i carries the quoted name of property i |
| DomConverter.ConvertChildrenSimpler | FracturedJson/Parsing/DomConverter.cs:43-44 | a converted item's complexity is strictly greater than each of its children's |
| DomConverter.ConvertComplexityConsistent | FracturedJson/Parsing/DomConverter.cs:43-44 | every node of a converted tree has complexity 0 without children and one more than its children's maximum with them |
| DomConverter.RestoreAfterConvert | FracturedJson/Parsing/DomConverter.cs:16-47 | rebuilding an element from a converted item gives back the kind, the scalars' raw text, the child order and the property names of the input |
| DomConverter.ConvertNormalize | FracturedJson/Parsing/DomConverter.cs:16-47 | conversion reads only the kind, a scalar's raw text and the children its kind selects |
| DomConverter.ConvertRestoreRoundTrip | FracturedJson/Parsing/DomConverter.cs:16-47 | converting the element rebuilt from a converted item reproduces that item |
| JsonItems.MaxComplexity | FracturedJson/Parsing/DomConverter.cs:44 | the maximum child complexity is at least every child's and equal to some child's |
| JsonItems.ComplexityDecreasesDownward | FracturedJson/Parsing/DomConverter.cs:43-44 | in a tree that obeys the complexity rule, no descendant is more complex than its ancestor, and every proper descendant is less complex |

## Left out

- The `TextWriter` is the string `written`. Its own `Flush()` (LineWriterBuffer.cs:58) is I/O and a no-op of the model. A write that fails is not modelled.
- The `IBuffer` interface and the `return this` chaining carry no behaviour and are not modelled.
- The host library's element (`JsonElement`, `ValueKind`, `EnumerateArray`, `EnumerateObject`, `GetRawText`) is foreign code. It is the abstract datatype `HostJson.JsonElement`. How raw text is produced is not modelled.
- The `?? throw new FracturedJsonException("Logic error converting doc")` branch (DomConverter.cs:41) is not modelled. The model's raw text is never null, so that branch is unreachable.
- The `JsonItem` class is not part of this model. Only the five fields that `Convert` assigns are kept. Its defaults are taken as an empty value, no children and complexity 0.
- Property names are quoted without escaping, as the code does. A name holding `"` or `\` therefore yields an item name that is not a valid JSON string. The model keeps this behaviour.
- Complexity is an unbounded `nat`. The source's 32-bit `int` could overflow only at a nesting depth of about 2^31, which no document reaches.
- The exception thrown by a failing conversion is `Err("Unable to convert document")`. The model does not distinguish which element failed. It does follow the source's left-to-right order, so the first failure ends the conversion.
- The layout engine, the comment and blank-line handling, and the tests of tables, comments and object serialization exercise code outside these two files, so they are not modelled.
