/** A model of the line-composing output buffer: text is accumulated into a pending line, and each
    completed line is pushed, optionally stripped of its trailing spaces and tabs, to a writer.

    The writer is an append-only sequence of characters; the buffer is an immutable record and every
    operation of the buffer is a pure transition from one record to the next. */
module LineWriterBuffer {

  /** The two characters that trailing-whitespace trimming removes. */
  predicate IsTrailingBlank(c: char) {
    c == ' ' || c == '\t'
  }

  /** `body` is `line` with its longest suffix of spaces and tabs removed: a prefix of `line` that is
      empty or ends in something else, such that everything after it is a space or a tab. */
  ghost predicate IsTrimmedOf(line: string, body: string) {
    && body <= line
    && (body == [] || !IsTrailingBlank(body[|body| - 1]))
    && forall k :: |body| <= k < |line| ==> IsTrailingBlank(line[k])
  }

  /** There is only one way to trim a line. */
  lemma TrimmedUnique(line: string, a: string, b: string)
    requires IsTrimmedOf(line, a) && IsTrimmedOf(line, b)
    ensures a == b
  {
  }

  /** Reference definition of trimming: drop spaces and tabs from the end, one at a time. */
  function TrimEnd(line: string): (body: string)
    ensures IsTrimmedOf(line, body)
    decreases |line|
  {
    if |line| > 0 && IsTrailingBlank(line[|line| - 1]) then TrimEnd(line[..|line| - 1]) else line
  }

  /** Trimming keeps every character up to and including the last one that is neither a space nor a
      tab: interior whitespace, and any other trailing character such as a newline, survive. */
  lemma TrimKeepsUpToLastNonBlank(line: string, i: nat)
    requires i < |line| && !IsTrailingBlank(line[i])
    ensures line[..i + 1] <= TrimEnd(line)
  {
  }

  /** Examples: spaces and tabs at the end go; a newline at the end, and the spaces before a
      letter, stay. */
  lemma TrimExamples()
    ensures TrimEnd("a b \t ") == "a b"
    ensures TrimEnd("a \n") == "a \n"
    ensures TrimEnd(" \t") == ""
  {
    assert IsTrimmedOf("a b \t ", "a b");
    TrimmedUnique("a b \t ", "a b", TrimEnd("a b \t "));
    assert IsTrimmedOf("a \n", "a \n");
    TrimmedUnique("a \n", "a \n", TrimEnd("a \n"));
    assert IsTrimmedOf(" \t", "");
    TrimmedUnique(" \t", "", TrimEnd(" \t"));
  }

  /** Trimming a trimmed line changes nothing. */
  lemma TrimEndIsIdempotent(line: string)
    ensures TrimEnd(TrimEnd(line)) == TrimEnd(line)
  {
  }

  /** The buffer's state: whether trailing whitespace is trimmed (fixed at construction), the
      pending line (`_lineBuff`) and everything written to the writer so far. */
  datatype Buffer = Buffer(trimTrailingWhitespace: bool, lineBuff: string, written: string)

  /** Add(value): append `value` to the pending line; the writer sees nothing. */
  function Add(b: Buffer, value: string): (r: Buffer)
    ensures r.lineBuff == b.lineBuff + value
    ensures r.written == b.written && r.trimTrailingWhitespace == b.trimTrailingWhitespace
  {
    b.(lineBuff := b.lineBuff + value)
  }

  /** Adding two strings one after the other is the same as adding their concatenation. */
  lemma AddTwice(b: Buffer, x: string, y: string)
    ensures Add(Add(b, x), y) == Add(b, x + y)
  {
  }

  /** The concatenation of a sequence of strings, in order. */
  function Concat(values: seq<string>): string {
    if |values| == 0 then [] else values[0] + Concat(values[1..])
  }

  /** Concatenation distributes over appending sequences of strings. */
  lemma {:induction false} ConcatAppend(xs: seq<string>, ys: seq<string>)
    ensures Concat(xs + ys) == Concat(xs) + Concat(ys)
    decreases |xs|
  {
    if |xs| == 0 {
      assert xs + ys == ys;
    } else {
      assert (xs + ys)[1..] == xs[1..] + ys;
      ConcatAppend(xs[1..], ys);
    }
  }

  /** Add(params values): add each string in turn, in array order. */
  function AddAll(b: Buffer, values: seq<string>): (r: Buffer)
    ensures r == Add(b, Concat(values))
    decreases |values|
  {
    if |values| == 0 then
      assert b.lineBuff + [] == b.lineBuff;
      b
    else
      AddTwice(b, values[0], Concat(values[1..]));
      AddAll(Add(b, values[0]), values[1..])
  }

  /** The text pushed to the writer for the pending line: the line as it is, or trimmed. */
  function LineBody(b: Buffer): (body: string)
    ensures b.trimTrailingWhitespace ==> IsTrimmedOf(b.lineBuff, body)
    ensures !b.trimTrailingWhitespace ==> body == b.lineBuff
    ensures body <= b.lineBuff
  {
    if b.trimTrailingWhitespace then TrimEnd(b.lineBuff) else b.lineBuff
  }

  /** AddLineToWriter(eol): unless both the pending line and `eol` are empty, write the line's body
      and then `eol` to the writer and clear the pending line. */
  function CompleteLine(b: Buffer, eol: string): (r: Buffer)
    ensures b.lineBuff == [] && eol == [] ==> r == b
    ensures r.lineBuff == [] && r.trimTrailingWhitespace == b.trimTrailingWhitespace
    ensures r.written == b.written + LineBody(b) + eol
  {
    if b.lineBuff == [] && eol == [] then
      assert b.written + [] + [] == b.written;
      b
    else
      b.(lineBuff := [], written := b.written + LineBody(b) + eol)
  }

  /** The early return of AddLineToWriter changes nothing observable: completing always leaves an
      empty pending line and appends the body and `eol`, whether or not the early return is taken. */
  lemma SkipRuleUnobservable(b: Buffer, eol: string)
    ensures CompleteLine(b, eol) == b.(lineBuff := [], written := b.written + LineBody(b) + eol)
  {
  }

  /** Completion leaves the buffer exactly as it was if and only if the pending line and `eol` are
      both empty. */
  lemma CompleteIsNoOpIff(b: Buffer, eol: string)
    ensures CompleteLine(b, eol) == b <==> (b.lineBuff == [] && eol == [])
  {
  }

  /** EndLine(eol) with trimming on: the writer receives the pending line minus its maximal suffix
      of spaces and tabs, followed by `eol`; the pending line becomes empty. */
  function EndLine(b: Buffer, eol: string): (r: Buffer)
    ensures r.lineBuff == [] && r.trimTrailingWhitespace == b.trimTrailingWhitespace
    ensures b.written <= r.written
    ensures b.trimTrailingWhitespace ==>
      exists body :: r.written == b.written + body + eol && IsTrimmedOf(b.lineBuff, body)
    ensures !b.trimTrailingWhitespace ==> r.written == b.written + b.lineBuff + eol
  {
    var r := CompleteLine(b, eol);
    assert r.written == b.written + LineBody(b) + eol;
    r
  }

  /** Flush(): complete a partial line without an end-of-line string. The writer's own flush is a
      no-op of the model. */
  function Flush(b: Buffer): (r: Buffer)
    ensures r.lineBuff == [] && r.trimTrailingWhitespace == b.trimTrailingWhitespace
    ensures r.written == b.written + LineBody(b)
  {
    CompleteLine(b, [])
  }

  /** Flushing twice in a row writes nothing the second time. */
  lemma FlushTwice(b: Buffer)
    ensures Flush(Flush(b)) == Flush(b)
  {
  }

  /** With trimming on, a pending line of only spaces and tabs is discarded by Flush: nothing is
      written, yet the pending line is cleared. */
  lemma FlushBlankLine(b: Buffer)
    requires b.trimTrailingWhitespace
    requires forall k :: 0 <= k < |b.lineBuff| ==> IsTrailingBlank(b.lineBuff[k])
    ensures Flush(b).written == b.written && Flush(b).lineBuff == []
  {
  }

  /** The imperative AddLineToWriter: the trimming loop walks back from the end of the pending
      line past spaces and tabs. It computes the same transition as CompleteLine. */
  method AddLineToWriter(b: Buffer, eol: string) returns (r: Buffer)
    ensures r == CompleteLine(b, eol)
  {
    if |b.lineBuff| == 0 && |eol| == 0 {
      return b;
    }
    var line := b.lineBuff;
    var newLength := |line|;
    if b.trimTrailingWhitespace {
      while newLength > 0
        invariant 0 <= newLength <= |line|
        invariant forall k :: newLength <= k < |line| ==> IsTrailingBlank(line[k])
      {
        var ch := line[newLength - 1];
        if !IsTrailingBlank(ch) {
          break;
        }
        newLength := newLength - 1;
      }
      assert IsTrimmedOf(line, line[..newLength]);
      TrimmedUnique(line, line[..newLength], TrimEnd(line));
    }
    r := b.(lineBuff := [], written := b.written + line[..newLength] + eol);
  }

  /** One call on the buffer's public surface. */
  datatype Call =
    | AddCall(value: string)
    | AddManyCall(values: seq<string>)
    | EndLineCall(eol: string)
    | FlushCall

  /** The effect of one call. */
  function Step(b: Buffer, c: Call): Buffer {
    match c
    case AddCall(value) => Add(b, value)
    case AddManyCall(values) => AddAll(b, values)
    case EndLineCall(eol) => EndLine(b, eol)
    case FlushCall => Flush(b)
  }

  /** The effect of a sequence of calls, made in order. */
  function Run(b: Buffer, calls: seq<Call>): Buffer
    decreases |calls|
  {
    if |calls| == 0 then b else Run(Step(b, calls[0]), calls[1..])
  }

  /** The text a call hands to the buffer: added strings and end-of-line strings. */
  function CallText(c: Call): string {
    match c
    case AddCall(value) => value
    case AddManyCall(values) => Concat(values)
    case EndLineCall(eol) => eol
    case FlushCall => []
  }

  /** Everything a sequence of calls hands to the buffer, in call order. */
  function CallsText(calls: seq<Call>): string
    decreases |calls|
  {
    if |calls| == 0 then [] else CallText(calls[0]) + CallsText(calls[1..])
  }

  /** The writer is append-only, and the trimming setting never changes. */
  lemma {:induction false} RunAppendsOnly(b: Buffer, calls: seq<Call>)
    ensures b.written <= Run(b, calls).written
    ensures Run(b, calls).trimTrailingWhitespace == b.trimTrailingWhitespace
    decreases |calls|
  {
    if |calls| > 0 {
      RunAppendsOnly(Step(b, calls[0]), calls[1..]);
    }
  }

  /** With trimming off, nothing is lost or duplicated: the writer followed by the pending line is
      always the initial contents followed by every added string and every end-of-line string, in
      call order. */
  lemma {:induction false} UntrimmedNothingLost(b: Buffer, calls: seq<Call>)
    requires !b.trimTrailingWhitespace
    ensures Run(b, calls).written + Run(b, calls).lineBuff == b.written + b.lineBuff + CallsText(calls)
    decreases |calls|
  {
    if |calls| == 0 {
      assert b.written + b.lineBuff + [] == b.written + b.lineBuff;
    } else {
      var b' := Step(b, calls[0]);
      assert b'.written + b'.lineBuff == b.written + b.lineBuff + CallText(calls[0]);
      UntrimmedNothingLost(b', calls[1..]);
    }
  }

  /** With trimming off, after a final Flush the writer holds exactly the initial contents, the
      initial pending line, and every added string and end-of-line string in call order. */
  lemma UntrimmedFlushedOutput(b: Buffer, calls: seq<Call>)
    requires !b.trimTrailingWhitespace
    ensures Run(b, calls + [FlushCall]).lineBuff == []
    ensures Run(b, calls + [FlushCall]).written == b.written + b.lineBuff + CallsText(calls)
  {
    RunAppend(b, calls, [FlushCall]);
    UntrimmedNothingLost(b, calls);
    RunAppendsOnly(b, calls);
  }

  /** Running two sequences of calls one after the other is running their concatenation. */
  lemma {:induction false} RunAppend(b: Buffer, xs: seq<Call>, ys: seq<Call>)
    ensures Run(b, xs + ys) == Run(Run(b, xs), ys)
    decreases |xs|
  {
    if |xs| == 0 {
      assert xs + ys == ys;
    } else {
      assert (xs + ys)[1..] == xs[1..] + ys;
      RunAppend(Step(b, xs[0]), xs[1..], ys);
    }
  }

  /** A string with every space and tab removed. */
  function Unblanked(s: string): string
    decreases |s|
  {
    if |s| == 0 then []
    else if IsTrailingBlank(s[|s| - 1]) then Unblanked(s[..|s| - 1])
    else Unblanked(s[..|s| - 1]) + [s[|s| - 1]]
  }

  lemma {:induction false} UnblankedAppend(s: string, t: string)
    ensures Unblanked(s + t) == Unblanked(s) + Unblanked(t)
    decreases |t|
  {
    if |t| == 0 {
      assert s + t == s;
    } else {
      assert (s + t)[..|s + t| - 1] == s + t[..|t| - 1];
      UnblankedAppend(s, t[..|t| - 1]);
    }
  }

  /** Removing a suffix of spaces and tabs does not change what remains once blanks are removed. */
  lemma {:induction false} UnblankedTrimEnd(line: string)
    ensures Unblanked(TrimEnd(line)) == Unblanked(line)
    decreases |line|
  {
    if |line| > 0 && IsTrailingBlank(line[|line| - 1]) {
      UnblankedTrimEnd(line[..|line| - 1]);
    }
  }

  /** With trimming on or off, only spaces and tabs are ever dropped: with both removed, the writer
      followed by the pending line is the initial contents followed by all the text of the calls. */
  lemma {:induction false} OnlyBlanksDropped(b: Buffer, calls: seq<Call>)
    ensures Unblanked(Run(b, calls).written + Run(b, calls).lineBuff)
         == Unblanked(b.written + b.lineBuff + CallsText(calls))
    decreases |calls|
  {
    if |calls| == 0 {
      assert b.written + b.lineBuff + [] == b.written + b.lineBuff;
    } else {
      var b' := Step(b, calls[0]);
      var u := b'.written + b'.lineBuff;
      var v := b.written + b.lineBuff + CallText(calls[0]);
      var rest := CallsText(calls[1..]);
      assert v + rest == b.written + b.lineBuff + CallsText(calls);
      calc {
        Unblanked(Run(b, calls).written + Run(b, calls).lineBuff);
        { OnlyBlanksDropped(b', calls[1..]); }
        Unblanked(u + rest);
        { UnblankedAppend(u, rest); }
        Unblanked(u) + Unblanked(rest);
        { StepUnblanked(b, calls[0]); }
        Unblanked(v) + Unblanked(rest);
        { UnblankedAppend(v, rest); }
        Unblanked(v + rest);
      }
    }
  }

  lemma StepUnblanked(b: Buffer, c: Call)
    ensures Unblanked(Step(b, c).written + Step(b, c).lineBuff) == Unblanked(b.written + b.lineBuff + CallText(c))
  {
    match c
    case EndLineCall(eol) =>
      StepCompleteUnblanked(b, eol);
      assert Step(b, c).written + [] == Step(b, c).written;
    case FlushCall =>
      StepCompleteUnblanked(b, []);
      assert Step(b, c).written + [] == Step(b, c).written;
    case AddCall(value) =>
      assert Step(b, c).written + Step(b, c).lineBuff == b.written + b.lineBuff + value;
    case AddManyCall(values) =>
      assert Step(b, c).written + Step(b, c).lineBuff == b.written + b.lineBuff + Concat(values);
  }

  lemma StepCompleteUnblanked(b: Buffer, eol: string)
    ensures Unblanked(CompleteLine(b, eol).written) == Unblanked(b.written + b.lineBuff + eol)
  {
    var r := CompleteLine(b, eol);
    UnblankedAppend(b.written + LineBody(b), eol);
    UnblankedAppend(b.written, LineBody(b));
    UnblankedAppend(b.written + b.lineBuff, eol);
    UnblankedAppend(b.written, b.lineBuff);
    if b.trimTrailingWhitespace {
      UnblankedTrimEnd(b.lineBuff);
    }
  }
}
