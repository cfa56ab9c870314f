/** The line framing of `SseClient.start` (network/WaggleDanceService.kt):
    the lines read from the event stream are folded into messages. A line
    beginning with `data:` contributes its remainder, trimmed, to an
    accumulator; an empty line hands the accumulator on as one message and
    clears it; every other line is ignored.

    This is a simplified reading of the event-stream interpretation of the
    WHATWG HTML Living Standard, section 9.2.6: unlike the standard, the whole
    value is trimmed, data lines are joined without a line feed, and an empty
    line emits even when nothing was accumulated. The model follows the code. */
module EventStream {

  const DataPrefix: string := "data:"

  /** Kotlin's `Char.isWhitespace` (Java's `Character.isWhitespace` or
      `Character.isSpaceChar`), which `String.trim()` uses. */
  predicate IsWhitespace(c: char) {
    || c == '\t' || c == '\n' || c == '\U{B}' || c == '\U{C}' || c == '\r'
    || ('\U{1C}' <= c <= '\U{1F}')
    || c == ' ' || c == '\U{A0}' || c == '\U{1680}'
    || ('\U{2000}' <= c <= '\U{200A}')
    || c == '\U{2028}' || c == '\U{2029}' || c == '\U{202F}' || c == '\U{205F}'
    || c == '\U{3000}'
  }

  /** `s` without its leading whitespace. */
  function TrimStart(s: string): string {
    if s != [] && IsWhitespace(s[0]) then TrimStart(s[1..]) else s
  }

  /** `s` without its trailing whitespace. */
  function TrimEnd(s: string): string {
    if s != [] && IsWhitespace(s[|s| - 1]) then TrimEnd(s[..|s| - 1]) else s
  }

  /** Kotlin's `String.trim()`. */
  function Trim(s: string): string {
    TrimEnd(TrimStart(s))
  }

  /** What `TrimStart` removes is a whitespace prefix, and what it keeps is
      the rest, beginning with a non-whitespace character if anything. */
  lemma {:induction false} TrimStartSpec(s: string)
    ensures |TrimStart(s)| <= |s| && TrimStart(s) == s[|s| - |TrimStart(s)|..]
    ensures forall i :: 0 <= i < |s| - |TrimStart(s)| ==> IsWhitespace(s[i])
    ensures TrimStart(s) == [] || !IsWhitespace(TrimStart(s)[0])
    decreases |s|
  {
    if s != [] && IsWhitespace(s[0]) {
      TrimStartSpec(s[1..]);
      forall i | 1 <= i < |s| - |TrimStart(s)| ensures IsWhitespace(s[i]) {
        assert s[i] == s[1..][i - 1];
      }
    }
  }

  /** What `TrimEnd` removes is a whitespace suffix, and what it keeps is the
      rest, ending with a non-whitespace character if anything. */
  lemma {:induction false} TrimEndSpec(s: string)
    ensures |TrimEnd(s)| <= |s| && TrimEnd(s) == s[..|TrimEnd(s)|]
    ensures forall i :: |TrimEnd(s)| <= i < |s| ==> IsWhitespace(s[i])
    ensures TrimEnd(s) == [] || !IsWhitespace(TrimEnd(s)[|TrimEnd(s)| - 1])
    decreases |s|
  {
    if s != [] && IsWhitespace(s[|s| - 1]) {
      TrimEndSpec(s[..|s| - 1]);
    }
  }

  /** `trim()` cuts a whitespace prefix and a whitespace suffix off `s` and
      keeps the infix between them, which neither starts nor ends with
      whitespace; it is empty exactly when `s` is all whitespace. */
  lemma TrimSpec(s: string)
    ensures var r, lead := Trim(s), |s| - |TrimStart(s)|;
      && 0 <= lead && lead + |r| <= |s| && r == s[lead..lead + |r|]
      && (forall i :: 0 <= i < lead ==> IsWhitespace(s[i]))
      && (forall i :: lead + |r| <= i < |s| ==> IsWhitespace(s[i]))
      && (r == [] || (!IsWhitespace(r[0]) && !IsWhitespace(r[|r| - 1])))
    ensures Trim(s) == [] <==> forall i :: 0 <= i < |s| ==> IsWhitespace(s[i])
  {
    TrimInfix(s);
    TrimEmpty(s);
  }

  /** The infix part of `TrimSpec`. */
  lemma TrimInfix(s: string)
    ensures var r, lead := Trim(s), |s| - |TrimStart(s)|;
      && 0 <= lead && lead + |r| <= |s| && r == s[lead..lead + |r|]
      && (forall i :: 0 <= i < lead ==> IsWhitespace(s[i]))
      && (forall i :: lead + |r| <= i < |s| ==> IsWhitespace(s[i]))
      && (r == [] || (!IsWhitespace(r[0]) && !IsWhitespace(r[|r| - 1])))
  {
    var t := TrimStart(s);
    TrimStartSpec(s);
    TrimEndSpec(t);
    var r, lead := TrimEnd(t), |s| - |t|;
    assert r == t[..|r|];
    assert r == s[lead..lead + |r|];
    forall i | lead + |r| <= i < |s| ensures IsWhitespace(s[i]) {
      assert s[i] == t[i - lead];
    }
    if r != [] {
      assert r[0] == t[0];
    }
  }

  /** The emptiness part of `TrimSpec`. */
  lemma TrimEmpty(s: string)
    ensures Trim(s) == [] <==> forall i :: 0 <= i < |s| ==> IsWhitespace(s[i])
  {
    var t := TrimStart(s);
    TrimStartSpec(s);
    TrimEndSpec(t);
    var lead := |s| - |t|;
    if TrimEnd(t) == [] {
      assert t == [];
    }
    assert t != [] ==> t[0] == s[lead];
  }

  /** Trimming twice is trimming once. */
  lemma TrimIdempotent(s: string)
    ensures Trim(Trim(s)) == Trim(s)
  {
    var r := Trim(s);
    TrimSpec(s);
    assert TrimStart(r) == r;
    assert TrimEnd(r) == r;
  }

  /** `line.startsWith("data:")`. */
  predicate IsDataLine(line: string) {
    |DataPrefix| <= |line| && line[..|DataPrefix|] == DataPrefix
  }

  /** What a line adds to the accumulator: `line.substring(5).trim()` for a
      data line, nothing for any other line. */
  function Contribution(line: string): string {
    if IsDataLine(line) then Trim(line[|DataPrefix|..]) else ""
  }

  /** The loop's state: the messages handed to `onMessage` so far, in order,
      and the text accumulated in the message builder. */
  datatype Framing = Framing(messages: seq<string>, pending: string)

  /** One iteration of the read loop, with its two independent tests. */
  function Step(f: Framing, line: string): Framing {
    var pending := if IsDataLine(line) then f.pending + Trim(line[|DataPrefix|..]) else f.pending;
    if line == "" then Framing(f.messages + [pending], "") else Framing(f.messages, pending)
  }

  /** The read loop from state `f` over `lines`. */
  function Run(f: Framing, lines: seq<string>): Framing
    decreases |lines|
  {
    if lines == [] then f else Run(Step(f, lines[0]), lines[1..])
  }

  /** The loop from its initial state: no message, empty builder. */
  function Interpret(lines: seq<string>): Framing {
    Run(Framing([], ""), lines)
  }

  /** The read loop of `SseClient.start`, over the lines the reader yields
      until end of stream. Returns the messages emitted, in order, and what
      is left in the builder when the stream ends. */
  method ReadMessages(lines: seq<string>) returns (messages: seq<string>, pending: string)
    ensures Framing(messages, pending) == Interpret(lines)
  {
    messages := [];
    var builder := "";
    var i := 0;
    while i < |lines|
      invariant 0 <= i <= |lines|
      invariant Run(Framing(messages, builder), lines[i..]) == Interpret(lines)
    {
      var line := lines[i];
      if IsDataLine(line) {
        builder := builder + Trim(line[|DataPrefix|..]);
      }
      if line == "" {
        var fullMessage := builder;
        builder := "";
        messages := messages + [fullMessage];
      }
      assert lines[i..][1..] == lines[i + 1..];
      i := i + 1;
    }
    pending := builder;
  }

  // ----- An independent, block-oriented reference -----

  /** The contributions of `lines`, concatenated with no separator. */
  function Contributions(lines: seq<string>): string
    decreases |lines|
  {
    if lines == [] then "" else Contribution(lines[0]) + Contributions(lines[1..])
  }

  /** The index of the first empty line, or `|lines|` when there is none. */
  function FirstBlank(lines: seq<string>): (k: nat)
    ensures k <= |lines|
    ensures k < |lines| ==> lines[k] == ""
    ensures forall i :: 0 <= i < k ==> lines[i] != ""
  {
    if lines == [] then 0
    else if lines[0] == "" then 0
    else 1 + FirstBlank(lines[1..])
  }

  /** The lines cut at every empty line: each block before an empty line
      becomes the message of its contributions, and the block after the last
      empty line is what stays pending. */
  function Blocks(lines: seq<string>): Framing
    decreases |lines|
  {
    var k := FirstBlank(lines);
    if k == |lines| then Framing([], Contributions(lines))
    else
      var rest := Blocks(lines[k + 1..]);
      Framing([Contributions(lines[..k])] + rest.messages, rest.pending)
  }

  /** The number of empty lines. */
  function CountBlank(lines: seq<string>): nat
    decreases |lines|
  {
    if lines == [] then 0 else (if lines[0] == "" then 1 else 0) + CountBlank(lines[1..])
  }

  // ----- Lemmas -----

  /** Running over a concatenation runs over each part in turn. */
  lemma {:induction false} RunAppend(f: Framing, a: seq<string>, b: seq<string>)
    ensures Run(f, a + b) == Run(Run(f, a), b)
    decreases |a|
  {
    if a != [] {
      assert (a + b)[1..] == a[1..] + b;
      RunAppend(Step(f, a[0]), a[1..], b);
    } else {
      assert a + b == b;
    }
  }

  /** A non-empty line emits nothing and adds its contribution. */
  lemma StepNonBlank(f: Framing, line: string)
    requires line != ""
    ensures Step(f, line) == Framing(f.messages, f.pending + Contribution(line))
  {
  }

  /** Over lines with no empty line, nothing is emitted and the contributions
      are appended to the builder. */
  lemma {:induction false} RunWithoutBlank(m: seq<string>, p: string, lines: seq<string>)
    requires forall i :: 0 <= i < |lines| ==> lines[i] != ""
    ensures Run(Framing(m, p), lines) == Framing(m, p + Contributions(lines))
    decreases |lines|
  {
    if lines != [] {
      var c, rest := Contribution(lines[0]), lines[1..];
      var cs := Contributions(rest);
      assert Run(Framing(m, p), lines) == Run(Framing(m, p + c), rest) by {
        StepNonBlank(Framing(m, p), lines[0]);
      }
      assert Run(Framing(m, p + c), rest) == Framing(m, (p + c) + cs) by {
        forall i | 0 <= i < |rest| ensures rest[i] != "" {
          assert rest[i] == lines[i + 1];
        }
        RunWithoutBlank(m, p + c, rest);
      }
      assert (p + c) + cs == p + Contributions(lines) by {
        assert Contributions(lines) == c + cs;
        assert (p + c) + cs == p + (c + cs);
      }
    } else {
      assert p + Contributions(lines) == p + "" == p;
    }
  }

  /** A block of non-empty lines closed by an empty line emits the block's
      contributions as one message. */
  lemma RunClosedBlock(m: seq<string>, before: seq<string>, rest: seq<string>)
    requires forall i :: 0 <= i < |before| ==> before[i] != ""
    ensures Run(Framing(m, ""), before + ([""] + rest)) == Run(Framing(m + [Contributions(before)], ""), rest)
  {
    var c := Contributions(before);
    assert Run(Framing(m, ""), before) == Framing(m, c) by {
      RunWithoutBlank(m, "", before);
      assert "" + c == c;
    }
    RunAppend(Framing(m, ""), before, [""] + rest);
    assert ([""] + rest)[0] == "" && ([""] + rest)[1..] == rest;
  }

  lemma {:induction false} RunMatchesBlocks(m: seq<string>, lines: seq<string>)
    ensures Run(Framing(m, ""), lines) == Framing(m + Blocks(lines).messages, Blocks(lines).pending)
    decreases |lines|
  {
    var k := FirstBlank(lines);
    if k == |lines| {
      RunWithoutBlank(m, "", lines);
      assert "" + Contributions(lines) == Contributions(lines);
      assert m + [] == m;
    } else {
      var before, rest := lines[..k], lines[k + 1..];
      assert lines == before + ([""] + rest);
      RunClosedBlock(m, before, rest);
      RunMatchesBlocks(m + [Contributions(before)], rest);
      assert m + [Contributions(before)] + Blocks(rest).messages
          == m + ([Contributions(before)] + Blocks(rest).messages);
    }
  }

  /** The read loop computes the block-oriented reference: message i is the
      concatenated contributions of the lines between the (i-1)-th and i-th
      empty lines, and the builder holds those after the last empty line. */
  lemma InterpretIsBlocks(lines: seq<string>)
    ensures Interpret(lines) == Blocks(lines)
  {
    RunMatchesBlocks([], lines);
    assert [] + Blocks(lines).messages == Blocks(lines).messages;
  }

  lemma {:induction false} RunMessageCount(f: Framing, lines: seq<string>)
    ensures |Run(f, lines).messages| == |f.messages| + CountBlank(lines)
    decreases |lines|
  {
    if lines != [] {
      RunMessageCount(Step(f, lines[0]), lines[1..]);
    }
  }

  /** One message is emitted per empty line. */
  lemma MessageCountIsBlankCount(lines: seq<string>)
    ensures |Interpret(lines).messages| == CountBlank(lines)
  {
    RunMessageCount(Framing([], ""), lines);
  }

  lemma InterpretSnoc(lines: seq<string>, line: string)
    ensures Interpret(lines + [line]) == Step(Interpret(lines), line)
  {
    RunAppend(Framing([], ""), lines, [line]);
  }

  /** A data line appends exactly its trimmed remainder to the builder and
      emits nothing. */
  lemma DataLineAppends(lines: seq<string>, line: string)
    requires IsDataLine(line)
    ensures Interpret(lines + [line]).messages == Interpret(lines).messages
    ensures Interpret(lines + [line]).pending == Interpret(lines).pending + Trim(line[|DataPrefix|..])
  {
    InterpretSnoc(lines, line);
  }

  /** Two consecutive data lines are joined with no separator. */
  lemma DataLinesConcatenate(lines: seq<string>, a: string, b: string)
    requires IsDataLine(a) && IsDataLine(b)
    ensures Interpret(lines + [a, b]).pending
         == Interpret(lines).pending + Trim(a[|DataPrefix|..]) + Trim(b[|DataPrefix|..])
    ensures Interpret(lines + [a, b]).messages == Interpret(lines).messages
  {
    assert lines + [a, b] == (lines + [a]) + [b];
    DataLineAppends(lines, a);
    DataLineAppends(lines + [a], b);
  }

  /** An empty line emits the builder's text, even when it is empty, and
      clears the builder. */
  lemma EmptyLineEmits(lines: seq<string>)
    ensures Interpret(lines + [""]).messages == Interpret(lines).messages + [Interpret(lines).pending]
    ensures Interpret(lines + [""]).pending == ""
  {
    InterpretSnoc(lines, "");
  }

  /** Any other line (`event:`, `id:`, a comment) changes nothing. */
  lemma OtherLineIgnored(lines: seq<string>, line: string)
    requires line != "" && !IsDataLine(line)
    ensures Interpret(lines + [line]) == Interpret(lines)
  {
    InterpretSnoc(lines, line);
  }

  /** Data after the last empty line is never emitted: it only reaches the
      builder. */
  lemma TrailingDataNotEmitted(lines: seq<string>, tail: seq<string>)
    requires forall i :: 0 <= i < |tail| ==> tail[i] != ""
    ensures Interpret(lines + tail).messages == Interpret(lines).messages
    ensures Interpret(lines + tail).pending == Interpret(lines).pending + Contributions(tail)
  {
    RunAppend(Framing([], ""), lines, tail);
    RunWithoutBlank(Interpret(lines).messages, Interpret(lines).pending, tail);
  }

  /** The value of the first data line of `ExampleFrame`, trimmed. */
  lemma ExampleFirstValue()
    ensures var l := "data: {\"a\":"; IsDataLine(l) && Trim(l[|DataPrefix|..]) == "{\"a\":"
  {
    var l, a := "data: {\"a\":", "{\"a\":";
    assert l[..|DataPrefix|] == DataPrefix;
    assert l[|DataPrefix|..] == " " + a;
    assert TrimStart(" " + a) == TrimStart(a) by {
      assert (" " + a)[0] == ' ' && (" " + a)[1..] == a;
    }
    assert TrimStart(a) == a by { assert a[0] == '{'; }
    assert TrimEnd(a) == a by { assert a[|a| - 1] == ':'; }
  }

  /** The value of the second data line of `ExampleFrame`, trimmed. */
  lemma ExampleSecondValue()
    ensures var l := "data:  1}"; IsDataLine(l) && Trim(l[|DataPrefix|..]) == "1}"
  {
    var l, b := "data:  1}", "1}";
    assert l[..|DataPrefix|] == DataPrefix;
    assert l[|DataPrefix|..] == "  " + b;
    assert TrimStart("  " + b) == TrimStart(" " + b) by {
      assert ("  " + b)[0] == ' ' && ("  " + b)[1..] == " " + b;
    }
    assert TrimStart(" " + b) == TrimStart(b) by {
      assert (" " + b)[0] == ' ' && (" " + b)[1..] == b;
    }
    assert TrimStart(b) == b by { assert b[0] == '1'; }
    assert TrimEnd(b) == b by { assert b[|b| - 1] == '}'; }
  }

  /** An `event:` line, two data lines and an empty line frame one message:
      the two trimmed values joined. */
  lemma ExampleFrame()
    ensures Interpret(["event: message", "data: {\"a\":", "data:  1}", ""]) == Framing(["{\"a\":1}"], "")
  {
    var l0, l1, l2 := "event: message", "data: {\"a\":", "data:  1}";
    var a, b := "{\"a\":", "1}";
    assert Interpret([l0]) == Framing([], "") by {
      assert l0[..|DataPrefix|][0] != DataPrefix[0];
      OtherLineIgnored([], l0);
      assert [] + [l0] == [l0];
    }
    assert Interpret([l0, l1]) == Framing([], a) by {
      ExampleFirstValue();
      DataLineAppends([l0], l1);
      assert [l0] + [l1] == [l0, l1];
    }
    assert Interpret([l0, l1, l2]) == Framing([], a + b) by {
      ExampleSecondValue();
      DataLineAppends([l0, l1], l2);
      assert [l0, l1] + [l2] == [l0, l1, l2];
    }
    assert Interpret([l0, l1, l2, ""]) == Framing([a + b], "") by {
      EmptyLineEmits([l0, l1, l2]);
      assert [l0, l1, l2] + [""] == [l0, l1, l2, ""];
    }
    assert a + b == "{\"a\":1}";
  }
}
