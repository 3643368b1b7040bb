/** Plugin output: newline-delimited messages read through a bounded line splitter,
    however the pipe happens to chunk them. */
module PluginOutput {
  import opened Bits
  import opened Common

  const NEWLINE: byte := 10
  const MAX_RESULT_SIZE := 2 * 1024 * 1024
  const MAX_BUFFERED_LINE := MAX_RESULT_SIZE + 64 * 1024

  /** A token, and whether it is only the beginning of a line too long to buffer. */
  datatype Line = Line(text: seq<byte>, tooLong: bool)

  // ---- What the stream says ----

  /** The position of the first newline, or the length if there is none. */
  function Newline(s: seq<byte>): (i: nat)
    ensures i <= |s|
    ensures i < |s| ==> s[i] == NEWLINE
    ensures forall j :: 0 <= j < i ==> s[j] != NEWLINE
  {
    if s == [] || s[0] == NEWLINE then 0 else 1 + Newline(s[1..])
  }

  function Cut(text: seq<byte>): Line {
    if |text| <= MAX_BUFFERED_LINE then Line(text, false) else Line(text[..MAX_BUFFERED_LINE], true)
  }

  /** Everything after the first newline. */
  function AfterLine(s: seq<byte>): (rest: seq<byte>)
    ensures |rest| <= |s| && (s != [] ==> |rest| < |s|)
  {
    if Newline(s) < |s| then s[Newline(s) + 1..] else []
  }

  /** The lines of a stream: short ones whole, long ones as one flagged prefix, and
      nothing after a final newline. */
  function Lines(s: seq<byte>): seq<Line>
    decreases |s|
  {
    if s == [] then [] else [Cut(s[..Newline(s)])] + Lines(AfterLine(s))
  }

  lemma NewlineAt(s: seq<byte>, i: nat)
    requires i <= |s| && (i < |s| ==> s[i] == NEWLINE) && forall j :: 0 <= j < i ==> s[j] != NEWLINE
    ensures Newline(s) == i
  {
  }

  /** A newline in the window is the first of the whole stream. */
  lemma WindowNewline(window: seq<byte>, rest: seq<byte>)
    ensures Newline(window) < |window| ==>
      Newline(window + rest) == Newline(window) && AfterLine(window + rest) == AfterLine(window) + rest
    ensures Newline(window) == |window| ==> Newline(window + rest) == |window| + Newline(rest)
    ensures Newline(window) == |window| ==> AfterLine(window + rest) == AfterLine(rest)
  {
    hide Newline;
    var i := Newline(window);
    var s := window + rest;
    if i < |window| {
      NewlineAt(s, i);
      assert s[i + 1..] == window[i + 1..] + rest;
    } else {
      var k := |window| + Newline(rest);
      forall j | 0 <= j < k
        ensures s[j] != NEWLINE
      {
        if j >= |window| { assert s[j] == rest[j - |window|]; }
      }
      NewlineAt(s, k);
      if k < |s| { assert s[k + 1..] == rest[Newline(rest) + 1..]; }
    }
  }

  // ---- The splitter ----

  datatype Piece = Piece(advance: nat, token: Option<seq<byte>>)

  class PluginLineSplitter {
    var lineTooLong: bool
    var discardingLine: bool

    constructor ()
      ensures !lineTooLong && !discardingLine
    {
      lineTooLong, discardingLine := false, false;
    }

    method Split(data: seq<byte>, atEOF: bool) returns (r: Piece)
      modifies this
      ensures r.advance <= |data|
      ensures
        var newline := Newline(data);
        if old(discardingLine) then
          && r.token == None && lineTooLong == old(lineTooLong)
          && r.advance == (if newline < |data| then newline + 1 else |data|)
          && discardingLine == (newline == |data|)
        else if newline < |data| then
          r == Piece(newline + 1, Some(data[..newline])) && !discardingLine && lineTooLong == old(lineTooLong)
        else if |data| > MAX_BUFFERED_LINE then
          r == Piece(|data|, Some(data[..MAX_BUFFERED_LINE])) && lineTooLong && discardingLine == !atEOF
        else if atEOF && data != [] then
          r == Piece(|data|, Some(data)) && !discardingLine && lineTooLong == old(lineTooLong)
        else
          r == Piece(0, None) && !discardingLine && lineTooLong == old(lineTooLong)
    {
      var newline := Newline(data);
      if discardingLine {
        if newline < |data| {
          discardingLine := false;
          return Piece(newline + 1, None);
        }
        return Piece(|data|, None);
      }
      if newline < |data| {
        return Piece(newline + 1, Some(data[..newline]));
      }
      if |data| > MAX_BUFFERED_LINE {
        lineTooLong := true;
        discardingLine := !atEOF;
        return Piece(|data|, Some(data[..MAX_BUFFERED_LINE]));
      }
      if atEOF && data != [] {
        return Piece(|data|, Some(data));
      }
      return Piece(0, None);
    }

    method ConsumeLineTooLong() returns (was: bool)
      modifies this
      ensures was == old(lineTooLong) && !lineTooLong && discardingLine == old(discardingLine)
    {
      was := lineTooLong;
      lineTooLong := false;
    }
  }

  // ---- The scanner ----

  /** A buffered scanner over a pipe. A read returns any number of bytes that are
      there and fit, and the end of the stream only when nothing is left. */
  class LineScanner {
    const stream: seq<byte>
    const splitter: PluginLineSplitter
    var pos: nat
    var window: seq<byte>
    var eof: bool
    var done: bool

    ghost predicate Valid()
      reads this, splitter
    {
      && pos <= |stream| && |window| <= MAX_BUFFERED_LINE + 1
      && (eof ==> pos == |stream| && (splitter.discardingLine ==> window == []))
      && (done ==> Remaining() == [])
    }

    /** The lines no Scan has delivered yet. */
    ghost function Remaining(): seq<Line>
      requires pos <= |stream|
      reads this, splitter
    {
      var s := window + stream[pos..];
      Lines(if splitter.discardingLine then AfterLine(s) else s)
    }

    constructor (stream: seq<byte>)
      ensures Valid() && fresh(splitter) && !splitter.lineTooLong && Remaining() == Lines(stream)
    {
      this.stream := stream;
      splitter := new PluginLineSplitter();
      pos, window, eof, done := 0, [], false, false;
      new;
      assert [] + stream[0..] == stream;
    }

    /** Some bytes from the pipe, or its end. */
    method Fill()
      requires Valid() && !eof && !done && |window| <= MAX_BUFFERED_LINE
      requires splitter.discardingLine ==> window == []
      modifies this
      ensures Valid() && !done && Remaining() == old(Remaining())
      ensures eof ==> window == old(window) && pos == old(pos)
      ensures !eof ==> pos > old(pos)
    {
      hide Lines, AfterLine;
      if pos == |stream| {
        eof := true;
        return;
      }
      var n: nat :| 1 <= n <= |stream| - pos && |window| + n <= MAX_BUFFERED_LINE + 1;
      assert window + stream[pos..] == (window + stream[pos..pos + n]) + stream[pos + n..];
      window, pos := window + stream[pos..pos + n], pos + n;
    }

    /** Delivers the next line, if there is one. */
    method Scan() returns (line: Option<Line>)
      requires Valid() && !splitter.lineTooLong
      modifies this, splitter
      ensures Valid() && !splitter.lineTooLong
      ensures old(Remaining()) == [] ==> line == None && Remaining() == []
      ensures old(Remaining()) != [] ==> line == Some(old(Remaining())[0]) && Remaining() == old(Remaining())[1..]
    {
      hide Lines, AfterLine, Newline;
      if done {
        return None;
      }
      while true
        invariant Valid() && !done && !splitter.lineTooLong && Remaining() == old(Remaining())
        decreases |stream| - pos, !eof, |window|
      {
        if window != [] || eof {
          var token;
          token := Deliver();
          if token.Some? {
            var tooLong := splitter.ConsumeLineTooLong();
            return Some(Line(token.value, tooLong));
          }
        }
        if eof {
          done, window := true, [];
          return None;
        }
        Fill();
      }
    }

    /** One call of the splitter on the window. */
    method Deliver() returns (token: Option<seq<byte>>)
      requires Valid() && !done && !splitter.lineTooLong && (window != [] || eof)
      modifies this, splitter
      ensures pos == old(pos) && eof == old(eof) && !done && Valid()
      ensures token.Some? ==>
        && old(Remaining()) != [] && old(Remaining())[0] == Line(token.value, splitter.lineTooLong)
        && Remaining() == old(Remaining())[1..]
      ensures token.None? ==>
        && !splitter.lineTooLong && Remaining() == old(Remaining()) && |window| <= |old(window)|
        && |window| <= MAX_BUFFERED_LINE && (splitter.discardingLine ==> window == [])
        && (eof ==> window == [] && Remaining() == [])
    {
      hide Lines, AfterLine, Newline, Cut;
      ghost var rest, before := stream[pos..], window;
      ghost var newline := Newline(window);
      if splitter.discardingLine {
        DiscardStep(before, rest);
      } else if newline < |window| {
        TokenStep(before, rest);
      } else if |window| > MAX_BUFFERED_LINE {
        TooLongStep(before, rest);
      } else if eof {
        LastStep(before, rest);
      }
      var r := splitter.Split(window, eof);
      window := window[r.advance..];
      token := r.token;
    }
  }

  // ---- One call of the splitter, on the stream it sees the front of ----

  lemma DiscardStep(window: seq<byte>, rest: seq<byte>)
    ensures Newline(window) < |window| ==> AfterLine(window + rest) == window[Newline(window) + 1..] + rest
    ensures Newline(window) == |window| ==> AfterLine(window + rest) == AfterLine(window[|window|..] + rest)
    ensures AfterLine([] + []) == [] && Lines([]) == []
  {
    WindowNewline(window, rest);
    assert window[|window|..] + rest == rest;
  }

  lemma TokenStep(window: seq<byte>, rest: seq<byte>)
    requires Newline(window) < |window| <= MAX_BUFFERED_LINE + 1
    ensures
      var lines := Lines(window + rest);
      && lines != [] && lines[0] == Line(window[..Newline(window)], false)
      && lines[1..] == Lines(window[Newline(window) + 1..] + rest)
  {
    WindowNewline(window, rest);
    LinesStep(window + rest);
    assert (window + rest)[..Newline(window)] == window[..Newline(window)];
  }

  lemma TooLongStep(window: seq<byte>, rest: seq<byte>)
    requires Newline(window) == |window| == MAX_BUFFERED_LINE + 1
    ensures
      var lines := Lines(window + rest);
      && lines != [] && lines[0] == Line(window[..MAX_BUFFERED_LINE], true)
      && lines[1..] == Lines(AfterLine(window[|window|..] + rest))
      && (rest == [] ==> lines[1..] == Lines(window[|window|..] + rest))
  {
    WindowNewline(window, rest);
    LinesStep(window + rest);
    assert window[|window|..] + rest == rest;
    assert (window + rest)[..Newline(window + rest)][..MAX_BUFFERED_LINE] == window[..MAX_BUFFERED_LINE];
  }

  lemma LastStep(window: seq<byte>, rest: seq<byte>)
    requires Newline(window) == |window| <= MAX_BUFFERED_LINE && rest == []
    ensures window == [] ==> Lines(window + rest) == []
    ensures window != [] ==>
      var lines := Lines(window + rest);
      && lines != [] && lines[0] == Line(window, false)
      && lines[1..] == Lines(window[|window|..] + rest)
  {
    assert window + rest == window;
    LinesStep(window);
    assert window[..|window|] == window;
  }

  lemma LinesStep(s: seq<byte>)
    ensures s == [] ==> Lines(s) == []
    ensures s != [] ==> Lines(s) != [] && Lines(s)[0] == Cut(s[..Newline(s)]) && Lines(s)[1..] == Lines(AfterLine(s))
  {
  }

  // ---- The messages ----

  /** A decoded line; `Garbage` when it is not JSON. */
  datatype Message = Garbage | Status(text: string) | Result(state: string) | Error(text: string) | Unknown

  type Decoder = seq<byte> -> Message

  datatype Failure = SizeLimit | Reported(text: string) | NoResult

  function MessageOf(line: Line, decode: Decoder): Message {
    if line.tooLong then Garbage else decode(line.text)
  }

  predicate Oversized(line: Line, decode: Decoder) {
    line.tooLong || (decode(line.text).Result? && |line.text| > MAX_RESULT_SIZE)
  }

  function Statuses(lines: seq<Line>, decode: Decoder): seq<string> {
    if lines == [] then []
    else
      var last := MessageOf(lines[|lines| - 1], decode);
      Statuses(lines[..|lines| - 1], decode) + (if last.Status? then [last.text] else [])
  }

  /** The last result that is within the size limit. */
  function LastResult(lines: seq<Line>, decode: Decoder): Option<string> {
    if lines == [] then None
    else
      var last := lines[|lines| - 1];
      if MessageOf(last, decode).Result? && !Oversized(last, decode) then Some(MessageOf(last, decode).state)
      else LastResult(lines[..|lines| - 1], decode)
  }

  /** The last error the plugin reported, or the last line over the limit. */
  function LastFailure(lines: seq<Line>, decode: Decoder): Option<Failure> {
    if lines == [] then None
    else
      var last := lines[|lines| - 1];
      if Oversized(last, decode) then Some(SizeLimit)
      else if MessageOf(last, decode).Error? then Some(Reported(MessageOf(last, decode).text))
      else LastFailure(lines[..|lines| - 1], decode)
  }

  /** A line is too long beyond 2 MiB and 64 KiB, and a result is beyond 2 MiB. */
  lemma Limits(text: seq<byte>, decode: Decoder)
    ensures Cut(text).tooLong <==> |text| > 2_162_688
    ensures Cut(text).text == if |text| > 2_162_688 then text[..2_162_688] else text
    ensures Oversized(Cut(text), decode) <==> |text| > 2_162_688 || (decode(text).Result? && |text| > 2_097_152)
  {
  }

  predicate AcceptedAt(lines: seq<Line>, decode: Decoder, i: nat, state: string)
    requires i < |lines|
  {
    !lines[i].tooLong && decode(lines[i].text) == Result(state) && |lines[i].text| <= MAX_RESULT_SIZE
  }

  predicate FailureAt(lines: seq<Line>, decode: Decoder, i: nat, failure: Failure)
    requires i < |lines|
  {
    if Oversized(lines[i], decode) then failure == SizeLimit
    else !lines[i].tooLong && decode(lines[i].text).Error? && failure == Reported(decode(lines[i].text).text)
  }

  /** The result is that of a line after which no other line carries one, and there is
      none exactly when no line does. */
  lemma {:induction false} LastResultIs(lines: seq<Line>, decode: Decoder)
    ensures LastResult(lines, decode).None? ==> forall i: nat, s :: i < |lines| ==> !AcceptedAt(lines, decode, i, s)
    ensures LastResult(lines, decode).Some? ==>
      exists i: nat :: i < |lines| && AcceptedAt(lines, decode, i, LastResult(lines, decode).value)
                       && forall j: nat, s :: i < j < |lines| ==> !AcceptedAt(lines, decode, j, s)
    decreases |lines|
  {
    if lines != [] {
      var n := |lines| - 1;
      var init := lines[..n];
      LastResultIs(init, decode);
      assert forall i: nat, s :: i < n ==> AcceptedAt(lines, decode, i, s) == AcceptedAt(init, decode, i, s);
      var r := LastResult(lines, decode);
      if MessageOf(lines[n], decode).Result? && !Oversized(lines[n], decode) {
        assert AcceptedAt(lines, decode, n, r.value);
      } else if r.Some? {
        var i: nat :| i < n && AcceptedAt(init, decode, i, r.value) && forall j: nat, s :: i < j < n ==> !AcceptedAt(init, decode, j, s);
        assert AcceptedAt(lines, decode, i, r.value);
      }
    }
  }

  /** And the failure that of a line after which no other line fails. */
  lemma {:induction false} LastFailureIs(lines: seq<Line>, decode: Decoder)
    ensures LastFailure(lines, decode).None? ==> forall i: nat, f :: i < |lines| ==> !FailureAt(lines, decode, i, f)
    ensures LastFailure(lines, decode).Some? ==>
      exists i: nat :: i < |lines| && FailureAt(lines, decode, i, LastFailure(lines, decode).value)
                       && forall j: nat, f :: i < j < |lines| ==> !FailureAt(lines, decode, j, f)
    decreases |lines|
  {
    if lines != [] {
      var n := |lines| - 1;
      var init := lines[..n];
      LastFailureIs(init, decode);
      assert forall i: nat, f :: i < n ==> FailureAt(lines, decode, i, f) == FailureAt(init, decode, i, f);
      var r := LastFailure(lines, decode);
      if Oversized(lines[n], decode) || MessageOf(lines[n], decode).Error? {
        assert FailureAt(lines, decode, n, r.value);
      } else if r.Some? {
        var i: nat :| i < n && FailureAt(init, decode, i, r.value) && forall j: nat, f :: i < j < n ==> !FailureAt(init, decode, j, f);
        assert FailureAt(lines, decode, i, r.value);
      }
    }
  }

  lemma NoLines(decode: Decoder)
    ensures Statuses([], decode) == [] && LastResult([], decode) == None && LastFailure([], decode) == None
  {
  }

  lemma OneMoreLine(seen: seq<Line>, line: Line, decode: Decoder)
    ensures
      var m := MessageOf(line, decode);
      && Statuses(seen + [line], decode) == Statuses(seen, decode) + (if m.Status? then [m.text] else [])
      && LastResult(seen + [line], decode)
         == (if m.Result? && !Oversized(line, decode) then Some(m.state) else LastResult(seen, decode))
      && LastFailure(seen + [line], decode)
         == (if Oversized(line, decode) then Some(SizeLimit)
             else if m.Error? then Some(Reported(m.text)) else LastFailure(seen, decode))
  {
    assert (seen + [line])[..|seen|] == seen;
  }

  /** Reads every message, whatever the chunking: statuses in order, then the last
      result and the last failure. */
  method ParsePluginOutput(stream: seq<byte>, decode: Decoder)
    returns (result: Option<string>, failure: Option<Failure>, statuses: seq<string>)
    ensures statuses == Statuses(Lines(stream), decode)
    ensures result == LastResult(Lines(stream), decode)
    ensures failure
         == if LastResult(Lines(stream), decode).None? && LastFailure(Lines(stream), decode).None? then Some(NoResult)
            else LastFailure(Lines(stream), decode)
  {
    hide Lines, AfterLine, Statuses, LastResult, LastFailure;
    NoLines(decode);
    var scanner := new LineScanner(stream);
    result, failure, statuses := None, None, [];
    ghost var seen: seq<Line> := [];
    while true
      invariant fresh(scanner) && fresh(scanner.splitter) && scanner.Valid() && !scanner.splitter.lineTooLong
      invariant Lines(stream) == seen + scanner.Remaining()
      invariant statuses == Statuses(seen, decode) && result == LastResult(seen, decode) && failure == LastFailure(seen, decode)
      decreases |scanner.Remaining()|
    {
      var line := scanner.Scan();
      if line.None? {
        break;
      }
      OneMoreLine(seen, line.value, decode);
      seen := seen + [line.value];
      if line.value.tooLong {
        failure := Some(SizeLimit);
        continue;
      }
      match decode(line.value.text) {
        case Garbage =>
        case Status(text) => statuses := statuses + [text];
        case Result(state) =>
          if |line.value.text| > MAX_RESULT_SIZE {
            failure := Some(SizeLimit);
          } else {
            result := Some(state);
          }
        case Error(text) => failure := Some(Reported(text));
        case Unknown =>
      }
    }
    assert seen == Lines(stream);
    if result.None? && failure.None? {
      failure := Some(NoResult);
    }
  }
}
