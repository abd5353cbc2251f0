/**
 * Newline framing with a byte limit, twice: the bridge server, which reports an oversize
 * line once and resynchronises, and the command reader, which stops at the first one.
 * Both are specified over the whole byte stream, so chunk boundaries cannot matter.
 */
module Framing {
  import opened Prelude

  type Byte = bv8

  const NEWLINE: Byte := 10

  // --- lines of a stream -----------------------------------------------------------------

  /** The terminated lines of a stream, without their newlines. */
  function Lines(s: seq<Byte>): seq<seq<Byte>> {
    if s == [] then []
    else if s[|s| - 1] == NEWLINE then Lines(s[..|s| - 1]) + [Tail(s[..|s| - 1])]
    else Lines(s[..|s| - 1])
  }

  /** The bytes after the last newline. */
  function Tail(s: seq<Byte>): seq<Byte> {
    if s == [] || s[|s| - 1] == NEWLINE then [] else Tail(s[..|s| - 1]) + [s[|s| - 1]]
  }

  function Rejoined(lines: seq<seq<Byte>>): seq<Byte> {
    if lines == [] then [] else Rejoined(lines[..|lines| - 1]) + (lines[|lines| - 1] + [NEWLINE])
  }

  /** Lines and tail are the stream cut at its newlines: no byte is lost, moved or invented. */
  lemma {:induction false} LinesAreTheCut(s: seq<Byte>)
    ensures Rejoined(Lines(s)) + Tail(s) == s
    ensures NEWLINE !in Tail(s) && forall i :: 0 <= i < |Lines(s)| ==> NEWLINE !in Lines(s)[i]
  {
    if s != [] {
      var front, last := s[..|s| - 1], s[|s| - 1];
      SplitLast(s);
      LinesAreTheCut(front);
      if last == NEWLINE {
        TakeAppend(Lines(front), Tail(front));
        Reassociate(Rejoined(Lines(front)), Tail(front), [NEWLINE]);
        assert Rejoined(Lines(s)) == Rejoined(Lines(front)) + (Tail(front) + [NEWLINE]);
        assert Rejoined(Lines(s)) + [] == Rejoined(Lines(s));
      } else {
        Reassociate(Rejoined(Lines(front)), Tail(front), [last]);
      }
    }
  }

  lemma {:induction false} PlainBytes(s: seq<Byte>, part: seq<Byte>)
    requires NEWLINE !in part
    ensures Lines(s + part) == Lines(s) && Tail(s + part) == Tail(s) + part
  {
    if part == [] {
      assert s + part == s;
    } else {
      var front, last := part[..|part| - 1], part[|part| - 1];
      SplitLast(part);
      PlainBytes(s, front);
      assert last in part;
      assert (s + part)[..|s + part| - 1] == s + front;
      Reassociate(Tail(s), front, [last]);
    }
  }

  lemma NewlineByte(s: seq<Byte>)
    ensures Lines(s + [NEWLINE]) == Lines(s) + [Tail(s)] && Tail(s + [NEWLINE]) == []
  {
    TakeAppend(s, NEWLINE);
  }

  /** First newline at or after `from`, or the length. */
  function IndexOf(chunk: seq<Byte>, from: nat): (k: nat)
    requires from <= |chunk|
    ensures from <= k <= |chunk|
    ensures NEWLINE !in chunk[from..k]
    ensures k < |chunk| ==> chunk[k] == NEWLINE
    decreases |chunk| - from
  {
    if from == |chunk| || chunk[from] == NEWLINE then from
    else
      var k := IndexOf(chunk, from + 1);
      assert chunk[from..k] == [chunk[from]] + chunk[from + 1..k];
      k
  }

  // --- the bridge server ---------------------------------------------------------------------

  datatype Frame = Request(line: seq<Byte>) | TooLarge

  /** What a line adds: an oversize line one error, an empty line nothing. */
  function Framed(frames: seq<Frame>, line: seq<Byte>, max: nat): seq<Frame> {
    if |line| > max then frames + [TooLarge] else if line == [] then frames else frames + [Request(line)]
  }

  function FramesOf(lines: seq<seq<Byte>>, max: nat): seq<Frame> {
    if lines == [] then [] else Framed(FramesOf(lines[..|lines| - 1], max), lines[|lines| - 1], max)
  }

  /** Everything delivered once `s` has arrived: an oversize tail is reported before it ends. */
  function Delivered(s: seq<Byte>, max: nat): seq<Frame> {
    if |Tail(s)| > max then FramesOf(Lines(s), max) + [TooLarge] else FramesOf(Lines(s), max)
  }

  /** Everything delivered once the stream has also ended. */
  function DeliveredAtEnd(s: seq<Byte>, max: nat): seq<Frame> {
    Framed(FramesOf(Lines(s), max), Tail(s), max)
  }

  lemma FramesOfNext(lines: seq<seq<Byte>>, line: seq<Byte>, max: nat)
    ensures FramesOf(lines + [line], max) == Framed(FramesOf(lines, max), line, max)
  {
    TakeAppend(lines, line);
  }

  /** The lines that are requests: neither empty nor too long, in order. */
  function Kept(lines: seq<seq<Byte>>, max: nat): seq<seq<Byte>> {
    if lines == [] then []
    else
      var kept, line := Kept(lines[..|lines| - 1], max), lines[|lines| - 1];
      if 0 < |line| <= max then kept + [line] else kept
  }

  function Requests(frames: seq<Frame>): seq<seq<Byte>> {
    if frames == [] then []
    else
      var front, last := Requests(frames[..|frames| - 1]), frames[|frames| - 1];
      if last.Request? then front + [last.line] else front
  }

  function TooLong(lines: seq<seq<Byte>>, max: nat): nat {
    if lines == [] then 0
    else TooLong(lines[..|lines| - 1], max) + if |lines[|lines| - 1]| > max then 1 else 0
  }

  /** Resynchronisation: one error for each oversize line, every other line still arrives. */
  lemma {:induction false} OneErrorPerLongLine(lines: seq<seq<Byte>>, max: nat)
    ensures Requests(FramesOf(lines, max)) == Kept(lines, max)
    ensures |FramesOf(lines, max)| == |Kept(lines, max)| + TooLong(lines, max)
  {
    if lines != [] {
      var front, line := lines[..|lines| - 1], lines[|lines| - 1];
      OneErrorPerLongLine(front, max);
      TakeAppend(FramesOf(front, max), TooLarge);
      TakeAppend(FramesOf(front, max), Request(line));
    }
  }

  /**
   * Frame by frame: `at` are the positions of the lines that are not empty, and the frame of each is
   * the line itself or, if that is too long, an error.
   */
  ghost predicate AnswersAt(frames: seq<Frame>, lines: seq<seq<Byte>>, max: nat, at: seq<nat>) {
    && |at| == |frames|
    && (forall i, j :: 0 <= i < j < |at| ==> at[i] < at[j])
    && (forall k :: 0 <= k < |lines| && lines[k] != [] ==> k in at)
    && (forall i :: 0 <= i < |at| ==> at[i] < |lines| && IsAnswer(frames[i], lines[at[i]], max))
  }

  predicate IsAnswer(frame: Frame, line: seq<Byte>, max: nat) {
    line != [] && frame == if |line| > max then TooLarge else Request(line)
  }

  /** Every line that is not empty has one frame, in the order of the lines. */
  ghost predicate Answers(frames: seq<Frame>, lines: seq<seq<Byte>>, max: nat) {
    exists at :: AnswersAt(frames, lines, max, at)
  }

  lemma EmptyAnswersNothing(frames: seq<Frame>, lines: seq<seq<Byte>>, max: nat)
    requires Answers(frames, lines, max)
    ensures Answers(frames, lines + [[]], max)
  {
    var at: seq<nat> :| AnswersAt(frames, lines, max, at);
    assert AnswersAt(frames, lines + [[]], max, at);
  }

  lemma AnswersNext(frames: seq<Frame>, lines: seq<seq<Byte>>, max: nat, line: seq<Byte>, frame: Frame)
    requires Answers(frames, lines, max)
    requires IsAnswer(frame, line, max)
    ensures Answers(frames + [frame], lines + [line], max)
  {
    var at: seq<nat> :| AnswersAt(frames, lines, max, at);
    var next, longer := at + [|lines|], lines + [line];
    forall k | 0 <= k < |longer| && longer[k] != [] ensures k in next {
      if k == |lines| {
        assert next[|at|] == k;
      } else {
        assert lines[k] == longer[k];
      }
    }
    forall i | 0 <= i < |next| ensures next[i] < |longer| && IsAnswer((frames + [frame])[i], longer[next[i]], max) {
      if i < |at| {
        assert next[i] == at[i] && longer[at[i]] == lines[at[i]];
      }
    }
    assert AnswersAt(frames + [frame], longer, max, next);
  }

  lemma FramedAnswers(frames: seq<Frame>, lines: seq<seq<Byte>>, max: nat, line: seq<Byte>)
    requires Answers(frames, lines, max)
    ensures Answers(Framed(frames, line, max), lines + [line], max)
  {
    if line == [] {
      EmptyAnswersNothing(frames, lines, max);
    } else {
      AnswersNext(frames, lines, max, line, if |line| > max then TooLarge else Request(line));
    }
  }

  lemma {:induction false} FramesAreAnswers(lines: seq<seq<Byte>>, max: nat)
    ensures Answers(FramesOf(lines, max), lines, max)
  {
    if lines == [] {
      assert AnswersAt([], lines, max, []);
    } else {
      var front, line := lines[..|lines| - 1], lines[|lines| - 1];
      FramesAreAnswers(front, max);
      SplitLast(lines);
      FramedAnswers(FramesOf(front, max), front, max, line);
    }
  }

  /** What has been delivered answers the finished lines, and the one at hand once it is too long. */
  lemma DeliveredAnswers(s: seq<Byte>, max: nat)
    ensures Answers(Delivered(s, max), if |Tail(s)| > max then Lines(s) + [Tail(s)] else Lines(s), max)
  {
    FramesAreAnswers(Lines(s), max);
    if |Tail(s)| > max {
      AnswersNext(FramesOf(Lines(s), max), Lines(s), max, Tail(s), TooLarge);
    }
  }

  /** At the end of input the bytes after the last newline are a line like any other. */
  lemma DeliveredAtEndAnswers(s: seq<Byte>, max: nat)
    ensures Answers(DeliveredAtEnd(s, max), Lines(s) + [Tail(s)], max)
  {
    FramesAreAnswers(Lines(s), max);
    FramedAnswers(FramesOf(Lines(s), max), Lines(s), max, Tail(s));
  }

  class JsonlServer {
    const maxLineBytes: nat
    var line: seq<Byte>
    var drainingOversize: bool
    var accepting: bool
    var delivered: seq<Frame>
    ghost var seen: seq<Byte>

    ghost predicate Valid()
      reads this
    {
      && delivered == Delivered(seen, maxLineBytes)
      && drainingOversize == (|Tail(seen)| > maxLineBytes)
      && line == if drainingOversize then [] else Tail(seen)
    }

    constructor (maxLineBytes: nat)
      ensures Valid() && seen == [] && accepting && this.maxLineBytes == maxLineBytes
    {
      this.maxLineBytes := maxLineBytes;
      line, drainingOversize, accepting, delivered, seen := [], false, true, [], [];
    }

    /** Bytes up to the next newline or the end of the chunk. */
    method ConsumePart(part: seq<Byte>)
      requires Valid() && NEWLINE !in part
      modifies this`line, this`drainingOversize, this`delivered, this`seen
      ensures Valid() && seen == old(seen) + part
    {
      PlainBytes(seen, part);
      if !drainingOversize {
        if |line| + |part| > maxLineBytes {
          line := [];
          drainingOversize := true;
          delivered := delivered + [TooLarge];
        } else if |part| > 0 {
          line := line + part;
        }
      }
      seen := seen + part;
    }

    method EndLine()
      requires Valid()
      modifies this`line, this`drainingOversize, this`delivered, this`seen
      ensures Valid() && seen == old(seen) + [NEWLINE]
    {
      NewlineByte(seen);
      FramesOfNext(Lines(seen), Tail(seen), maxLineBytes);
      if drainingOversize {
        drainingOversize := false;
      } else {
        Dispatch();
      }
      line := [];
      seen := seen + [NEWLINE];
    }

    method Dispatch()
      modifies this`delivered
      ensures delivered == if line == [] then old(delivered) else old(delivered) + [Request(line)]
    {
      if |line| == 0 {
        return;
      }
      delivered := delivered + [Request(line)];
    }

    /** One data event: however the stream was cut, the state is that of the bytes seen. */
    method Consume(chunk: seq<Byte>)
      requires Valid()
      modifies this`line, this`drainingOversize, this`delivered, this`seen
      ensures Valid()
      ensures seen == if accepting then old(seen) + chunk else old(seen)
      ensures Answers(
        delivered, if |Tail(seen)| > maxLineBytes then Lines(seen) + [Tail(seen)] else Lines(seen), maxLineBytes)
    {
      Cut(chunk);
      DeliveredAnswers(seen, maxLineBytes);
    }

    method Cut(chunk: seq<Byte>)
      requires Valid()
      modifies this`line, this`drainingOversize, this`delivered, this`seen
      ensures Valid()
      ensures seen == if accepting then old(seen) + chunk else old(seen)
    {
      if !accepting {
        return;
      }
      var offset := 0;
      EmptyPrefix(seen, chunk);
      while offset < |chunk|
        invariant 0 <= offset <= |chunk|
        invariant Valid() && seen == old(seen) + chunk[..offset]
      {
        var end := IndexOf(chunk, offset);
        ExtendPrefix(old(seen), chunk, offset, end);
        ConsumePart(chunk[offset..end]);
        if end == |chunk| {
          FullPrefix(chunk);
          return;
        }
        ExtendPrefixByOne(old(seen), chunk, end);
        EndLine();
        offset := end + 1;
      }
      FullPrefix(chunk);
    }

    /** End of input: an unterminated last line is still a request. */
    method End()
      requires Valid()
      modifies this`line, this`delivered, this`accepting
      ensures delivered == DeliveredAtEnd(seen, maxLineBytes) && line == [] && !accepting
      ensures Answers(delivered, Lines(seen) + [Tail(seen)], maxLineBytes)
    {
      DeliveredAtEndAnswers(seen, maxLineBytes);
      if !drainingOversize && |line| > 0 {
        Dispatch();
      }
      line := [];
      accepting := false;
    }
  }

  /** A whole connection, chunk by chunk: the frames depend on the bytes alone. */
  method Serve(chunks: seq<seq<Byte>>, max: nat) returns (frames: seq<Frame>)
    ensures frames == DeliveredAtEnd(Concat(chunks), max)
    ensures Answers(frames, Lines(Concat(chunks)) + [Tail(Concat(chunks))], max)
  {
    var server := new JsonlServer(max);
    for i := 0 to |chunks|
      invariant server.Valid() && server.accepting && server.maxLineBytes == max
      invariant fresh(server)
      invariant server.seen == Concat(chunks[..i])
    {
      assert chunks[..i + 1][..i] == chunks[..i];
      server.Consume(chunks[i]);
    }
    assert chunks[..|chunks|] == chunks;
    server.End();
    frames := server.delivered;
  }

  // --- the command reader ----------------------------------------------------------------------

  datatype ReadMessage = Line(line: seq<Byte>) | Oversize | Eof | Failed(error: string)

  /** Messages for the terminated lines: up to and including the first oversize one. */
  function LineMessages(lines: seq<seq<Byte>>, limit: nat): seq<ReadMessage> {
    if lines == [] then []
    else
      var front := LineMessages(lines[..|lines| - 1], limit);
      if Stopped(front) then front
      else front + [if |lines[|lines| - 1]| + 1 > limit then Oversize else Line(lines[|lines| - 1])]
  }

  predicate Stopped(messages: seq<ReadMessage>) {
    messages != [] && messages[|messages| - 1].Oversize?
  }

  /** Reading stops at the first oversize line; the lines before it are delivered whole. */
  lemma {:induction false} FirstOversizeEndsReading(lines: seq<seq<Byte>>, limit: nat, k: nat)
    requires k < |lines| && |lines[k]| + 1 > limit
    requires forall i :: 0 <= i < k ==> |lines[i]| + 1 <= limit
    ensures LineMessages(lines, limit) == seq(k, i requires 0 <= i < k => Line(lines[i])) + [Oversize]
    decreases |lines|
  {
    var n := |lines| - 1;
    if k < n {
      FirstOversizeEndsReading(lines[..n], limit, k);
    } else {
      AllLinesFit(lines[..n], limit);
    }
  }

  lemma {:induction false} AllLinesFit(lines: seq<seq<Byte>>, limit: nat)
    requires forall i :: 0 <= i < |lines| ==> |lines[i]| + 1 <= limit
    ensures LineMessages(lines, limit) == seq(|lines|, i requires 0 <= i < |lines| => Line(lines[i]))
  {
    if lines != [] {
      AllLinesFit(lines[..|lines| - 1], limit);
    }
  }

  /** All messages of a stream that ends with an optional read error. */
  function Messages(s: seq<Byte>, limit: nat, failure: Option<string>): seq<ReadMessage> {
    var front := LineMessages(Lines(s), limit);
    if Stopped(front) then front
    else front + [
      if |Tail(s)| > limit then Oversize
      else if failure.Some? then Failed(failure.value)
      else if Tail(s) == [] then Eof else Line(Tail(s))]
  }

  /**
   * Message by message: whole lines, then what ended the reading, which is the first line that is too
   * long, an unfinished one that already is, the error, or the end with its last unfinished line.
   */
  ghost predicate Reads(sent: seq<ReadMessage>, lines: seq<seq<Byte>>, tail: seq<Byte>, limit: nat,
        failure: Option<string>) {
    var n := |sent| - 1;
    && 0 <= n <= |lines|
    && (forall i :: 0 <= i < n ==> |lines[i]| + 1 <= limit && sent[i] == Line(lines[i]))
    && (n < |lines| ==> |lines[n]| + 1 > limit && sent[n] == Oversize)
    && (n == |lines| ==>
          sent[n] == (
            if |tail| > limit then Oversize
            else if failure.Some? then Failed(failure.value)
            else if tail == [] then Eof
            else Line(tail)))
  }

  lemma {:induction false} LineMessagesRead(lines: seq<seq<Byte>>, limit: nat)
    ensures var sent := LineMessages(lines, limit); var n := if Stopped(sent) then |sent| - 1 else |sent|;
      && n <= |lines|
      && (forall i :: 0 <= i < n ==> |lines[i]| + 1 <= limit && sent[i] == Line(lines[i]))
      && (if Stopped(sent) then n < |lines| && |lines[n]| + 1 > limit else n == |lines|)
  {
    if lines != [] {
      LineMessagesRead(lines[..|lines| - 1], limit);
    }
  }

  lemma MessagesExactly(s: seq<Byte>, limit: nat, failure: Option<string>)
    ensures Reads(Messages(s, limit, failure), Lines(s), Tail(s), limit, failure)
  {
    LineMessagesRead(Lines(s), limit);
  }

  /** Once an oversize line is found, nothing later in the stream is read. */
  lemma {:induction false} StoppedStays(s: seq<Byte>, more: seq<Byte>, limit: nat)
    requires Stopped(LineMessages(Lines(s), limit)) || |Tail(s)| > limit
    ensures Stopped(LineMessages(Lines(s + more), limit)) || |Tail(s + more)| > limit
    ensures Stopped(LineMessages(Lines(s), limit))
      ==> LineMessages(Lines(s + more), limit) == LineMessages(Lines(s), limit)
    ensures !Stopped(LineMessages(Lines(s), limit)) && Stopped(LineMessages(Lines(s + more), limit))
      ==> LineMessages(Lines(s + more), limit) == LineMessages(Lines(s), limit) + [Oversize]
    ensures !Stopped(LineMessages(Lines(s + more), limit))
      ==> LineMessages(Lines(s + more), limit) == LineMessages(Lines(s), limit)
  {
    if more == [] {
      assert s + more == s;
    } else {
      var front, last := more[..|more| - 1], more[|more| - 1];
      StoppedStays(s, front, limit);
      assert s + more == (s + front) + [last];
      if last == NEWLINE {
        NewlineByte(s + front);
        TakeAppend(Lines(s + front), Tail(s + front));
      } else {
        PlainBytes(s + front, [last]);
      }
    }
  }

  lemma {:induction false} ConcatSplit(chunks: seq<seq<Byte>>, i: nat)
    requires i <= |chunks|
    ensures Concat(chunks) == Concat(chunks[..i]) + Concat(chunks[i..])
  {
    if i == |chunks| {
      assert chunks[..i] == chunks && chunks[i..] == [];
    } else {
      var n := |chunks| - 1;
      ConcatSplit(chunks[..n], i);
      assert chunks[..n][..i] == chunks[..i] && chunks[i..][..n - i] == chunks[..n][i..];
      Reassociate(Concat(chunks[..i]), Concat(chunks[i..][..n - i]), chunks[n]);
    }
  }

  /** The reader's variables between two reads of the pipe. */
  ghost predicate Reading(seen: seq<Byte>, sent: seq<ReadMessage>, line: seq<Byte>, limit: nat) {
    && sent == LineMessages(Lines(seen), limit) && !Stopped(sent)
    && line == Tail(seen) && |line| <= limit
  }

  /** What has been read already decides that `sent` is all there will ever be. */
  ghost predicate Overrun(seen: seq<Byte>, sent: seq<ReadMessage>, limit: nat) {
    var messages := LineMessages(Lines(seen), limit);
    if Stopped(messages) then sent == messages else |Tail(seen)| > limit && sent == messages + [Oversize]
  }

  lemma OverrunIsFinal(seen: seq<Byte>, sent: seq<ReadMessage>, more: seq<Byte>, limit: nat, failure: Option<string>)
    requires Overrun(seen, sent, limit)
    ensures Messages(seen + more, limit, failure) == sent
  {
    StoppedStays(seen, more, limit);
  }

  lemma LineMessagesNext(lines: seq<seq<Byte>>, line: seq<Byte>, limit: nat)
    requires !Stopped(LineMessages(lines, limit))
    ensures LineMessages(lines + [line], limit)
         == LineMessages(lines, limit) + [if |line| + 1 > limit then Oversize else Line(line)]
  {
    TakeAppend(lines, line);
  }

  /** One pass of the reader's inner loop over the buffer at hand. */
  method ReadAvailable(available: seq<Byte>, line: seq<Byte>, sent: seq<ReadMessage>, limit: nat, ghost seen: seq<Byte>)
    returns (used: nat, line': seq<Byte>, sent': seq<ReadMessage>, oversize: bool)
    requires available != [] && Reading(seen, sent, line, limit)
    ensures 0 < used <= |available|
    ensures !oversize ==> Reading(seen + available[..used], sent', line', limit)
    ensures oversize ==> Overrun(seen + available[..used], sent', limit)
  {
    line', sent', oversize := line, sent, false;
    var newline := IndexOf(available, 0);
    used := if newline < |available| then newline + 1 else |available|;
    PlainBytes(seen, available[0..newline]);
    EmptyPrefix(seen, available);
    ExtendPrefix(seen, available, 0, newline);
    if newline < |available| {
      ExtendPrefixByOne(seen, available, newline);
      NewlineByte(seen + available[..newline]);
      LineMessagesNext(Lines(seen), Tail(seen + available[..newline]), limit);
    }
    if |line| + used > limit {
      sent', oversize := sent + [Oversize], true;
      return;
    }
    line' := line + available[..used];
    if newline < |available| {
      assert line'[..|line'| - 1] == line + available[0..newline];
      line' := line'[..|line'| - 1];
      sent' := sent + [Line(line')];
      line' := [];
    }
  }

  /**
   * The command reader. `chunks` are the buffers the operating system hands over, in order,
   * before the stream ends or fails; an empty buffer is the end, so none of them is empty.
   */
  method ReadStdout(chunks: seq<seq<Byte>>, limit: nat, failure: Option<string>) returns (sent: seq<ReadMessage>)
    requires forall i :: 0 <= i < |chunks| ==> chunks[i] != []
    ensures sent == Messages(Concat(chunks), limit, failure)
    ensures Reads(sent, Lines(Concat(chunks)), Tail(Concat(chunks)), limit, failure)
  {
    MessagesExactly(Concat(chunks), limit, failure);
    sent := [];
    var line: seq<Byte> := [];
    ghost var seen: seq<Byte> := [];
    for i := 0 to |chunks|
      invariant seen == Concat(chunks[..i]) && Reading(seen, sent, line, limit)
    {
      assert chunks[..i + 1][..i] == chunks[..i];
      ConcatSplit(chunks, i + 1);
      var at := 0;
      EmptyPrefix(seen, chunks[i]);
      while at < |chunks[i]|
        invariant 0 <= at <= |chunks[i]| && Reading(seen + chunks[i][..at], sent, line, limit)
      {
        var used, oversize;
        ghost var before := seen + chunks[i][..at];
        used, line, sent, oversize := ReadAvailable(chunks[i][at..], line, sent, limit, before);
        ReadUpTo(seen, chunks[i], at, used);
        at := at + used;
        if oversize {
          RestOfChunk(seen, chunks[i], at, Concat(chunks[i + 1..]));
          OverrunIsFinal(seen + chunks[i][..at], sent, chunks[i][at..] + Concat(chunks[i + 1..]), limit, failure);
          return;
        }
      }
      FullPrefix(chunks[i]);
      seen := seen + chunks[i];
    }
    FullPrefix(chunks);
    if failure.Some? {
      sent := sent + [Failed(failure.value)];
    } else {
      sent := sent + [if line == [] then Eof else Line(line)];
    }
  }

  lemma ReadUpTo(seen: seq<Byte>, chunk: seq<Byte>, at: nat, used: nat)
    requires at + used <= |chunk|
    ensures (seen + chunk[..at]) + chunk[at..][..used] == seen + chunk[..at + used]
  {
  }

  lemma RestOfChunk(seen: seq<Byte>, chunk: seq<Byte>, at: nat, later: seq<Byte>)
    requires at <= |chunk|
    ensures (seen + chunk) + later == (seen + chunk[..at]) + (chunk[at..] + later)
  {
  }
}
