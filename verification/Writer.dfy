/**
 * The bridge's backpressured output: messages go straight out while the stream takes them
 * and wait in a bounded FIFO queue while it does not. Overflow, a stream error or a missed
 * shutdown deadline aborts the writer for good.
 */
module Writer {
  import opened Prelude

  type Text = string

  datatype Item = Item(text: Text, bytes: nat)

  function Sum(queue: seq<Item>): nat {
    if queue == [] then 0 else queue[0].bytes + Sum(queue[1..])
  }

  function Texts(queue: seq<Item>): seq<Text> {
    seq(|queue|, i requires 0 <= i < |queue| => queue[i].text)
  }

  lemma {:induction false} SumAppend(queue: seq<Item>, item: Item)
    ensures Sum(queue + [item]) == Sum(queue) + item.bytes
  {
    if queue == [] {
      assert queue + [item] == [item];
    } else {
      SumAppend(queue[1..], item);
      assert (queue + [item])[1..] == queue[1..] + [item];
    }
  }

  /** The stream's answer to its k-th write of one event; false means it is full. */
  predicate Ready(answers: seq<bool>, k: nat) {
    k < |answers| ==> answers[k]
  }

  /** How far a flush gets: up to and including the first write the stream answers with "full". */
  function UntilFull(answers: seq<bool>, k: nat, n: nat): (m: nat)
    requires k <= n
    ensures k <= m <= n
    ensures forall j :: k <= j < m - 1 && j < |answers| ==> answers[j]
    ensures m < n ==> k < m <= |answers| && !answers[m - 1]
    decreases n - k
  {
    if k == n then n else if Ready(answers, k) then UntilFull(answers, k + 1, n) else k + 1
  }

  lemma TextsNext(written: seq<Text>, queue: seq<Item>, n: nat)
    requires n < |queue|
    ensures (written + Texts(queue[..n])) + [queue[n].text] == written + Texts(queue[..n + 1])
    ensures queue[n..][0] == queue[n] && queue[n..][1..] == queue[n + 1..]
  {
    assert Texts(queue[..n + 1]) == Texts(queue[..n]) + [queue[n].text];
  }

  class BoundedWriter {
    const maxQueuedBytes: nat
    var queue: seq<Item>
    var queuedBytes: nat
    var blocked: bool
    var failed: bool
    var stopped: bool
    var finishingInput: bool
    var flushWaiting: bool
    /** The listeners on the output stream are installed. */
    var listening: bool
    /** The input stream is not paused. */
    var flowing: bool
    /** Every text handed to the output stream, in order. */
    var written: seq<Text>
    /** Every message taken by `Send`, in order. */
    ghost var accepted: seq<Text>

    ghost predicate Valid()
      reads this
    {
      && queuedBytes == Sum(queue) <= maxQueuedBytes
      && (forall i :: 0 <= i < |queue| ==> queue[i].bytes == |queue[i].text|)
      && written <= accepted
      && (!failed ==> written + Texts(queue) == accepted)
      && (queue != [] ==> blocked)
      && (failed ==> queue == [] && !listening && !flushWaiting)
      && (blocked && !finishingInput ==> !flowing)
      && (failed || stopped ==> !flowing)
      && (flushWaiting ==> blocked && stopped)
      && (!stopped && !failed ==> listening)
      && (stopped && !failed && !flushWaiting ==> written == accepted)
      && (flushWaiting ==> listening)
    }

    constructor (maxQueuedBytes: nat)
      ensures Valid() && this.maxQueuedBytes == maxQueuedBytes
      ensures accepted == [] && written == [] && !failed && !stopped && !blocked
    {
      this.maxQueuedBytes := maxQueuedBytes;
      queue, queuedBytes, blocked, failed, stopped := [], 0, false, false, false;
      finishingInput, flushWaiting, listening, flowing := false, false, true, true;
      written, accepted := [], [];
    }

    /** A message is written, queued, or the writer gives up; it is never dropped quietly. */
    method Send(text: Text, ready: bool)
      requires Valid()
      modifies this
      ensures Valid()
      ensures stopped == old(stopped) && finishingInput == old(finishingInput)
      ensures accepted == if old(failed || stopped) then old(accepted) else old(accepted) + [text]
      ensures old(failed || stopped) ==> written == old(written) && failed == old(failed) && queue == old(queue)
      ensures !old(failed || stopped || blocked) ==>
        !failed && blocked == !ready && queue == [] && written == old(written) + [text]
      ensures !old(failed || stopped) && old(blocked) ==>
        && written == old(written)
        && (failed <==> old(Sum(queue)) + |text| > maxQueuedBytes)
        && queue == (if failed then [] else old(queue) + [Item(text, |text|)])
    {
      if failed || stopped {
        return;
      }
      var bytes := |text|;
      if !blocked && |queue| == 0 {
        accepted := accepted + [text];
        Write(text, ready);
        return;
      }
      if queuedBytes + bytes > maxQueuedBytes {
        accepted := accepted + [text];
        Abort();
        return;
      }
      SumAppend(queue, Item(text, bytes));
      Reassociate(written, Texts(queue), [text]);
      assert Texts(queue + [Item(text, bytes)]) == Texts(queue) + [text];
      queue := queue + [Item(text, bytes)];
      queuedBytes := queuedBytes + bytes;
      accepted := accepted + [text];
    }

    method Write(text: Text, ready: bool)
      modifies this`written, this`blocked, this`flowing
      ensures written == old(written) + [text]
      ensures blocked == (old(blocked) || !ready)
      ensures flowing == (old(flowing) && (ready || finishingInput))
    {
      written := written + [text];
      if !ready {
        blocked := true;
        if !finishingInput {
          flowing := false;
        }
      }
    }

    /** What the flushing loop keeps: no byte of the backlog is lost, doubled or reordered. */
    ghost predicate Flushing(all: seq<Text>)
      reads this
    {
      && queuedBytes == Sum(queue) <= maxQueuedBytes
      && (forall i :: 0 <= i < |queue| ==> queue[i].bytes == |queue[i].text|)
      && written + Texts(queue) == accepted == all
      && (blocked && !finishingInput ==> !flowing)
      && (stopped ==> !flowing)
    }

    method WriteFirst(ready: bool)
      requires Flushing(accepted) && queue != [] && !blocked
      modifies this`queue, this`queuedBytes, this`written, this`blocked, this`flowing
      ensures Flushing(accepted) && queue == old(queue[1..]) && blocked == !ready
      ensures written == old(written) + [old(queue[0].text)]
    {
      var item := queue[0];
      assert Texts(queue) == [item.text] + Texts(queue[1..]);
      Reassociate(written, [item.text], Texts(queue[1..]));
      queue := queue[1..];
      queuedBytes := queuedBytes - item.bytes;
      Write(item.text, ready);
    }

    /** The flushing loop: the backlog in order, until it is gone or the stream is full. */
    method Flush(answers: seq<bool>)
      requires Flushing(accepted) && !blocked
      modifies this`queue, this`queuedBytes, this`written, this`blocked, this`flowing
      ensures Flushing(accepted)
      ensures var n := UntilFull(answers, 0, |old(queue)|);
        && queue == old(queue)[n..] && written == old(written) + Texts(old(queue)[..n])
        && blocked == (n > 0 && !Ready(answers, n - 1)) && (queue != [] ==> blocked)
    {
      var n := 0;
      while !blocked && |queue| > 0
        invariant Flushing(accepted)
        invariant 0 <= n <= |old(queue)| && queue == old(queue)[n..]
        invariant written == old(written) + Texts(old(queue)[..n])
        invariant blocked == (n > 0 && !Ready(answers, n - 1))
        invariant UntilFull(answers, 0, |old(queue)|) == if blocked then n else UntilFull(answers, n, |old(queue)|)
        decreases |queue|
      {
        TextsNext(old(written), old(queue), n);
        WriteFirst(Ready(answers, n));
        n := n + 1;
      }
    }

    /** The stream can take more: flush in order until it fills up again. */
    method OnDrain(answers: seq<bool>)
      requires Valid()
      modifies this
      ensures Valid()
      ensures accepted == old(accepted) && old(written) <= written
      ensures failed == old(failed) && stopped == old(stopped) && finishingInput == old(finishingInput)
      ensures old(failed) ==> written == old(written)
      ensures old(listening) && !blocked ==> written == accepted && !flushWaiting
      ensures !old(listening) ==> written == old(written) && queue == old(queue) && blocked == old(blocked)
      ensures old(listening) ==>
        var n := UntilFull(answers, 0, |old(queue)|);
        && queue == old(queue)[n..] && written == old(written) + Texts(old(queue)[..n])
        && blocked == (0 < n <= |answers| && !answers[n - 1])
    {
      if !listening {
        return;
      }
      blocked := false;
      Flush(answers);
      if !blocked && |queue| == 0 {
        if !failed && !stopped {
          flowing := true;
        }
        flushWaiting := false;
      }
    }

    /** Nothing is written after this, and the backlog is gone. */
    method Abort()
      requires queuedBytes <= maxQueuedBytes && written <= accepted
      requires failed ==> Valid()
      requires flushWaiting ==> blocked && stopped
      modifies this
      ensures Valid() && failed && queue == []
      ensures written == old(written) && accepted == old(accepted)
      ensures stopped == old(stopped) && finishingInput == old(finishingInput)
    {
      if failed {
        return;
      }
      failed := true;
      queue := [];
      queuedBytes := 0;
      flowing := false;
      listening := false;
      flushWaiting := false;
    }

    method FinishInput()
      requires Valid() && !failed && !stopped
      modifies this`finishingInput, this`flowing
      ensures Valid() && finishingInput && flowing
    {
      finishingInput := true;
      flowing := true;
    }

    /** Shutdown begins: no message is taken from now on. */
    method BeginStop()
      requires Valid()
      modifies this
      ensures Valid() && stopped && !flowing
      ensures written == old(written) && accepted == old(accepted) && failed == old(failed)
      ensures finishingInput == old(finishingInput)
    {
      if stopped {
        return;
      }
      stopped := true;
      flowing := false;
      if !failed && (blocked || |queue| > 0) {
        flushWaiting := true;
      } else {
        listening := false;
      }
    }

    /** The race in shutdown is decided: either the backlog went out, or the writer aborts. */
    method EndStop(timedOut: bool)
      requires Valid() && stopped && (!timedOut ==> !flushWaiting)
      modifies this
      ensures Valid() && !listening && stopped
      ensures written == old(written) && accepted == old(accepted)
      ensures !failed ==> written == accepted
      ensures finishingInput == old(finishingInput)
    {
      if timedOut {
        Abort();
      }
      listening := false;
      flushWaiting := false;
    }
  }

  // --- whole lives of a writer -------------------------------------------------------------

  datatype Event =
    | Sending(text: Text, ready: bool)
    | Drain(answers: seq<bool>)
    | StreamError
    | FinishingInput
    | Stopping
    | Settled(timedOut: bool)

  /** The messages offered before shutdown began. */
  function Offered(events: seq<Event>): seq<Text> {
    if events == [] then []
    else
      var front, last := events[..|events| - 1], events[|events| - 1];
      if last.Sending? && Stopping !in front then Offered(front) + [last.text] else Offered(front)
  }

  lemma OfferedNext(events: seq<Event>, i: nat)
    requires i < |events|
    ensures Offered(events[..i + 1])
         == if events[i].Sending? && Stopping !in events[..i] then Offered(events[..i]) + [events[i].text]
            else Offered(events[..i])
    ensures Stopping in events[..i + 1] <==> Stopping in events[..i] || events[i] == Stopping
  {
    assert events[..i + 1] == events[..i] + [events[i]];
    TakeAppend(events[..i], events[i]);
  }

  /** One event; a repeated shutdown and events nobody listens to are ignored. */
  method Handle(writer: BoundedWriter, event: Event)
    requires writer.Valid()
    modifies writer
    ensures writer.Valid()
    ensures old(writer.failed) ==> writer.failed && writer.written == old(writer.written)
    ensures old(writer.written) <= writer.written
    ensures writer.stopped == (old(writer.stopped) || event == Stopping)
    ensures writer.accepted == (if event.Sending? && !old(writer.failed || writer.stopped)
                                then old(writer.accepted) + [event.text] else old(writer.accepted))
  {
    match event
    case Sending(text, ready) => writer.Send(text, ready);
    case Drain(answers) => writer.OnDrain(answers);
    case StreamError =>
      if writer.listening {
        writer.Abort();
      }
    case FinishingInput =>
      if !writer.failed && !writer.stopped {
        writer.FinishInput();
      }
    case Stopping => writer.BeginStop();
    case Settled(timedOut) =>
      if writer.stopped && writer.listening && (timedOut || !writer.flushWaiting) {
        writer.EndStop(timedOut);
      }
  }

  /** The history as far as `i` events have made it. */
  ghost predicate Followed(writer: BoundedWriter, events: seq<Event>, i: nat)
    requires i <= |events|
    reads writer
  {
    && writer.stopped == (Stopping in events[..i])
    && writer.accepted <= Offered(events[..i])
    && (!writer.failed ==> writer.accepted == Offered(events[..i]))
  }

  method FollowOne(writer: BoundedWriter, events: seq<Event>, i: nat)
    requires writer.Valid() && i < |events| && Followed(writer, events, i)
    modifies writer
    ensures writer.Valid() && Followed(writer, events, i + 1)
    ensures old(writer.failed) ==> writer.failed && writer.written == old(writer.written)
    ensures old(writer.written) <= writer.written
  {
    OfferedNext(events, i);
    Handle(writer, events[i]);
  }

  /** What can be read off the writer between two events. */
  datatype Moment = Moment(written: seq<Text>, backlog: seq<Item>, blocked: bool, failed: bool)

  /** What reached the stream and what waits are what was offered; the wait is bounded and for the stream only. */
  predicate Faithful(moment: Moment, offered: seq<Text>, maxQueuedBytes: nat) {
    && moment.written <= offered
    && (!moment.failed ==> moment.written + Texts(moment.backlog) == offered)
    && Sum(moment.backlog) <= maxQueuedBytes && (forall item :: item in moment.backlog ==> item.bytes == |item.text|)
    && (moment.backlog != [] ==> moment.blocked)
    && (moment.failed ==> moment.backlog == [])
  }

  /** Output only grows, and not at all after an abort. */
  ghost predicate Follows(before: Moment, after: Moment) {
    before.written <= after.written && (before.failed ==> after.failed && after.written == before.written)
  }

  ghost predicate Trail(moments: seq<Moment>, events: seq<Event>, maxQueuedBytes: nat)
    requires |moments| <= |events| + 1
  {
    && (forall i :: 0 <= i < |moments| ==> Faithful(moments[i], Offered(events[..i]), maxQueuedBytes))
    && (forall i, j {:trigger Follows(moments[i], moments[j])} :: 0 <= i <= j < |moments| ==>
          Follows(moments[i], moments[j]))
  }

  lemma TrailGrows(moments: seq<Moment>, moment: Moment, events: seq<Event>, maxQueuedBytes: nat)
    requires 0 < |moments| <= |events| && Trail(moments, events, maxQueuedBytes)
    requires Faithful(moment, Offered(events[..|moments|]), maxQueuedBytes)
    requires Follows(moments[|moments| - 1], moment)
    ensures Trail(moments + [moment], events, maxQueuedBytes)
  {
    var longer := moments + [moment];
    forall i, j | 0 <= i <= j < |longer| ensures Follows(longer[i], longer[j]) {
      if i < |moments| == j {
        assert Follows(moments[i], moments[|moments| - 1]);
      }
    }
  }

  function MomentOf(writer: BoundedWriter): Moment
    reads writer
  {
    Moment(writer.written, writer.queue, writer.blocked, writer.failed)
  }

  lemma ValidIsFaithful(writer: BoundedWriter, events: seq<Event>, i: nat)
    requires writer.Valid() && i <= |events| && Followed(writer, events, i)
    ensures Faithful(MomentOf(writer), Offered(events[..i]), writer.maxQueuedBytes)
  {
  }

  /**
   * Over any sequence of events and at each point of it: what reached the stream is a prefix of what was
   * offered, until an abort the rest is exactly the backlog, a backlog is bounded and waits for the
   * stream, and nothing is written after an abort.
   */
  method Live(maxQueuedBytes: nat, events: seq<Event>) returns (moments: seq<Moment>)
    ensures |moments| == |events| + 1
    ensures forall i :: 0 <= i <= |events| ==> Faithful(moments[i], Offered(events[..i]), maxQueuedBytes)
    ensures forall i, j :: 0 <= i <= j <= |events| ==> Follows(moments[i], moments[j])
  {
    var writer := new BoundedWriter(maxQueuedBytes);
    moments := [MomentOf(writer)];
    ValidIsFaithful(writer, events, 0);
    for n := 0 to |events|
      invariant fresh(writer) && writer.Valid() && writer.maxQueuedBytes == maxQueuedBytes
      invariant |moments| == n + 1 && Followed(writer, events, n) && moments[n] == MomentOf(writer)
      invariant Trail(moments, events, maxQueuedBytes)
    {
      FollowOne(writer, events, n);
      ValidIsFaithful(writer, events, n + 1);
      TrailGrows(moments, MomentOf(writer), events, maxQueuedBytes);
      moments := moments + [MomentOf(writer)];
    }
  }
}
