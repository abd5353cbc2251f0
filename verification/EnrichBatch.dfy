/**
 * One batch of records offered to a command: admission, reservation before delivery, the
 * conversation with the child process, and the durable result. The child, cancellation and the
 * deadline are inputs: each pass of the runner's loop sees one `Poll`.
 */
module EnrichBatch {
  import opened Prelude
  import opened AttemptStore

  // --- records and results ----------------------------------------------------------------

  datatype Event = Event(id: Id, raw: string, bytes: nat, fields: Fields)

  datatype OutcomeState = Ready | Error

  datatype Diagnostic = Diagnostic(code: string, message: string)

  datatype EventOutcome = EventOutcome(
    event: Event, state: OutcomeState, derived: Fields, diagnostics: seq<Diagnostic>)

  datatype BatchOutcome = BatchOutcome(
    session: nat, revision: nat, events: seq<EventOutcome>, diagnostics: seq<Diagnostic>)

  /** How a name is shown in a message. */
  type Quote = string -> string

  const MAX_DIAGNOSTIC_CHARS: nat := 512

  function Ids(events: seq<Event>): set<Id> {
    set i | 0 <= i < |events| :: events[i].id
  }

  predicate Distinct(events: seq<Event>) {
    forall i, j :: 0 <= i < j < |events| ==> events[i].id != events[j].id
  }

  /** A command may only add fields, and none of the program's own. */
  predicate Allowed(event: Event, fields: Fields) {
    forall name :: name in fields.names ==> !ProtectedName(name) && name !in event.fields.names
  }

  // --- the conversation ----------------------------------------------------------------------

  datatype Response =
    | Reply(session: nat, revision: nat, id: Id, fields: Fields)
    | BatchComplete(session: nat, revision: nat)

  /** What the output worker has to say; a line that is not a response parses to an error. */
  datatype Read =
    | Line(bytes: nat, response: Result<Response, string>)
    | Oversize
    | Eof
    | ReadError(message: string)
    | Disconnected
    | Nothing

  datatype Ack = Written | WriteFailed(message: string) | WriterGone | NoAck

  datatype Poll = Poll(cancelled: bool, late: bool, ack: Ack, read: Read)

  /** The batch a conversation is about. */
  datatype Topic = Topic(session: nat, revision: nat, asked: set<Id>, maxOutput: nat)

  function Bytes(polls: seq<Poll>): nat {
    if polls == [] then 0
    else
      var read := polls[|polls| - 1].read;
      Bytes(polls[..|polls| - 1]) + if read.Line? then read.bytes else 0
  }

  function IsReply(poll: Poll): bool {
    poll.read.Line? && poll.read.response.Ok? && poll.read.response.value.Reply?
  }

  /** The answer to each record so far. */
  function Answers(polls: seq<Poll>): map<Id, Fields> {
    if polls == [] then map[]
    else
      var front, last := Answers(polls[..|polls| - 1]), polls[|polls| - 1];
      if IsReply(last) then front[last.read.response.value.id := last.read.response.value.fields] else front
  }

  predicate WroteBy(polls: seq<Poll>) {
    polls != [] && (polls[|polls| - 1].ack.Written? || WroteBy(polls[..|polls| - 1]))
  }

  /** Nothing stops the batch before the output is looked at. */
  predicate Undisturbed(before: seq<Poll>, poll: Poll) {
    && !poll.cancelled && !poll.late
    && (WroteBy(before) || poll.ack.Written? || poll.ack.NoAck?)
  }

  predicate GoodReply(reply: Response, topic: Topic, answers: map<Id, Fields>)
    requires reply.Reply?
  {
    && reply.session == topic.session && reply.revision == topic.revision
    && reply.id in topic.asked && reply.id !in answers
  }

  /** Either silence, or the first answer of this session to a record that was asked about. */
  predicate GoodStep(before: seq<Poll>, poll: Poll, topic: Topic) {
    && Undisturbed(before, poll)
    && (poll.read.Nothing? || (
         && IsReply(poll) && GoodReply(poll.read.response.value, topic, Answers(before))
         && Bytes(before) + poll.read.bytes <= topic.maxOutput))
  }

  ghost predicate CleanPrefix(polls: seq<Poll>, n: nat, topic: Topic) {
    n <= |polls| && forall i :: 0 <= i < n ==> GoodStep(polls[..i], polls[i], topic)
  }

  /** The completion frame of this session, every answer in. */
  predicate Finishes(before: seq<Poll>, poll: Poll, topic: Topic) {
    && Undisturbed(before, poll)
    && poll.read.Line? && poll.read.response == Ok(BatchComplete(topic.session, topic.revision))
    && Bytes(before) + poll.read.bytes <= topic.maxOutput
    && Answers(before).Keys == topic.asked
  }

  /** A valid conversation of `n` polls. */
  ghost predicate CleanRun(polls: seq<Poll>, n: nat, topic: Topic) {
    && 0 < n <= |polls|
    && CleanPrefix(polls, n - 1, topic)
    && Finishes(polls[..n - 1], polls[n - 1], topic)
  }

  lemma {:induction false} AnswersAreReplies(polls: seq<Poll>, n: nat, topic: Topic, id: Id) returns (i: nat)
    requires CleanPrefix(polls, n, topic) && id in Answers(polls[..n])
    ensures i < n && IsReply(polls[i]) && polls[i].read.response.value.id == id
    ensures polls[i].read.response.value.fields == Answers(polls[..n])[id]
  {
    assert n > 0 && polls[..n][..n - 1] == polls[..n - 1];
    if IsReply(polls[n - 1]) && polls[n - 1].read.response.value.id == id {
      i := n - 1;
    } else {
      i := AnswersAreReplies(polls, n - 1, topic, id);
    }
  }

  lemma {:induction false} RepliesAreAnswers(polls: seq<Poll>, n: nat, i: nat)
    requires i < n <= |polls| && IsReply(polls[i])
    ensures polls[i].read.response.value.id in Answers(polls[..n])
    decreases n
  {
    assert polls[..n][..n - 1] == polls[..n - 1];
    if i < n - 1 {
      RepliesAreAnswers(polls, n - 1, i);
    }
  }

  ghost predicate RepliesTo(poll: Poll, topic: Topic, id: Id, fields: Fields) {
    poll.read.Line? && poll.read.response == Ok(Reply(topic.session, topic.revision, id, fields))
  }

  /** In a valid conversation every record asked about is answered exactly once, and no other is. */
  lemma ExactlyOneReplyEach(polls: seq<Poll>, n: nat, topic: Topic, id: Id)
    requires CleanRun(polls, n, topic)
    ensures Answers(polls[..n - 1]).Keys == topic.asked
    ensures id in topic.asked ==>
      exists i: nat :: i < n - 1 && RepliesTo(polls[i], topic, id, Answers(polls[..n - 1])[id])
    ensures forall i, j :: 0 <= i < n && 0 <= j < n && RepliesWith(polls[i], id) && RepliesWith(polls[j], id) ==> i == j
    ensures forall i :: 0 <= i < n && RepliesWith(polls[i], id) ==> id in topic.asked
  {
    if id in topic.asked {
      var i := AnswersAreReplies(polls, n - 1, topic, id);
      assert GoodStep(polls[..i], polls[i], topic);
      assert RepliesTo(polls[i], topic, id, Answers(polls[..n - 1])[id]);
    }
    forall i, j | 0 <= i < j < n && RepliesWith(polls[i], id) ensures !RepliesWith(polls[j], id) {
      RepliesAreAnswers(polls, j, i);
      if j < n - 1 {
        assert GoodStep(polls[..j], polls[j], topic);
      }
    }
    forall i | 0 <= i < n && RepliesWith(polls[i], id) ensures id in topic.asked {
      assert GoodStep(polls[..i], polls[i], topic);
    }
  }

  ghost predicate RepliesWith(poll: Poll, id: Id) {
    IsReply(poll) && poll.read.response.value.id == id
  }

  lemma CompletionIsNoReply(before: seq<Poll>, poll: Poll, topic: Topic)
    requires Finishes(before, poll, topic)
    ensures !GoodStep(before, poll, topic)
  {
  }

  /** Every valid conversation is still going on, in good order, wherever a prefix of it ends. */
  lemma CleanRunGoesOn(polls: seq<Poll>, i: nat, topic: Topic, n: nat)
    requires CleanPrefix(polls, i, topic) && CleanRun(polls, n, topic)
    ensures i < n && (GoodStep(polls[..i], polls[i], topic) || Finishes(polls[..i], polls[i], topic))
  {
    CompletionIsNoReply(polls[..n - 1], polls[n - 1], topic);
  }

  lemma NoCleanRun(polls: seq<Poll>, i: nat, topic: Topic)
    requires CleanPrefix(polls, i, topic)
    requires i < |polls| ==> !GoodStep(polls[..i], polls[i], topic) && !Finishes(polls[..i], polls[i], topic)
    ensures forall n :: !CleanRun(polls, n, topic)
  {
    forall n | CleanRun(polls, n, topic) ensures false {
      CleanRunGoesOn(polls, i, topic, n);
    }
  }

  // --- the same, poll by poll -------------------------------------------------------------------

  /** The input was not taken. */
  predicate Unwritten(poll: Poll) {
    poll.ack.WriteFailed? || poll.ack.WriterGone?
  }

  /** Some poll before the `i`-th heard that the input was written. */
  ghost predicate WrittenBefore(polls: seq<Poll>, i: nat)
    requires i <= |polls|
  {
    exists j :: 0 <= j < i && polls[j].ack.Written?
  }

  ghost predicate AnsweredBefore(polls: seq<Poll>, i: nat, id: Id)
    requires i <= |polls|
  {
    exists j :: 0 <= j < i && RepliesWith(polls[j], id)
  }

  /** Silence, or an answer of this session to a record that was asked about. */
  ghost predicate InTurn(poll: Poll, topic: Topic) {
    poll.read.Nothing? || exists id, fields :: id in topic.asked && RepliesTo(poll, topic, id, fields)
  }

  /** Neither cancelled nor late, and the input not refused before it was written. */
  ghost predicate Calm(polls: seq<Poll>, i: nat)
    requires i < |polls|
  {
    !polls[i].cancelled && !polls[i].late && (Unwritten(polls[i]) ==> WrittenBefore(polls, i))
  }

  /**
   * A valid conversation, all at once: nothing but silence and answers, every record asked about
   * answered once, then the completion frame, and no more output than allowed.
   */
  ghost predicate Conversation(polls: seq<Poll>, n: nat, topic: Topic) {
    && 0 < n <= |polls|
    && (forall i {:trigger Calm(polls, i)} :: 0 <= i < n ==> Calm(polls, i))
    && (forall i {:trigger InTurn(polls[i], topic)} :: 0 <= i < n - 1 ==> InTurn(polls[i], topic))
    && (forall i, j, id {:trigger RepliesWith(polls[i], id), RepliesWith(polls[j], id)} ::
          0 <= i < j < n - 1 && RepliesWith(polls[i], id) ==> !RepliesWith(polls[j], id))
    && (forall id :: id in topic.asked ==> AnsweredBefore(polls, n - 1, id))
    && polls[n - 1].read.Line? && polls[n - 1].read.response == Ok(BatchComplete(topic.session, topic.revision))
    && Bytes(polls[..n]) <= topic.maxOutput
  }

  lemma {:induction false} WroteByMeans(polls: seq<Poll>, i: nat)
    requires i <= |polls|
    ensures WroteBy(polls[..i]) <==> WrittenBefore(polls, i)
  {
    if i > 0 {
      PrefixStep(polls, i - 1);
      WroteByMeans(polls, i - 1);
    }
  }

  lemma {:induction false} AnswersMean(polls: seq<Poll>, i: nat, id: Id)
    requires i <= |polls|
    ensures id in Answers(polls[..i]) <==> AnsweredBefore(polls, i, id)
  {
    if i > 0 {
      PrefixStep(polls, i - 1);
      AnswersMean(polls, i - 1, id);
    }
  }

  lemma {:induction false} BytesGrow(polls: seq<Poll>, i: nat, n: nat)
    requires i <= n <= |polls|
    ensures Bytes(polls[..i]) <= Bytes(polls[..n])
    decreases n - i
  {
    if i < n {
      PrefixStep(polls, i);
      BytesGrow(polls, i + 1, n);
    }
  }

  lemma CalmIsUndisturbed(polls: seq<Poll>, i: nat)
    requires i < |polls|
    ensures Undisturbed(polls[..i], polls[i]) <==> Calm(polls, i)
  {
    WroteByMeans(polls, i);
  }

  lemma CleanRunIsConversation(polls: seq<Poll>, n: nat, topic: Topic)
    requires CleanRun(polls, n, topic)
    ensures Conversation(polls, n, topic)
  {
    forall i | 0 <= i < n ensures Calm(polls, i) {
      assert i < n - 1 ==> GoodStep(polls[..i], polls[i], topic);
      CalmIsUndisturbed(polls, i);
    }
    forall i | 0 <= i < n - 1 ensures InTurn(polls[i], topic) {
      assert GoodStep(polls[..i], polls[i], topic);
      if !polls[i].read.Nothing? {
        var reply := polls[i].read.response.value;
        assert RepliesTo(polls[i], topic, reply.id, reply.fields);
      }
    }
    forall i, j, id | 0 <= i < j < n - 1 && RepliesWith(polls[i], id) ensures !RepliesWith(polls[j], id) {
      ExactlyOneReplyEach(polls, n, topic, id);
    }
    forall id | id in topic.asked ensures AnsweredBefore(polls, n - 1, id) {
      AnswersMean(polls, n - 1, id);
    }
    PrefixStep(polls, n - 1);
  }

  lemma TurnIsGoodStep(polls: seq<Poll>, n: nat, topic: Topic, i: nat)
    requires Conversation(polls, n, topic) && i < n - 1
    ensures GoodStep(polls[..i], polls[i], topic)
  {
    CalmIsUndisturbed(polls, i);
    assert InTurn(polls[i], topic);
    if !polls[i].read.Nothing? {
      var id := polls[i].read.response.value.id;
      assert RepliesWith(polls[i], id);
      AnswersMean(polls, i, id);
      PrefixStep(polls, i);
      BytesGrow(polls, i + 1, n);
    }
  }

  lemma AllAnswered(polls: seq<Poll>, n: nat, topic: Topic)
    requires Conversation(polls, n, topic)
    ensures Answers(polls[..n - 1]).Keys == topic.asked
  {
    forall id ensures id in Answers(polls[..n - 1]) <==> id in topic.asked {
      AnswersMean(polls, n - 1, id);
      if AnsweredBefore(polls, n - 1, id) {
        var j :| 0 <= j < n - 1 && RepliesWith(polls[j], id);
        assert InTurn(polls[j], topic);
      }
    }
  }

  /** The runner's step by step notion of a valid conversation is exactly this one. */
  lemma CleanRunExactly(polls: seq<Poll>, n: nat, topic: Topic)
    ensures CleanRun(polls, n, topic) <==> Conversation(polls, n, topic)
  {
    if CleanRun(polls, n, topic) {
      CleanRunIsConversation(polls, n, topic);
    }
    if Conversation(polls, n, topic) {
      forall i | 0 <= i < n - 1 ensures GoodStep(polls[..i], polls[i], topic) {
        TurnIsGoodStep(polls, n, topic, i);
      }
      CalmIsUndisturbed(polls, n - 1);
      AllAnswered(polls, n, topic);
      PrefixStep(polls, n - 1);
    }
  }

  // --- outcomes ---------------------------------------------------------------------------------

  function Unanswered(event: Event): EventOutcome {
    EventOutcome(event, OutcomeState.Error, NO_FIELDS, [])
  }

  /** A diagnostic keeps only so much of its message. */
  function Diagnose(code: string, message: string): Diagnostic {
    Diagnostic(code, message[..Min(|message|, MAX_DIAGNOSTIC_CHARS)])
  }

  function Noted(outcome: EventOutcome, note: Diagnostic): EventOutcome {
    outcome.(diagnostics := outcome.diagnostics + [note])
  }

  function FirstProtected(names: seq<string>): (r: Option<string>)
    ensures r.None? <==> forall name :: name in names ==> !ProtectedName(name)
    ensures r.Some? ==> r.value in names
  {
    if names == [] then None else if ProtectedName(names[0]) then Some(names[0]) else FirstProtected(names[1..])
  }

  function FirstTaken(names: seq<string>, taken: seq<string>): (r: Option<string>)
    ensures r.None? <==> forall name :: name in names ==> name !in taken
    ensures r.Some? ==> r.value in names
  {
    if names == [] then None else if names[0] in taken then Some(names[0]) else FirstTaken(names[1..], taken)
  }

  function Answered(outcome: EventOutcome, fields: Fields, quote: Quote): EventOutcome {
    var protected := FirstProtected(fields.names);
    var taken := FirstTaken(fields.names, outcome.event.fields.names);
    if protected.Some? then
      Noted(outcome, Diagnose("protected_field", "command cannot write protected field " + quote(protected.value)))
    else if taken.Some? then
      Noted(outcome, Diagnose("existing_field",
        "command output must be additive and cannot replace input field " + quote(taken.value)))
    else outcome.(state := OutcomeState.Ready, derived := fields)
  }

  lemma AnsweredMeaning(event: Event, notes: seq<Diagnostic>, fields: Fields, quote: Quote)
    ensures var o := Answered(Unanswered(event).(diagnostics := notes), fields, quote);
      o.event == event && (o.state.Ready? <==> Allowed(event, fields)) && (o.state.Ready? ==> o.derived == fields)
  {
  }

  function SettleOne(outcome: EventOutcome, answers: map<Id, Fields>, quote: Quote): EventOutcome {
    if outcome.event.id in answers then Answered(outcome, answers[outcome.event.id], quote) else outcome
  }

  function Settled(outcomes: seq<EventOutcome>, answers: map<Id, Fields>, quote: Quote): (r: seq<EventOutcome>)
    ensures |r| == |outcomes|
  {
    seq(|outcomes|, k requires 0 <= k < |outcomes| => SettleOne(outcomes[k], answers, quote))
  }

  function Marked(outcomes: seq<EventOutcome>, ids: set<Id>, note: Diagnostic): seq<EventOutcome> {
    seq(|outcomes|, k requires 0 <= k < |outcomes| =>
      if outcomes[k].event.id in ids then Noted(outcomes[k], note) else outcomes[k])
  }

  /** The records behind the outcomes, which never change. */
  function Events(outcomes: seq<EventOutcome>): seq<Event> {
    seq(|outcomes|, k requires 0 <= k < |outcomes| => outcomes[k].event)
  }

  lemma SettledKeepsEvents(outcomes: seq<EventOutcome>, answers: map<Id, Fields>, quote: Quote)
    ensures Events(Settled(outcomes, answers, quote)) == Events(outcomes)
  {
  }

  lemma UpdateKeepsEvents(outcomes: seq<EventOutcome>, k: nat, outcome: EventOutcome)
    requires k < |outcomes| && outcome.event == outcomes[k].event
    ensures Events(outcomes[k := outcome]) == Events(outcomes)
  {
  }

  ghost predicate Indexed(indexes: map<Id, nat>, outcomes: seq<EventOutcome>) {
    && (forall id :: id in indexes ==> indexes[id] < |outcomes| && outcomes[indexes[id]].event.id == id)
    && (forall k: nat :: k < |outcomes| ==> outcomes[k].event.id in indexes && indexes[outcomes[k].event.id] == k)
  }

  method Mark(outcomes: seq<EventOutcome>, ids: set<Id>, note: Diagnostic) returns (marked: seq<EventOutcome>)
    ensures marked == Marked(outcomes, ids, note) && Events(marked) == Events(outcomes)
  {
    marked := outcomes;
    for k := 0 to |outcomes|
      invariant |marked| == |outcomes|
      invariant forall j :: 0 <= j < k ==> marked[j] == Marked(outcomes, ids, note)[j]
      invariant forall j :: k <= j < |outcomes| ==> marked[j] == outcomes[j]
    {
      if outcomes[k].event.id in ids {
        marked := marked[k := Noted(outcomes[k], note)];
      }
    }
  }

  /** `pending` is what has been asked and not yet answered. */
  predicate Remaining(asked: set<Id>, answers: map<Id, Fields>, pending: set<Id>) {
    answers.Keys <= asked && pending == asked - answers.Keys
  }

  lemma NothingRemains(asked: set<Id>, answers: map<Id, Fields>, pending: set<Id>)
    requires Remaining(asked, answers, pending)
    ensures pending == {} <==> answers.Keys == asked
  {
    if pending == {} {
      forall id | id in asked ensures id in answers.Keys {
        assert id !in pending;
      }
    }
  }

  lemma OneLessRemains(asked: set<Id>, answers: map<Id, Fields>, pending: set<Id>, id: Id, fields: Fields)
    requires Remaining(asked, answers, pending)
    ensures id in pending <==> id in asked && id !in answers
    ensures id in pending ==> Remaining(asked, answers[id := fields], pending - {id})
  {
  }

  /** The runner's variables while the child may still answer. */
  ghost predicate Listening(polls: seq<Poll>, i: nat, topic: Topic, first: seq<EventOutcome>,
        outcomes: seq<EventOutcome>, pending: set<Id>, total: nat, wrote: bool, quote: Quote)
  {
    && CleanPrefix(polls, i, topic)
    && Remaining(topic.asked, Answers(polls[..i]), pending)
    && outcomes == Settled(first, Answers(polls[..i]), quote)
    && total == Bytes(polls[..i]) <= topic.maxOutput
    && wrote == WroteBy(polls[..i])
  }

  lemma PrefixStep(polls: seq<Poll>, i: nat)
    requires i < |polls|
    ensures Bytes(polls[..i + 1]) == Bytes(polls[..i]) + if polls[i].read.Line? then polls[i].read.bytes else 0
    ensures Answers(polls[..i + 1]) == (if IsReply(polls[i])
      then Answers(polls[..i])[polls[i].read.response.value.id := polls[i].read.response.value.fields]
      else Answers(polls[..i]))
    ensures WroteBy(polls[..i + 1]) == (polls[i].ack.Written? || WroteBy(polls[..i]))
  {
    assert polls[..i + 1][..i] == polls[..i];
  }

  lemma SettleNext(first: seq<EventOutcome>, answers: map<Id, Fields>, k: nat, id: Id, fields: Fields, quote: Quote)
    requires k < |first| && first[k].event.id == id && id !in answers
    requires forall j :: 0 <= j < |first| && j != k ==> first[j].event.id != id
    ensures Settled(first, answers, quote)[k] == first[k]
    ensures Settled(first, answers[id := fields], quote) ==
            Settled(first, answers, quote)[k := Answered(first[k], fields, quote)]
  {
  }

  /** A good pass leaves the runner ready for the next one. */
  lemma GoodPass(polls: seq<Poll>, i: nat, topic: Topic, first: seq<EventOutcome>,
        outcomes: seq<EventOutcome>, pending: set<Id>, total: nat, wrote: bool, quote: Quote)
    requires i < |polls| && CleanPrefix(polls, i, topic) && GoodStep(polls[..i], polls[i], topic)
    requires var read := polls[i].read;
      && (read.Nothing? ==>
           (outcomes == Settled(first, Answers(polls[..i]), quote)
            && Remaining(topic.asked, Answers(polls[..i]), pending)
            && total == Bytes(polls[..i]) <= topic.maxOutput))
      && (read.Line? ==>
            var next := Answers(polls[..i])[read.response.value.id := read.response.value.fields];
            outcomes == Settled(first, next, quote) && Remaining(topic.asked, next, pending)
            && total == Bytes(polls[..i]) + read.bytes <= topic.maxOutput)
    requires wrote == (WroteBy(polls[..i]) || polls[i].ack.Written?)
    ensures Listening(polls, i + 1, topic, first, outcomes, pending, total, wrote, quote)
  {
    PrefixStep(polls, i);
  }

  datatype Verdict = Continue | Completed | Poisoned

  /** One answer; good only when it is the first one to a record asked about. */
  method HearReply(reply: Response, topic: Topic, indexes: map<Id, nat>, ghost first: seq<EventOutcome>,
        ghost answers: map<Id, Fields>, outcomes: seq<EventOutcome>, pending: set<Id>, quote: Quote)
    returns (outcomes': seq<EventOutcome>, pending': set<Id>, notes: seq<Diagnostic>, good: bool)
    requires reply.Reply? && Indexed(indexes, first) && topic.asked <= indexes.Keys
    requires outcomes == Settled(first, answers, quote) && Remaining(topic.asked, answers, pending)
    ensures good <==> GoodReply(reply, topic, answers)
    ensures Events(outcomes') == Events(first)
    ensures good ==> outcomes' == Settled(first, answers[reply.id := reply.fields], quote) && notes == []
    ensures good ==> Remaining(topic.asked, answers[reply.id := reply.fields], pending')
  {
    SettledKeepsEvents(first, answers, quote);
    OneLessRemains(topic.asked, answers, pending, reply.id, reply.fields);
    var id, fields := reply.id, reply.fields;
    outcomes', pending', notes, good := outcomes, pending, [], false;
    if reply.session != topic.session || reply.revision != topic.revision {
      outcomes' := Mark(outcomes, pending, Diagnose("protocol_error", "stale response session/revision"));
      return;
    }
    if id !in indexes {
      notes := [Diagnose("unknown_id", "command returned an unknown or late event ID")];
      outcomes' := Mark(outcomes, pending,
        Diagnose("protocol_error", "unknown response ID poisoned command session"));
      return;
    }
    var index := indexes[id];
    if id !in pending {
      var spoiled := Noted(outcomes[index].(state := OutcomeState.Error, derived := NO_FIELDS),
        Diagnose("duplicate_id", "command returned multiple objects for one event"));
      UpdateKeepsEvents(outcomes, index, spoiled);
      outcomes' := outcomes[index := spoiled];
      outcomes' := Mark(outcomes', pending,
        Diagnose("protocol_error", "duplicate response poisoned command batch"));
      return;
    }
    SettleNext(first, answers, index, id, fields, quote);
    pending' := pending - {id};
    UpdateKeepsEvents(outcomes, index, Answered(outcomes[index], fields, quote));
    outcomes' := outcomes[index := Answered(outcomes[index], fields, quote)];
    good := true;
  }

  /** One line of output. */
  method HearLine(response: Result<Response, string>, topic: Topic, indexes: map<Id, nat>,
        ghost first: seq<EventOutcome>, ghost answers: map<Id, Fields>, outcomes: seq<EventOutcome>, pending: set<Id>,
        total: nat, quote: Quote)
    returns (outcomes': seq<EventOutcome>, pending': set<Id>, notes: seq<Diagnostic>, verdict: Verdict)
    requires Indexed(indexes, first) && topic.asked <= indexes.Keys
    requires outcomes == Settled(first, answers, quote) && Remaining(topic.asked, answers, pending)
    ensures Events(outcomes') == Events(first)
    ensures !verdict.Poisoned? ==> notes == [] && total <= topic.maxOutput && response.Ok?
    ensures verdict.Completed? <==>
      (total <= topic.maxOutput && answers.Keys == topic.asked
       && response == Ok(BatchComplete(topic.session, topic.revision)))
    ensures verdict.Completed? ==> outcomes' == outcomes
    ensures verdict.Continue? <==>
      (total <= topic.maxOutput && response.Ok? && response.value.Reply? && GoodReply(response.value, topic, answers))
    ensures verdict.Continue? ==>
      var next := answers[response.value.id := response.value.fields];
      outcomes' == Settled(first, next, quote) && Remaining(topic.asked, next, pending')
  {
    SettledKeepsEvents(first, answers, quote);
    NothingRemains(topic.asked, answers, pending);
    outcomes', pending', notes, verdict := outcomes, pending, [], Poisoned;
    if total > topic.maxOutput {
      var note := Diagnose("output_too_large", "batch output byte limit exceeded");
      notes := [note];
      outcomes' := Mark(outcomes, pending, note);
      return;
    }
    if response.Err? {
      notes := [Diagnose("malformed_json", response.error)];
      outcomes' := Mark(outcomes, pending, Diagnose("malformed_json", "command emitted malformed JSON"));
    } else if response.value.BatchComplete? {
      if response.value.session == topic.session && response.value.revision == topic.revision && pending == {} {
        verdict := Completed;
      } else {
        outcomes' := Mark(outcomes, pending, Diagnose("protocol_error", "stale or premature batch completion"));
      }
    } else {
      var good;
      outcomes', pending', notes, good :=
        HearReply(response.value, topic, indexes, first, answers, outcomes, pending, quote);
      verdict := if good then Continue else Poisoned;
    }
  }

  const CANCELLED := Diagnose("cancelled", "command enrichment cancelled")

  const NO_COMPLETION :=
    Diagnose("missing_completion", "command returned every event but no batch completion frame")

  /** The deadline passed, with answers still awaited or only the completion missing. */
  function Overdue(pending: set<Id>): Diagnostic {
    Diagnose(if pending == {} then "missing_completion" else "timeout",
             "command batch did not complete before deadline")
  }

  /** One pass of the runner's loop. */
  method Pass(ghost polls: seq<Poll>, ghost i: nat, ghost first: seq<EventOutcome>,
        poll: Poll, topic: Topic, indexes: map<Id, nat>,
        outcomes: seq<EventOutcome>, pending: set<Id>, total: nat, wrote: bool, quote: Quote)
    returns (outcomes': seq<EventOutcome>, pending': set<Id>, total': nat, wrote': bool,
        notes: seq<Diagnostic>, verdict: Verdict)
    requires i < |polls| && poll == polls[i]
    requires Listening(polls, i, topic, first, outcomes, pending, total, wrote, quote)
    requires Indexed(indexes, first) && topic.asked <= indexes.Keys
    ensures verdict.Poisoned? <==> !GoodStep(polls[..i], poll, topic) && !Finishes(polls[..i], poll, topic)
    ensures verdict.Completed? <==> Finishes(polls[..i], poll, topic)
    ensures Events(outcomes') == Events(first)
    ensures verdict.Completed? ==> outcomes' == outcomes
    ensures !verdict.Poisoned? ==> notes == []
    ensures verdict.Continue? ==> Listening(polls, i + 1, topic, first, outcomes', pending', total', wrote', quote)
  {
    SettledKeepsEvents(first, Answers(polls[..i]), quote);
    outcomes', pending', total', wrote', notes, verdict := outcomes, pending, total, wrote, [], Poisoned;
    if poll.cancelled {
      outcomes' := Mark(outcomes, pending, CANCELLED);
      return;
    }
    if poll.late {
      notes := if pending == {} then [NO_COMPLETION] else [];
      outcomes' := Mark(outcomes, pending, Overdue(pending));
      return;
    }
    if !wrote {
      match poll.ack
      case Written => wrote' := true;
      case WriteFailed(message) =>
        outcomes' := Mark(outcomes, pending, Diagnose("input_error", message));
        return;
      case WriterGone =>
        outcomes' := Mark(outcomes, pending, Diagnose("process_exit", "command writer stopped"));
        return;
      case NoAck =>
    }
    match poll.read
    case Line(bytes, response) =>
      total' := total + bytes;
      outcomes', pending', notes, verdict :=
        HearLine(response, topic, indexes, first, Answers(polls[..i]), outcomes, pending, total', quote);
      if verdict.Continue? {
        GoodPass(polls, i, topic, first, outcomes', pending', total', wrote', quote);
      }
    case Oversize => outcomes' := Mark(outcomes, pending, Diagnose("output_too_large", "response line exceeds limit"));
    case Eof =>
      outcomes' := Mark(outcomes, pending, Diagnose("process_exit", "command stdout closed before all replies"));
    case ReadError(message) => outcomes' := Mark(outcomes, pending, Diagnose("output_error", message));
    case Disconnected =>
      outcomes' := Mark(outcomes, pending, Diagnose("process_exit", "command output worker stopped"));
    case Nothing =>
      verdict := Continue;
      GoodPass(polls, i, topic, first, outcomes, pending, total, wrote', quote);
  }

  /**
   * The runner's loop. Once the script of polls is used up the deadline has passed. The batch is
   * poisoned unless the child held a valid conversation, and then its answers are the outcomes.
   */
  method Converse(polls: seq<Poll>, topic: Topic, indexes: map<Id, nat>, first: seq<EventOutcome>, quote: Quote)
    returns (outcomes: seq<EventOutcome>, notes: seq<Diagnostic>, poisoned: bool, heard: nat)
    requires Indexed(indexes, first) && topic.asked <= indexes.Keys
    ensures Events(outcomes) == Events(first)
    ensures poisoned <==> notes != []
    ensures poisoned ==> forall n :: !CleanRun(polls, n, topic)
    ensures !poisoned ==> CleanRun(polls, heard, topic)
    ensures poisoned ==> forall n :: !Conversation(polls, n, topic)
    ensures !poisoned ==> Conversation(polls, heard, topic)
    ensures !poisoned ==> outcomes == Settled(first, Answers(polls[..heard - 1]), quote)
  {
    outcomes, notes, poisoned, heard := first, [], false, 0;
    var pending, total, wrote, completed := topic.asked, 0, false, false;
    assert polls[..0] == [];
    while !completed
      invariant 0 <= heard <= |polls| && notes == []
      invariant Events(outcomes) == Events(first)
      invariant !completed ==> Listening(polls, heard, topic, first, outcomes, pending, total, wrote, quote)
      invariant completed ==>
        CleanRun(polls, heard, topic) && outcomes == Settled(first, Answers(polls[..heard - 1]), quote)
      decreases |polls| - heard, !completed
    {
      var verdict;
      if heard == |polls| {
        notes := if pending == {} then [NO_COMPLETION] else [];
        outcomes := Mark(outcomes, pending, Overdue(pending));
        verdict := Poisoned;
      } else {
        outcomes, pending, total, wrote, notes, verdict :=
          Pass(polls, heard, first, polls[heard], topic, indexes, outcomes, pending, total, wrote, quote);
      }
      if verdict.Poisoned? {
        poisoned := true;
        NoCleanRun(polls, heard, topic);
        break;
      }
      heard := heard + 1;
      completed := verdict.Completed?;
    }
    if poisoned && notes == [] {
      notes := [Diagnose("batch_failed", "command batch did not reach a valid completion frame")];
    }
    forall n ensures CleanRun(polls, n, topic) <==> Conversation(polls, n, topic) {
      CleanRunExactly(polls, n, topic);
    }
  }

  /** There is at most one place where a valid conversation can end. */
  lemma CleanRunIsUnique(polls: seq<Poll>, m: nat, n: nat, topic: Topic)
    requires CleanRun(polls, m, topic) && CleanRun(polls, n, topic)
    ensures m == n
  {
    CleanRunGoesOn(polls, m - 1, topic, n);
    CleanRunGoesOn(polls, n - 1, topic, m);
  }

  // --- durable results ----------------------------------------------------------------------------

  const MAX_DIAGNOSTICS: nat := 128
  const MAX_NOTE_BYTES: nat := 1024

  function Shown(note: Diagnostic): string {
    note.code + ": " + note.message
  }

  function JoinLines(lines: seq<string>): string {
    if lines == [] then ""
    else if |lines| == 1 then lines[0]
    else JoinLines(lines[..|lines| - 1]) + "\n" + lines[|lines| - 1]
  }

  /** The lines of the first diagnostics, each cut to its bytes. */
  function NoteLines(notes: seq<Diagnostic>): seq<string> {
    seq(Min(|notes|, MAX_DIAGNOSTICS),
        k requires 0 <= k < Min(|notes|, MAX_DIAGNOSTICS) => Cut(Shown(notes[k]), MAX_NOTE_BYTES))
  }

  /** The text stored for these diagnostics; within the store's limit however many and long they are. */
  function NoteText(notes: seq<Diagnostic>): (text: string)
    ensures ByteLength(text) <= MAX_DIAGNOSTIC_BYTES
  {
    Cut(JoinLines(NoteLines(notes)), MAX_DIAGNOSTIC_BYTES)
  }

  function OrElse(text: string, otherwise: string): string {
    if text == "" then otherwise else text
  }

  /** What the store is given for one record; a batch with diagnostics of its own failed as a whole. */
  function AttemptOf(outcome: EventOutcome, notes: seq<Diagnostic>): Attempt {
    var text := NoteText(notes + outcome.diagnostics);
    if notes != [] then Failed(OrElse(text, "command batch failed protocol validation"))
    else if outcome.state.Ready? then Attempt.Ready(outcome.derived, if text == "" then None else Some(text))
    else Failed(OrElse(text, "command produced no valid result"))
  }

  /** Diagnostics are never what the store turns down of a single result. */
  lemma AttemptOfStorable(outcome: EventOutcome, notes: seq<Diagnostic>)
    ensures StorableAttempt(AttemptOf(outcome, notes)) <==>
      (notes == [] && outcome.state.Ready? ==> StorableFields(outcome.derived))
  {
    ByteLengthBounds("command batch failed protocol validation");
    ByteLengthBounds("command produced no valid result");
  }

  ghost predicate Covers(indexes: map<Id, nat>, outcomes: seq<EventOutcome>, ids: set<Id>) {
    Indexed(indexes, outcomes) && ids <= indexes.Keys
  }

  function Results(indexes: map<Id, nat>, outcomes: seq<EventOutcome>, ids: set<Id>,
        notes: seq<Diagnostic>): (m: map<Id, Attempt>)
    requires forall id :: id in ids ==> id in indexes && indexes[id] < |outcomes|
    ensures m.Keys == ids
  {
    map id | id in ids :: AttemptOf(outcomes[indexes[id]], notes)
  }

  /** An allowed answer becomes the durable result; a refused one a failure. */
  predicate ResultFor(attempt: Attempt, event: Event, fields: Fields) {
    && !attempt.Reserved?
    && (attempt.Ready? <==> Allowed(event, fields))
    && (attempt.Ready? ==> attempt.fields == fields)
    && (attempt.Ready? ==> forall name :: name in fields.names ==>
          name != "raw" && !("_lvu_" <= name) && name !in event.fields.names)
  }

  /** The standard error of the child, noted on every record of the batch. */
  function WithStderr(outcomes: seq<EventOutcome>, stderr: string): seq<EventOutcome> {
    if stderr == "" then outcomes
    else seq(|outcomes|, k requires 0 <= k < |outcomes| => StderrNoted(outcomes[k], stderr))
  }

  function StderrNoted(outcome: EventOutcome, stderr: string): EventOutcome {
    if stderr == "" then outcome else Noted(outcome, Diagnose("command_stderr", stderr))
  }

  /** What a valid answer makes of a record. */
  function Harvested(event: Event, fields: Fields, stderr: string, quote: Quote): Attempt {
    AttemptOf(StderrNoted(Answered(Unanswered(event), fields, quote), stderr), [])
  }

  lemma HarvestedResult(event: Event, fields: Fields, stderr: string, quote: Quote)
    ensures ResultFor(Harvested(event, fields, stderr, quote), event, fields)
    ensures StorableAttempt(Harvested(event, fields, stderr, quote)) <==>
      (Allowed(event, fields) ==> StorableFields(fields))
  {
    AnsweredMeaning(event, [], fields, quote);
    AttemptOfStorable(StderrNoted(Answered(Unanswered(event), fields, quote), stderr), []);
  }

  function EventOf(events: seq<Event>, id: Id): (event: Event)
    requires id in Ids(events)
    ensures event in events && event.id == id
  {
    if events[|events| - 1].id == id then events[|events| - 1]
    else
      var front := events[..|events| - 1];
      assert id in Ids(front) by {
        var i :| 0 <= i < |events| && events[i].id == id;
        assert front[i] == events[i];
      }
      EventOf(front, id)
  }

  /** What a valid conversation makes of the records asked about. */
  function Harvest(events: seq<Event>, answers: map<Id, Fields>, stderr: string, quote: Quote): (m: map<Id, Attempt>)
    ensures m.Keys == answers.Keys * Ids(events)
  {
    map id | id in answers && id in Ids(events) :: Harvested(EventOf(events, id), answers[id], stderr, quote)
  }

  /** Every answer becomes a result of its record, and the store takes it if it takes the fields. */
  lemma HarvestMeaning(events: seq<Event>, answers: map<Id, Fields>, stderr: string, quote: Quote, k: nat)
    requires Distinct(events) && k < |events| && events[k].id in answers
    ensures events[k].id in Harvest(events, answers, stderr, quote)
    ensures var attempt := Harvest(events, answers, stderr, quote)[events[k].id];
      && ResultFor(attempt, events[k], answers[events[k].id])
      && (StorableAttempt(attempt) <==>
           (Allowed(events[k], answers[events[k].id]) ==> StorableFields(answers[events[k].id])))
  {
    EventAt(events, k);
    HarvestedResult(events[k], answers[events[k].id], stderr, quote);
  }

  lemma EventAt(events: seq<Event>, k: nat)
    requires Distinct(events) && k < |events|
    ensures events[k].id in Ids(events) && EventOf(events, events[k].id) == events[k]
  {
    var event := EventOf(events, events[k].id);
    var i :| 0 <= i < |events| && events[i] == event;
  }

  lemma OneResult(first: seq<EventOutcome>, answers: map<Id, Fields>, stderr: string, quote: Quote, k: nat)
    requires k < |first| && first[k].event.id in answers && first[k] == Unanswered(first[k].event)
    ensures |WithStderr(Settled(first, answers, quote), stderr)| == |first|
    ensures AttemptOf(WithStderr(Settled(first, answers, quote), stderr)[k], [])
         == Harvested(first[k].event, answers[first[k].event.id], stderr, quote)
  {
  }

  lemma IndexedEvents(indexes: map<Id, nat>, first: seq<EventOutcome>)
    requires Indexed(indexes, first)
    ensures indexes.Keys <= Ids(Events(first)) && Distinct(Events(first))
  {
    var events := Events(first);
    forall id | id in indexes ensures id in Ids(events) {
      assert events[indexes[id]].id == id;
    }
    forall i, j | 0 <= i < j < |events| ensures events[i].id != events[j].id {
      assert indexes[first[i].event.id] == i && indexes[first[j].event.id] == j;
    }
  }

  lemma CleanResult(indexes: map<Id, nat>, first: seq<EventOutcome>, answers: map<Id, Fields>, stderr: string,
        quote: Quote, id: Id)
    requires Indexed(indexes, first) && id in indexes && id in answers && answers.Keys <= Ids(Events(first))
    requires first[indexes[id]] == Unanswered(first[indexes[id]].event)
    ensures |WithStderr(Settled(first, answers, quote), stderr)| == |first|
    ensures AttemptOf(WithStderr(Settled(first, answers, quote), stderr)[indexes[id]], [])
         == Harvest(Events(first), answers, stderr, quote)[id]
  {
    var k := indexes[id];
    IndexedEvents(indexes, first);
    assert Events(first)[k].id == id;
    EventAt(Events(first), k);
    OneResult(first, answers, stderr, quote, k);
  }

  ghost predicate ResultIs(indexes: map<Id, nat>, outcomes: seq<EventOutcome>, results: map<Id, Attempt>, id: Id) {
    && id in indexes && indexes[id] < |outcomes| && id in results
    && AttemptOf(outcomes[indexes[id]], []) == results[id]
  }

  lemma ResultsAre(indexes: map<Id, nat>, outcomes: seq<EventOutcome>, results: map<Id, Attempt>)
    requires forall id :: id in results ==> id in indexes && indexes[id] < |outcomes|
    requires forall id :: id in results ==> ResultIs(indexes, outcomes, results, id)
    ensures Results(indexes, outcomes, results.Keys, []) == results
  {
  }

  /** The runner's outcomes after a valid conversation are the harvest. */
  lemma CleanResults(indexes: map<Id, nat>, first: seq<EventOutcome>, answers: map<Id, Fields>, stderr: string,
        quote: Quote)
    requires Covers(indexes, first, answers.Keys)
    requires forall id :: id in answers ==> first[indexes[id]] == Unanswered(first[indexes[id]].event)
    ensures answers.Keys <= Ids(Events(first)) && |WithStderr(Settled(first, answers, quote), stderr)| == |first|
    ensures Results(indexes, WithStderr(Settled(first, answers, quote), stderr), answers.Keys, [])
         == Harvest(Events(first), answers, stderr, quote)
  {
    IndexedEvents(indexes, first);
    var outcomes := WithStderr(Settled(first, answers, quote), stderr);
    var harvest := Harvest(Events(first), answers, stderr, quote);
    assert |outcomes| == |first|;
    forall id | id in harvest ensures ResultIs(indexes, outcomes, harvest, id) {
      CleanResult(indexes, first, answers, stderr, quote, id);
    }
    ResultsAre(indexes, outcomes, harvest);
  }
}
