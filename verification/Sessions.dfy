/** One conversation and its turns (`src/server/sessions/sessions.cpp`). Clock times are not part of
    this model. */
module Sessions {
  import opened Strings
  import Jobs
  import ToolHistory

  type JobKey = Jobs.Key

  datatype SessionState = Unknown | Idle | Generating | AwaitingTools | AwaitingQuestion

  datatype Message = Message(role: string, content: string, reasoning: string)

  datatype ToolCall = ToolCall(name: string, arguments: string)

  datatype Question = Question(text: string)

  const ROLE_USER := "user"
  const ROLE_ASSISTANT := "assistant"
  const CONTEXT_FULL := "context_full"
  const GENERATION_FAILED := "generation failed"

  datatype Actions = Actions(toolCalls: seq<ToolCall>, question: Option<Question>)

  /** A finished task as the session sees it. `reparsed` is what reading its text again yields; how
      text is read is not part of this model. */
  datatype Status = Status(
    key: JobKey, state: Jobs.JobState, content: string, reasoning: string, error: string, errorCode: string,
    actions: Actions, reparsed: Actions, contextUsed: int, contextSize: int)

  /** What the client is waited for. */
  datatype Wait = Wait(state: SessionState, calls: seq<ToolCall>, question: Option<Question>)

  datatype Note = Note(error: string, code: string)

  datatype Config = Config(questions: bool, compressTools: bool, maxTokens: int)

  datatype Usage = Usage(used: int, size: int)

  /** All fields of a session. */
  datatype View = View(
    messages: seq<Message>, wait: Wait, activeJob: Option<JobKey>, latestFinished: Option<JobKey>,
    rollbackArmed: bool, saved: Wait, note: Note, config: Config, turnMaxTokens: int, usage: Usage)

  /** What is stored of a session. */
  datatype Record = Record(messages: seq<Message>, wait: Wait, note: Note, config: Config, usage: Usage)

  const QUIET := Note("", "")

  datatype Refusal = Busy | NotAwaiting

  datatype Reply = Fine | Refused(why: Refusal)

  // ---------------------------------------------------------------------------------------
  // Operations
  // ---------------------------------------------------------------------------------------

  predicate IsBusy(v: View) {
    v.activeJob.Some? || v.wait.state == Generating
  }

  /** No wait, in the given state. */
  function NoWait(state: SessionState): Wait {
    Wait(state, [], None)
  }

  function Arm(v: View): View {
    v.(rollbackArmed := true, saved := v.wait)
  }

  function Disarm(v: View): View {
    v.(rollbackArmed := false, saved := NoWait(v.saved.state))
  }

  function ShrinkAll(messages: seq<Message>): (r: seq<Message>)
    ensures |r| == |messages|
  {
    seq(|messages|, i requires 0 <= i < |messages| => messages[i].(content := ToolHistory.Shrink(messages[i].content)))
  }

  /** The messages a new user message is put behind. */
  function History(v: View): seq<Message> {
    if v.wait.state == Idle && v.config.compressTools then ShrinkAll(v.messages) else v.messages
  }

  function AcceptUser(v: View, role: string, content: string, limit: int): View {
    Arm(v).(wait := NoWait(Idle), messages := History(v) + [Message(role, content, "")],
            turnMaxTokens := if limit >= 0 then limit else v.config.maxTokens)
  }

  function AcceptResults(v: View, combined: string): View {
    Arm(v).(wait := NoWait(Idle), messages := v.messages + [Message(ROLE_USER, combined, "")],
            turnMaxTokens := v.config.maxTokens)
  }

  predicate NotWaiting(v: View) {
    v.wait.state != AwaitingTools && v.wait.calls == []
  }

  function Begin(v: View, key: JobKey): View {
    v.(wait := NoWait(Generating), activeJob := Some(key), latestFinished := None)
  }

  function Rollback(v: View): View {
    if v.rollbackArmed && v.messages != [] && v.messages[|v.messages| - 1].role == ROLE_USER then
      v.(messages := v.messages[..|v.messages| - 1], wait := v.saved)
    else v.(wait := NoWait(Idle))
  }

  function Clamp(n: int): int {
    if n < 0 then 0 else n
  }

  function Measured(usage: Usage, s: Status): Usage {
    if s.contextSize > 0 then Usage(Clamp(s.contextUsed), s.contextSize) else usage
  }

  function ActionsOf(config: Config, s: Status): Actions {
    var chosen := if s.actions == Actions([], None) && s.content != "" then s.reparsed else s.actions;
    if config.questions then chosen else chosen.(question := None)
  }

  function WaitFor(actions: Actions): Wait {
    if actions.toolCalls != [] then Wait(AwaitingTools, actions.toolCalls, actions.question)
    else if actions.question.Some? then Wait(AwaitingQuestion, [], actions.question)
    else NoWait(Idle)
  }

  /** The reply, unless it is empty. */
  function Said(messages: seq<Message>, s: Status): seq<Message> {
    if s.content != "" || s.reasoning != "" then messages + [Message(ROLE_ASSISTANT, s.content, s.reasoning)] else messages
  }

  /** A turn that ended well: the reply, and what the client is to answer. */
  function Succeeded(v: View, s: Status): View {
    Disarm(v).(note := QUIET, messages := Said(v.messages, s), wait := WaitFor(ActionsOf(v.config, s)))
  }

  function Failed(v: View, s: Status): View {
    var noted := v.(note := Note(if s.error == "" then GENERATION_FAILED else s.error, s.errorCode));
    Disarm(if s.errorCode == CONTEXT_FULL then Rollback(noted) else noted.(wait := NoWait(Idle)))
  }

  /** A job that is not the active one changes nothing. */
  function Complete(v: View, s: Status): View {
    if v.activeJob != Some(s.key) then v
    else
      var done := v.(usage := Measured(v.usage, s), activeJob := None, latestFinished := Some(s.key));
      if s.state == Jobs.Error then Failed(done, s)
      else if s.state != Jobs.Done then Disarm(done.(note := QUIET, wait := NoWait(Idle)))
      else Succeeded(done, s)
  }

  function Recorded(v: View): Record {
    Record(v.messages, v.wait.(state := if v.activeJob.Some? then Generating else v.wait.state), v.note, v.config, v.usage)
  }

  /** A wait that was stored is kept; a generation that was under way is gone. */
  function Restored(v: View, r: Record): View {
    v.(messages := r.messages, activeJob := None, latestFinished := None, note := r.note, config := r.config,
       turnMaxTokens := r.config.maxTokens, usage := Usage(Clamp(r.usage.used), Clamp(r.usage.size)),
       wait := if r.wait.state == Generating || r.wait.state == Unknown then NoWait(Idle) else r.wait)
  }

  // ---------------------------------------------------------------------------------------
  // The class
  // ---------------------------------------------------------------------------------------

  class Session {
    var messages: seq<Message>
    var wait: Wait
    var activeJob: Option<JobKey>
    var latestFinished: Option<JobKey>
    var rollbackArmed: bool
    var saved: Wait
    var note: Note
    var config: Config
    var turnMaxTokens: int
    var usage: Usage

    ghost function Value(): View
      reads this
    {
      View(messages, wait, activeJob, latestFinished, rollbackArmed, saved, note, config, turnMaxTokens, usage)
    }

    constructor (configured: Config)
      ensures Inv(Value()) && config == configured && messages == []
    {
      messages, wait, activeJob, latestFinished := [], NoWait(Idle), None, None;
      rollbackArmed, saved, note, config := false, NoWait(Idle), QUIET, configured;
      turnMaxTokens, usage := configured.maxTokens, Usage(0, 0);
    }

    method ArmRollback()
      modifies this
      ensures Value() == Arm(old(Value()))
    {
      rollbackArmed, saved := true, wait;
    }

    method DisarmRollback()
      modifies this
      ensures Value() == Disarm(old(Value()))
    {
      rollbackArmed, saved := false, NoWait(saved.state);
    }

    method ShrinkStored()
      modifies `messages
      ensures messages == if config.compressTools then ShrinkAll(old(messages)) else old(messages)
    {
      if !config.compressTools {
        return;
      }
      ghost var whole, rest := ShrinkAll(messages), messages;
      for i := 0 to |messages|
        invariant |messages| == |whole| == |rest| && config == old(config)
        invariant forall k :: 0 <= k < i ==> messages[k] == whole[k]
        invariant forall k :: i <= k < |rest| ==> messages[k] == rest[k]
      {
        var shorter := ToolHistory.ShrinkToolResponses(messages[i].content);
        messages := messages[i := messages[i].(content := shorter)];
      }
    }

    method AcceptUserMessage(role: string, content: string, limit: int) returns (reply: Reply)
      modifies this
      ensures reply == if IsBusy(old(Value())) then Refused(Busy) else Fine
      ensures Value() == if IsBusy(old(Value())) then old(Value()) else AcceptUser(old(Value()), role, content, limit)
    {
      if activeJob.Some? || wait.state == Generating {
        return Refused(Busy);
      }
      var turnFinished := wait.state == Idle;
      ArmRollback();
      wait := NoWait(Idle);
      if turnFinished {
        ShrinkStored();
      }
      messages := messages + [Message(role, content, "")];
      turnMaxTokens := if limit >= 0 then limit else config.maxTokens;
      reply := Fine;
    }

    method AcceptToolResults(combined: string) returns (reply: Reply)
      modifies this
      ensures reply == if IsBusy(old(Value())) then Refused(Busy) else if NotWaiting(old(Value())) then Refused(NotAwaiting) else Fine
      ensures Value() == if reply == Fine then AcceptResults(old(Value()), combined) else old(Value())
    {
      if activeJob.Some? || wait.state == Generating {
        return Refused(Busy);
      }
      if wait.state != AwaitingTools && wait.calls == [] {
        return Refused(NotAwaiting);
      }
      ArmRollback();
      messages := messages + [Message(ROLE_USER, combined, "")];
      turnMaxTokens := config.maxTokens;
      wait := NoWait(Idle);
      reply := Fine;
    }

    method BeginGeneration(key: JobKey) returns (reply: Reply)
      modifies this
      ensures reply == if IsBusy(old(Value())) then Refused(Busy) else Fine
      ensures Value() == if IsBusy(old(Value())) then old(Value()) else Begin(old(Value()), key)
    {
      if activeJob.Some? || wait.state == Generating {
        return Refused(Busy);
      }
      wait := NoWait(Generating);
      activeJob := Some(key);
      latestFinished := None;
      reply := Fine;
    }

    method RollbackLastTurn()
      modifies this
      ensures Value() == Rollback(old(Value()))
    {
      if rollbackArmed && messages != [] && messages[|messages| - 1].role == ROLE_USER {
        messages := messages[..|messages| - 1];
        wait := saved;
        return;
      }
      wait := NoWait(Idle);
    }

    method CompleteJob(status: Status)
      modifies this
      ensures Value() == Complete(old(Value()), status)
    {
      if activeJob != Some(status.key) {
        return;
      }
      if status.contextSize > 0 {
        usage := Usage(Clamp(status.contextUsed), status.contextSize);
      }
      activeJob := None;
      latestFinished := Some(status.key);
      if status.state == Jobs.Error {
        FailTurn(status);
      } else if status.state != Jobs.Done {
        note := QUIET;
        wait := NoWait(Idle);
        DisarmRollback();
      } else {
        FinishTurn(status);
      }
    }

    method FailTurn(status: Status)
      modifies this
      ensures Value() == Failed(old(Value()), status)
    {
      note := Note(if status.error == "" then GENERATION_FAILED else status.error, status.errorCode);
      if status.errorCode == CONTEXT_FULL {
        RollbackLastTurn();
      } else {
        wait := NoWait(Idle);
      }
      DisarmRollback();
    }

    method FinishTurn(status: Status)
      modifies this
      ensures Value() == Succeeded(old(Value()), status)
    {
      note := QUIET;
      DisarmRollback();
      if status.content != "" || status.reasoning != "" {
        messages := messages + [Message(ROLE_ASSISTANT, status.content, status.reasoning)];
      }
      var actions := status.actions;
      if actions.toolCalls == [] && actions.question.None? && status.content != "" {
        actions := status.reparsed;
      }
      if !config.questions {
        actions := actions.(question := None);
      }
      if actions.toolCalls != [] {
        wait := Wait(AwaitingTools, actions.toolCalls, actions.question);
      } else if actions.question.Some? {
        wait := Wait(AwaitingQuestion, [], actions.question);
      } else {
        wait := NoWait(Idle);
      }
    }

    method Restore(r: Record)
      modifies this
      ensures Value() == Restored(old(Value()), r)
    {
      messages, note, config := r.messages, r.note, r.config;
      turnMaxTokens := r.config.maxTokens;
      usage := Usage(Clamp(r.usage.used), Clamp(r.usage.size));
      activeJob, latestFinished := None, None;
      if r.wait.state == Generating || r.wait.state == Unknown {
        wait := NoWait(Idle);
      } else {
        wait := r.wait;
      }
    }
  }

  // ---------------------------------------------------------------------------------------
  // Every sequence of turns
  // ---------------------------------------------------------------------------------------

  /** What the client can rely on in each state. */
  predicate WaitOk(w: Wait) {
    && (w.calls != [] <==> w.state == AwaitingTools)
    && (w.state == AwaitingQuestion ==> w.question.Some?)
    && (w.question.Some? ==> w.state == AwaitingQuestion || w.state == AwaitingTools)
    && w.state != Unknown
  }

  predicate Inv(v: View) {
    && (v.activeJob.Some? <==> v.wait.state == Generating)
    && WaitOk(v.wait) && v.usage.used >= 0 && v.usage.size >= 0
    && (v.rollbackArmed ==> v.saved.state != Generating && WaitOk(v.saved))
  }

  datatype Event =
    | UserMessage(role: string, content: string, limit: int)
    | ToolResults(combined: string)
    | BeginTurn(key: JobKey)
    | Finished(status: Status)
    | RestoreFrom(recorded: View)

  /** A refused request changes nothing. A session is only restored from what a session recorded. */
  function Step(v: View, e: Event): View {
    match e
    case UserMessage(role, content, limit) => if IsBusy(v) then v else AcceptUser(v, role, content, limit)
    case ToolResults(combined) => if IsBusy(v) || NotWaiting(v) then v else AcceptResults(v, combined)
    case BeginTurn(key) => if IsBusy(v) then v else Begin(v, key)
    case Finished(status) => Complete(v, status)
    case RestoreFrom(recorded) => if Inv(recorded) then Restored(v, Recorded(recorded)) else v
  }

  function Run(v: View, events: seq<Event>): View
    decreases |events|
  {
    if events == [] then v else Run(Step(v, events[0]), events[1..])
  }

  lemma StepKeeps(v: View, e: Event)
    requires Inv(v)
    ensures Inv(Step(v, e))
  {
  }

  lemma {:induction false} AnyTurns(v: View, events: seq<Event>)
    requires Inv(v)
    ensures Inv(Run(v, events))
    decreases |events|
  {
    if events != [] {
      StepKeeps(v, events[0]);
      AnyTurns(Step(v, events[0]), events[1..]);
    }
  }

  predicate NeverBegun(key: JobKey, events: seq<Event>) {
    forall i :: 0 <= i < |events| ==> events[i] != BeginTurn(key)
  }

  /** A completion that is not of the active job changes nothing, whatever happens before it comes,
      unless its job is begun. */
  lemma {:induction false} StaleChangesNothing(v: View, events: seq<Event>, s: Status)
    requires v.activeJob != Some(s.key) && NeverBegun(s.key, events)
    ensures Complete(Run(v, events), s) == Run(v, events)
    decreases |events|
  {
    if events != [] {
      var next, rest := Step(v, events[0]), events[1..];
      assert next.activeJob != Some(s.key);
      assert forall i :: 0 <= i < |rest| ==> rest[i] == events[i + 1];
      StaleChangesNothing(next, rest, s);
    }
  }

  /** So a job completes once. */
  lemma CompletesOnce(v: View, s: Status, events: seq<Event>, again: Status)
    requires again.key == s.key && NeverBegun(s.key, events)
    ensures var later := Run(Complete(v, s), events); Complete(later, again) == later
  {
    StaleChangesNothing(Complete(v, s), events, again);
  }

  /** Events while a job is under way that neither end it nor replace the session. */
  predicate WhileBusy(key: JobKey, events: seq<Event>) {
    forall i :: 0 <= i < |events| ==> !events[i].RestoreFrom? && !(events[i].Finished? && events[i].status.key == key)
  }

  /** A session with a job under way ignores them all. */
  lemma {:induction false} BusyIgnores(v: View, key: JobKey, events: seq<Event>)
    requires v.activeJob == Some(key) && WhileBusy(key, events)
    ensures Run(v, events) == v
    decreases |events|
  {
    if events != [] {
      var rest := events[1..];
      assert Step(v, events[0]) == v;
      assert forall i :: 0 <= i < |rest| ==> rest[i] == events[i + 1];
      BusyIgnores(v, key, rest);
    }
  }

  predicate Overflowed(s: Status) {
    s.state == Jobs.Error && s.errorCode == CONTEXT_FULL
  }

  /** A posted turn is taken back exactly when it does not fit and was posted as the user's: state,
      waits and messages are then those before it, up to the shrinking of old tool responses. What
      else is asked of the session in the meantime makes no difference. */
  lemma RolledBack(v: View, role: string, content: string, limit: int, key: JobKey, between: seq<Event>, s: Status)
    requires !IsBusy(v) && WhileBusy(key, between) && s.key == key
    ensures var after := Complete(Run(Begin(AcceptUser(v, role, content, limit), key), between), s);
      && after.activeJob == None && !after.rollbackArmed
      && (after.messages == History(v) <==> Overflowed(s) && role == ROLE_USER)
      && (after.messages == History(v) ==> after.wait == v.wait)
  {
    var begun := Begin(AcceptUser(v, role, content, limit), key);
    BusyIgnores(begun, key, between);
    assert begun.messages[..|begun.messages| - 1] == History(v);
    assert |begun.messages| > |History(v)|;
  }

  /** Tool results are taken back exactly when they do not fit, and then without a trace. */
  lemma ResultsRolledBack(v: View, combined: string, key: JobKey, between: seq<Event>, s: Status)
    requires !IsBusy(v) && !NotWaiting(v) && WhileBusy(key, between) && s.key == key
    ensures var after := Complete(Run(Begin(AcceptResults(v, combined), key), between), s);
      && after.activeJob == None && !after.rollbackArmed
      && (after.messages == v.messages <==> Overflowed(s))
      && (after.messages == v.messages ==> after.wait == v.wait)
  {
    var begun := Begin(AcceptResults(v, combined), key);
    BusyIgnores(begun, key, between);
    assert begun.messages[..|begun.messages| - 1] == v.messages;
    assert |begun.messages| > |v.messages|;
  }

  /** A wait survives being stored and restored. */
  lemma WaitSurvives(v: View, blank: View)
    requires Inv(v)
    ensures var r := Restored(blank, Recorded(v));
      r.messages == v.messages && r.wait == (if v.wait.state == Generating then NoWait(Idle) else v.wait) && r.activeJob == None
  {
  }

  /** Shrinking any of the messages a second time changes nothing. */
  predicate AllSettled(messages: seq<Message>) {
    forall i :: 0 <= i < |messages| ==>
      ToolHistory.AllSettle(ToolHistory.SplitFrom(ToolHistory.TOOL_RESPONSE, messages[i].content, 0))
  }

  lemma ShrinkAllTwice(messages: seq<Message>)
    ensures ShrinkAll(ShrinkAll(messages)) == ShrinkAll(messages) <==> AllSettled(messages)
  {
    var once, twice := ShrinkAll(messages), ShrinkAll(ShrinkAll(messages));
    forall i | 0 <= i < |messages|
      ensures twice[i] == once[i] <==> ToolHistory.AllSettle(ToolHistory.SplitFrom(ToolHistory.TOOL_RESPONSE, messages[i].content, 0))
    {
      ToolHistory.ShrinkLocalAndIdempotent(messages[i].content);
    }
  }

  /** Trying again after a turn that did not fit shows the model the same history, exactly when
      that was not shrunk or settles. */
  lemma RetrySameHistory(v: View, content: string, limit: int, key: JobKey, between: seq<Event>, s: Status)
    requires !IsBusy(v) && WhileBusy(key, between) && s.key == key && Overflowed(s)
    ensures History(Complete(Run(Begin(AcceptUser(v, ROLE_USER, content, limit), key), between), s)) == History(v)
      <==> (v.wait.state == Idle && v.config.compressTools ==> AllSettled(v.messages))
  {
    var begun := Begin(AcceptUser(v, ROLE_USER, content, limit), key);
    BusyIgnores(begun, key, between);
    RolledBack(v, ROLE_USER, content, limit, key, between, s);
    ShrinkAllTwice(v.messages);
  }
}
