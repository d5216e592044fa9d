/** What a whole turn of a conversation comes to, written out (`src/server/sessions/sessions.cpp`). */
module SessionLaws {
  import opened Strings
  import opened Sessions
  import Jobs
  import ToolHistory

  lemma {:induction false} RunAppend(v: View, a: seq<Event>, b: seq<Event>)
    ensures Run(v, a + b) == Run(Run(v, a), b)
    decreases |a|
  {
    if a == [] {
      assert a + b == b;
    } else {
      assert (a + b)[0] == a[0] && (a + b)[1..] == a[1..] + b;
      RunAppend(Step(v, a[0]), a[1..], b);
    }
  }

  lemma RunTurn(v: View, post: Event, key: JobKey, between: seq<Event>, s: Status)
    ensures Run(v, [post, BeginTurn(key)] + between + [Finished(s)])
         == Complete(Run(Step(Step(v, post), BeginTurn(key)), between), s)
  {
    var start := [post, BeginTurn(key)];
    RunAppend(v, start + between, [Finished(s)]);
    RunAppend(v, start, between);
    assert start[1..] == [BeginTurn(key)] && start[1..][1..] == [];
    assert [Finished(s)][1..] == [];
  }

  /** What the client is asked for after a reply. The reply is read again when nothing was found in it
      while it came in. */
  predicate Asked(s: Status, questions: bool, w: Wait) {
    var found := if s.actions.toolCalls == [] && s.actions.question == None && s.content != "" then s.reparsed else s.actions;
    var question := if questions then found.question else None;
    && (w.state == AwaitingTools <==> found.toolCalls != [])
    && (w.state == AwaitingQuestion <==> found.toolCalls == [] && question != None)
    && (w.state == Idle <==> found.toolCalls == [] && question == None)
    && w.calls == found.toolCalls && w.question == question
  }

  /** Nothing is waited for. */
  predicate Rest(w: Wait) {
    w.state == Idle && w.calls == [] && w.question == None
  }

  /** The reply stands behind what was posted, unless it is empty. */
  predicate Replied(posted: seq<Message>, s: Status, messages: seq<Message>) {
    if s.content == "" && s.reasoning == "" then messages == posted
    else
      && |messages| == |posted| + 1 && messages[..|posted|] == posted
      && messages[|posted|].role == "assistant" && messages[|posted|].content == s.content
      && messages[|posted|].reasoning == s.reasoning
  }

  predicate Kept(v: View, s: Status, after: View) {
    && after.activeJob == None && after.latestFinished == Some(s.key) && !after.rollbackArmed && after.config == v.config
    && (s.contextSize > 0 ==> after.usage.size == s.contextSize && after.usage.used == if s.contextUsed < 0 then 0 else s.contextUsed)
    && (s.contextSize <= 0 ==> after.usage == v.usage)
  }

  /** How a turn that was posted ends. `posted` is the conversation with the post, `v` is as before. */
  predicate Ended(v: View, posted: seq<Message>, s: Status, after: View)
    requires posted != []
  {
    match s.state
    case Done =>
      && after.note.error == "" && after.note.code == ""
      && Replied(posted, s, after.messages) && Asked(s, v.config.questions, after.wait)
    case Error =>
      && after.note.error == (if s.error == "" then "generation failed" else s.error) && after.note.code == s.errorCode
      && (if s.errorCode == "context_full" && posted[|posted| - 1].role == "user"
          then after.messages == posted[..|posted| - 1] && after.wait == v.wait
          else after.messages == posted && Rest(after.wait))
    case _ => after.note.error == "" && after.note.code == "" && after.messages == posted && Rest(after.wait)
  }

  /** The conversation as the model sees it: the contents of finished turns are shrunk. */
  ghost predicate Shown(v: View, role: string, content: string, posted: seq<Message>) {
    && |posted| == |v.messages| + 1
    && posted[|v.messages|].role == role && posted[|v.messages|].content == content && posted[|v.messages|].reasoning == ""
    && forall k :: 0 <= k < |v.messages| ==>
         && posted[k].role == v.messages[k].role && posted[k].reasoning == v.messages[k].reasoning
         && posted[k].content == if v.wait.state == Idle && v.config.compressTools then ToolHistory.Shrink(v.messages[k].content)
                                 else v.messages[k].content
  }

  predicate Begun(v: View, w: View, key: JobKey) {
    && w.messages != [] && w.rollbackArmed && w.saved == v.wait && w.config == v.config && w.usage == v.usage
    && w.activeJob == Some(key)
  }

  lemma EndsWell(v: View, w: View, s: Status)
    requires Begun(v, w, s.key) && s.state == Jobs.Done
    ensures Ended(v, w.messages, s, Complete(w, s))
  {
  }

  lemma EndsBadly(v: View, w: View, s: Status)
    requires Begun(v, w, s.key) && s.state != Jobs.Done
    ensures Ended(v, w.messages, s, Complete(w, s))
  {
  }

  lemma Keeps(v: View, w: View, s: Status)
    requires Begun(v, w, s.key)
    ensures Kept(v, s, Complete(w, s)) && Complete(w, s).turnMaxTokens == w.turnMaxTokens
  {
  }

  lemma Ends(v: View, w: View, s: Status)
    requires Begun(v, w, s.key)
    ensures Kept(v, s, Complete(w, s)) && Ended(v, w.messages, s, Complete(w, s)) && Complete(w, s).turnMaxTokens == w.turnMaxTokens
  {
    hide Complete, Ended, Kept;
    Keeps(v, w, s);
    if s.state == Jobs.Done {
      EndsWell(v, w, s);
    } else {
      EndsBadly(v, w, s);
    }
  }

  /** A message to an idle or waiting session, its generation, whatever is asked meanwhile, and the end
      of the generation. */
  lemma UserTurn(v: View, role: string, content: string, limit: int, key: JobKey, between: seq<Event>, s: Status)
    requires v.activeJob == None && v.wait.state != Generating && WhileBusy(key, between) && s.key == key
    ensures var after := Run(v, [UserMessage(role, content, limit), BeginTurn(key)] + between + [Finished(s)]);
      && Kept(v, s, after)
      && after.turnMaxTokens == (if limit >= 0 then limit else v.config.maxTokens)
      && exists posted :: Shown(v, role, content, posted) && Ended(v, posted, s, after)
  {
    RunTurn(v, UserMessage(role, content, limit), key, between, s);
    var begun := Begin(AcceptUser(v, role, content, limit), key);
    BusyIgnores(begun, key, between);
    Ends(v, begun, s);
    assert Shown(v, role, content, begun.messages);
  }

  /** The results of tool calls the session waits for, in the same way. Nothing is shrunk here: the turn
      that called the tools is still going on. */
  lemma ResultsTurn(v: View, combined: string, key: JobKey, between: seq<Event>, s: Status)
    requires v.activeJob == None && v.wait.state != Generating && (v.wait.state == AwaitingTools || v.wait.calls != [])
    requires WhileBusy(key, between) && s.key == key
    ensures var after := Run(v, [ToolResults(combined), BeginTurn(key)] + between + [Finished(s)]);
      && Kept(v, s, after) && after.turnMaxTokens == v.config.maxTokens
      && Ended(v, v.messages + [Message("user", combined, "")], s, after)
  {
    RunTurn(v, ToolResults(combined), key, between, s);
    var begun := Begin(AcceptResults(v, combined), key);
    BusyIgnores(begun, key, between);
    Ends(v, begun, s);
  }

  /** Results nobody waits for, and everything else while a job is under way, are refused and change
      nothing. */
  lemma RefusedAlone(v: View, role: string, content: string, limit: int, combined: string, key: JobKey)
    ensures v.activeJob != None || v.wait.state == Generating ==>
      Step(v, UserMessage(role, content, limit)) == v && Step(v, ToolResults(combined)) == v && Step(v, BeginTurn(key)) == v
    ensures v.wait.state != AwaitingTools && v.wait.calls == [] ==> Step(v, ToolResults(combined)) == v
  {
  }

  /** What is stored of a session comes back whole, up to a generation that was under way. */
  lemma RecordSurvives(v: View, blank: View)
    requires Inv(v)
    ensures var r := Restored(blank, Recorded(v));
      && r.messages == v.messages && r.note == v.note && r.config == v.config && r.usage == v.usage
      && r.activeJob == None && r.turnMaxTokens == v.config.maxTokens
      && if v.wait.state == Generating then Rest(r.wait) else r.wait == v.wait
  {
  }
}
