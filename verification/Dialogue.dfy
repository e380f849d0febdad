/** How commands are answered and how the state moves, over whole runs. */
module Dialogue {
  import opened Strings
  import opened Commands
  import opened ErrorPattern
  import opened Replies
  import opened Ehlo
  import opened SessionModel
  import opened Moves
  import opened History

  // ---------- Replies of one command ----------

  predicate IsVerb(line: string, v: Verb) {
    ParseLine(line).Some? && ParseLine(line).value.verb == v
  }

  /** A reply that asks the peer for more before the command is answered. */
  predicate Intermediate(line: string, text: string) {
    (IsVerb(line, AUTH) && "334 " <= text) || (IsVerb(line, DATA) && text == R_START_DATA)
  }

  predicate HasReply(x: Exchange) {
    x.replies != []
  }

  function FinalReply(x: Exchange): string
    requires HasReply(x)
  {
    x.replies[|x.replies| - 1]
  }

  ghost predicate Admits(s: Session, e: Event, cmd: Command) {
    |e.line| <= MAX_LINE && Dispatch(s.state, e.line) == Accept(cmd)
  }

  /** What the session asks for before it answers: the body after DATA, whatever the mechanism wants after AUTH. */
  function PromptsDue(s: Session, e: Event): seq<string> {
    if |e.line| > MAX_LINE then []
    else match Dispatch(s.state, e.line)
      case Refuse(_) => []
      case Accept(cmd) =>
        if cmd.verb == DATA && s.errors.data.None? then [R_START_DATA]
        else if cmd.verb == AUTH && s.errors.auth.None? && KnownMechanism(cmd.args[0]) then Prompts(e.oracle.challenges)
        else []
  }

  /** An AUTH that gets the simulated error 334, which reads like a prompt. */
  predicate IsAnswered334(s: Session, e: Event) {
    |e.line| <= MAX_LINE && Dispatch(s.state, e.line).Accept? && Dispatch(s.state, e.line).cmd.verb == AUTH
    && s.errors.auth.Some? && s.errors.auth.value.code == 334
  }

  /** The prompts due and one answer, which is itself no prompt except where a 334 is simulated. */
  ghost predicate AnsweredBy(s: Session, e: Event, replies: seq<string>) {
    && |replies| == |PromptsDue(s, e)| + 1 && PromptsDue(s, e) <= replies
    && (Intermediate(e.line, replies[|replies| - 1]) <==> IsAnswered334(s, e))
  }

  /** What the replies of one command say about how the session goes on. */
  ghost predicate WellAnswered(s: Session, e: Event, replies: seq<string>, end: End) {
    && (end == Continue || end == Eof ==> AnsweredBy(s, e, replies))
    && (forall k :: 0 <= k < |replies| - 1 ==> !Is421(replies[k]))
    && (end == Continue ==> !Is421(replies[|replies| - 1]))
    && (end == Eof ==> Is421(replies[|replies| - 1]) || IsVerb(e.line, QUIT))
    && (end == Broken || end == Crash ==> forall t :: t in replies ==> !Is421(t))
  }

  lemma FixedRepliesAreNo421(challenge: string)
    ensures !Is421(R_START_DATA) && !Is421(R_READY) && !Is421(Prompt(challenge))
  {
    hide Is421;
    NeverA421("354", " End data with <CR><LF>.<CR><LF>");
    NeverA421("220", " Ready to start TLS");
    assert Prompt(challenge) == "334" + (" " + challenge);
    NeverA421("334", " " + challenge);
  }

  lemma SaidOnce(s: Session, e: Event, text: string)
    requires PromptsDue(s, e) == [] && (Intermediate(e.line, text) <==> IsAnswered334(s, e))
    ensures WellAnswered(s, e, [text], EndOf(text))
  {
    hide PromptsDue, Is421, Intermediate, IsAnswered334;
  }

  lemma RefusedOnce(s: Session, e: Event, text: string)
    requires IsRefusal(text) && (|e.line| > MAX_LINE || Dispatch(s.state, e.line).Refuse?)
    ensures WellAnswered(s, e, [text], EndOf(text))
  {
    hide Is421, Dispatch, ParseLine, IsRefusal, WellAnswered;
    RefusalIsNoFixedReply(text);
    assert !("334 " <= text) by { RefusalIsNoPrompt(text); }
    SaidOnce(s, e, text);
  }

  lemma RefusalIsNoPrompt(text: string)
    requires IsRefusal(text)
    ensures !("334 " <= text)
  {
    assert text[0] == '5';
  }

  lemma AuthAnswered(s: Session, cmd: Command, e: Event)
    requires Admits(s, e, cmd) && cmd.verb == AUTH
    ensures var f := OnAuth(s, cmd, e.oracle); WellAnswered(s, e, f.replies, f.end)
  {
    hide Is421, FormatError, ParseLine, KnownMechanism, Dispatch, Authenticate, WellAnswered;
    if s.errors.auth.Some? {
      var text := FormatError(s.caps.enhanced, s.errors.auth.value);
      ErrorLooksLikePrompt(s.caps.enhanced, s.errors.auth.value);
      SaidOnce(s, e, text);
    } else if !KnownMechanism(cmd.args[0]) {
      assert R_NO_MECHANISM[0] == '5';
      SaidOnce(s, e, R_NO_MECHANISM);
    } else {
      ConversationAnswered(s, cmd, e);
    }
  }

  lemma ConversationAnswered(s: Session, cmd: Command, e: Event)
    requires Admits(s, e, cmd) && cmd.verb == AUTH && s.errors.auth.None? && KnownMechanism(cmd.args[0])
    ensures var f := Authenticate(s, e.oracle); WellAnswered(s, e, f.replies, f.end)
  {
    hide Is421, ParseLine, KnownMechanism, Dispatch;
    var prompts, replies := Prompts(e.oracle.challenges), Authenticate(s, e.oracle).replies;
    forall k | 0 <= k < |prompts|
      ensures !Is421(replies[k])
    {
      FixedRepliesAreNo421(e.oracle.challenges[k]);
    }
    assert AuthText(e.oracle.auth)[0] != '3';
  }

  lemma DataAnswered(s: Session, cmd: Command, e: Event)
    requires Admits(s, e, cmd) && cmd.verb == DATA
    ensures var f := OnData(s, e.data, e.oracle); WellAnswered(s, e, f.replies, f.end)
  {
    hide Is421, FormatError, ParseLine, StorageReply, Dispatch;
    FixedRepliesAreNo421("");
    if s.errors.data.Some? {
      ErrorIsNoFixedReply(s.caps.enhanced, s.errors.data.value);
    } else if e.oracle.store.StoreFailed? {
      StorageReplyIsNoPrompt(e.oracle.store.reason);
    }
  }

  lemma StorageReplyIsNoPrompt(reason: string)
    ensures StorageReply(reason) != R_START_DATA
  {
    hide Contains;
    assert StorageReply(reason)[0] != R_START_DATA[0];
  }

  lemma BdatAnswered(s: Session, cmd: Command, e: Event)
    requires Admits(s, e, cmd) && cmd.verb == BDAT
    ensures var f := OnBdat(s, cmd, e.data, e.oracle); WellAnswered(s, e, f.replies, f.end)
  {
    hide Is421, FormatError, ParseLine, StorageReply, PlanChunk, Dispatch;
  }

  lemma TlsAndQuitAnswered(s: Session, cmd: Command, e: Event)
    requires Admits(s, e, cmd) && (cmd.verb == STARTTLS || cmd.verb == QUIT)
    ensures var f := if cmd.verb == QUIT then OnQuit(s) else OnStartTls(s, e.oracle);
      WellAnswered(s, e, f.replies, f.end)
  {
    hide Is421, FormatError, ParseLine, Dispatch;
    FixedRepliesAreNo421("");
  }

  /** The commands that only say something and go on. */
  lemma OtherSaysOnce(env: Env, s: Session, cmd: Command, e: Event) returns (text: string)
    requires ArgsValid(cmd) && cmd.verb in {HELO, EHLO, MAIL, RCPT, RSET, NOOP, VRFY}
    ensures var f := Handle(env, s, cmd, e);
      f.replies == [text] && f.end == EndOf(text) && f.consumed.None? && f.stored.None?
  {
    hide Is421, FormatError, EhloReply, LabelParts, Mentions, Negotiate, WithoutDelays, DelayAfter;
    hide VrfyText, ParseHelo, ParsePrefixed, SizeOf, AddressIn, OnAuth, OnData, OnBdat, OnStartTls, OnQuit;
    text := Handle(env, s, cmd, e).replies[0];
  }

  /**
    Every session answers every command it does not break off with the prompts due and one answer; the answer is
    itself no prompt, except for an AUTH in a transaction whose sender asks for the error 334.
  */
  lemma StepAnswered(env: Env, s: Session, e: Event)
    ensures var f := Step(env, s, e); WellAnswered(s, e, f.replies, f.end)
  {
    hide Is421, FormatError, ParseLine, Handle, WellAnswered, SequenceReply;
    if |e.line| > MAX_LINE {
      RefusedOnce(s, e, R_TOO_LONG);
    } else {
      match Dispatch(s.state, e.line)
      case Refuse(text) =>
        if ParseLine(e.line).Some? {
          SequenceReplyRefuses(ParseLine(e.line).value.verb, s.state);
        }
        RefusedOnce(s, e, text);
      case Accept(cmd) =>
        HandleAnswered(env, s, cmd, e);
    }
  }

  lemma HandleAnswered(env: Env, s: Session, cmd: Command, e: Event)
    requires Admits(s, e, cmd)
    ensures var f := Handle(env, s, cmd, e); WellAnswered(s, e, f.replies, f.end)
  {
    hide Is421, FormatError, ParseLine, WellAnswered, OnHelo, OnAuth, OnMail, OnRcpt, OnData, OnBdat, OnRset, OnNoop;
    hide OnStartTls, OnQuit, VrfyText, Dispatch;
    match cmd.verb
    case AUTH => AuthAnswered(s, cmd, e);
    case DATA => DataAnswered(s, cmd, e);
    case BDAT => BdatAnswered(s, cmd, e);
    case STARTTLS => TlsAndQuitAnswered(s, cmd, e);
    case QUIT => TlsAndQuitAnswered(s, cmd, e);
    case _ =>
      var text := OtherSaysOnce(env, s, cmd, e);
      SaidOnce(s, e, text);
  }

  // ---------- Replies of a run ----------

  /** The sender of the open transaction asks for AUTH to be answered with 334. */
  ghost predicate Asks334(env: Env, before: seq<Exchange>) {
    RememberedErrors(env, before).auth.Some? && RememberedErrors(env, before).auth.value.code == 334
  }

  /**
    One answer after any prompts: DATA is answered alone or after the one prompt for its body, AUTH after prompts,
    any other command alone. Only a simulated 334 makes the answer itself read like a prompt.
  */
  ghost predicate AnsweredOnce(env: Env, before: seq<Exchange>, x: Exchange) {
    && HasReply(x)
    && (forall k :: 0 <= k < |x.replies| - 1 ==> Intermediate(x.line, x.replies[k]))
    && (Intermediate(x.line, FinalReply(x)) ==>
          IsVerb(x.line, AUTH) && x.replies == [FinalReply(x)] && Asks334(env, before))
    && (!IsVerb(x.line, AUTH) && !IsVerb(x.line, DATA) ==> |x.replies| == 1)
    && (IsVerb(x.line, DATA) ==> |x.replies| <= 2)
  }

  lemma AnsweredInLog(env: Env, r: Run, e: Event, f: Effect)
    requires AnsweredBy(r.session, e, f.replies) && ErrorsKept(env, r)
    ensures AnsweredOnce(env, r.log, ExchangeOf(e, f))
  {
    hide ParseLine, RememberedErrors, Pending, KnownMechanism, Prompt;
    var x := ExchangeOf(e, f);
    assert x.replies == PromptsDue(r.session, e) + [FinalReply(x)];
    forall k | 0 <= k < |x.replies| - 1
      ensures Intermediate(x.line, x.replies[k])
    {
      assert x.replies[k] == PromptsDue(r.session, e)[k];
      PromptIsIntermediate(r.session, e, k);
    }
  }

  lemma PromptIsIntermediate(s: Session, e: Event, k: nat)
    requires k < |PromptsDue(s, e)|
    ensures Intermediate(e.line, PromptsDue(s, e)[k])
  {
    hide ParseLine, KnownMechanism;
  }

  ghost predicate AnsweredUpTo(env: Env, log: seq<Exchange>, n: nat)
    requires n <= |log|
  {
    forall i :: 0 <= i < n ==> AnsweredOnce(env, log[..i], log[i])
  }

  ghost predicate Only421IsLast(replies: seq<string>, end: End) {
    forall k :: 0 <= k < |replies| && Is421(replies[k]) ==> k == |replies| - 1 && end == Eof
  }

  /** The last command had a reply, and it was a 421 or the answer to QUIT. */
  ghost predicate EndedBy421OrQuit(log: seq<Exchange>) {
    log != [] && HasReply(log[|log| - 1])
    && (Is421(FinalReply(log[|log| - 1])) || IsVerb(log[|log| - 1].line, QUIT))
  }

  /** How many commands of a run have been answered: all, but for a last one that was broken off. */
  function HowManyAnswered(r: Run): (n: nat)
    ensures n <= |r.log|
  {
    if r.end == Continue || r.end == Eof || r.log == [] then |r.log| else |r.log| - 1
  }

  ghost predicate DialogueOk(env: Env, r: Run) {
    && AnsweredUpTo(env, r.log, HowManyAnswered(r))
    && Only421IsLast(Trace(r.log), r.end)
    && (r.end == Eof ==> EndedBy421OrQuit(r.log))
  }

  lemma AnsweredLater(env: Env, log: seq<Exchange>, x: Exchange)
    requires AnsweredUpTo(env, log, |log|)
    ensures AnsweredUpTo(env, log + [x], |log|)
    ensures AnsweredOnce(env, log, x) ==> AnsweredUpTo(env, log + [x], |log| + 1)
  {
    hide AnsweredOnce;
    forall i | 0 <= i <= |log|
      ensures (log + [x])[..i] == log[..i] && (i < |log| ==> (log + [x])[i] == log[i])
    {
    }
    assert log[..|log|] == log;
  }

  lemma No421Yet(log: seq<Exchange>, s: Session, e: Event, x: Exchange, end: End)
    requires Only421IsLast(Trace(log), Continue) && WellAnswered(s, e, x.replies, end) && end != WriteFailed
    ensures Only421IsLast(Trace(log + [x]), end)
  {
    hide Is421, IsVerb, AnsweredBy, Trace;
    var before, after := Trace(log), Trace(log + [x]);
    LogSnoc(log, x);
    assert forall j :: 0 <= j < |before| ==> after[j] == before[j];
    forall k | 0 <= k < |after| && Is421(after[k])
      ensures k == |after| - 1 && end == Eof
    {
      if k >= |before| {
        assert after[k] == x.replies[k - |before|] && x.replies[k - |before|] in x.replies;
      }
    }
  }

  lemma EndsSo(s: Session, e: Event, log: seq<Exchange>, x: Exchange, end: End)
    requires WellAnswered(s, e, x.replies, end) && end == Eof && x.line == e.line
    ensures EndedBy421OrQuit(log + [x])
  {
    hide Is421, IsVerb, PromptsDue, Intermediate, IsAnswered334;
    assert (log + [x])[|log + [x]| - 1] == x;
  }

  lemma DialogueStep(env: Env, r: Run, e: Event, f: Effect)
    requires DialogueOk(env, r) && ErrorsKept(env, r) && r.end == Continue
    requires WellAnswered(r.session, e, f.replies, f.end) && f.end != WriteFailed
    ensures DialogueOk(env, Run(f.next, r.log + [ExchangeOf(e, f)], f.end))
  {
    hide Is421, AnsweredOnce, AnsweredBy, Trace, ErrorsKept, AnsweredUpTo, Only421IsLast, WellAnswered, EndedBy421OrQuit;
    var x := ExchangeOf(e, f);
    No421Yet(r.log, r.session, e, x, f.end);
    AnsweredLater(env, r.log, x);
    if f.end == Continue || f.end == Eof {
      WellAnsweredIsAnswered(r.session, e, f.replies, f.end);
      AnsweredInLog(env, r, e, f);
    }
    if f.end == Eof {
      EndsSo(r.session, e, r.log, x, f.end);
    }
  }

  lemma WellAnsweredIsAnswered(s: Session, e: Event, replies: seq<string>, end: End)
    requires WellAnswered(s, e, replies, end) && (end == Continue || end == Eof)
    ensures AnsweredBy(s, e, replies)
  {
    hide Is421, IsVerb, AnsweredBy;
  }

  /**
    In every run each command but a failed last one is answered exactly once, prompts apart; a 421 is the last
    reply of all; and a run ends with EOF only by a 421 or by QUIT.
  */
  lemma {:induction false} OneReplyEach(env: Env, greets: bool, tls: bool, es: seq<Event>)
    ensures DialogueOk(env, RunAll(env, Start(greets, tls), es))
    ensures RunAll(env, Start(greets, tls), es).end != WriteFailed
  {
    hide Step, WellAnswered, DialogueOk, EnvelopeKept, ErrorsKept, ChunksKept, AllStoredWell;
    if es == [] {
      StartDialogue(env, greets, tls);
    } else {
      var r, e := RunAll(env, Start(greets, tls), es[..|es| - 1]), es[|es| - 1];
      OneReplyEach(env, greets, tls, es[..|es| - 1]);
      if r.end == Continue {
        StepAnswered(env, r.session, e);
        StepNeverWriteFails(env, r.session, e);
        InvAlways(env, greets, tls, es[..|es| - 1]);
        DialogueStep(env, r, e, Step(env, r.session, e));
      }
    }
  }

  /**
    In every run a DATA that was not broken off has exactly two replies if it was accepted, the prompt and an answer that
    is none, and one reply otherwise.
  */
  lemma TwoRepliesForData(env: Env, greets: bool, tls: bool, es: seq<Event>, i: nat)
    requires var r := RunAll(env, Start(greets, tls), es);
      i < |r.log| && IsVerb(r.log[i].line, DATA) && (i < |r.log| - 1 || r.end == Continue || r.end == Eof)
    ensures var replies := RunAll(env, Start(greets, tls), es).log[i].replies;
      if R_START_DATA in replies
      then |replies| == 2 && replies[0] == R_START_DATA && replies[1] != R_START_DATA
      else |replies| == 1
  {
    hide RunAll, ParseLine, Asks334, Is421, Trace, Only421IsLast, EndedBy421OrQuit;
    OneReplyEach(env, greets, tls, es);
    var r := RunAll(env, Start(greets, tls), es);
    var x := r.log[i];
    assert AnsweredOnce(env, r.log[..i], x);
    assert !IsVerb(x.line, AUTH) && FinalReply(x) != R_START_DATA;
    assert |x.replies| == 2 ==> x.replies[0] == R_START_DATA && x.replies[0] in x.replies;
  }

  lemma StartDialogue(env: Env, greets: bool, tls: bool)
    ensures DialogueOk(env, Start(greets, tls))
  {
  }

  lemma StepNeverWriteFails(env: Env, s: Session, e: Event)
    ensures Step(env, s, e).end != WriteFailed
  {
    hide Is421, FormatError, ParseLine, Handle;
    if |e.line| <= MAX_LINE && Dispatch(s.state, e.line).Accept? {
      HandleNeverWriteFails(env, s, Dispatch(s.state, e.line).cmd, e);
    }
  }

  lemma HandleNeverWriteFails(env: Env, s: Session, cmd: Command, e: Event)
    requires ArgsValid(cmd)
    ensures Handle(env, s, cmd, e).end != WriteFailed
  {
    hide Is421, FormatError, OnHelo, OnMail, OnRcpt, OnRset, OnNoop, PlanChunk, KnownMechanism, StorageReply, VrfyText;
    if cmd.verb in {HELO, EHLO, MAIL, RCPT, RSET, NOOP, VRFY} {
      var text := OtherSaysOnce(env, s, cmd, e);
    }
  }

  /** Once a run has ended, no later command is processed. */
  lemma {:induction false} NothingAfterTheEnd(env: Env, r: Run, es: seq<Event>)
    requires r.end != Continue
    ensures RunAll(env, r, es) == r
  {
    hide Step;
    if es != [] {
      NothingAfterTheEnd(env, r, es[..|es| - 1]);
    }
  }

  // ---------- States ----------

  /** The state changes a command can make. */
  predicate Edge(a: State, b: State) {
    a == b
    || (a == Helo && b == State.Mail) || (a == State.Mail && b == State.Rcpt) || (a == State.Mail && b == Helo)
    || (a == State.Rcpt && (b == State.Data || b == State.Bdat || b == State.Mail))
    || (a == State.Bdat && b == State.Mail)
    || (a != Greeting && b == State.Quit)
  }

  /** Every command of every run keeps to the edges. */
  lemma OnlyEdges(env: Env, greets: bool, tls: bool, es: seq<Event>, e: Event)
    ensures Edge(RunAll(env, Start(greets, tls), es).session.state,
                 RunAll(env, Start(greets, tls), es + [e]).session.state)
    ensures RunAll(env, Start(greets, tls), es).session.state != State.Auth
  {
    hide Step, MailIn, RcptIn, ErrorsOf, LostIn, MoveIn;
    var r := RunAll(env, Start(greets, tls), es);
    assert (es + [e])[..|es|] == es;
    InvAlways(env, greets, tls, es);
    if r.end == Continue {
      var m := StepMoves(env, r.session, e);
    }
  }

  /**
    After the table has let a command through, its handler's own state test fails exactly for HELO and EHLO in MAIL
    state; where it fails the handler only says so.
  */
  lemma GuardsAreDead(env: Env, s: Session, e: Event, cmd: Command)
    requires Admits(s, e, cmd)
    ensures !HandlerGuard(cmd.verb, s.state) <==> (cmd.verb == HELO || cmd.verb == EHLO) && s.state == State.Mail
    ensures !HandlerGuard(cmd.verb, s.state) ==> Step(env, s, e) == Say(s, R_SEQUENCE)
  {
    hide ParseLine, Dispatch, Is421, OnAuth, OnMail, OnRcpt, OnData, OnBdat, OnRset, OnNoop, OnStartTls, OnQuit, VrfyText;
    hide OnEhlo, ParseHelo;
  }

  lemma DataStep(env: Env, s: Session, e: Event)
    requires s.state == State.Data
    ensures var f := Step(env, s, e); (f.next.state == State.Data || f.end == Eof) && f.stored.None?
  {
    hide Step, MailIn, RcptIn, ErrorsOf, LostIn, MoveIn;
    var m := StepMoves(env, s, e);
  }

  /** A session whose DATA was not stored stays in DATA state until it ends: it stores nothing more. */
  lemma {:induction false} DataIsTheEndOfStoring(env: Env, r: Run, es: seq<Event>)
    requires r.session.state == State.Data
    ensures var q := RunAll(env, r, es);
      (q.session.state == State.Data || q.end == Eof) && Delivered(q.log) == Delivered(r.log)
  {
    hide Step, Delivered;
    if es != [] {
      var p, e := RunAll(env, r, es[..|es| - 1]), es[|es| - 1];
      DataIsTheEndOfStoring(env, r, es[..|es| - 1]);
      if p.end == Continue {
        DataStep(env, p.session, e);
        LogSnoc(p.log, ExchangeOf(e, Step(env, p.session, e)));
      }
    }
  }
}
