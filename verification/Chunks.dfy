/** Chunked messages: what is stored, and the session left behind, do not depend on how the content was split. */
module Chunks {
  import opened Strings
  import opened Commands
  import opened Replies
  import opened Ehlo
  import opened SessionModel

  // ---------- Transmissions ----------

  /** A BDAT line that announces exactly the bytes that follow it. */
  ghost predicate IsChunk(e: Event, last: bool) {
    |e.line| <= MAX_LINE && ParseLine(e.line).Some? && e.data.Some?
    && var cmd := ParseLine(e.line).value;
      cmd.verb == BDAT && ArgsValid(cmd) && Atoi(cmd.args[0]) == Some(|e.data.value|) && (last <==> |cmd.args| > 1)
  }

  /** A command that is welcome between chunks and changes nothing. */
  ghost predicate IsIdle(e: Event) {
    |e.line| <= MAX_LINE && ParseLine(e.line).Some? && ArgsValid(ParseLine(e.line).value)
    && (ParseLine(e.line).value.verb == NOOP || ParseLine(e.line).value.verb == VRFY)
  }

  ghost predicate IsOpening(es: seq<Event>) {
    forall i :: 0 <= i < |es| ==> IsChunk(es[i], false) || IsIdle(es[i])
  }

  /** Chunks in any number and of any size, with idle commands between them, ended by a last chunk. */
  ghost predicate IsTransmission(es: seq<Event>) {
    es != [] && IsOpening(es[..|es| - 1]) && IsChunk(es[|es| - 1], true)
  }

  ghost function Payload(e: Event): Bytes {
    if e.data.Some? && !IsIdle(e) then e.data.value else ""
  }

  ghost function Content(es: seq<Event>): Bytes {
    if es == [] then "" else Content(es[..|es| - 1]) + Payload(es[|es| - 1])
  }

  ghost predicate HasChunk(es: seq<Event>) {
    exists i :: 0 <= i < |es| && IsChunk(es[i], false)
  }

  /** Inside a transaction that asks for no DATA error, and in which NOOP does not close the connection. */
  predicate Ready(s: Session) {
    (s.state == State.Rcpt || s.state == State.Bdat) && s.errors.data.None?
    && (s.errors.noop.Some? ==> s.errors.noop.value.code <= 999 && s.errors.noop.value.code != 421)
  }

  // ---------- One event ----------

  lemma VrfyIsNo421(env: Env, s: Session, cmd: Command)
    ensures !Is421(VrfyText(env, s, cmd))
  {
    hide Is421;
    var raw := env.mailboxOfText(Join(cmd.args, " "));
    var address := env.normalise(raw);
    NeverA421("501", " Syntax error in parameters");
    NeverA421("250", " " + address + " User exists");
    NeverA421("551", " User not local; please try forward path");
    NeverA421("553", " Requested action not taken: mailbox name not allowed");
    NeverA421("553", " User ambiguous");
    NeverA421("550", " Requested action not taken: mailbox unavailable");
  }

  lemma IdleStep(env: Env, s: Session, e: Event)
    requires Ready(s) && IsIdle(e)
    ensures var f := Step(env, s, e); f.next == s && f.end == Continue && f.consumed.None? && f.stored.None?
  {
    hide Is421, FormatError, ParseLine, VrfyText, OnHelo, OnAuth, OnMail, OnRcpt, OnData, OnBdat;
    var cmd := ParseLine(e.line).value;
    VrfyIsNo421(env, s, cmd);
    NeverA421("250", " OK");
    if s.errors.noop.Some? {
      SimulatedErrorIs421(s.caps.enhanced, s.errors.noop.value);
    }
    assert Step(env, s, e) == Handle(env, s, cmd, e);
  }

  lemma ChunkDispatched(env: Env, s: Session, e: Event, last: bool)
    requires Ready(s) && IsChunk(e, last)
    ensures var cmd := ParseLine(e.line).value; cmd.args != [] && Step(env, s, e) == OnBdat(s, cmd, e.data, e.oracle)
  {
    hide ParseLine, OnHelo, OnAuth, OnMail, OnRcpt, OnData, OnBdat, VrfyText, EqualFold, OnRset, OnNoop, OnStartTls;
    hide OnQuit, Atoi, Is421, SequenceReply;
    assert Dispatch(s.state, e.line) == Accept(ParseLine(e.line).value);
  }

  lemma ChunkStep(env: Env, s: Session, e: Event)
    requires Ready(s) && IsChunk(e, false) && |s.bdatBuffer + e.data.value| <= MaxSize(s) <= SIZE_MAX
    ensures var f := Step(env, s, e);
      f.next == s.(bdatBuffer := s.bdatBuffer + e.data.value, state := State.Bdat)
      && f.end == Continue && f.stored.None? && f.consumed == e.data
  {
    hide Is421, FormatError, ParseLine, Atoi, Step;
    ChunkDispatched(env, s, e, false);
    NeverA421("250", " OK");
  }

  lemma LastStep(env: Env, s: Session, e: Event)
    requires Ready(s) && IsChunk(e, true) && |s.bdatBuffer + e.data.value| <= MaxSize(s) <= SIZE_MAX
    ensures var f := Step(env, s, e);
      f.end == Continue && f.consumed == e.data
      && if e.oracle.store.Stored?
         then f.next == ResetSession(s).(bdatBuffer := "")
              && f.stored == Some(MessageOf(s, s.bdatBuffer + e.data.value))
         else f.next == s.(bdatBuffer := s.bdatBuffer + e.data.value) && f.stored.None?
  {
    hide Is421, FormatError, ParseLine, Atoi, Step, StorageReply;
    ChunkDispatched(env, s, e, true);
    NeverA421("250", " OK Message accepted for delivery");
    if e.oracle.store.StoreFailed? {
      StorageReplyIsNo421(e.oracle.store.reason);
    }
  }

  lemma StorageReplyIsNo421(reason: string)
    ensures !Is421(StorageReply(reason))
  {
    hide Is421, Contains;
    NeverA421("550", " Requested action not taken: mailbox unavailable");
    NeverA421("452", " Requested action not taken: insufficient system storage");
    NeverA421("450", " Requested action not taken: mailbox temporarily unavailable");
  }

  // ---------- Whole transmissions ----------

  ghost predicate Roomy(s: Session, es: seq<Event>) {
    |s.bdatBuffer + Content(es)| <= MaxSize(s) <= SIZE_MAX
  }

  lemma HasChunkSnoc(es: seq<Event>)
    requires es != []
    ensures HasChunk(es) <==> HasChunk(es[..|es| - 1]) || IsChunk(es[|es| - 1], false)
  {
    hide IsChunk;
    var pre := es[..|es| - 1];
    if HasChunk(pre) {
      var i :| 0 <= i < |pre| && IsChunk(pre[i], false);
      assert es[i] == pre[i];
    }
    if HasChunk(es) && !IsChunk(es[|es| - 1], false) {
      var i :| 0 <= i < |es| && IsChunk(es[i], false);
      assert es[i] == pre[i];
    }
  }

  lemma IdleIsNoChunk(e: Event, last: bool)
    ensures !(IsIdle(e) && IsChunk(e, last))
  {
    hide ParseLine, Atoi;
  }

  /** Before the last chunk, everything sent is in the buffer and nothing is stored. */
  lemma {:induction false} OpeningRun(env: Env, r: Run, es: seq<Event>)
    requires r.end == Continue && Ready(r.session) && IsOpening(es) && Roomy(r.session, es)
    ensures var q := RunAll(env, r, es);
      q.end == Continue && Delivered(q.log) == Delivered(r.log)
      && q.session == r.session.(bdatBuffer := r.session.bdatBuffer + Content(es),
                                 state := if HasChunk(es) then State.Bdat else r.session.state)
  {
    hide Step, IsChunk, IsIdle, Delivered;
    var s := r.session;
    if es == [] {
      assert s.bdatBuffer + Content(es) == s.bdatBuffer;
    } else {
      var pre, e := es[..|es| - 1], es[|es| - 1];
      assert s.bdatBuffer + Content(es) == (s.bdatBuffer + Content(pre)) + Payload(e);
      OpeningRun(env, r, pre);
      HasChunkSnoc(es);
      var q := RunAll(env, r, pre);
      LogSnoc(q.log, ExchangeOf(e, Step(env, q.session, e)));
      IdleIsNoChunk(e, false);
      if IsIdle(e) {
        IdleStep(env, q.session, e);
        assert q.session.bdatBuffer + Payload(e) == q.session.bdatBuffer;
      } else {
        ChunkHasData(e, false);
        ChunkStep(env, q.session, e);
      }
    }
  }

  lemma ContentSnoc(es: seq<Event>, e: Event)
    ensures Content(es + [e]) == Content(es) + Payload(e)
  {
    hide IsIdle;
    assert (es + [e])[..|es|] == es;
  }

  lemma ChunkHasData(e: Event, last: bool)
    ensures IsChunk(e, last) ==> e.data.Some?
  {
  }

  /**
    A transmission into an empty buffer stores one message, the concatenation of its chunks under the envelope of
    the session, and leaves a session in which neither the chunks nor their number show. If the store refuses it,
    the buffer keeps the content, and the state tells whether there was a chunk before the last.
  */
  lemma TransmissionRun(env: Env, r: Run, es: seq<Event>)
    requires r.end == Continue && Ready(r.session) && r.session.state == State.Rcpt && r.session.bdatBuffer == ""
    requires IsTransmission(es) && Roomy(r.session, es)
    ensures var q := RunAll(env, r, es); var s := r.session;
      q.end == Continue
      && if es[|es| - 1].oracle.store.Stored?
         then q.session == ResetSession(s) && Delivered(q.log) == Delivered(r.log) + [MessageOf(s, Content(es))]
         else q.session == s.(bdatBuffer := Content(es),
                              state := if HasChunk(es[..|es| - 1]) then State.Bdat else State.Rcpt)
              && Delivered(q.log) == Delivered(r.log)
  {
    hide Step, IsChunk, IsIdle, Delivered, HasChunk, Content;
    var s, pre, e := r.session, es[..|es| - 1], es[|es| - 1];
    IdleIsNoChunk(e, true);
    ChunkHasData(e, true);
    ContentSnoc(pre, e);
    assert pre + [e] == es;
    assert s.bdatBuffer + Content(pre) == Content(pre) && s.bdatBuffer + Content(es) == Content(es);
    OpeningRun(env, r, pre);
    var q := RunAll(env, r, pre);
    LastStep(env, q.session, e);
    LogSnoc(q.log, ExchangeOf(e, Step(env, q.session, e)));
  }

  /** Any two ways to send the same content, stored in the end, store the same message and reach the same session. */
  lemma SplitDoesNotMatter(env: Env, r: Run, es1: seq<Event>, es2: seq<Event>)
    requires r.end == Continue && Ready(r.session) && r.session.state == State.Rcpt && r.session.bdatBuffer == ""
    requires IsTransmission(es1) && IsTransmission(es2) && Content(es1) == Content(es2) && Roomy(r.session, es1)
    requires es1[|es1| - 1].oracle.store.Stored? && es2[|es2| - 1].oracle.store.Stored?
    ensures var q1, q2 := RunAll(env, r, es1), RunAll(env, r, es2);
      q1.session == q2.session && q1.end == q2.end && Delivered(q1.log) == Delivered(q2.log)
      && Delivered(q1.log) == Delivered(r.log) + [MessageOf(r.session, Content(es1))]
  {
    hide Step, IsChunk, IsIdle, Delivered, RunAll, Content, IsTransmission;
    TransmissionRun(env, r, es1);
    TransmissionRun(env, r, es2);
  }

  /**
    If the store refuses both, the two sessions agree exactly when both sent a chunk before the last one or
    neither did.
  */
  lemma RefusedSplitShows(env: Env, r: Run, es1: seq<Event>, es2: seq<Event>)
    requires r.end == Continue && Ready(r.session) && r.session.state == State.Rcpt && r.session.bdatBuffer == ""
    requires IsTransmission(es1) && IsTransmission(es2) && Content(es1) == Content(es2) && Roomy(r.session, es1)
    requires es1[|es1| - 1].oracle.store.StoreFailed? && es2[|es2| - 1].oracle.store.StoreFailed?
    ensures RunAll(env, r, es1).session == RunAll(env, r, es2).session
      <==> (HasChunk(es1[..|es1| - 1]) <==> HasChunk(es2[..|es2| - 1]))
  {
    hide Step, IsChunk, IsIdle, Delivered, RunAll, Content, HasChunk;
    TransmissionRun(env, r, es1);
    TransmissionRun(env, r, es2);
  }
}
