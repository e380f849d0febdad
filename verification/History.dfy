/**
  What a session has done, told from the outside: every claim relates the session or the store to the log of
  exchanges (lines, replies, chunks taken, messages stored) and holds after every sequence of events.
*/
module History {
  import opened Strings
  import opened Commands
  import opened ErrorPattern
  import opened Ehlo
  import opened SessionModel
  import opened Moves

  // ---------- Reading the log ----------

  /** The sender and recipients the peer has been told were accepted since the last accepted MAIL. */
  function Envelope(env: Env, log: seq<Exchange>): Option<(string, seq<string>)> {
    if log == [] then None
    else
      var before, x := Envelope(env, log[..|log| - 1]), log[|log| - 1];
      if MailIn(env, x).Some? then Some((MailIn(env, x).value, []))
      else if before.Some? && RcptIn(env, x).Some? then Some((before.value.0, before.value.1 + [RcptIn(env, x).value]))
      else before
  }

  /** How many messages were stored since the last accepted MAIL. */
  function StoresSinceMail(env: Env, log: seq<Exchange>): nat {
    if log == [] then 0
    else
      var before, x := StoresSinceMail(env, log[..|log| - 1]), log[|log| - 1];
      if MailIn(env, x).Some? then 0 else if x.stored.Some? then before + 1 else before
  }

  /** The last accepted MAIL address, unless its message has been stored. A RSET changes nothing here. */
  function Pending(env: Env, log: seq<Exchange>): Option<string> {
    if log == [] then None
    else
      var before, x := Pending(env, log[..|log| - 1]), log[|log| - 1];
      if MailIn(env, x).Some? then MailIn(env, x) else if x.stored.Some? then None else before
  }

  /** The chunks taken since a BDAT message was last stored. */
  function Buffered(log: seq<Exchange>): Bytes {
    if log == [] then ""
    else
      var before, x := Buffered(log[..|log| - 1]), log[|log| - 1];
      if x.consumed.None? then before else if x.stored.Some? then "" else before + x.consumed.value
  }

  /** The chunks taken since the last accepted MAIL. */
  function OwnChunks(env: Env, log: seq<Exchange>): Bytes {
    if log == [] then ""
    else
      var before, x := OwnChunks(env, log[..|log| - 1]), log[|log| - 1];
      if MailIn(env, x).Some? then "" else if x.consumed.Some? then before + x.consumed.value else before
  }

  /** The chunks still waiting when the last MAIL was accepted: content of an earlier transaction. */
  function Leftover(env: Env, log: seq<Exchange>): Bytes {
    if log == [] then ""
    else if MailIn(env, log[|log| - 1]).Some? then Buffered(log[..|log| - 1])
    else Leftover(env, log[..|log| - 1])
  }

  /** What one more exchange does to each reading of the log. */
  lemma OneMore(env: Env, log: seq<Exchange>, x: Exchange)
    ensures Envelope(env, log + [x]) ==
      if MailIn(env, x).Some? then Some((MailIn(env, x).value, []))
      else if Envelope(env, log).Some? && RcptIn(env, x).Some?
      then Some((Envelope(env, log).value.0, Envelope(env, log).value.1 + [RcptIn(env, x).value]))
      else Envelope(env, log)
    ensures StoresSinceMail(env, log + [x]) ==
      if MailIn(env, x).Some? then 0 else StoresSinceMail(env, log) + (if x.stored.Some? then 1 else 0)
    ensures Pending(env, log + [x]) ==
      if MailIn(env, x).Some? then MailIn(env, x) else if x.stored.Some? then None else Pending(env, log)
  {
    hide MailIn, RcptIn;
    assert (log + [x])[..|log|] == log;
  }

  lemma OneMoreChunk(env: Env, log: seq<Exchange>, x: Exchange)
    ensures Buffered(log + [x]) ==
      if x.consumed.None? then Buffered(log) else if x.stored.Some? then "" else Buffered(log) + x.consumed.value
    ensures OwnChunks(env, log + [x]) ==
      if MailIn(env, x).Some? then "" else if x.consumed.Some? then OwnChunks(env, log) + x.consumed.value
      else OwnChunks(env, log)
    ensures Leftover(env, log + [x]) == if MailIn(env, x).Some? then Buffered(log) else Leftover(env, log)
  {
    hide MailIn;
    assert (log + [x])[..|log|] == log;
  }

  predicate InTransaction(s: State) {
    s == State.Rcpt || s == State.Data || s == State.Bdat
  }

  // ---------- The invariant ----------

  ghost predicate EnvelopeKept(env: Env, r: Run) {
    && (InTransaction(r.session.state) ==>
          Envelope(env, r.log) == Some((r.session.mailFrom, r.session.rcptTo)) && StoresSinceMail(env, r.log) == 0)
    && (r.session.state in {Greeting, Helo, State.Mail} ==> r.session.mailFrom == "" && r.session.rcptTo == [])
    && r.session.state != State.Auth
    && (r.session.state == State.Quit ==> r.end != Continue)
    && StoresSinceMail(env, r.log) <= 1
  }

  function RememberedErrors(env: Env, log: seq<Exchange>): Errors {
    if Pending(env, log).None? then NO_ERRORS else ErrorsOf(Pending(env, log).value)
  }

  ghost predicate ErrorsKept(env: Env, r: Run) {
    && r.session.errors == RememberedErrors(env, r.log)
    && (InTransaction(r.session.state) ==> Pending(env, r.log) == Some(r.session.mailFrom))
  }

  ghost predicate ChunksKept(env: Env, r: Run) {
    && r.session.bdatBuffer == Buffered(r.log)
    && (InTransaction(r.session.state) ==> Buffered(r.log) == Leftover(env, r.log) + OwnChunks(env, r.log))
    && |r.session.bdatBuffer| <= SIZE_MAX
  }

  /** The negotiated delay and size stay within their bounds. */
  predicate TermsKept(s: Session) {
    && 0 <= s.commandDelay <= MAX_DELAY
    && (s.advertisedSize == 0 || SIZE_MIN <= s.advertisedSize <= SIZE_MAX)
  }

  /** What every entry of the log says about the messages stored. */
  ghost predicate StoredWell(env: Env, log: seq<Exchange>, i: nat)
    requires i < |log|
  {
    log[i].stored.Some? ==>
      var m, before := log[i].stored.value, log[..i];
      && Envelope(env, before) == Some((m.from, m.to))
      && StoresSinceMail(env, before) == 0
      && ParsePrefixed("data", m.from).None?
      && (log[i].consumed.None? ==> log[i].body == Some(m.content))
      && (log[i].consumed.Some? ==>
            && m.content == Buffered(before) + log[i].consumed.value
            && Buffered(before) == Leftover(env, before) + OwnChunks(env, before))
  }

  ghost predicate AllStoredWell(env: Env, log: seq<Exchange>) {
    forall i :: 0 <= i < |log| ==> StoredWell(env, log, i)
  }

  ghost predicate Inv(env: Env, r: Run) {
    EnvelopeKept(env, r) && ErrorsKept(env, r) && ChunksKept(env, r) && TermsKept(r.session)
    && AllStoredWell(env, r.log)
  }

  // ---------- Preservation ----------

  lemma EnvelopeStep(env: Env, r: Run, m: Move, x: Exchange, t: Session, end: End)
    requires EnvelopeKept(env, r) && r.end == Continue && Moved(m, env, r.session, x, t, end)
    ensures EnvelopeKept(env, Run(t, r.log + [x], end))
  {
    hide MailIn, RcptIn, ErrorsOf, LostIn, MaxSize, Envelope, StoresSinceMail, Pending;
    OneMore(env, r.log, x);
  }

  lemma ErrorsStep(env: Env, r: Run, m: Move, x: Exchange, t: Session, end: End)
    requires ErrorsKept(env, r) && Moved(m, env, r.session, x, t, end)
    ensures ErrorsKept(env, Run(t, r.log + [x], end))
  {
    hide MailIn, RcptIn, ErrorsOf, LostIn, MaxSize, Envelope, StoresSinceMail, Pending;
    OneMore(env, r.log, x);
  }

  lemma ChunksStep(env: Env, r: Run, m: Move, x: Exchange, t: Session, end: End)
    requires ChunksKept(env, r) && TermsKept(r.session) && Moved(m, env, r.session, x, t, end)
    ensures ChunksKept(env, Run(t, r.log + [x], end)) && TermsKept(t)
  {
    hide MailIn, RcptIn, ErrorsOf, LostIn, Buffered, OwnChunks, Leftover;
    OneMoreChunk(env, r.log, x);
    if m.Chunk? || m.LastLost? {
      var left, own := Leftover(env, r.log), OwnChunks(env, r.log);
      assert (left + own) + m.data == left + (own + m.data);
    }
  }

  lemma StoredStep(env: Env, r: Run, m: Move, x: Exchange, t: Session, end: End)
    requires EnvelopeKept(env, r) && ErrorsKept(env, r) && ChunksKept(env, r) && AllStoredWell(env, r.log)
    requires Moved(m, env, r.session, x, t, end)
    ensures AllStoredWell(env, r.log + [x])
  {
    hide MailIn, RcptIn, ParsePrefixed, LostIn, MaxSize, Envelope, StoresSinceMail, Pending;
    hide Buffered, OwnChunks, Leftover;
    var log := r.log + [x];
    forall i | 0 <= i < |log|
      ensures StoredWell(env, log, i)
    {
      if i < |r.log| {
        assert StoredWell(env, r.log, i);
        assert log[..i] == r.log[..i];
      } else {
        assert log[..i] == r.log;
      }
    }
  }

  lemma InvStep(env: Env, r: Run, e: Event)
    requires Inv(env, r)
    ensures Inv(env, Extend(env, r, e))
  {
    hide Step, Moved, EnvelopeKept, ErrorsKept, ChunksKept, TermsKept, AllStoredWell;
    if r.end == Continue {
      var f := Step(env, r.session, e);
      var x := ExchangeOf(e, f);
      var m := StepMoves(env, r.session, e);
      EnvelopeStep(env, r, m, x, f.next, f.end);
      ErrorsStep(env, r, m, x, f.next, f.end);
      ChunksStep(env, r, m, x, f.next, f.end);
      StoredStep(env, r, m, x, f.next, f.end);
    }
  }

  lemma InvStart(env: Env, greets: bool, tls: bool)
    ensures Inv(env, Start(greets, tls))
  {
  }

  /** The invariant holds after every sequence of events. */
  lemma {:induction false} InvAlways(env: Env, greets: bool, tls: bool, es: seq<Event>)
    ensures Inv(env, RunAll(env, Start(greets, tls), es))
  {
    hide Inv, Extend;
    if es == [] {
      InvStart(env, greets, tls);
    } else {
      InvAlways(env, greets, tls, es[..|es| - 1]);
      InvStep(env, RunAll(env, Start(greets, tls), es[..|es| - 1]), es[|es| - 1]);
    }
  }
}
