/** Mail transactions over whole runs: envelopes, remembered errors, content and sizes. */
module Transactions {
  import opened Strings
  import opened Commands
  import opened ErrorPattern
  import opened Replies
  import opened Ehlo
  import opened SessionModel
  import opened Moves
  import opened History
  import opened Dialogue

  /** The run of a session from its start. */
  ghost function SessionRun(env: Env, greets: bool, tls: bool, es: seq<Event>): Run {
    RunAll(env, Start(greets, tls), es)
  }

  // ---------- Envelopes ----------

  /**
    Every stored message carries the address of the last accepted MAIL and exactly the recipients accepted since,
    in order; it is the first message stored for that MAIL.
  */
  lemma EnvelopeFidelity(env: Env, greets: bool, tls: bool, es: seq<Event>, i: nat)
    requires i < |SessionRun(env, greets, tls, es).log|
    requires SessionRun(env, greets, tls, es).log[i].stored.Some?
    ensures var log := SessionRun(env, greets, tls, es).log;
      Envelope(env, log[..i]) == Some((log[i].stored.value.from, log[i].stored.value.to))
      && StoresSinceMail(env, log[..i]) == 0
  {
    hide RunAll, Envelope, StoresSinceMail, Buffered, Leftover, OwnChunks, ParsePrefixed;
    InvAlways(env, greets, tls, es);
    assert StoredWell(env, SessionRun(env, greets, tls, es).log, i);
  }

  lemma {:induction false} StoreIsRemembered(env: Env, log: seq<Exchange>, i: nat)
    requires i < |log| && log[i].stored.Some? && MailIn(env, log[i]).None?
    requires forall k :: i < k < |log| ==> MailIn(env, log[k]).None?
    ensures StoresSinceMail(env, log) >= 1
  {
    hide MailIn;
    if i < |log| - 1 {
      StoreIsRemembered(env, log[..|log| - 1], i);
    }
  }

  lemma {:induction false} StoreIsNoMail(env: Env, greets: bool, tls: bool, es: seq<Event>, i: nat)
    requires i < |SessionRun(env, greets, tls, es).log|
    requires SessionRun(env, greets, tls, es).log[i].stored.Some?
    ensures MailIn(env, SessionRun(env, greets, tls, es).log[i]).None?
  {
    hide Step, MoveIn, MailIn, RcptIn, ErrorsOf, LostIn;
    var r, e := SessionRun(env, greets, tls, es[..|es| - 1]), es[|es| - 1];
    if i < |r.log| {
      StoreIsNoMail(env, greets, tls, es[..|es| - 1], i);
    } else {
      var m := StepMoves(env, r.session, e);
    }
  }

  /** Between two stored messages there is an accepted MAIL: no MAIL ever yields two. */
  lemma OneStorePerMail(env: Env, greets: bool, tls: bool, es: seq<Event>, i: nat, j: nat) returns (k: nat)
    requires i < j < |SessionRun(env, greets, tls, es).log|
    requires SessionRun(env, greets, tls, es).log[i].stored.Some?
    requires SessionRun(env, greets, tls, es).log[j].stored.Some?
    ensures i < k < j && MailIn(env, SessionRun(env, greets, tls, es).log[k]).Some?
  {
    hide RunAll, MailIn, Envelope, StoresSinceMail;
    var log := SessionRun(env, greets, tls, es).log;
    EnvelopeFidelity(env, greets, tls, es, j);
    StoreIsNoMail(env, greets, tls, es, i);
    if forall k :: i < k < j ==> MailIn(env, log[k]).None? {
      StoreIsRemembered(env, log[..j], i);
      assert false;
    }
    k :| i < k < j && MailIn(env, log[k]).Some?;
  }

  // ---------- Remembered errors ----------

  function Count(o: Option<ErrorResult>): nat {
    if o.Some? then 1 else 0
  }

  function HowMany(e: Errors): nat {
    Count(e.data) + Count(e.rset) + Count(e.quit) + Count(e.starttls) + Count(e.noop) + Count(e.auth)
  }

  lemma AtMostOneError(address: string)
    ensures HowMany(ErrorsOf(address)) <= 1
  {
    hide ParsePrefixed, RequestOf, Meaning;
    ParseByRequest("data", address);
    ParseByRequest("rset", address);
    ParseByRequest("quit", address);
    ParseByRequest("starttls", address);
    ParseByRequest("noop", address);
    ParseByRequest("auth", address);
  }

  /**
    In every reachable state the six remembered errors are what the extractors give on the last accepted MAIL
    address, or none at all if there was no MAIL or its message was stored; RSET does not change them.
    At most one of them is set, and no message is stored whose sender asks for a DATA error.
  */
  lemma RememberedErrorsAgree(env: Env, greets: bool, tls: bool, es: seq<Event>, i: nat)
    ensures var r := SessionRun(env, greets, tls, es);
      match Pending(env, r.log)
      case None => r.session.errors == NO_ERRORS
      case Some(a) =>
        && r.session.errors.data == ParsePrefixed("data", a) && r.session.errors.rset == ParsePrefixed("rset", a)
        && r.session.errors.quit == ParsePrefixed("quit", a) && r.session.errors.noop == ParsePrefixed("noop", a)
        && r.session.errors.starttls == ParsePrefixed("starttls", a) && r.session.errors.auth == ParsePrefixed("auth", a)
    ensures HowMany(SessionRun(env, greets, tls, es).session.errors) <= 1
    ensures var r := SessionRun(env, greets, tls, es);
      i < |r.log| && r.log[i].stored.Some? ==> ParsePrefixed("data", r.log[i].stored.value.from).None?
  {
    hide RunAll, Envelope, StoresSinceMail, Buffered, Leftover, OwnChunks, ParsePrefixed, Pending;
    var r := SessionRun(env, greets, tls, es);
    InvAlways(env, greets, tls, es);
    if Pending(env, r.log).Some? {
      AtMostOneError(Pending(env, r.log).value);
    }
    if i < |r.log| {
      assert StoredWell(env, r.log, i);
    }
  }

  // ---------- Content ----------

  /**
    A message stored by BDAT holds the chunks taken since a BDAT message was last stored. These are the chunks of
    its own transaction exactly when nothing was left over when that transaction's MAIL was accepted.
  */
  lemma ContentIsOwnUnlessLeftover(env: Env, greets: bool, tls: bool, es: seq<Event>, i: nat)
    requires i < |SessionRun(env, greets, tls, es).log|
    requires var x := SessionRun(env, greets, tls, es).log[i]; x.stored.Some? && x.consumed.Some?
    ensures var log := SessionRun(env, greets, tls, es).log;
      var before, content, chunk := log[..i], log[i].stored.value.content, log[i].consumed.value;
      && content == Leftover(env, before) + OwnChunks(env, before) + chunk
      && (content == OwnChunks(env, before) + chunk <==> Leftover(env, before) == "")
  {
    hide RunAll, Envelope, StoresSinceMail, Buffered, Leftover, OwnChunks, ParsePrefixed;
    InvAlways(env, greets, tls, es);
    var log := SessionRun(env, greets, tls, es).log;
    assert StoredWell(env, log, i);
    var left, own, chunk := Leftover(env, log[..i]), OwnChunks(env, log[..i]), log[i].consumed.value;
    if left == "" {
      assert left + own == own;
    } else {
      assert |left + own + chunk| > |own + chunk|;
    }
  }

  /** A message stored by DATA holds exactly the body that command read. */
  lemma BodyIsContent(env: Env, greets: bool, tls: bool, es: seq<Event>, i: nat)
    requires i < |SessionRun(env, greets, tls, es).log|
    requires var x := SessionRun(env, greets, tls, es).log[i]; x.stored.Some? && x.consumed.None?
    ensures var x := SessionRun(env, greets, tls, es).log[i]; x.body == Some(x.stored.value.content)
  {
    hide RunAll, Envelope, StoresSinceMail, Buffered, Leftover, OwnChunks, ParsePrefixed;
    InvAlways(env, greets, tls, es);
    assert StoredWell(env, SessionRun(env, greets, tls, es).log, i);
  }

  // ---------- Sizes ----------

  predicate NothingLost(log: seq<Exchange>) {
    forall i :: 0 <= i < |log| ==> !LostIn(log[i])
  }

  ghost predicate BufferClean(s: Session) {
    (s.bdatBuffer != "" ==> s.state == State.Bdat || s.state == State.Quit) && |s.bdatBuffer| <= MaxSize(s)
  }

  lemma EmptyLog(env: Env)
    ensures Leftover(env, []) == ""
  {
  }

  lemma CleanStep(env: Env, r: Run, m: Move, x: Exchange, t: Session, end: End)
    requires Moved(m, env, r.session, x, t, end) && !LostIn(x) && ChunksKept(env, r) && r.session.state != State.Quit
    requires BufferClean(r.session) && Leftover(env, r.log) == ""
    ensures BufferClean(t) && Leftover(env, r.log + [x]) == ""
  {
    hide MailIn, RcptIn, ErrorsOf, LostIn, Buffered, OwnChunks, Leftover;
    OneMoreChunk(env, r.log, x);
  }

  /** As long as no BDAT LAST fails to store, bytes wait only inside a BDAT transaction and within the limit. */
  lemma {:induction false} BufferOnlyInBdat(env: Env, greets: bool, tls: bool, es: seq<Event>)
    requires NothingLost(SessionRun(env, greets, tls, es).log)
    ensures BufferClean(SessionRun(env, greets, tls, es).session)
    ensures Leftover(env, SessionRun(env, greets, tls, es).log) == ""
  {
    hide Step, Moved, LostIn, Envelope, StoresSinceMail, Pending, Buffered, OwnChunks, Leftover, ChunksKept, ErrorsKept;
    if es == [] {
      EmptyLog(env);
    } else {
      var r, e := SessionRun(env, greets, tls, es[..|es| - 1]), es[|es| - 1];
      var r' := SessionRun(env, greets, tls, es);
      if r.end == Continue {
        var x := r'.log[|r.log|];
        assert forall i :: 0 <= i < |r.log| ==> r.log[i] == r'.log[i];
        BufferOnlyInBdat(env, greets, tls, es[..|es| - 1]);
        var m := StepMoves(env, r.session, e);
        InvAlways(env, greets, tls, es[..|es| - 1]);
        assert !LostIn(x);
        CleanStep(env, r, m, x, r'.session, r'.end);
      } else {
        BufferOnlyInBdat(env, greets, tls, es[..|es| - 1]);
      }
    }
  }

  /** The limit in force stays within 1000..10485760, and whatever is stored next fits it. */
  lemma StoredFits(env: Env, greets: bool, tls: bool, es: seq<Event>, e: Event)
    ensures var s := SessionRun(env, greets, tls, es).session;
      SIZE_MIN <= MaxSize(s) <= SIZE_MAX && |s.bdatBuffer| <= SIZE_MAX
    ensures var s := SessionRun(env, greets, tls, es).session;
      Step(env, s, e).stored.Some? ==> |Step(env, s, e).stored.value.content| <= MaxSize(s)
  {
    hide Step, MoveIn, MailIn, RcptIn, ErrorsOf, LostIn, Envelope, StoresSinceMail, Buffered, Leftover, OwnChunks, RunAll;
    InvAlways(env, greets, tls, es);
    var m := StepMoves(env, SessionRun(env, greets, tls, es).session, e);
  }

  predicate IsLast(cmd: Command) {
    |cmd.args| > 1 && EqualFold(cmd.args[1], "LAST")
  }

  /**
    In every reachable state the length check of BDAT is exact except where the sum of the lengths leaves the machine
    integers: a chunk is read exactly if it fits, and the session crashes exactly if the sum overflows, for which
    bytes must be waiting.
  */
  lemma ChunkCheckIsExact(env: Env, greets: bool, tls: bool, es: seq<Event>, cmd: Command, n: int)
    requires cmd.args != [] && Atoi(cmd.args[0]) == Some(n) && n >= 0
    requires var s := SessionRun(env, greets, tls, es).session;
      HandlerGuard(BDAT, s.state) && (s.errors.data.None? || !IsLast(cmd))
    ensures var s := SessionRun(env, greets, tls, es).session;
      && (PlanChunk(s, cmd).ChunkRead? <==> |s.bdatBuffer| + n <= MaxSize(s))
      && (PlanChunk(s, cmd).ChunkCrash? <==> |s.bdatBuffer| + n > INT_MAX)
      && (PlanChunk(s, cmd).ChunkCrash? ==> s.bdatBuffer != "")
  {
    hide Atoi, EqualFold, FormatError, FormatInt, RunAll;
    StoredFits(env, greets, tls, es, Event("", None, Oracle(Stored, [], AuthFailed, false)));
  }

  lemma CrashIsPlanned(env: Env, s: Session, e: Event)
    ensures Step(env, s, e).end == Crash <==>
      exists cmd :: Admits(s, e, cmd) && cmd.verb == BDAT && PlanChunk(s, cmd).ChunkCrash?
  {
    hide Is421, FormatError, ParseLine, Handle, PlanChunk;
    if |e.line| <= MAX_LINE && Dispatch(s.state, e.line).Accept? {
      var cmd := Dispatch(s.state, e.line).cmd;
      assert Admits(s, e, cmd);
      HandleCrash(env, s, cmd, e);
    }
  }

  lemma HandleCrash(env: Env, s: Session, cmd: Command, e: Event)
    requires ArgsValid(cmd)
    ensures Handle(env, s, cmd, e).end == Crash <==> cmd.verb == BDAT && PlanChunk(s, cmd).ChunkCrash?
  {
    hide Is421, FormatError, OnHelo, OnMail, OnRcpt, OnRset, OnNoop, PlanChunk, KnownMechanism, StorageReply, VrfyText;
    if cmd.verb in {HELO, EHLO, MAIL, RCPT, RSET, NOOP, VRFY} {
      var text := OtherSaysOnce(env, s, cmd, e);
    }
  }

  /** A BDAT whose size overflows together with the bytes still waiting, and which no simulated error stops before. */
  ghost predicate Overflows(env: Env, r: Run, e: Event, cmd: Command) {
    && Admits(r.session, e, cmd) && cmd.verb == BDAT
    && Atoi(cmd.args[0]).Some? && |Buffered(r.log)| + Atoi(cmd.args[0]).value > INT_MAX
    && (RememberedErrors(env, r.log).data.None? || !IsLast(cmd))
  }

  /** In every run the next command crashes the session exactly if it is such a BDAT. */
  lemma CrashExactly(env: Env, greets: bool, tls: bool, es: seq<Event>, e: Event)
    requires SessionRun(env, greets, tls, es).end == Continue
    ensures SessionRun(env, greets, tls, es + [e]).end == Crash <==>
      exists cmd :: Overflows(env, SessionRun(env, greets, tls, es), e, cmd)
  {
    hide Step, Atoi, EqualFold, FormatError, FormatInt, EnvelopeKept, AllStoredWell, Buffered, RememberedErrors, Dispatch;
    var r := SessionRun(env, greets, tls, es);
    assert (es + [e])[..|es|] == es;
    CrashIsPlanned(env, r.session, e);
    InvAlways(env, greets, tls, es);
    forall cmd | Admits(r.session, e, cmd) && cmd.verb == BDAT
      ensures PlanChunk(r.session, cmd).ChunkCrash? <==> Overflows(env, r, e, cmd)
    {
      PlanOverflows(env, greets, tls, es, e, cmd);
    }
  }

  lemma PlanOverflows(env: Env, greets: bool, tls: bool, es: seq<Event>, e: Event, cmd: Command)
    requires Admits(SessionRun(env, greets, tls, es).session, e, cmd) && cmd.verb == BDAT
    ensures var r := SessionRun(env, greets, tls, es);
      PlanChunk(r.session, cmd).ChunkCrash? <==> Overflows(env, r, e, cmd)
  {
    hide RunAll, Step, Atoi, EqualFold, FormatError, FormatInt, EnvelopeKept, AllStoredWell, Buffered, RememberedErrors;
    hide Dispatch, ParseLine;
    var r := SessionRun(env, greets, tls, es);
    InvAlways(env, greets, tls, es);
    if Atoi(cmd.args[0]).Some? && Atoi(cmd.args[0]).value >= 0 && (r.session.errors.data.None? || !IsLast(cmd)) {
      ChunkCheckIsExact(env, greets, tls, es, cmd, Atoi(cmd.args[0]).value);
    }
  }
}
