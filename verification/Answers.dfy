/**
  What each command is answered and what it changes, told from the outside: by the line, by what the log shows of the
  transaction, by the outcome of storing and authenticating, and by nothing the session remembers about them.
*/
module Answers {
  import opened Strings
  import opened Commands
  import opened ErrorPattern
  import opened Replies
  import opened Ehlo
  import opened SessionModel
  import opened Moves
  import opened History
  import opened Dialogue
  import opened Transactions
  import opened Terms

  // ---------- Commands that are not admitted ----------

  lemma StepIsHandled(env: Env, s: Session, e: Event, cmd: Command)
    requires Admits(s, e, cmd)
    ensures ArgsValid(cmd) && Allowed(cmd.verb, s.state) && ParseLine(e.line) == Some(cmd)
    ensures Step(env, s, e) == Handle(env, s, cmd, e)
  {
    hide ParseLine, Handle;
  }

  function StateWord(s: State): string {
    if s == Greeting then "GREETING" else if s == Helo then "HELO" else if s == State.Auth then "AUTH"
    else if s == State.Mail then "MAIL" else if s == State.Rcpt then "RCPT" else if s == State.Data then "DATA"
    else if s == State.Bdat then "BDAT" else "QUIT"
  }

  /** A line that is no command, or whose command the state or the arguments rule out, is refused and changes nothing. */
  lemma RefusedAnswer(env: Env, s: Session, e: Event)
    ensures var cmd := ParseLine(e.line);
      && (|e.line| > 4096 ==> Step(env, s, e) == Say(s, "500 Command too long"))
      && (|e.line| <= 4096 && cmd.None? ==> Step(env, s, e) == Say(s, "500 Command not recognised"))
      && (|e.line| <= 4096 && cmd.Some? && cmd.value.verb !in AdmittedIn(s.state) ==>
            Step(env, s, e) == Say(s, "503 Bad sequence - " + VerbName(cmd.value.verb) + " not allowed in "
                                      + StateWord(s.state) + " state"))
      && (|e.line| <= 4096 && cmd.Some? && cmd.value.verb in AdmittedIn(s.state) && !ArgsValid(cmd.value) ==>
            Step(env, s, e) == Say(s, R_SYNTAX))
      && (|e.line| <= 4096 && cmd.Some? && cmd.value.verb in AdmittedIn(s.state) && ArgsValid(cmd.value) ==>
            Admits(s, e, cmd.value))
  {
    hide ParseLine, Handle, ArgsValid, Is421, VerbName, Allowed, AdmittedIn;
    assert StateWord(s.state) == StateName(s.state);
    if ParseLine(e.line).Some? {
      AdmittedExactly(ParseLine(e.line).value.verb, s.state);
    }
  }

  // ---------- Simulated errors ----------

  /** The error the sender of the open transaction asks for, by the verb it names. */
  function Requested(env: Env, log: seq<Exchange>, verb: string): Option<ErrorResult> {
    if Pending(env, log).None? then None else ParsePrefixed(verb, Pending(env, log).value)
  }

  /** One reply: the simulated error if there is one, and `own` otherwise. */
  predicate ErrorOr(replies: seq<string>, s: Session, error: Option<ErrorResult>, own: string) {
    replies == [if error.Some? then FormatError(s.caps.enhanced, error.value) else own]
  }

  /** In every run the session knows the errors its sender asked for. */
  lemma ErrorsAreRequested(env: Env, greets: bool, tls: bool, es: seq<Event>)
    ensures var r := SessionRun(env, greets, tls, es);
      && r.session.errors.data == Requested(env, r.log, "data") && r.session.errors.rset == Requested(env, r.log, "rset")
      && r.session.errors.quit == Requested(env, r.log, "quit") && r.session.errors.noop == Requested(env, r.log, "noop")
      && r.session.errors.starttls == Requested(env, r.log, "starttls")
      && r.session.errors.auth == Requested(env, r.log, "auth")
  {
    hide RunAll, ParsePrefixed, Pending, EnvelopeKept, ChunksKept, AllStoredWell, TermsKept;
    InvAlways(env, greets, tls, es);
  }

  /** The run goes on with a command the session admits. */
  ghost predicate Next(env: Env, greets: bool, tls: bool, es: seq<Event>, e: Event, cmd: Command) {
    SessionRun(env, greets, tls, es).end == Continue && Admits(SessionRun(env, greets, tls, es).session, e, cmd)
  }

  lemma EntryIsLogged(env: Env, greets: bool, tls: bool, es: seq<Event>, e: Event)
    requires SessionRun(env, greets, tls, es).end == Continue
    ensures var r, q := SessionRun(env, greets, tls, es), SessionRun(env, greets, tls, es + [e]);
      q.log == r.log + [ExchangeOf(e, Step(env, r.session, e))] && q.session == Step(env, r.session, e).next
  {
    hide Step;
    assert (es + [e])[..|es|] == es;
  }

  /** The entry with which one more command continues the log. */
  ghost function Entry(env: Env, greets: bool, tls: bool, es: seq<Event>, e: Event): (x: Exchange)
    requires SessionRun(env, greets, tls, es).end == Continue
    ensures x == ExchangeOf(e, Step(env, SessionRun(env, greets, tls, es).session, e))
  {
    EntryIsLogged(env, greets, tls, es, e);
    SessionRun(env, greets, tls, es + [e]).log[|SessionRun(env, greets, tls, es).log|]
  }

  /** The replies of a command that reads nothing, by the errors the session remembers. */
  ghost predicate PlainReplies(s: Session, verb: Verb, errors: Errors, replies: seq<string>) {
    && (verb == RSET ==> ErrorOr(replies, s, errors.rset, R_OK))
    && (verb == NOOP ==> ErrorOr(replies, s, errors.noop, R_OK))
    && (verb == QUIT ==> ErrorOr(replies, s, errors.quit, R_BYE))
    && (verb == STARTTLS ==>
          ErrorOr(replies, s, errors.starttls, if s.tls then "554 TLS already started" else R_READY))
  }

  lemma PlainHandled(env: Env, s: Session, cmd: Command, e: Event)
    requires ArgsValid(cmd) && cmd.verb in {RSET, NOOP, QUIT, STARTTLS}
    ensures PlainReplies(s, cmd.verb, s.errors, Handle(env, s, cmd, e).replies)
  {
    hide Is421, FormatError, OnHelo, OnAuth, OnMail, OnRcpt, OnData, OnBdat, VrfyText;
  }

  /**
    In every run RSET, NOOP, QUIT and STARTTLS are answered with the error that the last accepted MAIL, unless its
    message was stored, asks for under their name; and with their own reply if it asks for none.
  */
  lemma SimulatedAnswers(env: Env, greets: bool, tls: bool, es: seq<Event>, e: Event, cmd: Command)
    requires Next(env, greets, tls, es, e, cmd)
    ensures var r, x := SessionRun(env, greets, tls, es), Entry(env, greets, tls, es, e);
      && (cmd.verb == RSET ==> ErrorOr(x.replies, r.session, Requested(env, r.log, "rset"), R_OK))
      && (cmd.verb == NOOP ==> ErrorOr(x.replies, r.session, Requested(env, r.log, "noop"), R_OK))
      && (cmd.verb == QUIT ==> ErrorOr(x.replies, r.session, Requested(env, r.log, "quit"), R_BYE))
      && (cmd.verb == STARTTLS ==>
            ErrorOr(x.replies, r.session, Requested(env, r.log, "starttls"),
                    if r.session.tls then "554 TLS already started" else R_READY))
  {
    hide RunAll, Requested, Step, Handle, Dispatch, ErrorOr, ParseLine, ArgsValid, Entry;
    var s := SessionRun(env, greets, tls, es).session;
    ErrorsAreRequested(env, greets, tls, es);
    StepIsHandled(env, s, e, cmd);
    if cmd.verb in {RSET, NOOP, QUIT, STARTTLS} {
      PlainHandled(env, s, cmd, e);
    }
  }

  /** A RSET so answered leaves the session where it is, and one that is accepted opens a new transaction. */
  lemma ResetEffect(env: Env, greets: bool, tls: bool, es: seq<Event>, e: Event, cmd: Command)
    requires Next(env, greets, tls, es, e, cmd) && cmd.verb == RSET
    ensures var r := SessionRun(env, greets, tls, es);
      var t := Step(env, r.session, e).next;
      if Requested(env, r.log, "rset").Some? then t == r.session
      else t == r.session.(state := State.Mail, mailFrom := "", rcptTo := [])
  {
    hide RunAll, Requested, Is421, FormatError, Step, Dispatch, OnHelo, OnAuth, OnMail, OnRcpt, OnData, OnBdat, VrfyText;
    ErrorsAreRequested(env, greets, tls, es);
    StepIsHandled(env, SessionRun(env, greets, tls, es).session, e, cmd);
  }

  // ---------- AUTH ----------

  /** The mechanisms the server takes up, in any letter case. */
  predicate IsMechanism(name: string) {
    SameButCase(name, "PLAIN") || SameButCase(name, "LOGIN") || SameButCase(name, "CRAM-MD5")
    || SameButCase(name, "CRAM-SHA256") || SameButCase(name, "XOAUTH2")
  }

  lemma FixedUpper()
    ensures Upper("PLAIN") == "PLAIN" && Upper("LOGIN") == "LOGIN" && Upper("CRAM-MD5") == "CRAM-MD5"
    ensures Upper("CRAM-SHA256") == "CRAM-SHA256" && Upper("XOAUTH2") == "XOAUTH2"
  {
    hide Upper;
    assert forall c :: c in "PLAIN" || c in "LOGIN" || c in "CRAM-MD5" ==> !('a' <= c <= 'z');
    assert forall c :: c in "CRAM-SHA256" || c in "XOAUTH2" ==> !('a' <= c <= 'z');
    CaseFixed("PLAIN");
    CaseFixed("LOGIN");
    CaseFixed("CRAM-MD5");
    CaseFixed("CRAM-SHA256");
    CaseFixed("XOAUTH2");
  }

  lemma KnownIsMechanism(name: string)
    ensures KnownMechanism(name) <==> IsMechanism(name)
  {
    hide Upper, SameButCase;
    FixedUpper();
    UpperCompares(name, "PLAIN");
    UpperCompares(name, "LOGIN");
    UpperCompares(name, "CRAM-MD5");
    UpperCompares(name, "CRAM-SHA256");
    UpperCompares(name, "XOAUTH2");
  }

  /**
    In every run AUTH is answered with the simulated error, or with 504 for a mechanism the server does not know, or,
    after the prompts of the mechanism, with 235 exactly if authentication succeeded and with 535 otherwise.
  */
  lemma AuthAnswer(env: Env, greets: bool, tls: bool, es: seq<Event>, e: Event, cmd: Command)
    requires Next(env, greets, tls, es, e, cmd) && cmd.verb == AUTH
    ensures var r, x := SessionRun(env, greets, tls, es), Entry(env, greets, tls, es, e);
      var error, t := Requested(env, r.log, "auth"), Step(env, r.session, e).next;
      if error.Some? || !IsMechanism(cmd.args[0])
      then ErrorOr(x.replies, r.session, error, R_NO_MECHANISM) && t == r.session
      else
        && |x.replies| == |e.oracle.challenges| + 1
        && (forall i :: 0 <= i < |e.oracle.challenges| ==> x.replies[i] == "334 " + e.oracle.challenges[i])
        && FinalReply(x) == (match e.oracle.auth
                             case AuthOk => "235 Authentication successful"
                             case AuthFailed => "535 Authentication failed"
                             case AuthInactive => R_AUTH_INACTIVE)
        && t == (if e.oracle.auth == AuthOk then r.session.(authenticated := true, state := State.Mail) else r.session)
  {
    hide RunAll, Requested, Is421, FormatError, Step, Dispatch, OnHelo, OnMail, OnRcpt, OnData, OnBdat, VrfyText;
    hide KnownMechanism, IsMechanism;
    ErrorsAreRequested(env, greets, tls, es);
    StepIsHandled(env, SessionRun(env, greets, tls, es).session, e, cmd);
    KnownIsMechanism(cmd.args[0]);
  }

  // ---------- MAIL and RCPT ----------

  predicate NamesMailbox(env: Env, s: Session, arg: string) {
    env.mailboxOfArg(arg) != "" && env.validMailbox(env.mailboxOfArg(arg), s.caps.smtputf8)
  }

  /** MAIL is accepted exactly if it names a valid mailbox that asks for no MAIL error. */
  lemma MailAnswer(env: Env, s: Session, e: Event, cmd: Command)
    requires Admits(s, e, cmd) && cmd.verb == MAIL
    ensures var f, from := Step(env, s, e), AddressOf(env, cmd.args[0]);
      if !NamesMailbox(env, s, cmd.args[0]) then f == Say(s, R_SYNTAX)
      else if ParsePrefixed("mail", from).Some?
      then f == Say(s, FormatError(s.caps.enhanced, ParsePrefixed("mail", from).value))
      else
        && f.replies == [R_OK] && f.next.state == State.Rcpt && f.next.mailFrom == from && f.next.rcptTo == s.rcptTo
        && f.next.errors.data == ParsePrefixed("data", from) && f.next.errors.rset == ParsePrefixed("rset", from)
        && f.next.errors.quit == ParsePrefixed("quit", from) && f.next.errors.noop == ParsePrefixed("noop", from)
        && f.next.errors.starttls == ParsePrefixed("starttls", from) && f.next.errors.auth == ParsePrefixed("auth", from)
  {
    hide Is421, FormatError, ParsePrefixed, Step, Dispatch, OnHelo, OnAuth, OnRcpt, OnData, OnBdat, VrfyText;
    StepIsHandled(env, s, e, cmd);
  }

  /** RCPT is accepted exactly if it names a valid mailbox that asks for no RCPT error. */
  lemma RcptAnswer(env: Env, s: Session, e: Event, cmd: Command)
    requires Admits(s, e, cmd) && cmd.verb == RCPT
    ensures var f, to := Step(env, s, e), AddressOf(env, cmd.args[0]);
      if !NamesMailbox(env, s, cmd.args[0]) then f == Say(s, R_SYNTAX)
      else if ParsePrefixed("rcpt", to).Some?
      then f == Say(s, FormatError(s.caps.enhanced, ParsePrefixed("rcpt", to).value))
      else f.replies == [R_OK] && f.next == s.(rcptTo := s.rcptTo + [to])
  {
    hide Is421, FormatError, ParsePrefixed, Step, Dispatch, OnHelo, OnAuth, OnMail, OnData, OnBdat, VrfyText;
    StepIsHandled(env, s, e, cmd);
  }

  // ---------- DATA and BDAT ----------

  /** The code of a refused store says why. */
  predicate TellsReason(text: string, reason: string) {
    && ("550" <= text <==> Contains(reason, "not active"))
    && ("452" <= text <==> !Contains(reason, "not active") && Contains(reason, "quota"))
    && ("450" <= text <==> !Contains(reason, "not active") && !Contains(reason, "quota"))
  }

  lemma StorageReplyTells(reason: string)
    ensures TellsReason(StorageReply(reason), reason)
  {
    hide Contains;
    var t := StorageReply(reason);
    assert t[0] == (if Contains(reason, "not active") then '5' else '4');
    assert t[2] == (if Contains(reason, "not active") then '0' else if Contains(reason, "quota") then '2' else '0');
    assert t[1] == '5';
  }

  /** What storing `content` under the envelope of the log comes to. */
  ghost predicate StoredOrTold(env: Env, log: seq<Exchange>, outcome: StoreOutcome, content: Bytes, text: string,
                               stored: Option<Message>)
  {
    match outcome
    case Stored =>
      text == R_ACCEPTED && Envelope(env, log).Some?
      && stored == Some(Message(Envelope(env, log).value.0, Envelope(env, log).value.1, content))
    case StoreFailed(reason) => TellsReason(text, reason) && stored.None?
  }

  /**
    In every run DATA is answered with the simulated error, or prompts for its body; a body that fits is stored under
    the envelope the log shows if the store takes it, and otherwise the answer tells why not.
  */
  lemma DataAnswer(env: Env, greets: bool, tls: bool, es: seq<Event>, e: Event, cmd: Command)
    requires Next(env, greets, tls, es, e, cmd) && cmd.verb == DATA
    ensures var r, x := SessionRun(env, greets, tls, es), Entry(env, greets, tls, es, e);
      var error := Requested(env, r.log, "data");
      var fits := e.data.Some? && |e.data.value| <= MaxSize(r.session);
      && (error.Some? ==> ErrorOr(x.replies, r.session, error, "") && x.stored.None?)
      && (error.None? && !fits ==> x.replies == [R_START_DATA] && x.stored.None?)
      && (error.None? && fits ==>
            && |x.replies| == 2 && x.replies[0] == R_START_DATA
            && StoredOrTold(env, r.log, e.oracle.store, e.data.value, x.replies[1], x.stored))
  {
    hide RunAll, Requested, Is421, FormatError, Step, Dispatch, OnHelo, OnAuth, OnMail, OnRcpt, OnBdat, VrfyText;
    hide TellsReason, StorageReply, Envelope, StoresSinceMail, ErrorsKept, ChunksKept, AllStoredWell, TermsKept;
    var r := SessionRun(env, greets, tls, es);
    ErrorsAreRequested(env, greets, tls, es);
    StepIsHandled(env, r.session, e, cmd);
    InvAlways(env, greets, tls, es);
    if e.oracle.store.StoreFailed? {
      StorageReplyTells(e.oracle.store.reason);
    }
  }

  /** What becomes of a BDAT with so many bytes waiting. */
  function PlanOf(n: Option<int>, error: Option<ErrorResult>, enhanced: bool, last: bool, waiting: nat, max: int): ChunkPlan
  {
    if n.None? || n.value < 0 then ChunkRefused(R_SYNTAX)
    else if error.Some? && last then ChunkRefused(FormatError(enhanced, error.value))
    else if waiting + n.value > INT_MAX then ChunkCrash
    else if waiting + n.value > max then ChunkRefused(SizeReply(max))
    else ChunkRead(n.value, last)
  }

  lemma PlanInBounds(s: Session, cmd: Command)
    requires cmd.verb == BDAT && ArgsValid(cmd) && HandlerGuard(BDAT, s.state)
    requires |s.bdatBuffer| <= SIZE_MAX && 0 < MaxSize(s) <= SIZE_MAX
    ensures PlanChunk(s, cmd)
      == PlanOf(Atoi(cmd.args[0]), s.errors.data, s.caps.enhanced, |cmd.args| > 1, |s.bdatBuffer|, MaxSize(s))
  {
    hide FormatError, Atoi, EqualFold, SizeReply, MaxSize;
  }

  /** What a BDAT line comes to before any byte of its chunk is read. */
  lemma BdatPlanned(env: Env, greets: bool, tls: bool, es: seq<Event>, e: Event, cmd: Command)
    requires Next(env, greets, tls, es, e, cmd) && cmd.verb == BDAT
    ensures var r := SessionRun(env, greets, tls, es);
      PlanChunk(r.session, cmd)
      == PlanOf(Atoi(cmd.args[0]), Requested(env, r.log, "data"), r.session.caps.enhanced, |cmd.args| > 1,
                |Buffered(r.log)|, MaxSize(r.session))
  {
    hide RunAll, Requested, Atoi, Buffered, EnvelopeKept, ErrorsKept, AllStoredWell, ParseLine, PlanChunk, PlanOf, ArgsValid;
    hide Leftover, OwnChunks;
    var r := SessionRun(env, greets, tls, es);
    ErrorsAreRequested(env, greets, tls, es);
    InvAlways(env, greets, tls, es);
    PlanInBounds(r.session, cmd);
  }

  /**
    In every run a chunk whose size is a number, asked for no error and fitting, is taken if its bytes arrive: kept
    until the last one, with which all chunks since a BDAT message was last stored are stored under the envelope the
    log shows if the store takes them, and otherwise the answer tells why not.
  */
  lemma BdatAnswer(env: Env, greets: bool, tls: bool, es: seq<Event>, e: Event, cmd: Command)
    requires Next(env, greets, tls, es, e, cmd) && cmd.verb == BDAT
    ensures var r, x := SessionRun(env, greets, tls, es), Entry(env, greets, tls, es, e);
      match PlanChunk(r.session, cmd)
      case ChunkRefused(text) => x.replies == [text] && x.consumed.None? && x.stored.None?
      case ChunkCrash => x.replies == [] && x.consumed.None? && x.stored.None?
      case ChunkRead(n, last) =>
        if e.data.None? || |e.data.value| != n then x.replies == [] && x.consumed.None? && x.stored.None?
        else
          && x.consumed == e.data && |x.replies| == 1
          && if last
             then StoredOrTold(env, r.log, e.oracle.store, Buffered(r.log) + e.data.value, x.replies[0], x.stored)
             else x.replies[0] == R_OK && x.stored.None?
  {
    hide RunAll, Is421, Step, Dispatch, OnHelo, OnAuth, OnMail, OnRcpt, OnData, VrfyText, PlanChunk;
    hide TellsReason, StorageReply, Envelope, StoresSinceMail, ErrorsKept, AllStoredWell, TermsKept, Buffered, Leftover;
    var r := SessionRun(env, greets, tls, es);
    StepIsHandled(env, r.session, e, cmd);
    InvAlways(env, greets, tls, es);
    PlanNeedsTransaction(r.session, cmd);
    if e.oracle.store.StoreFailed? {
      StorageReplyTells(e.oracle.store.reason);
    }
  }

  lemma PlanNeedsTransaction(s: Session, cmd: Command)
    requires cmd.args != []
    ensures PlanChunk(s, cmd).ChunkRead? ==> InTransaction(s.state)
  {
    hide Atoi, EqualFold, FormatError, SizeReply;
  }

  // ---------- Accepted is stored ----------

  /** The last reply to a command is the one that accepts a message. */
  predicate Accepts(x: Exchange) {
    x.replies != [] && x.replies[|x.replies| - 1] == R_ACCEPTED
  }

  lemma TextsThatDoNotAccept(text: string)
    requires IsRefusal(text) || "250-" <= text || |text| <= 16
    ensures text != R_ACCEPTED
  {
    assert R_ACCEPTED[0] == '2' && R_ACCEPTED[3] == ' ' && |R_ACCEPTED| > 16;
    assert "500"[0] == '5' && "501"[0] == '5' && "503"[0] == '5' && "250-"[3] == '-';
  }

  lemma ErrorDoesNotAccept(s: Session, error: ErrorResult)
    ensures FormatError(s.caps.enhanced, error) != R_ACCEPTED
  {
    hide FormatError;
    ErrorIsNoFixedReply(s.caps.enhanced, error);
  }

  ghost predicate AcceptsAsStored(f: Effect) {
    f.stored.Some? <==> f.replies != [] && f.replies[|f.replies| - 1] == R_ACCEPTED
  }

  lemma SaidIsNotStored(s: Session, text: string)
    requires text != R_ACCEPTED
    ensures AcceptsAsStored(Say(s, text))
  {
    hide Is421;
  }

  lemma HelloAccepts(s: Session, cmd: Command)
    requires cmd.args != []
    ensures AcceptsAsStored(OnHelo(s, cmd))
  {
    hide Is421, FormatError, ParseHelo, LabelParts, Mentions, Negotiate, WithoutDelays, DelayAfter, EhloReply, SizeOf, Lower;
    TextsThatDoNotAccept(R_SEQUENCE);
    TextsThatDoNotAccept("250 badsmtp.test");
    assert "502 Command not implemented"[0] != R_ACCEPTED[0];
    if ParseHelo(cmd.args[0]).Some? {
      ErrorDoesNotAccept(s, ParseHelo(cmd.args[0]).value);
    }
    var parts := WithoutDelays(LabelParts(Lower(cmd.args[0])));
    EhloReplyStarts(parts, Negotiate(parts, s.tls));
    TextsThatDoNotAccept(EhloReply(parts, Negotiate(parts, s.tls)));
  }

  lemma AddressAccepts(env: Env, s: Session, cmd: Command)
    requires cmd.args != []
    ensures AcceptsAsStored(OnMail(env, s, cmd)) && AcceptsAsStored(OnRcpt(env, s, cmd))
  {
    hide Is421, FormatError, ParsePrefixed;
    TextsThatDoNotAccept(R_SEQUENCE);
    TextsThatDoNotAccept(R_SYNTAX);
    TextsThatDoNotAccept(R_OK);
    forall error: ErrorResult
      ensures FormatError(s.caps.enhanced, error) != R_ACCEPTED
    {
      ErrorDoesNotAccept(s, error);
    }
  }

  lemma PlainAccepts(s: Session, o: Oracle)
    ensures AcceptsAsStored(OnRset(s)) && AcceptsAsStored(OnNoop(s)) && AcceptsAsStored(OnQuit(s))
    ensures AcceptsAsStored(OnStartTls(s, o))
  {
    hide Is421, FormatError;
    TextsThatDoNotAccept(R_OK);
    TextsThatDoNotAccept(R_BYE);
    assert R_READY[1] != R_ACCEPTED[1] && "554 TLS already started"[0] != R_ACCEPTED[0];
    forall error: ErrorResult
      ensures FormatError(s.caps.enhanced, error) != R_ACCEPTED
    {
      ErrorDoesNotAccept(s, error);
    }
  }

  lemma AuthAccepts(s: Session, cmd: Command, o: Oracle)
    requires cmd.args != []
    ensures AcceptsAsStored(OnAuth(s, cmd, o))
  {
    hide Is421, FormatError, KnownMechanism;
    TextsThatDoNotAccept(R_SEQUENCE);
    assert R_NO_MECHANISM[0] != R_ACCEPTED[0];
    assert AuthText(o.auth)[1] == '3' && R_ACCEPTED[1] == '5';
    if s.errors.auth.Some? {
      ErrorDoesNotAccept(s, s.errors.auth.value);
    }
  }

  lemma StorageReplyDoesNotAccept(reason: string)
    ensures StorageReply(reason) != R_ACCEPTED
  {
    hide Contains;
    assert StorageReply(reason)[0] != R_ACCEPTED[0];
  }

  lemma DataAccepts(s: Session, data: Option<Bytes>, o: Oracle)
    ensures AcceptsAsStored(OnData(s, data, o))
  {
    hide Is421, FormatError, StorageReply;
    TextsThatDoNotAccept(R_SEQUENCE);
    assert R_START_DATA[0] != R_ACCEPTED[0];
    if s.errors.data.Some? {
      ErrorDoesNotAccept(s, s.errors.data.value);
    }
    if o.store.StoreFailed? {
      StorageReplyDoesNotAccept(o.store.reason);
    }
  }

  lemma PlanDoesNotAccept(s: Session, cmd: Command)
    requires cmd.args != []
    ensures PlanChunk(s, cmd).ChunkRefused? ==> PlanChunk(s, cmd).text != R_ACCEPTED
  {
    hide Atoi, EqualFold, FormatError, FormatInt;
    TextsThatDoNotAccept(R_SEQUENCE);
    TextsThatDoNotAccept(R_SYNTAX);
    assert SizeReply(MaxSize(s))[0] != R_ACCEPTED[0];
    if s.errors.data.Some? {
      ErrorDoesNotAccept(s, s.errors.data.value);
    }
  }

  lemma BdatAccepts(s: Session, cmd: Command, data: Option<Bytes>, o: Oracle)
    requires cmd.args != []
    ensures AcceptsAsStored(OnBdat(s, cmd, data, o))
  {
    hide Is421, PlanChunk, StorageReply;
    PlanDoesNotAccept(s, cmd);
    TextsThatDoNotAccept(R_OK);
    if o.store.StoreFailed? {
      StorageReplyDoesNotAccept(o.store.reason);
    }
  }

  lemma VrfyReplyDoesNotAccept(address: string, ambiguous: string)
    requires ambiguous != "" && ambiguous[0] == '5'
    ensures VrfyReply(address, ambiguous) != R_ACCEPTED
  {
    hide Lower, IndexOf;
    var text := VrfyReply(address, ambiguous);
    assert R_ACCEPTED[0] == '2' && R_ACCEPTED[|R_ACCEPTED| - 1] == 'y';
    assert " User exists"[11] == 's';
    assert text[0] == '5' || text[|text| - 1] == 's';
  }

  lemma VrfyAccepts(env: Env, s: Session, cmd: Command)
    ensures VrfyText(env, s, cmd) != R_ACCEPTED
  {
    hide VrfyReply, IndexOf, Join;
    var address := env.normalise(env.mailboxOfText(Join(cmd.args, " ")));
    TextsThatDoNotAccept(R_SYNTAX);
    VrfyReplyDoesNotAccept(address, "553" + " Requested action not taken: mailbox name not allowed");
    VrfyReplyDoesNotAccept(address, "553" + " User ambiguous");
  }

  lemma StepAccepts(env: Env, s: Session, e: Event)
    ensures AcceptsAsStored(Step(env, s, e))
  {
    hide Is421, ParseLine, Handle, AcceptsAsStored, IsRefusal, SequenceReply, ArgsValid;
    if |e.line| > MAX_LINE {
      assert IsRefusal(R_TOO_LONG) && IsRefusal(R_UNKNOWN) && IsRefusal(R_SYNTAX) by { RefusalTexts(); }
      TextsThatDoNotAccept(R_TOO_LONG);
      SaidIsNotStored(s, R_TOO_LONG);
    } else {
      match Dispatch(s.state, e.line)
      case Refuse(text) =>
        RefusalTexts();
        if ParseLine(e.line).Some? {
          SequenceReplyRefuses(ParseLine(e.line).value.verb, s.state);
        }
        TextsThatDoNotAccept(text);
        SaidIsNotStored(s, text);
      case Accept(cmd) =>
        HandleAccepts(env, s, cmd, e);
    }
  }

  lemma RefusalTexts()
    ensures IsRefusal(R_TOO_LONG) && IsRefusal(R_UNKNOWN) && IsRefusal(R_SYNTAX)
  {
  }

  lemma HandleAccepts(env: Env, s: Session, cmd: Command, e: Event)
    requires ArgsValid(cmd)
    ensures AcceptsAsStored(Handle(env, s, cmd, e))
  {
    hide AcceptsAsStored, OnHelo, OnAuth, OnMail, OnRcpt, OnData, OnBdat, OnRset, OnNoop, OnStartTls, OnQuit, VrfyText;
    match cmd.verb
    case HELO => HelloAccepts(s, cmd);
    case EHLO => HelloAccepts(s, cmd);
    case AUTH => AuthAccepts(s, cmd, e.oracle);
    case MAIL => AddressAccepts(env, s, cmd);
    case RCPT => AddressAccepts(env, s, cmd);
    case DATA => DataAccepts(s, e.data, e.oracle);
    case BDAT => BdatAccepts(s, cmd, e.data, e.oracle);
    case VRFY =>
      VrfyAccepts(env, s, cmd);
      SaidIsNotStored(s, VrfyText(env, s, cmd));
    case _ => PlainAccepts(s, e.oracle);
  }

  /** In every run and for every command: the client is told that its message was accepted exactly if it was stored. */
  lemma {:induction false} AcceptedExactlyIfStored(env: Env, greets: bool, tls: bool, es: seq<Event>, i: nat)
    requires i < |SessionRun(env, greets, tls, es).log|
    ensures var x := SessionRun(env, greets, tls, es).log[i]; Accepts(x) <==> x.stored.Some?
  {
    hide Step;
    var r := SessionRun(env, greets, tls, es[..|es| - 1]);
    if i < |r.log| {
      AcceptedExactlyIfStored(env, greets, tls, es[..|es| - 1], i);
    } else {
      StepAccepts(env, r.session, es[|es| - 1]);
    }
  }

  // ---------- HELO, EHLO and VRFY ----------

  /** Some part of the first label, delays included, asks for EHLO to be rejected. */
  ghost predicate AsksForRejection(hostname: string) {
    exists p :: p in LabelParts(hostname) && (Contains(p, "reject") || Contains(p, "noehl"))
  }

  lemma RejectionIsMentioned(hostname: string)
    ensures Welcomes(Lower(hostname)) <==> !AsksForRejection(hostname)
  {
    hide Contains, LabelParts, Lower;
    CaseMaps(hostname);
    LabelInAnyCase(hostname, Lower(hostname));
  }

  /**
    HELO and EHLO are refused in MAIL state; else a name may ask for an error, which keeps the session in HELO state, and
    an EHLO name for rejection; otherwise HELO is greeted and EHLO gets the list of extensions.
  */
  lemma HelloAnswer(env: Env, s: Session, e: Event, cmd: Command)
    requires Admits(s, e, cmd) && (cmd.verb == HELO || cmd.verb == EHLO)
    ensures var f, name := Step(env, s, e), cmd.args[0];
      && (s.state == State.Mail ==> f == Say(s, R_SEQUENCE))
      && (s.state == Helo ==> f.next.heloName == name)
      && (s.state == Helo && ParseHelo(name).Some? ==>
            f.replies == [FormatError(s.caps.enhanced, ParseHelo(name).value)] && f.next.state == Helo)
      && (s.state == Helo && ParseHelo(name).None? ==>
            && f.next.state == State.Mail
            && (cmd.verb == HELO ==> f.replies == ["250 badsmtp.test"])
            && (cmd.verb == EHLO && AsksForRejection(name) ==> f.replies == ["502 Command not implemented"])
            && (cmd.verb == EHLO && !AsksForRejection(name) ==> IsWelcome(ExchangeOf(e, f))))
  {
    hide Is421, FormatError, ParseHelo, LabelParts, Mentions, Negotiate, WithoutDelays, DelayAfter, EhloReply, SizeOf, Lower;
    hide OnAuth, OnMail, OnRcpt, OnData, OnBdat, VrfyText, ParseLine, Dispatch, Step, AsksForRejection;
    var name := cmd.args[0];
    StepIsHandled(env, s, e, cmd);
    RejectionIsMentioned(name);
    var parts := WithoutDelays(LabelParts(Lower(name)));
    EhloReplyStarts(parts, Negotiate(parts, s.tls));
  }

  /** The code that tells what VRFY found out about an address, by how its local part starts, in any letter case. */
  predicate TellsUser(text: string, address: string) {
    var local := address[..IndexOf(address, '@')];
    && ("250" <= text <==> StartsInAnyCase(local, "exists"))
    && ("551" <= text <==> StartsInAnyCase(local, "unknown"))
    && ("553" <= text <==> StartsInAnyCase(local, "ambiguous"))
    && ("550" <= text <==> !StartsInAnyCase(local, "exists") && !StartsInAnyCase(local, "unknown")
                           && !StartsInAnyCase(local, "ambiguous"))
  }

  lemma UserWords()
    ensures Lower("exists") == "exists" && Lower("unknown") == "unknown" && Lower("ambiguous") == "ambiguous"
  {
    hide Lower;
    assert forall c :: c in "exists" || c in "unknown" || c in "ambiguous" ==> !('A' <= c <= 'Z');
    CaseFixed("exists");
    CaseFixed("unknown");
    CaseFixed("ambiguous");
  }

  lemma OneUserWord(local: string)
    ensures !("exists" <= local && "unknown" <= local) && !("exists" <= local && "ambiguous" <= local)
    ensures !("unknown" <= local && "ambiguous" <= local)
  {
    assert "exists"[0] == 'e' && "unknown"[0] == 'u' && "ambiguous"[0] == 'a';
  }

  lemma VrfyReplyTells(address: string, ambiguous: string)
    requires "553" <= ambiguous
    ensures TellsUser(VrfyReply(address, ambiguous), address)
  {
    hide Lower, SameButCase, IndexOf, StartsInAnyCase;
    var local := address[..IndexOf(address, '@')];
    UserWords();
    OneUserWord(Lower(local));
    PrefixInAnyCase("exists", local);
    PrefixInAnyCase("unknown", local);
    PrefixInAnyCase("ambiguous", local);
    var text := VrfyReply(address, ambiguous);
    assert "553"[0] == '5' && "553"[1] == '5' && "553"[2] == '3';
    var code := if "exists" <= Lower(local) then "250" else if "unknown" <= Lower(local) then "551"
                else if "ambiguous" <= Lower(local) then "553" else "550";
    assert code <= text;
    CodesDiffer(text, code);
  }

  lemma CodesDiffer(text: string, code: string)
    requires code <= text && |code| == 3
    ensures forall other: string :: |other| == 3 ==> (other <= text <==> other == code)
  {
    assert text[..3] == code;
    assert forall other: string :: |other| == 3 && other <= text ==> other == text[..3];
  }

  /** VRFY of a mailbox that is valid, or under SMTPUTF8 has a valid domain, tells about the user; any other is 501. */
  lemma VrfyAnswer(env: Env, s: Session, e: Event, cmd: Command)
    requires Admits(s, e, cmd) && cmd.verb == VRFY
    ensures var f, raw := Step(env, s, e), env.mailboxOfText(Join(cmd.args, " "));
      && f.next == s && |f.replies| == 1
      && if '@' in raw && (env.validMailbox(raw, s.caps.smtputf8)
                           || (s.caps.smtputf8 && env.validDomain(raw[IndexOf(raw, '@') + 1..])))
         then TellsUser(f.replies[0], env.normalise(raw)) else f.replies[0] == R_SYNTAX
  {
    hide Is421, VrfyReply, TellsUser, Step, Dispatch, OnHelo, OnAuth, OnMail, OnRcpt, OnData, OnBdat, Join;
    StepIsHandled(env, s, e, cmd);
    var raw := env.mailboxOfText(Join(cmd.args, " "));
    if '@' in raw {
      VrfyReplyTells(env.normalise(raw), "553" + " Requested action not taken: mailbox name not allowed");
      VrfyReplyTells(env.normalise(raw), "553" + " User ambiguous");
    }
  }
}
