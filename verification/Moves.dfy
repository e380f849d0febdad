/**
  Every step of a session, whatever its command and outcome, is one of thirteen moves. A move says what happened to
  the transaction, and which one it was can be read off the exchange and the way it ended (MoveIn).
*/
module Moves {
  import opened Strings
  import opened Commands
  import opened ErrorPattern
  import opened Replies
  import opened Ehlo
  import opened SessionModel

  datatype Move =
    | Keep                      // refused, or without effect on the transaction
    | Hello                     // HELO or EHLO let the session into MAIL
    | Login                     // AUTH succeeded
    | Secure                    // STARTTLS succeeded
    | Clear                     // RSET accepted
    | Leave                     // QUIT
    | NewMail(from: string)     // MAIL accepted
    | NewRcpt(to: string)       // RCPT accepted
    | Body(content: Bytes)      // DATA stored its message
    | BodyLost                  // DATA was entered, but its message was not read or not stored
    | Chunk(data: Bytes)        // a chunk kept for later
    | Last(data: Bytes)         // the last chunk, and the message stored
    | LastLost(data: Bytes)     // the last chunk, but the message not stored

  // ---------- What the exchange tells ----------

  function AddressOf(env: Env, arg: string): string {
    env.normalise(env.mailboxOfArg(arg))
  }

  predicate Accepted(x: Exchange, v: Verb) {
    x.replies == [R_OK] && ParseLine(x.line).Some? && ParseLine(x.line).value.verb == v
    && ParseLine(x.line).value.args != []
  }

  /** The address of a MAIL command that was answered with 250. */
  function MailIn(env: Env, x: Exchange): Option<string> {
    if Accepted(x, MAIL) then Some(AddressOf(env, ParseLine(x.line).value.args[0])) else None
  }

  /** The address of a RCPT command that was answered with 250. */
  function RcptIn(env: Env, x: Exchange): Option<string> {
    if Accepted(x, RCPT) then Some(AddressOf(env, ParseLine(x.line).value.args[0])) else None
  }

  /** A BDAT LAST whose chunk was taken but whose message did not reach the store. */
  predicate LostIn(x: Exchange) {
    x.consumed.Some? && x.stored.None? && ParseLine(x.line).Some? && |ParseLine(x.line).value.args| > 1
  }

  predicate Plain(env: Env, x: Exchange) {
    MailIn(env, x).None? && RcptIn(env, x).None? && x.consumed.None? && x.stored.None?
  }

  /** A HELO or EHLO whose name asks for no error and which was answered with 250, or with 502 as not implemented. */
  predicate WelcomedIn(cmd: Command, x: Exchange) {
    cmd.args != [] && ParseHelo(cmd.args[0]).None?
    && x.replies != [] && ("250" <= x.replies[0] || "502" <= x.replies[0])
  }

  function ChunkIn(x: Exchange): Move {
    if x.consumed.None? then Keep
    else if x.stored.Some? then Last(x.consumed.value)
    else if LostIn(x) then LastLost(x.consumed.value)
    else Chunk(x.consumed.value)
  }

  function BodyIn(x: Exchange): Move {
    if x.stored.Some? then Body(x.stored.value.content)
    else if x.replies != [] && x.replies[0] == R_START_DATA then BodyLost
    else Keep
  }

  /** The move an exchange shows. */
  function MoveIn(env: Env, x: Exchange, end: End): Move {
    match ParseLine(x.line)
    case None => Keep
    case Some(cmd) =>
      match cmd.verb
      case HELO => if WelcomedIn(cmd, x) then Hello else Keep
      case EHLO => if WelcomedIn(cmd, x) then Hello else Keep
      case AUTH => if x.replies != [] && x.replies[|x.replies| - 1] == R_AUTH_OK then Login else Keep
      case STARTTLS => if x.replies == [R_READY] && end == Continue then Secure else Keep
      case RSET => if x.replies == [R_OK] then Clear else Keep
      case QUIT => if end == Eof && x.replies != [] && !Is421(x.replies[0]) then Leave else Keep
      case MAIL => if MailIn(env, x).Some? then NewMail(MailIn(env, x).value) else Keep
      case RCPT => if RcptIn(env, x).Some? then NewRcpt(RcptIn(env, x).value) else Keep
      case DATA => BodyIn(x)
      case BDAT => ChunkIn(x)
      case NOOP => Keep
      case VRFY => Keep
  }

  // ---------- What the session does ----------

  predicate SameTransaction(s: Session, t: Session) {
    t.mailFrom == s.mailFrom && t.rcptTo == s.rcptTo && t.errors == s.errors && t.bdatBuffer == s.bdatBuffer
  }

  /** The negotiated terms. */
  predicate SameTerms(s: Session, t: Session) {
    t.caps == s.caps && t.advertisedSize == s.advertisedSize && t.commandDelay == s.commandDelay
  }

  predicate Emptied(t: Session) {
    t.state == State.Mail && t.mailFrom == "" && t.rcptTo == []
  }

  ghost predicate Moved(m: Move, env: Env, s: Session, x: Exchange, t: Session, end: End) {
    (m.Hello? || SameTerms(s, t)) && (m.Secure? || t.tls == s.tls) &&
    match m
    case Keep => t.state == s.state && SameTransaction(s, t) && Plain(env, x)
    case Hello => s.state == Helo && t.state == State.Mail && SameTransaction(s, t) && Plain(env, x)
        && (t.advertisedSize == s.advertisedSize || SIZE_MIN <= t.advertisedSize <= SIZE_MAX)
        && (0 <= s.commandDelay <= MAX_DELAY ==> 0 <= t.commandDelay <= MAX_DELAY)
    case Login => (s.state == State.Mail || s.state == State.Auth) && t.state == State.Mail
        && SameTransaction(s, t) && Plain(env, x)
    case Secure => (s.state == Helo || s.state == State.Mail) && t.state == Helo && SameTransaction(s, t)
        && Plain(env, x) && t.tls && !s.tls
    case Clear => (s.state == Helo || s.state == State.Mail || s.state == State.Rcpt || s.state == State.Auth)
        && Emptied(t) && t.errors == s.errors && t.bdatBuffer == s.bdatBuffer && Plain(env, x)
    case Leave => end == Eof && s.state != Greeting && t.state == State.Quit && SameTransaction(s, t) && Plain(env, x)
    case NewMail(from) => s.state == State.Mail && t.state == State.Rcpt && t.mailFrom == from && t.rcptTo == s.rcptTo
        && t.errors == ErrorsOf(from) && t.bdatBuffer == s.bdatBuffer
        && MailIn(env, x) == Some(from) && RcptIn(env, x).None? && x.consumed.None? && x.stored.None?
    case NewRcpt(to) => s.state == State.Rcpt && t.state == State.Rcpt && t.mailFrom == s.mailFrom
        && t.rcptTo == s.rcptTo + [to] && t.errors == s.errors && t.bdatBuffer == s.bdatBuffer
        && MailIn(env, x).None? && RcptIn(env, x) == Some(to) && x.consumed.None? && x.stored.None?
    case Body(content) => s.state == State.Rcpt && s.errors.data.None? && |content| <= MaxSize(s)
        && Emptied(t) && t.errors == NO_ERRORS && t.bdatBuffer == s.bdatBuffer
        && MailIn(env, x).None? && RcptIn(env, x).None? && x.consumed.None? && x.body == Some(content)
        && x.stored == Some(MessageOf(s, content))
    case BodyLost => s.state == State.Rcpt && t.state == State.Data && SameTransaction(s, t) && Plain(env, x)
    case Chunk(data) => (s.state == State.Rcpt || s.state == State.Bdat) && |s.bdatBuffer + data| <= MaxSize(s)
        && t.state == State.Bdat && SameTransaction(s.(bdatBuffer := s.bdatBuffer + data), t)
        && MailIn(env, x).None? && RcptIn(env, x).None? && x.consumed == Some(data) && x.stored.None? && !LostIn(x)
    case Last(data) => (s.state == State.Rcpt || s.state == State.Bdat) && s.errors.data.None?
        && |s.bdatBuffer + data| <= MaxSize(s)
        && Emptied(t) && t.errors == NO_ERRORS && t.bdatBuffer == ""
        && MailIn(env, x).None? && RcptIn(env, x).None? && x.consumed == Some(data)
        && x.stored == Some(MessageOf(s, s.bdatBuffer + data))
    case LastLost(data) =>
        (s.state == State.Rcpt || s.state == State.Bdat) && s.errors.data.None?
        && |s.bdatBuffer + data| <= MaxSize(s) && t.state == s.state
        && SameTransaction(s.(bdatBuffer := s.bdatBuffer + data), t)
        && MailIn(env, x).None? && RcptIn(env, x).None? && x.consumed == Some(data) && x.stored.None? && LostIn(x)
  }

  /** The move the session makes is the one the exchange shows. */
  ghost predicate Made(m: Move, env: Env, s: Session, x: Exchange, t: Session, end: End) {
    Moved(m, env, s, x, t, end) && m == MoveIn(env, x, end)
  }

  // ---------- Each command makes one of the moves ----------

  /** A reply with which a command is turned away before its handler does anything. */
  predicate IsRefusal(text: string) {
    "500" <= text || "501" <= text || "503" <= text
  }

  lemma SequenceReplyRefuses(v: Verb, s: State)
    ensures IsRefusal(SequenceReply(v, s))
  {
  }

  lemma NotOk(text: string)
    requires |text| != 6
    ensures [text] != [R_OK]
  {
    assert [text][0] == text && |R_OK| == 6;
  }

  lemma RefusalIsNoFixedReply(text: string)
    requires IsRefusal(text)
    ensures text != R_OK && text != R_READY && text != R_AUTH_OK && text != R_START_DATA
    ensures !("250" <= text) && !("502" <= text)
  {
    assert text[0] == '5' && text[2] != '2';
    assert R_OK[0] == '2' && R_READY[0] == '2' && R_AUTH_OK[0] == '2' && R_START_DATA[0] == '3';
  }

  lemma RefusedMoves(env: Env, s: Session, line: string, text: string)
    requires IsRefusal(text)
    ensures Made(Keep, env, s, Exchange(line, [text], None, None), s, EndOf(text))
  {
    hide Is421, FormatError, ParseLine, IsRefusal, ParseHelo;
    RefusalIsNoFixedReply(text);
    assert [text][0] == text;
  }

  /** MAIL and RCPT refuse with any text but the one that accepts. */
  lemma NotAcceptedMoves(env: Env, s: Session, cmd: Command, line: string, text: string)
    requires ParseLine(line) == Some(cmd) && (cmd.verb == MAIL || cmd.verb == RCPT) && |text| > 6
    ensures Made(Keep, env, s, Exchange(line, [text], None, None), s, EndOf(text))
  {
    hide Is421, FormatError, ParseLine;
    NotOk(text);
  }

  lemma MailMoves(env: Env, s: Session, cmd: Command, line: string) returns (m: Move)
    requires ParseLine(line) == Some(cmd) && cmd.verb == MAIL && ArgsValid(cmd) && s.state == State.Mail
    ensures var f := OnMail(env, s, cmd);
      f.consumed.None? && f.stored.None? && f.body.None?
      && Made(m, env, s, Exchange(line, f.replies, None, None), f.next, f.end)
  {
    hide Is421, FormatError, ParseLine, ErrorMessage, ParsePrefixed, ErrorsOf, Upper;
    m := Keep;
    var address := AddressIn(env, s, cmd.args[0]);
    if address.None? {
      NotAcceptedMoves(env, s, cmd, line, R_SYNTAX);
    } else if ParsePrefixed("mail", address.value).Some? {
      var e := ParsePrefixed("mail", address.value).value;
      ErrorIsLong(s.caps.enhanced, e);
      NotAcceptedMoves(env, s, cmd, line, FormatError(s.caps.enhanced, e));
    } else {
      m := NewMail(address.value);
    }
  }

  lemma RcptMoves(env: Env, s: Session, cmd: Command, line: string) returns (m: Move)
    requires ParseLine(line) == Some(cmd) && cmd.verb == RCPT && ArgsValid(cmd) && s.state == State.Rcpt
    ensures var f := OnRcpt(env, s, cmd);
      f.consumed.None? && f.stored.None? && f.body.None?
      && Made(m, env, s, Exchange(line, f.replies, None, None), f.next, f.end)
  {
    hide Is421, FormatError, ParseLine, ErrorMessage, ParsePrefixed, ErrorsOf, Upper;
    m := Keep;
    var address := AddressIn(env, s, cmd.args[0]);
    if address.None? {
      NotAcceptedMoves(env, s, cmd, line, R_SYNTAX);
    } else if ParsePrefixed("rcpt", address.value).Some? {
      var e := ParsePrefixed("rcpt", address.value).value;
      ErrorIsLong(s.caps.enhanced, e);
      NotAcceptedMoves(env, s, cmd, line, FormatError(s.caps.enhanced, e));
    } else {
      m := NewRcpt(address.value);
    }
  }

  lemma DataMoves(env: Env, s: Session, cmd: Command, e: Event) returns (m: Move)
    requires ParseLine(e.line) == Some(cmd) && cmd.verb == DATA && s.state == State.Rcpt
    ensures var f := OnData(s, e.data, e.oracle); Made(m, env, s, ExchangeOf(e, f), f.next, f.end)
  {
    hide Is421, FormatError, ParseLine, StorageReply;
    if s.errors.data.Some? {
      m := Keep;
      ErrorIsNoFixedReply(s.caps.enhanced, s.errors.data.value);
    } else if e.data.None? || |e.data.value| > MaxSize(s) || e.oracle.store.StoreFailed? {
      m := BodyLost;
    } else {
      m := Body(e.data.value);
    }
  }

  lemma TakeMoves(env: Env, s: Session, cmd: Command, e: Event, last: bool) returns (m: Move)
    requires ParseLine(e.line) == Some(cmd) && cmd.verb == BDAT && (last <==> |cmd.args| > 1) && e.data.Some?
    requires s.state == State.Rcpt || s.state == State.Bdat
    requires |s.bdatBuffer| + |e.data.value| <= MaxSize(s) && (last ==> s.errors.data.None?)
    ensures var f := TakeChunk(s, last, e.data.value, e.oracle); Made(m, env, s, ExchangeOf(e, f), f.next, f.end)
  {
    hide Is421, ParseLine, StorageReply;
    var d := e.data.value;
    m := if !last then Chunk(d) else if e.oracle.store.Stored? then Last(d) else LastLost(d);
  }

  lemma PlanFits(s: Session, cmd: Command)
    requires cmd.verb == BDAT && ArgsValid(cmd) && PlanChunk(s, cmd).ChunkRead?
    ensures var plan := PlanChunk(s, cmd);
      |s.bdatBuffer| + plan.size <= MaxSize(s) && (plan.last <==> |cmd.args| > 1) && (plan.last ==> s.errors.data.None?)
  {
    hide FormatError, Atoi, EqualFold, SizeReply;
  }

  lemma BdatMoves(env: Env, s: Session, cmd: Command, e: Event) returns (m: Move)
    requires ParseLine(e.line) == Some(cmd) && cmd.verb == BDAT && ArgsValid(cmd)
    requires s.state == State.Rcpt || s.state == State.Bdat
    ensures var f := OnBdat(s, cmd, e.data, e.oracle); Made(m, env, s, ExchangeOf(e, f), f.next, f.end)
  {
    hide Is421, ParseLine, TakeChunk, PlanChunk, EqualFold;
    m := Keep;
    var plan := PlanChunk(s, cmd);
    if plan.ChunkRead? && e.data.Some? && |e.data.value| == plan.size {
      PlanFits(s, cmd);
      m := TakeMoves(env, s, cmd, e, plan.last);
    }
  }

  lemma EhloReplyStarts(parts: seq<string>, caps: Capabilities)
    ensures "250-" <= EhloReply(parts, caps) && "250" <= EhloReply(parts, caps)
  {
    hide Join, ReplyLines, Mentions, Mechanisms;
    ReplyStarts(if Mentions(parts, "noauth") then None else Some(Mechanisms(parts)), caps, AnnouncedSize(parts));
  }

  /** What an EHLO does to a session that it finds, or leaves, in MAIL state. */
  lemma EhloKeeps(s: Session, hostname: string)
    ensures var f := OnEhlo(s, hostname);
      && f.consumed.None? && f.stored.None? && f.body.None? && |f.replies| == 1
      && ("250" <= f.replies[0] || "502" <= f.replies[0])
      && f.next.state == s.state && f.next.tls == s.tls && SameTransaction(s, f.next)
      && (f.next.advertisedSize == s.advertisedSize || SIZE_MIN <= f.next.advertisedSize <= SIZE_MAX)
      && (0 <= s.commandDelay <= MAX_DELAY ==> 0 <= f.next.commandDelay <= MAX_DELAY)
  {
    hide Is421, LabelParts, Mentions, Negotiate, WithoutDelays, DelayAfter, EhloReply, SizeOf;
    var all := LabelParts(hostname);
    var parts := WithoutDelays(all);
    EhloReplyStarts(parts, Negotiate(parts, s.tls));
    if 0 <= s.commandDelay <= MAX_DELAY {
      DelayBounded(all, s.commandDelay);
    }
  }

  lemma EhloMoves(env: Env, s: Session, cmd: Command, line: string) returns (m: Move)
    requires ParseLine(line) == Some(cmd) && (cmd.verb == HELO || cmd.verb == EHLO) && ArgsValid(cmd)
    requires s.state == Helo || s.state == State.Mail
    ensures var f := OnHelo(s, cmd);
      f.consumed.None? && f.stored.None? && f.body.None?
      && Made(m, env, s, Exchange(line, f.replies, None, None), f.next, f.end)
  {
    hide Is421, FormatError, ParseLine, ParseHelo, OnEhlo, Lower;
    m := if s.state == State.Mail || ParseHelo(cmd.args[0]).Some? then Keep else Hello;
    if s.state == State.Mail {
      RefusedMoves(env, s, line, R_SEQUENCE);
    } else if m.Hello? {
      EhloKeeps(s.(heloName := cmd.args[0], state := State.Mail), Lower(cmd.args[0]));
    }
  }

  lemma AuthMoves(env: Env, s: Session, cmd: Command, e: Event) returns (m: Move)
    requires ParseLine(e.line) == Some(cmd) && cmd.verb == AUTH && cmd.args != []
    requires s.state == State.Mail || s.state == State.Auth
    ensures var f := OnAuth(s, cmd, e.oracle); Made(m, env, s, ExchangeOf(e, f), f.next, f.end)
  {
    hide Is421, FormatError, ParseLine, KnownMechanism;
    m := Keep;
    if s.errors.auth.Some? {
      ErrorIsNoFixedReply(s.caps.enhanced, s.errors.auth.value);
    } else if KnownMechanism(cmd.args[0]) && e.oracle.auth == AuthOk {
      m := Login;
    }
  }

  lemma TlsMoves(env: Env, s: Session, cmd: Command, e: Event) returns (m: Move)
    requires ParseLine(e.line) == Some(cmd) && cmd.verb == STARTTLS && (s.state == Helo || s.state == State.Mail)
    ensures var f := OnStartTls(s, e.oracle); Made(m, env, s, ExchangeOf(e, f), f.next, f.end)
  {
    hide Is421, FormatError, ParseLine;
    m := if s.errors.starttls.Some? || s.tls || !e.oracle.handshake then Keep else Secure;
    if s.errors.starttls.Some? {
      ErrorIsNoFixedReply(s.caps.enhanced, s.errors.starttls.value);
      assert [FormatError(s.caps.enhanced, s.errors.starttls.value)][0] != R_READY;
    }
    assert "554 TLS already started"[0] != R_READY[0];
  }

  lemma ResetMoves(env: Env, s: Session, cmd: Command, e: Event) returns (m: Move)
    requires ParseLine(e.line) == Some(cmd) && cmd.verb == RSET && Allowed(RSET, s.state)
    ensures var f := OnRset(s); Made(m, env, s, ExchangeOf(e, f), f.next, f.end)
  {
    hide Is421, FormatError, ParseLine;
    m := Clear;
    if s.errors.rset.Some? {
      m := Keep;
      ErrorIsLong(s.caps.enhanced, s.errors.rset.value);
      NotOk(FormatError(s.caps.enhanced, s.errors.rset.value));
    }
  }

  lemma OtherMoves(env: Env, s: Session, cmd: Command, e: Event) returns (m: Move)
    requires ParseLine(e.line) == Some(cmd) && Allowed(cmd.verb, s.state) && ArgsValid(cmd)
    requires cmd.verb in {QUIT, NOOP, VRFY}
    ensures var f := Handle(env, s, cmd, e); Made(m, env, s, ExchangeOf(e, f), f.next, f.end)
  {
    hide Is421, FormatError, ParseLine, VrfyText, OnAuth, OnHelo, OnMail, OnRcpt, OnData, OnBdat, OnRset, OnStartTls;
    m := if cmd.verb == QUIT && !Is421(OnQuit(s).replies[0]) then Leave else Keep;
  }

  lemma HandleMoves(env: Env, s: Session, cmd: Command, e: Event) returns (m: Move)
    requires ParseLine(e.line) == Some(cmd) && Allowed(cmd.verb, s.state) && ArgsValid(cmd)
    ensures var f := Handle(env, s, cmd, e); Made(m, env, s, ExchangeOf(e, f), f.next, f.end)
  {
    hide Is421, FormatError, ParseLine, OnHelo, OnAuth, OnMail, OnRcpt, OnData, OnBdat, OnRset, OnStartTls, VrfyText, Made;
    match cmd.verb
    case MAIL => m := MailMoves(env, s, cmd, e.line);
    case RCPT => m := RcptMoves(env, s, cmd, e.line);
    case DATA => m := DataMoves(env, s, cmd, e);
    case BDAT => m := BdatMoves(env, s, cmd, e);
    case HELO => m := EhloMoves(env, s, cmd, e.line);
    case EHLO => m := EhloMoves(env, s, cmd, e.line);
    case AUTH => m := AuthMoves(env, s, cmd, e);
    case RSET => m := ResetMoves(env, s, cmd, e);
    case STARTTLS => m := TlsMoves(env, s, cmd, e);
    case _ => m := OtherMoves(env, s, cmd, e);
  }

  /** Every step makes a move, and it is the one its exchange shows. */
  lemma StepMoves(env: Env, s: Session, e: Event) returns (m: Move)
    ensures var f := Step(env, s, e);
      Moved(m, env, s, ExchangeOf(e, f), f.next, f.end) && m == MoveIn(env, ExchangeOf(e, f), f.end)
  {
    hide Is421, FormatError, ParseLine, Handle, ArgsValid, Moved, MoveIn;
    m := Keep;
    if |e.line| > MAX_LINE {
      RefusedMoves(env, s, e.line, R_TOO_LONG);
    } else {
      match Dispatch(s.state, e.line)
      case Refuse(text) =>
        if ParseLine(e.line).Some? {
          SequenceReplyRefuses(ParseLine(e.line).value.verb, s.state);
        }
        RefusedMoves(env, s, e.line, text);
      case Accept(cmd) =>
        m := HandleMoves(env, s, cmd, e);
    }
  }
}
