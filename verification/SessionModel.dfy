/**
  One SMTP session as a machine that answers every command at once: no reply queue, no pipelining mode.
  A step takes a command line together with what the outside world contributes to it (the bytes the command
  reads, and how storing, authenticating and the TLS handshake turn out) and gives the next session value,
  the replies in order, what became stored, and whether the session goes on.
*/
module SessionModel {
  import opened Strings
  import opened Commands
  import opened ErrorPattern
  import opened Replies
  import opened Ehlo

  type Bytes = string

  const MAX_LINE := 4096

  /** The simulated errors remembered from an accepted MAIL address. */
  datatype Errors = Errors(
    data: Option<ErrorResult>, rset: Option<ErrorResult>, quit: Option<ErrorResult>,
    starttls: Option<ErrorResult>, noop: Option<ErrorResult>, auth: Option<ErrorResult>)

  const NO_ERRORS := Errors(None, None, None, None, None, None)

  function ErrorsOf(address: string): Errors {
    Errors(ParsePrefixed("data", address), ParsePrefixed("rset", address), ParsePrefixed("quit", address),
           ParsePrefixed("starttls", address), ParsePrefixed("noop", address), ParsePrefixed("auth", address))
  }

  datatype Session = Session(
    state: State, heloName: string, mailFrom: string, rcptTo: seq<string>, authenticated: bool, tls: bool,
    caps: Capabilities, commandDelay: int, advertisedSize: int, bdatBuffer: Bytes, errors: Errors)

  const FRESH := Session(Greeting, "", "", [], false, false, NONE, 0, 0, "", NO_ERRORS)

  datatype Message = Message(from: string, to: seq<string>, content: Bytes)

  /** Library code the session relies on: mailbox syntax, domain syntax, and reading a dot-terminated body. */
  datatype Env = Env(
    mailboxOfArg: string -> string, mailboxOfText: string -> string, validMailbox: (string, bool) -> bool,
    normalise: string -> string, validDomain: string -> bool, readDot: Bytes -> Option<(Bytes, nat)>)

  datatype StoreOutcome = Stored | StoreFailed(reason: string)
  datatype AuthResult = AuthOk | AuthFailed | AuthInactive

  /** How the outside world answers during one command. */
  datatype Oracle = Oracle(store: StoreOutcome, challenges: seq<string>, auth: AuthResult, handshake: bool)

  /** One command: its line, and the bytes it got to read after it (none when reading failed or was not due). */
  datatype Event = Event(line: string, data: Option<Bytes>, oracle: Oracle)

  datatype End =
    | Continue
    | Eof           // a 421 or QUIT: the loop ends without an error
    | Broken        // reading or the handshake failed
    | Crash         // a slice length that no allocation accepts
    | WriteFailed   // only where replies are really written: the peer is gone

  /** What a step does: `consumed` is a chunk it took, `body` a DATA body it read. */
  datatype Effect = Effect(
    next: Session, replies: seq<string>, end: End, consumed: Option<Bytes>, stored: Option<Message>,
    body: Option<Bytes> := None)

  function EndOf(text: string): End {
    if Is421(text) then Eof else Continue
  }

  function Say(s: Session, text: string): Effect {
    Effect(s, [text], EndOf(text), None, None)
  }

  function SayError(s: Session, e: ErrorResult): Effect {
    Say(s, FormatError(s.caps.enhanced, e))
  }

  function MaxSize(s: Session): int {
    if s.advertisedSize > 0 then s.advertisedSize else MAX_MESSAGE
  }

  /** Back to MAIL after a stored message: the envelope and the remembered errors go, the chunk buffer does not. */
  function ResetSession(s: Session): Session {
    s.(state := State.Mail, rcptTo := [], mailFrom := "", errors := NO_ERRORS)
  }

  function StorageReply(reason: string): string {
    if Contains(reason, "not active") then "550" + " Requested action not taken: mailbox unavailable"
    else if Contains(reason, "quota") then "452" + " Requested action not taken: insufficient system storage"
    else "450" + " Requested action not taken: mailbox temporarily unavailable"
  }

  // ---------- Dispatch ----------

  datatype Parsed = Refuse(text: string) | Accept(cmd: Command)

  function SequenceReply(v: Verb, s: State): string {
    "503 Bad sequence - " + VerbName(v) + " not allowed in " + StateName(s) + " state"
  }

  function Dispatch(state: State, line: string): (r: Parsed)
    ensures r.Accept? ==> Allowed(r.cmd.verb, state) && ArgsValid(r.cmd) && ParseLine(line) == Some(r.cmd)
  {
    match ParseLine(line)
    case None => Refuse(R_UNKNOWN)
    case Some(cmd) =>
      if !Allowed(cmd.verb, state) then Refuse(SequenceReply(cmd.verb, state))
      else if !ArgsValid(cmd) then Refuse(R_SYNTAX)
      else Accept(cmd)
  }

  // ---------- Handlers ----------

  ghost function OnHelo(s: Session, cmd: Command): Effect
    requires cmd.args != []
  {
    if !HandlerGuard(HELO, s.state) then Say(s, R_SEQUENCE)
    else
      var s1 := s.(heloName := cmd.args[0]);
      match ParseHelo(cmd.args[0])
      case Some(e) => SayError(s1, e)
      case None =>
        var s2 := s1.(state := State.Mail);
        if cmd.verb == EHLO then OnEhlo(s2, Lower(cmd.args[0])) else Say(s2, "250 badsmtp.test")
  }

  ghost function OnEhlo(s: Session, hostname: string): Effect {
    var all := LabelParts(hostname);
    if Mentions(all, "reject") || Mentions(all, "noehl") then Say(s, "502 Command not implemented")
    else
      var parts := WithoutDelays(all);
      var caps := Negotiate(parts, s.tls);
      var s1 := s.(commandDelay := DelayAfter(all, s.commandDelay), caps := caps,
                   advertisedSize := if caps.size && SizeOf(parts).Some? then SizeOf(parts).value else s.advertisedSize);
      Say(s1, EhloReply(parts, caps))
  }

  ghost function EhloReply(parts: seq<string>, caps: Capabilities): string {
    var auth := if Mentions(parts, "noauth") then None else Some(Mechanisms(parts));
    Join(ReplyLines(auth, caps, AnnouncedSize(parts)), "\r\n")
  }

  predicate KnownMechanism(m: string) {
    Upper(m) in {"PLAIN", "LOGIN", "CRAM-MD5", "CRAM-SHA256", "XOAUTH2"}
  }

  function Prompt(challenge: string): string {
    "334 " + challenge
  }

  function Prompts(challenges: seq<string>): (ps: seq<string>)
    ensures |ps| == |challenges|
    ensures forall i :: 0 <= i < |ps| ==> ps[i] == Prompt(challenges[i])
  {
    if challenges == [] then [] else [Prompt(challenges[0])] + Prompts(challenges[1..])
  }

  function OnAuth(s: Session, cmd: Command, o: Oracle): Effect
    requires cmd.args != []
  {
    if !HandlerGuard(AUTH, s.state) then Say(s, R_SEQUENCE)
    else if s.errors.auth.Some? then SayError(s, s.errors.auth.value)
    else if !KnownMechanism(cmd.args[0]) then Say(s, R_NO_MECHANISM)
    else Authenticate(s, o)
  }

  function AuthText(r: AuthResult): string {
    match r
    case AuthOk => R_AUTH_OK
    case AuthFailed => R_AUTH_FAILED
    case AuthInactive => R_AUTH_INACTIVE
  }

  function Authenticate(s: Session, o: Oracle): Effect {
    Effect(if o.auth == AuthOk then s.(authenticated := true, state := State.Mail) else s,
           Prompts(o.challenges) + [AuthText(o.auth)], EndOf(AuthText(o.auth)), None, None)
  }

  function RawMailbox(env: Env, arg: string): string {
    env.mailboxOfArg(arg)
  }

  predicate IsValidMailbox(env: Env, raw: string, smtputf8: bool) {
    env.validMailbox(raw, smtputf8)
  }

  function NormaliseMailbox(env: Env, raw: string): string {
    env.normalise(raw)
  }

  /** The address a MAIL or RCPT argument names, when the server finds it well-formed. */
  function AddressIn(env: Env, s: Session, arg: string): Option<string> {
    var raw := RawMailbox(env, arg);
    if raw == "" || !IsValidMailbox(env, raw, s.caps.smtputf8) then None else Some(NormaliseMailbox(env, raw))
  }

  function OnMail(env: Env, s: Session, cmd: Command): Effect
    requires cmd.args != []
  {
    if !HandlerGuard(MAIL, s.state) then Say(s, R_SEQUENCE)
    else match AddressIn(env, s, cmd.args[0])
      case None => Say(s, R_SYNTAX)
      case Some(from) =>
        match ParsePrefixed("mail", from)
        case Some(e) => SayError(s, e)
        case None => Say(s.(errors := ErrorsOf(from), mailFrom := from, state := State.Rcpt), R_OK)
  }

  function OnRcpt(env: Env, s: Session, cmd: Command): Effect
    requires cmd.args != []
  {
    if !HandlerGuard(RCPT, s.state) then Say(s, R_SEQUENCE)
    else match AddressIn(env, s, cmd.args[0])
      case None => Say(s, R_SYNTAX)
      case Some(to) =>
        match ParsePrefixed("rcpt", to)
        case Some(e) => SayError(s, e)
        case None => Say(s.(rcptTo := s.rcptTo + [to]), R_OK)
  }

  function VrfyReply(address: string, ambiguous: string): string {
    var local := Lower(address[..IndexOf(address, '@')]);
    if "exists" <= local then "250" + (" " + address + " User exists")
    else if "unknown" <= local then "551" + " User not local; please try forward path"
    else if "ambiguous" <= local then ambiguous
    else "550" + " Requested action not taken: mailbox unavailable"
  }

  function VrfyText(env: Env, s: Session, cmd: Command): string {
    var raw := env.mailboxOfText(Join(cmd.args, " "));
    if raw == "" || '@' !in raw then R_SYNTAX
    else if env.validMailbox(raw, s.caps.smtputf8)
    then VrfyReply(env.normalise(raw), "553" + " Requested action not taken: mailbox name not allowed")
    else if s.caps.smtputf8 && env.validDomain(raw[IndexOf(raw, '@') + 1..])
    then VrfyReply(env.normalise(raw), "553" + " User ambiguous")
    else R_SYNTAX
  }

  function MessageOf(s: Session, content: Bytes): Message {
    Message(s.mailFrom, s.rcptTo, content)
  }

  function OnData(s: Session, data: Option<Bytes>, o: Oracle): Effect {
    if !HandlerGuard(DATA, s.state) then Say(s, R_SEQUENCE)
    else if s.errors.data.Some? then SayError(s, s.errors.data.value)
    else
      var s1 := s.(state := State.Data);
      if data.None? || |data.value| > MaxSize(s) then Effect(s1, [R_START_DATA], Broken, None, None, data)
      else match o.store
        case StoreFailed(reason) =>
          Effect(s1, [R_START_DATA, StorageReply(reason)], EndOf(StorageReply(reason)), None, None, data)
        case Stored =>
          Effect(ResetSession(s1), [R_START_DATA, R_ACCEPTED], EndOf(R_ACCEPTED), None,
                 Some(MessageOf(s, data.value)), data)
  }

  function OnRset(s: Session): Effect {
    if s.errors.rset.Some? then SayError(s, s.errors.rset.value)
    else Say(s.(state := State.Mail, mailFrom := "", rcptTo := []), R_OK)
  }

  function OnNoop(s: Session): Effect {
    if s.errors.noop.Some? then SayError(s, s.errors.noop.value) else Say(s, R_OK)
  }

  function OnStartTls(s: Session, o: Oracle): Effect {
    if s.errors.starttls.Some? then SayError(s, s.errors.starttls.value)
    else if s.tls then Say(s, "554 TLS already started")
    else if !o.handshake then Effect(s, [R_READY], Broken, None, None)
    else Effect(s.(tls := true, state := Helo), [R_READY], Continue, None, None)
  }

  function OnQuit(s: Session): Effect {
    var text := if s.errors.quit.Some? then FormatError(s.caps.enhanced, s.errors.quit.value) else R_BYE;
    Effect(if Is421(text) then s else s.(state := State.Quit), [text], Eof, None, None)
  }

  /** Addition of two lengths in 64-bit two's complement. */
  function Add64(a: int, b: int): int {
    if a + b > INT_MAX then a + b - 0x1_0000_0000_0000_0000 else a + b
  }

  /** What a BDAT line leads to before any byte of its chunk is read. */
  datatype ChunkPlan = ChunkRefused(text: string) | ChunkCrash | ChunkRead(size: nat, last: bool)

  function SizeReply(max: int): string {
    "552" + (" Message size exceeds fixed maximum of " + FormatInt(max) + " bytes")
  }

  function PlanChunk(s: Session, cmd: Command): ChunkPlan
    requires cmd.args != []
  {
    if !HandlerGuard(BDAT, s.state) then ChunkRefused(R_SEQUENCE)
    else match Atoi(cmd.args[0])
      case None => ChunkRefused(R_SYNTAX)
      case Some(n) =>
        var last := |cmd.args| > 1 && EqualFold(cmd.args[1], "LAST");
        if n < 0 then ChunkRefused(R_SYNTAX)
        else if s.errors.data.Some? && last then ChunkRefused(FormatError(s.caps.enhanced, s.errors.data.value))
        else if Add64(|s.bdatBuffer|, n) > MaxSize(s)
        then ChunkRefused(SizeReply(MaxSize(s)))
        else if |s.bdatBuffer| + n > INT_MAX then ChunkCrash
        else ChunkRead(n, last)
  }

  function OnBdat(s: Session, cmd: Command, data: Option<Bytes>, o: Oracle): Effect
    requires cmd.args != []
  {
    match PlanChunk(s, cmd)
    case ChunkRefused(text) => Say(s, text)
    case ChunkCrash => Effect(s, [], Crash, None, None)
    case ChunkRead(n, last) =>
      if data.None? || |data.value| != n then Effect(s, [], Broken, None, None) else TakeChunk(s, last, data.value, o)
  }

  function TakeChunk(s: Session, last: bool, chunk: Bytes, o: Oracle): Effect {
    var s1 := s.(bdatBuffer := s.bdatBuffer + chunk);
    if !last then Effect(s1.(state := State.Bdat), [R_OK], EndOf(R_OK), Some(chunk), None)
    else match o.store
      case StoreFailed(reason) =>
        Effect(s1, [StorageReply(reason)], EndOf(StorageReply(reason)), Some(chunk), None)
      case Stored =>
        Effect(ResetSession(s1).(bdatBuffer := ""), [R_ACCEPTED], EndOf(R_ACCEPTED), Some(chunk),
               Some(MessageOf(s, s1.bdatBuffer)))
  }

  ghost function Handle(env: Env, s: Session, cmd: Command, e: Event): Effect
    requires ArgsValid(cmd)
  {
    match cmd.verb
    case HELO => OnHelo(s, cmd)
    case EHLO => OnHelo(s, cmd)
    case AUTH => OnAuth(s, cmd, e.oracle)
    case MAIL => OnMail(env, s, cmd)
    case RCPT => OnRcpt(env, s, cmd)
    case DATA => OnData(s, e.data, e.oracle)
    case BDAT => OnBdat(s, cmd, e.data, e.oracle)
    case RSET => OnRset(s)
    case NOOP => OnNoop(s)
    case STARTTLS => OnStartTls(s, e.oracle)
    case QUIT => OnQuit(s)
    case VRFY => Say(s, VrfyText(env, s, cmd))
  }

  ghost function Step(env: Env, s: Session, e: Event): Effect {
    if |e.line| > MAX_LINE then Say(s, R_TOO_LONG)
    else match Dispatch(s.state, e.line)
      case Refuse(text) => Say(s, text)
      case Accept(cmd) => Handle(env, s, cmd, e)
  }

  // ---------- Runs ----------

  /** One command and what came of it, as the peer and the message store see it. */
  datatype Exchange = Exchange(
    line: string, replies: seq<string>, consumed: Option<Bytes>, stored: Option<Message>, body: Option<Bytes> := None)

  datatype Run = Run(session: Session, log: seq<Exchange>, end: End)

  /** A session that greets starts in HELO; a port that drops sends no greeting and stays in GREETING. */
  function Start(greets: bool, tls: bool): Run {
    Run(FRESH.(state := if greets then Helo else Greeting, tls := tls), [], Continue)
  }

  function ExchangeOf(e: Event, f: Effect): Exchange {
    Exchange(e.line, f.replies, f.consumed, f.stored, f.body)
  }

  ghost function Extend(env: Env, r: Run, e: Event): Run {
    if r.end != Continue then r
    else
      var f := Step(env, r.session, e);
      Run(f.next, r.log + [ExchangeOf(e, f)], f.end)
  }

  /** The run of a whole sequence of events. */
  ghost function RunAll(env: Env, r: Run, es: seq<Event>): Run {
    if es == [] then r else Extend(env, RunAll(env, r, es[..|es| - 1]), es[|es| - 1])
  }

  /** All replies of a run in order. */
  function Trace(log: seq<Exchange>): seq<string> {
    if log == [] then [] else Trace(log[..|log| - 1]) + log[|log| - 1].replies
  }

  /** All messages a run has put in the store, in order. */
  function Delivered(log: seq<Exchange>): seq<Message> {
    if log == [] then []
    else Delivered(log[..|log| - 1]) + OneOrNone(log[|log| - 1].stored)
  }

  function OneOrNone<T>(o: Option<T>): seq<T> {
    if o.Some? then [o.value] else []
  }

  lemma LogSnoc(log: seq<Exchange>, x: Exchange)
    ensures Trace(log + [x]) == Trace(log) + x.replies
    ensures Delivered(log + [x]) == Delivered(log) + OneOrNone(x.stored)
  {
    assert (log + [x])[..|log|] == log;
  }
}
