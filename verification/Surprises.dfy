/**
  Runs in which the session does not do what one would expect: bytes that outlive their transaction, a chunk that is
  read as commands, a chunk size that crashes the session, an AUTH answered with what reads like a prompt, a size that
  is announced and not enforced, and replies withheld though PIPELINING is off. They hold for every library and every
  MAIL argument that names an address with it.
*/
module Surprises {
  import opened Strings
  import opened Commands
  import opened ErrorPattern
  import opened Replies
  import opened Ehlo
  import opened SessionModel
  import opened Transactions
  import opened Chunks
  import opened Terms
  import opened Framing
  import opened Pipelining

  // ---------- Opening a transaction ----------

  lemma ShortLine(cmd: Command)
    requires |cmd.args| <= 1 && (cmd.args != [] ==> IsWordText(cmd.args[0]) && |cmd.args[0]| <= 1000)
    ensures ParseLine(Spell(cmd)) == Some(cmd) && |Spell(cmd)| <= MAX_LINE
  {
    hide ParseLine;
    ParseSpelled(cmd);
    var words := [VerbName(cmd.verb)] + cmd.args;
    if cmd.args != [] {
      JoinCons(VerbName(cmd.verb), cmd.args, " ");
      assert Join(cmd.args, " ") == cmd.args[0];
      assert Spell(cmd) == VerbName(cmd.verb) + " " + cmd.args[0];
    } else {
      assert Spell(cmd) == VerbName(cmd.verb);
    }
  }

  const RSET_CMD := Command(RSET, [])

  function Ask(cmd: Command, data: Option<Bytes>, store: StoreOutcome): Event {
    Event(Spell(cmd), data, Oracle(store, [], AuthFailed, false))
  }

  function AskReset(): Event {
    Ask(RSET_CMD, None, Stored)
  }

  function AskMail(arg: string): Event {
    Ask(Command(MAIL, [arg]), None, Stored)
  }

  /** A MAIL argument that names the address `from`, accepted before anything is negotiated. */
  ghost predicate Names(env: Env, arg: string, from: string) {
    IsWordText(arg) && |arg| <= 1000 && "FROM:" <= Upper(arg)
    && AddressIn(env, FRESH, arg) == Some(from) && ParsePrefixed("mail", from) == None
  }

  lemma ResetStep(env: Env, s: Session, o: Oracle)
    requires s.errors.rset.None? && (s.state == Helo || s.state == State.Mail || s.state == State.Rcpt)
    ensures Step(env, s, Event(Spell(RSET_CMD), None, o))
      == Effect(s.(state := State.Mail, mailFrom := "", rcptTo := []), [R_OK], Continue, None, None)
  {
    hide ParseLine, Is421, OnHelo, OnAuth, OnMail, OnRcpt, OnData, OnBdat, VrfyText, Spell;
    ShortLine(RSET_CMD);
    NeverA421("250", " OK");
  }

  lemma MailStep(env: Env, s: Session, arg: string, from: string, o: Oracle)
    requires s.state == State.Mail && s.caps == NONE && Names(env, arg, from)
    ensures Step(env, s, Event(Spell(Command(MAIL, [arg])), None, o))
      == Effect(s.(state := State.Rcpt, mailFrom := from, errors := ErrorsOf(from)), [R_OK], Continue, None, None)
  {
    hide ParseLine, Is421, ParsePrefixed, OnHelo, OnAuth, OnRcpt, OnData, OnBdat, VrfyText, Spell, IsWordText;
    ShortLine(Command(MAIL, [arg]));
    NeverA421("250", " OK");
  }

  /** RSET and MAIL open a transaction, whatever is waiting in the chunk buffer. */
  lemma ResetThenMail(env: Env, r: Run, arg: string, from: string)
    requires r.end == Continue && r.session.errors.rset.None? && r.session.caps == NONE && Names(env, arg, from)
    requires r.session.state == Helo || r.session.state == State.Mail || r.session.state == State.Rcpt
    ensures var q := Extend(env, Extend(env, r, AskReset()), AskMail(arg));
      q.end == Continue && |q.log| == |r.log| + 2
      && q.session == r.session.(state := State.Rcpt, mailFrom := from, rcptTo := [], errors := ErrorsOf(from))
  {
    hide Step, Names;
    ResetStep(env, r.session, AskReset().oracle);
    MailStep(env, Extend(env, r, AskReset()).session, arg, from, AskMail(arg).oracle);
  }

  // ---------- Bytes that outlive their transaction ----------

  const LAST_CMD := Command(BDAT, ["1", "LAST"])

  lemma LastLine(data: Bytes, store: StoreOutcome)
    requires |data| == 1
    ensures IsChunk(Ask(LAST_CMD, Some(data), store), true)
  {
    hide ParseLine;
    ParseSpelled(LAST_CMD);
    var words := ["BDAT"] + ["1", "LAST"];
    assert words[1..] == ["1", "LAST"] && words[1..][1..] == ["LAST"];
    assert Join(words[1..], " ") == "1" + " " + "LAST";
    assert FormatNat(1) == "1";
    AtoiOfFormat(1);
  }

  /** RSET; MAIL; BDAT 1 LAST, which the store refuses; RSET; MAIL; BDAT 1 LAST, which it takes. */
  function LeakyEvents(arg: string): seq<Event> {
    [AskReset(), AskMail(arg), Ask(LAST_CMD, Some("x"), StoreFailed("")),
     AskReset(), AskMail(arg), Ask(LAST_CMD, Some("y"), Stored)]
  }

  lemma RunOfSix(env: Env, r: Run, es: seq<Event>)
    requires |es| == 6
    ensures RunAll(env, r, es) == Extend(env, Extend(env, RunOfFour(env, r, es[0], es[1], es[2], es[3]), es[4]), es[5])
  {
    hide Extend;
    assert es[..5][..4] == [es[0], es[1], es[2], es[3]] && es[..5] == es[..|es| - 1];
    RunsOfFour(env, r, es[0], es[1], es[2], es[3]);
    assert RunAll(env, r, es[..5]) == Extend(env, RunAll(env, r, es[..5][..4]), es[4]);
  }

  ghost function RunOfFour(env: Env, r: Run, a: Event, b: Event, c: Event, d: Event): Run {
    Extend(env, Extend(env, Extend(env, Extend(env, r, a), b), c), d)
  }

  lemma RunsOfFour(env: Env, r: Run, a: Event, b: Event, c: Event, d: Event)
    ensures RunAll(env, r, [a, b, c, d]) == RunOfFour(env, r, a, b, c, d)
  {
    hide Extend;
    var es := [a, b, c, d];
    assert es[..3][..2] == es[..2] && es[..2][..1] == es[..1] && es[..1][..0] == [];
    assert RunAll(env, r, es[..1]) == Extend(env, r, a);
    assert RunAll(env, r, es[..2]) == Extend(env, Extend(env, r, a), b);
    assert RunAll(env, r, es[..3]) == Extend(env, Extend(env, Extend(env, r, a), b), c);
  }

  /**
    After a BDAT LAST that the store refused in RCPT state, RSET opens a new transaction with the bytes still
    waiting, and the next message stored by BDAT starts with them.
  */
  lemma BytesOutliveTheirTransaction(env: Env, tls: bool, arg: string, from: string)
    requires Names(env, arg, from) && ErrorsOf(from) == NO_ERRORS
    ensures var r := RunAll(env, Start(true, tls), LeakyEvents(arg));
      r.end == Continue && |r.log| == 6 && r.log[5].consumed == Some("y")
      && r.log[5].stored == Some(Message(from, [], "xy"))
  {
    hide Step, IsChunk, Spell, Names, ErrorsOf, RunAll;
    var es, r0 := LeakyEvents(arg), Start(true, tls);
    RunOfSix(env, r0, es);
    var r2 := Extend(env, Extend(env, r0, es[0]), es[1]);
    var r3 := Extend(env, r2, es[2]);
    var r5 := Extend(env, Extend(env, r3, es[3]), es[4]);
    ResetThenMail(env, r0, arg, from);
    LastLine("x", StoreFailed(""));
    LastStep(env, r2.session, es[2]);
    ResetThenMail(env, r3, arg, from);
    LastLine("y", Stored);
    assert "" + "x" == "x" && "x" + "y" == "xy";
    LastStep(env, r5.session, es[5]);
  }

  lemma ShortLocalPart(prefix: string, address: string)
    requires |address| >= 2 && address[1] == '@'
    ensures ParsePrefixed(prefix, address) == None
  {
    var low := Lower(address);
    assert low[1] == '@';
    assert |low| >= 4 ==> low[0..3][1] == '@' && low[1..4][0] == '@';
  }

  /** An argument as a client would send it will do. */
  lemma LeakAsSent(env: Env, tls: bool)
    requires AddressIn(env, FRESH, "FROM:<a@b.test>") == Some("a@b.test")
    ensures var r := RunAll(env, Start(true, tls), LeakyEvents("FROM:<a@b.test>"));
      |r.log| == 6 && r.log[5].consumed == Some("y") && r.log[5].stored == Some(Message("a@b.test", [], "xy"))
  {
    hide RunAll, AddressIn, ParsePrefixed, LeakyEvents;
    forall p: string
      ensures ParsePrefixed(p, "a@b.test") == None
    {
      ShortLocalPart(p, "a@b.test");
    }
    assert "FROM:" <= Upper("FROM:<a@b.test>");
    BytesOutliveTheirTransaction(env, tls, "FROM:<a@b.test>", "a@b.test");
  }

  // ---------- A chunk size that crashes the session ----------

  const ONE_CMD := Command(BDAT, ["1"])
  const HUGE_CMD := Command(BDAT, [FormatNat(INT_MAX)])

  /** RSET; MAIL; BDAT 1; BDAT 9223372036854775807. */
  function OverflowEvents(arg: string): seq<Event> {
    [AskReset(), AskMail(arg), Ask(ONE_CMD, Some("x"), Stored), Ask(HUGE_CMD, None, Stored)]
  }

  lemma OneLine()
    ensures IsChunk(Ask(ONE_CMD, Some("x"), Stored), false)
  {
    hide ParseLine, Spell;
    ShortLine(ONE_CMD);
    assert FormatNat(1) == "1";
    AtoiOfFormat(1);
  }

  lemma NumberLine(n: nat)
    requires n <= INT_MAX
    ensures IsWordText(FormatNat(n)) && |FormatNat(n)| <= 1000 && Atoi(FormatNat(n)) == Some(n)
  {
    hide FormatNat;
    var digits := FormatNat(n);
    assert PowerOfTen(7) == 10000000;
    assert PowerOfTen(13) == 10000000000000;
    FormatLength(n, 19);
    assert forall i :: 0 <= i < |digits| ==> IsDigit(digits[i]) && !IsSpace(digits[i]);
    AtoiOfFormat(n);
  }

  lemma HugeLine()
    ensures ParseLine(Spell(HUGE_CMD)) == Some(HUGE_CMD) && |Spell(HUGE_CMD)| <= MAX_LINE
    ensures Atoi(HUGE_CMD.args[0]) == Some(INT_MAX)
  {
    hide ParseLine, Spell, FormatNat, IsWordText, Atoi;
    NumberLine(INT_MAX);
    ShortLine(HUGE_CMD);
  }

  lemma HugePlan(s: Session)
    requires s.state == State.Bdat && s.errors == NO_ERRORS && s.bdatBuffer != "" && |s.bdatBuffer| <= INT_MAX
    requires MaxSize(s) > 0
    ensures PlanChunk(s, HUGE_CMD) == ChunkCrash
  {
    hide Atoi, FormatNat, SizeReply, ParseLine, Spell;
    HugeLine();
  }

  lemma HugeStep(env: Env, s: Session)
    requires s.state == State.Bdat && s.errors == NO_ERRORS && s.bdatBuffer != "" && |s.bdatBuffer| <= INT_MAX
    requires MaxSize(s) > 0
    ensures Step(env, s, Ask(HUGE_CMD, None, Stored)) == Effect(s, [], Crash, None, None)
  {
    hide ParseLine, Spell, Atoi, OnHelo, OnAuth, OnMail, OnRcpt, OnData, OnRset, OnNoop, OnStartTls, OnQuit, VrfyText;
    hide FormatNat, PlanChunk, Is421, SequenceReply;
    HugeLine();
    HugePlan(s);
    assert Dispatch(s.state, Spell(HUGE_CMD)) == Accept(HUGE_CMD);
  }

  /** With one byte waiting, the largest machine integer as chunk size ends the session in a crash. */
  lemma OverflowCrashes(env: Env, tls: bool, arg: string, from: string)
    requires Names(env, arg, from) && ErrorsOf(from) == NO_ERRORS
    ensures var r := RunAll(env, Start(true, tls), OverflowEvents(arg));
      r.end == Crash && |r.log| == 4 && r.log[3].replies == []
  {
    hide Step, IsChunk, Spell, Names, ErrorsOf, RunAll, FormatNat;
    var es, r0 := OverflowEvents(arg), Start(true, tls);
    RunsOfFour(env, r0, es[0], es[1], es[2], es[3]);
    var r2 := Extend(env, Extend(env, r0, es[0]), es[1]);
    var r3 := Extend(env, r2, es[2]);
    ResetThenMail(env, r0, arg, from);
    OneLine();
    assert "" + "x" == "x";
    ChunkStep(env, r2.session, es[2]);
    HugeStep(env, r3.session);
  }

  // ---------- An answer that reads like a prompt ----------

  const AUTH_CMD := Command(AUTH, ["PLAIN"])

  /** RSET; MAIL; RSET; AUTH PLAIN. */
  function PromptingEvents(arg: string): seq<Event> {
    [AskReset(), AskMail(arg), AskReset(), Ask(AUTH_CMD, None, Stored)]
  }

  lemma AuthStep(env: Env, s: Session)
    requires s.state == State.Mail && s.errors.auth.Some? && s.errors.auth.value.code == 334
    ensures var f := Step(env, s, Ask(AUTH_CMD, None, Stored));
      f.end == Continue && |f.replies| == 1 && "334 " <= f.replies[0]
  {
    hide ParseLine, Spell, OnHelo, OnMail, OnRcpt, OnData, OnBdat, VrfyText, Is421, FormatError;
    ShortLine(AUTH_CMD);
    ErrorLooksLikePrompt(s.caps.enhanced, s.errors.auth.value);
    SimulatedErrorIs421(s.caps.enhanced, s.errors.auth.value);
  }

  /** The sender asked for AUTH to fail with 334: after RSET the only reply to AUTH starts like a prompt. */
  lemma PromptIsTheAnswer(env: Env, tls: bool, arg: string, from: string)
    requires Names(env, arg, from) && ErrorsOf(from).auth.Some? && ErrorsOf(from).auth.value.code == 334
    ensures var r := RunAll(env, Start(true, tls), PromptingEvents(arg));
      r.end == Continue && |r.log| == 4 && |r.log[3].replies| == 1 && "334 " <= r.log[3].replies[0]
  {
    hide Step, Spell, Names, ErrorsOf, RunAll;
    var es, r0 := PromptingEvents(arg), Start(true, tls);
    RunsOfFour(env, r0, es[0], es[1], es[2], es[3]);
    var r2 := Extend(env, Extend(env, r0, es[0]), es[1]);
    AtMostOneError(from);
    ResetThenMail(env, r0, arg, from);
    ResetStep(env, r2.session, AskReset().oracle);
    AuthStep(env, Extend(env, r2, es[2]).session);
  }

  // ---------- A size that is announced but not enforced ----------

  lemma LettersContained(s: string, t: string, k: nat)
    requires Contains(s, t) && k < |t|
    ensures t[k] in s
  {
    var i: nat :| i <= |s| && At(s, i, t);
    assert s[i..][k] == t[k] && s[i..][k] == s[i + k];
  }

  lemma NotContained(s: string, t: string, k: nat)
    requires k < |t| && t[k] !in s
    ensures !Contains(s, t)
  {
    if Contains(s, t) {
      LettersContained(s, t, k);
    }
  }

  /** A one-part label without 'r' or 'n' asks for nothing to be switched off. */
  lemma PlainLabel(part: string)
    requires 'r' !in part && 'n' !in part
    ensures var ps := [part];
      && !Mentions(ps, "reject") && !Mentions(ps, "noehl") && !Mentions(ps, "nosize") && !Mentions(ps, "nostarttls")
      && !Mentions(ps, "nopipelining")
  {
    NotContained(part, "reject", 0);
    NotContained(part, "noehl", 0);
    NotContained(part, "nosize", 0);
    NotContained(part, "nostarttls", 0);
    NotContained(part, "nopipelining", 0);
  }

  lemma OneLabel(part: string)
    requires '.' !in part && '-' !in part && Lower(part) == part
    ensures LabelParts(part) == [part]
  {
    assert IndexOf(part, '.') == |part|;
    assert part[..|part|] == part;
    assert IndexOf(part, '-') == |part|;
  }

  lemma NoDelayKept(part: string)
    requires !IsDelay(part)
    ensures WithoutDelays([part]) == [part]
  {
    assert [part][..0] == [];
    assert Drop([part][..0], IsDelay) == [];
  }

  lemma Size2000()
    ensures SizeOf(["size2000"]) == Some(2000)
  {
    hide RequestedSize;
    assert FormatNat(2) == "2" && FormatNat(20) == "20" && FormatNat(200) == "200" && FormatNat(2000) == "2000";
    assert "size" + "2000" == "size2000";
    SizeAsWritten(2000);
  }

  lemma EhloX(s: Session)
    requires s.state == State.Mail
    ensures var f := OnEhlo(s, "x");
      f.end == Continue && |f.replies| == 1 && Said(SplitLines(f.replies[0]), "SIZE " + FormatNat(MAX_MESSAGE))
      && f.next.advertisedSize == s.advertisedSize && f.next.caps.pipelining
      && f.next.state == s.state && f.next.errors == s.errors && f.next.tls == s.tls
  {
    hide Is421, SplitLines, Mechanisms, EhloReply, DelayAfter, Mentions, Contains, WithoutDelays, LabelParts;
    OneLabel("x");
    PlainLabel("x");
    NoDelayKept("x");
    assert FindSize("x") == None;
    assert SizeOf(["x"]) == None;
    EhloTellsTheTerms(s, "x");
  }

  lemma Size2000Text()
    ensures '.' !in "size2000" && '-' !in "size2000" && 'r' !in "size2000" && 'n' !in "size2000"
    ensures !IsDelay("size2000")
  {
    assert "size2000"[0] == 's' && "dlay"[0] == 'd';
  }

  lemma Size2000Label()
    ensures LabelParts("size2000") == ["size2000"] && WithoutDelays(["size2000"]) == ["size2000"]
    ensures var ps := ["size2000"]; !Mentions(ps, "reject") && !Mentions(ps, "noehl") && !Mentions(ps, "nosize")
  {
    hide Mentions, WithoutDelays, LabelParts, IsDelay, Lower;
    Size2000Text();
    NoHeloError("size2000");
    OneLabel("size2000");
    PlainLabel("size2000");
    NoDelayKept("size2000");
  }

  lemma EhloSize2000(s: Session)
    requires s.state == State.Mail
    ensures var f := OnEhlo(s, "size2000");
      f.end == Continue && f.next.advertisedSize == 2000
      && f.next.state == s.state && f.next.errors == s.errors && f.next.tls == s.tls
  {
    hide Is421, SplitLines, Mechanisms, EhloReply, DelayAfter, Mentions, SizeOf, WithoutDelays, LabelParts;
    Size2000Label();
    Size2000();
    EhloTellsTheTerms(s, "size2000");
  }

  function Typed(cmd: Command): Event {
    Event(Spell(cmd), None, Oracle(Stored, [], AuthFailed, true))
  }

  const SMALL_EHLO := Command(EHLO, ["size2000"])
  const PLAIN_EHLO := Command(EHLO, ["x"])
  const TLS_CMD := Command(STARTTLS, [])

  lemma EhloStep(env: Env, s: Session, host: string)
    requires s.state == Helo && ParseHelo(host) == None && Lower(host) == host && IsWordText(host) && |host| <= 100
    ensures Step(env, s, Typed(Command(EHLO, [host]))) == OnEhlo(s.(heloName := host, state := State.Mail), host)
  {
    hide ParseLine, Spell, OnEhlo, ParseHelo, Lower, OnAuth, OnMail, OnRcpt, OnData, OnBdat, VrfyText, IsWordText;
    ShortLine(Command(EHLO, [host]));
  }

  lemma TlsStep(env: Env, s: Session)
    requires s.state == State.Mail && s.errors == NO_ERRORS && !s.tls
    ensures Step(env, s, Typed(TLS_CMD)) == Effect(s.(tls := true, state := Helo), [R_READY], Continue, None, None)
  {
    hide ParseLine, Spell, OnHelo, OnAuth, OnMail, OnRcpt, OnData, OnBdat, OnRset, OnNoop, OnQuit, VrfyText;
    hide Is421, FormatError, EqualFold, Upper;
    ShortLine(TLS_CMD);
    assert Step(env, s, Typed(TLS_CMD)) == Handle(env, s, TLS_CMD, Typed(TLS_CMD));
  }

  lemma LowerFixed(s: string)
    requires forall c :: c in s ==> !('A' <= c <= 'Z')
    ensures Lower(s) == s
  {
    assert forall i :: 0 <= i < |s| ==> s[i] in s && LowerChar(s[i]) == s[i];
  }

  lemma NoHeloError(host: string)
    requires host == "x" || host == "size2000" || host == "nopipelining"
    ensures ParseHelo(host) == None && Lower(host) == host
  {
    hide Lower;
    assert forall c :: c in "x" || c in "size2000" || c in "nopipelining" ==> !('A' <= c <= 'Z');
    LowerFixed(host);
    assert host[0] != 'h' && host[0] != 'e';
    assert "helo"[0] == 'h' && "ehlo"[0] == 'e';
  }

  /** EHLO size2000, STARTTLS, EHLO x: the last reply announces 10485760 bytes, and 2000 are enforced. */
  lemma StaleSizeIsEnforced(env: Env)
    ensures var r := RunAll(env, Start(true, false), [Typed(SMALL_EHLO), Typed(TLS_CMD), Typed(PLAIN_EHLO)]);
      r.end == Continue && |r.log| == 3 && |r.log[2].replies| == 1
      && Said(SplitLines(r.log[2].replies[0]), "SIZE " + FormatNat(MAX_MESSAGE)) && MaxSize(r.session) == 2000
  {
    hide Step, SplitLines, OnEhlo, ParseHelo, Spell, Lower, RunAll, Said;
    var a, b, c, r0 := Typed(SMALL_EHLO), Typed(TLS_CMD), Typed(PLAIN_EHLO), Start(true, false);
    RunOfThree(env, r0, a, b, c);
    var r1 := Extend(env, r0, a);
    var r2 := Extend(env, r1, b);
    NoHeloError("size2000");
    NoHeloError("x");
    EhloStep(env, r0.session, "size2000");
    EhloSize2000(r0.session.(heloName := "size2000", state := State.Mail));
    TlsStep(env, r1.session);
    EhloStep(env, r2.session, "x");
    EhloX(r2.session.(heloName := "x", state := State.Mail));
  }

  // ---------- Replies withheld though PIPELINING is off ----------

  const NO_PIPELINING := Command(EHLO, ["nopipelining"])

  lemma NoPipeliningText()
    ensures '.' !in "nopipelining" && '-' !in "nopipelining" && 'r' !in "nopipelining" && 'h' !in "nopipelining"
    ensures !IsDelay("nopipelining")
  {
    assert "nopipelining"[0] == 'n' && "dlay"[0] == 'd';
  }

  lemma NoPipeliningLabel()
    ensures LabelParts("nopipelining") == ["nopipelining"] && WithoutDelays(["nopipelining"]) == ["nopipelining"]
    ensures var ps := ["nopipelining"];
      !Mentions(ps, "reject") && !Mentions(ps, "noehl") && Mentions(ps, "nopipelining")
  {
    hide WithoutDelays, LabelParts, IsDelay, Lower, Contains;
    var host := "nopipelining";
    NoPipeliningText();
    NoHeloError(host);
    OneLabel(host);
    NotContained(host, "reject", 0);
    NotContained(host, "noehl", 3);
    NoDelayKept(host);
    ContainsItself(host);
  }

  lemma EhloNoPipelining(s: Session)
    requires s.state == State.Mail
    ensures var f := OnEhlo(s, "nopipelining");
      f.end == Continue && |f.replies| == 1 && !f.next.caps.pipelining && !Said(SplitLines(f.replies[0]), "PIPELINING")
  {
    hide Is421, SplitLines, Mechanisms, EhloReply, DelayAfter, Mentions, WithoutDelays, LabelParts, SizeOf, Said;
    NoPipeliningLabel();
    EhloTellsTheTerms(s, "nopipelining");
  }

  lemma ContainsItself(s: string)
    ensures Contains(s, s)
  {
    assert s[0..] == s;
    assert At(s, 0, s);
  }

  lemma RunOfThree(env: Env, r: Run, a: Event, b: Event, c: Event)
    ensures [a, b, c][..2] == [a, b] && [a, b][..1] == [a] && [a][..0] == []
    ensures RunAll(env, r, []) == r && RunAll(env, r, [a]) == Extend(env, r, a)
    ensures RunAll(env, r, [a, b]) == Extend(env, Extend(env, r, a), b)
    ensures RunAll(env, r, [a, b, c]) == Extend(env, Extend(env, Extend(env, r, a), b), c)
  {
    hide Extend;
    assert [a, b, c][..2] == [a, b] && [a, b][..1] == [a] && [a][..0] == [];
  }

  lemma PipeOfThree(env: Env, probe: nat -> bool, r: Run, a: Event, b: Event, c: Event)
    requires var r1 := Extend(env, r, a); r.end == Continue && r1.end == Continue && Extend(env, r1, b).end == Continue
    ensures var r1 := Extend(env, r, a);
      var r2 := Extend(env, r1, b);
      var p1 := PipeStep(IDLE, r.session, a.line, Probed(probe, |r.log|), Step(env, r.session, a));
      var p2 := PipeStep(p1, r1.session, b.line, Probed(probe, |r1.log|), Step(env, r1.session, b));
      PipeAll(env, probe, r, [a, b, c])
      == PipeStep(p2, r2.session, c.line, Probed(probe, |r2.log|), Step(env, r2.session, c))
  {
    hide Step, Extend, PipeStep;
    RunOfThree(env, r, a, b, c);
    assert PipeAll(env, probe, r, []) == IDLE;
    assert [] + [a] == [a] && [a] + [b] == [a, b] && [a, b] + [c] == [a, b, c];
    OneMoreEvent(env, probe, r, [], a);
    OneMoreEvent(env, probe, r, [a], b);
    OneMoreEvent(env, probe, r, [a, b], c);
  }

  /** After a breaking command, input waiting behind an EHLO is enough for its reply to be withheld. */
  lemma PipeAfterBreak(p: Pipe, s1: Session, line1: string, waiting1: bool, f1: Effect, s2: Session, line2: string,
                       f2: Effect)
    requires BreaksIn(s1, line1) && !BreaksIn(s2, line2) && |line2| <= MAX_LINE && s2.caps.pipelining
    requires f2.end == Continue
    ensures PipeStep(PipeStep(p, s1, line1, waiting1, f1), s2, line2, true, f2) == Pipe(true, f2.replies)
  {
    hide BreaksIn;
    assert [] + f2.replies == f2.replies;
  }

  /** EHLO x and STARTTLS leave a session in HELO state in which PIPELINING is in force. */
  lemma BackInHelo(env: Env)
    ensures var r1 := Extend(env, Start(true, false), Typed(PLAIN_EHLO));
      var r2 := Extend(env, r1, Typed(TLS_CMD));
      && r1.end == Continue && r2.end == Continue && |r1.log| == 1 && |r2.log| == 2
      && r1.session.state == State.Mail && r2.session.state == Helo && r2.session.caps.pipelining
  {
    hide Step, SplitLines, OnEhlo, ParseHelo, Spell, Lower, Said;
    var r0 := Start(true, false);
    NoHeloError("x");
    EhloStep(env, r0.session, "x");
    EhloX(r0.session.(heloName := "x", state := State.Mail));
    TlsStep(env, Extend(env, r0, Typed(PLAIN_EHLO)).session);
  }

  /** EHLO x, STARTTLS, EHLO nopipelining with more input waiting: the last reply announces no PIPELINING, queued. */
  lemma QueuedThoughOff(env: Env, probe: nat -> bool)
    requires Probed(probe, 2)
    ensures var es := [Typed(PLAIN_EHLO), Typed(TLS_CMD), Typed(NO_PIPELINING)];
      var r, p := RunAll(env, Start(true, false), es), PipeAll(env, probe, Start(true, false), es);
      && r.end == Continue && |r.log| == 3 && |r.log[2].replies| == 1 && p == Pipe(true, r.log[2].replies)
      && !r.session.caps.pipelining && !Said(SplitLines(r.log[2].replies[0]), "PIPELINING")
  {
    hide Step, SplitLines, OnEhlo, ParseHelo, Spell, Lower, Said, BreaksIn, PipeAll, PipeStep, RunAll, Typed, Probed;
    var a, b, c, r0 := Typed(PLAIN_EHLO), Typed(TLS_CMD), Typed(NO_PIPELINING), Start(true, false);
    RunOfThree(env, r0, a, b, c);
    BackInHelo(env);
    var r1 := Extend(env, r0, a);
    var r2 := Extend(env, r1, b);
    NoHeloError("nopipelining");
    EhloStep(env, r2.session, "nopipelining");
    EhloNoPipelining(r2.session.(heloName := "nopipelining", state := State.Mail));
    PipeOfThree(env, probe, r0, a, b, c);
    TypedLine(TLS_CMD);
    TypedLine(NO_PIPELINING);
    TlsBreaks(r1.session);
    EhloDoesNotBreak(r2.session, "nopipelining");
    var p1 := PipeStep(IDLE, r0.session, a.line, Probed(probe, 0), Step(env, r0.session, a));
    PipeAfterBreak(p1, r1.session, b.line, Probed(probe, 1), Step(env, r1.session, b), r2.session, c.line,
                   Step(env, r2.session, c));
  }

  lemma TypedLine(cmd: Command)
    ensures Typed(cmd).line == Spell(cmd)
  {
  }

  lemma TlsBreaks(s: Session)
    requires s.state == State.Mail
    ensures BreaksIn(s, Spell(TLS_CMD))
  {
    hide ParseLine, Spell;
    ShortLine(TLS_CMD);
  }

  lemma EhloDoesNotBreak(s: Session, host: string)
    requires s.state == Helo && IsWordText(host) && |host| <= 100
    ensures !BreaksIn(s, Spell(Command(EHLO, [host]))) && |Spell(Command(EHLO, [host]))| <= MAX_LINE
  {
    hide ParseLine, Spell, IsWordText;
    ShortLine(Command(EHLO, [host]));
  }

  // ---------- A refused chunk that is read as commands ----------

  const QUIT_CMD := Command(QUIT, [])

  function PlainItem(cmd: Command): Item {
    Item(Spell(cmd), true, "", "", false)
  }

  /** RSET; MAIL; BDAT with `n` bytes to follow, of which the first are a QUIT line. */
  function TooBig(arg: string, n: nat): seq<Item> {
    [PlainItem(RSET_CMD), PlainItem(Command(MAIL, [arg])), PlainItem(Command(BDAT, [FormatNat(n)])), PlainItem(QUIT_CMD)]
  }

  lemma SpelledIsLine(cmd: Command)
    requires |cmd.args| <= 1 && (cmd.args != [] ==> IsWordText(cmd.args[0]))
    ensures IsLine(Spell(cmd))
  {
    var verb := VerbName(cmd.verb);
    hide VerbName;
    VerbWord(cmd.verb);
    WordIsClean(verb);
    if cmd.args != [] {
      JoinCons(verb, cmd.args, " ");
      assert Join(cmd.args, " ") == cmd.args[0];
      assert Spell(cmd) == verb + " " + cmd.args[0];
      WordIsClean(cmd.args[0]);
    } else {
      assert Spell(cmd) == verb;
    }
  }

  lemma WordIsClean(w: string)
    requires IsWordText(w)
    ensures w != "" && !IsSpace(w[0]) && !IsSpace(w[|w| - 1]) && '\n' !in w
  {
    assert forall i :: 0 <= i < |w| ==> IsWord(w[i]);
  }

  lemma NeedsNothing(s: Session, cmd: Command)
    requires |cmd.args| <= 1 && (cmd.args != [] ==> IsWordText(cmd.args[0]) && |cmd.args[0]| <= 1000)
    requires cmd.verb != DATA && (cmd.verb == BDAT ==> cmd.args != [] && PlanChunk(s, cmd).ChunkRefused?)
    ensures NeedOf(s, Spell(cmd)) == NoData
  {
    hide ParseLine, Spell, IsWordText, PlanChunk;
    ShortLine(cmd);
  }

  lemma TooBigStep(env: Env, s: Session, n: nat, o: Oracle)
    requires s.state == State.Rcpt && s.errors == NO_ERRORS && s.bdatBuffer == "" && 0 < MaxSize(s) < n <= INT_MAX
    ensures PlanChunk(s, Command(BDAT, [FormatNat(n)])) == ChunkRefused(SizeReply(MaxSize(s)))
    ensures Step(env, s, Event(Spell(Command(BDAT, [FormatNat(n)])), None, o))
      == Effect(s, [SizeReply(MaxSize(s))], Continue, None, None)
  {
    hide ParseLine, Spell, Atoi, OnHelo, OnAuth, OnMail, OnRcpt, OnData, OnRset, OnNoop, OnStartTls, OnQuit, VrfyText;
    hide FormatNat, FormatInt, Is421, IsWordText;
    var cmd := Command(BDAT, [FormatNat(n)]);
    NumberLine(n);
    ShortLine(cmd);
    NeverA421("552", " Message size exceeds fixed maximum of " + FormatInt(MaxSize(s)) + " bytes");
    assert Dispatch(s.state, Spell(cmd)) == Accept(cmd);
  }

  lemma QuitStep(env: Env, s: Session, o: Oracle)
    requires s.state == State.Rcpt && s.errors == NO_ERRORS
    ensures Step(env, s, Event(Spell(QUIT_CMD), None, o)) == Effect(s.(state := State.Quit), [R_BYE], Eof, None, None)
  {
    hide ParseLine, Spell, OnHelo, OnAuth, OnMail, OnRcpt, OnData, OnBdat, OnRset, OnNoop, OnStartTls, VrfyText, Is421;
    ShortLine(QUIT_CMD);
    NeverA421("221", " Bye");
    assert R_BYE == "221" + " Bye";
  }

  /** What sending one more plain line does. */
  lemma SendPlain(env: Env, oracle: nat -> Oracle, r: Run, cmd: Command, items: seq<Item>)
    requires r.end == Continue && IsLine(Spell(cmd)) && NeedOf(r.session, Spell(cmd)) == NoData && IsSendable(items)
    ensures var next := Extend(env, r, Event(Spell(cmd), None, AnswerAt(oracle, |r.log|)));
      var all := [PlainItem(cmd)] + items;
      && RunItems(env, oracle, r, all) == RunItems(env, oracle, next, items)
      && (WellSent(env, oracle, r, all) <==> WellSent(env, oracle, next, items))
  {
    hide Extend, NeedOf, Spell, IsLine, IsSendable, Encode;
    var all := [PlainItem(cmd)] + items;
    assert all[0] == PlainItem(cmd) && all[1..] == items;
  }

  lemma NothingToSend(env: Env, oracle: nat -> Oracle, r: Run)
    ensures RunItems(env, oracle, r, []) == r && WellSent(env, oracle, r, []) && IsSendable([])
  {
  }

  /** Four plain lines, each of which makes the session read nothing. */
  lemma SendFour(env: Env, oracle: nat -> Oracle, r: Run, a: Command, b: Command, c: Command, d: Command)
    requires IsLine(Spell(a)) && IsLine(Spell(b)) && IsLine(Spell(c)) && IsLine(Spell(d))
    requires var r1 := Extend(env, r, Event(Spell(a), None, AnswerAt(oracle, |r.log|)));
      var r2 := Extend(env, r1, Event(Spell(b), None, AnswerAt(oracle, |r1.log|)));
      var r3 := Extend(env, r2, Event(Spell(c), None, AnswerAt(oracle, |r2.log|)));
      && r.end == Continue && r1.end == Continue && r2.end == Continue && r3.end == Continue
      && NeedOf(r.session, Spell(a)) == NoData && NeedOf(r1.session, Spell(b)) == NoData
      && NeedOf(r2.session, Spell(c)) == NoData && NeedOf(r3.session, Spell(d)) == NoData
    ensures var r1 := Extend(env, r, Event(Spell(a), None, AnswerAt(oracle, |r.log|)));
      var r2 := Extend(env, r1, Event(Spell(b), None, AnswerAt(oracle, |r1.log|)));
      var r3 := Extend(env, r2, Event(Spell(c), None, AnswerAt(oracle, |r2.log|)));
      RunBytes(env, oracle, r, Encode([PlainItem(a), PlainItem(b), PlainItem(c), PlainItem(d)]))
      == Extend(env, r3, Event(Spell(d), None, AnswerAt(oracle, |r3.log|)))
  {
    hide Extend, NeedOf, Spell, IsLine, RunItems, WellSent, RunBytes, Encode;
    var r1 := Extend(env, r, Event(Spell(a), None, AnswerAt(oracle, |r.log|)));
    var r2 := Extend(env, r1, Event(Spell(b), None, AnswerAt(oracle, |r1.log|)));
    var r3 := Extend(env, r2, Event(Spell(c), None, AnswerAt(oracle, |r2.log|)));
    var one, two, three := [PlainItem(d)], [PlainItem(c), PlainItem(d)], [PlainItem(b), PlainItem(c), PlainItem(d)];
    var four := [PlainItem(a), PlainItem(b), PlainItem(c), PlainItem(d)];
    NothingToSend(env, oracle, Extend(env, r3, Event(Spell(d), None, AnswerAt(oracle, |r3.log|))));
    assert [PlainItem(d)] + [] == one && [PlainItem(c)] + one == two && [PlainItem(b)] + two == three;
    assert [PlainItem(a)] + three == four;
    SendPlain(env, oracle, r3, d, []);
    SendPlain(env, oracle, r2, c, one);
    SendPlain(env, oracle, r1, b, two);
    SendPlain(env, oracle, r, a, three);
    FramingRoundTrip(env, oracle, r, four);
  }

  /** RSET and MAIL, whatever the outside world has to say. */
  lemma OpenedAnyhow(env: Env, tls: bool, arg: string, from: string, o1: Oracle, o2: Oracle)
    requires Names(env, arg, from)
    ensures var r0, mail := Start(true, tls), Command(MAIL, [arg]);
      var r1 := Extend(env, r0, Event(Spell(RSET_CMD), None, o1));
      var r2 := Extend(env, r1, Event(Spell(mail), None, o2));
      && r1.end == Continue && r2.end == Continue && |r1.log| == 1 && |r2.log| == 2
      && NeedOf(r0.session, Spell(RSET_CMD)) == NoData && NeedOf(r1.session, Spell(mail)) == NoData
      && r2.session == r0.session.(state := State.Rcpt, mailFrom := from, errors := ErrorsOf(from))
  {
    hide Step, Spell, ErrorsOf, NeedOf, AddressIn, ParsePrefixed, IsWordText;
    var r0, mail := Start(true, tls), Command(MAIL, [arg]);
    var r1 := Extend(env, r0, Event(Spell(RSET_CMD), None, o1));
    ResetStep(env, r0.session, o1);
    MailStep(env, r1.session, arg, from, o2);
    NeedsNothing(r0.session, RSET_CMD);
    NeedsNothing(r1.session, mail);
  }

  /**
    A BDAT refused for its size does not consume its chunk: the first line of the chunk is taken for a command, here
    QUIT, and ends the session.
  */
  lemma ChunkIsReadAsCommands(env: Env, oracle: nat -> Oracle, tls: bool, arg: string, from: string, n: nat)
    requires Names(env, arg, from) && ErrorsOf(from) == NO_ERRORS && SIZE_MAX < n <= INT_MAX
    ensures var r := RunBytes(env, oracle, Start(true, tls), Encode(TooBig(arg, n)));
      && r.end == Eof && r.session.state == State.Quit && |r.log| == 4
      && r.log[2].replies == [SizeReply(SIZE_MAX)] && r.log[3].line == Spell(QUIT_CMD) && r.log[3].replies == [R_BYE]
  {
    hide Step, Spell, ErrorsOf, RunBytes, Encode, NeedOf, PlanChunk, FormatNat, SizeReply, IsLine, IsWordText;
    hide AddressIn, ParsePrefixed, AnswerAt;
    var mail, bdat := Command(MAIL, [arg]), Command(BDAT, [FormatNat(n)]);
    NumberLine(n);
    SpelledIsLine(RSET_CMD);
    SpelledIsLine(mail);
    SpelledIsLine(bdat);
    SpelledIsLine(QUIT_CMD);
    var r0, o1, o2 := Start(true, tls), AnswerAt(oracle, 0), AnswerAt(oracle, 1);
    OpenedAnyhow(env, tls, arg, from, o1, o2);
    var r2 := Extend(env, Extend(env, r0, Event(Spell(RSET_CMD), None, o1)), Event(Spell(mail), None, o2));
    TooBigStep(env, r2.session, n, AnswerAt(oracle, 2));
    NeedsNothing(r2.session, bdat);
    NeedsNothing(r2.session, QUIT_CMD);
    QuitStep(env, r2.session, AnswerAt(oracle, 3));
    SendFour(env, oracle, r0, RSET_CMD, mail, bdat, QUIT_CMD);
  }
}
