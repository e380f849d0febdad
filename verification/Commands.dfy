/** The SMTP states, the command line grammar and the table of commands each state admits. */
module Commands {
  import opened Strings

  datatype State = Greeting | Helo | Auth | Mail | Rcpt | Data | Bdat | Quit

  function StateName(s: State): string {
    match s
    case Greeting => "GREETING"
    case Helo => "HELO"
    case Auth => "AUTH"
    case Mail => "MAIL"
    case Rcpt => "RCPT"
    case Data => "DATA"
    case Bdat => "BDAT"
    case Quit => "QUIT"
  }

  datatype Verb = HELO | EHLO | AUTH | MAIL | RCPT | DATA | BDAT | RSET | NOOP | QUIT | STARTTLS | VRFY

  function VerbName(v: Verb): (name: string)
    ensures 4 <= |name| <= 8
  {
    match v
    case HELO => "HELO"
    case EHLO => "EHLO"
    case AUTH => "AUTH"
    case MAIL => "MAIL"
    case RCPT => "RCPT"
    case DATA => "DATA"
    case BDAT => "BDAT"
    case RSET => "RSET"
    case NOOP => "NOOP"
    case QUIT => "QUIT"
    case STARTTLS => "STARTTLS"
    case VRFY => "VRFY"
  }

  /** The verb a command name denotes; names outside the table denote none. */
  function VerbOf(name: string): (r: Option<Verb>)
    ensures r.Some? ==> VerbName(r.value) == name
    ensures r.None? ==> forall v: Verb :: VerbName(v) != name
  {
    if name == "HELO" then Some(HELO)
    else if name == "EHLO" then Some(EHLO)
    else if name == "AUTH" then Some(AUTH)
    else if name == "MAIL" then Some(MAIL)
    else if name == "RCPT" then Some(RCPT)
    else if name == "DATA" then Some(DATA)
    else if name == "BDAT" then Some(BDAT)
    else if name == "RSET" then Some(RSET)
    else if name == "NOOP" then Some(NOOP)
    else if name == "QUIT" then Some(QUIT)
    else if name == "STARTTLS" then Some(STARTTLS)
    else if name == "VRFY" then Some(VRFY)
    else None
  }

  datatype Command = Command(verb: Verb, args: seq<string>)

  /** The command on a line: its first word in upper case, if that is a known verb, and the other words. */
  function ParseLine(line: string): Option<Command> {
    var words := Fields(line);
    if words == [] then None
    else match VerbOf(Upper(words[0]))
      case None => None
      case Some(v) => Some(Command(v, words[1..]))
  }

  /** A command written out: the verb and its arguments, separated by spaces. */
  function Spell(cmd: Command): string {
    Join([VerbName(cmd.verb)] + cmd.args, " ")
  }

  lemma VerbWord(v: Verb)
    ensures IsWordText(VerbName(v))
  {
  }

  lemma VerbUpper(v: Verb)
    ensures Upper(VerbName(v)) == VerbName(v)
  {
  }

  lemma VerbNamed(v: Verb)
    ensures VerbOf(VerbName(v)) == Some(v)
  {
    var r := VerbOf(VerbName(v));
    assert r.Some?;
    NamesDiffer(v, r.value);
  }

  lemma NamesDiffer(v: Verb, w: Verb)
    requires VerbName(v) == VerbName(w)
    ensures v == w
  {
    var n := VerbName(v);
    assert n[1] == VerbName(w)[1] && n[2] == VerbName(w)[2] && n[0] == VerbName(w)[0];
  }

  /** The command words of the protocol. */
  lemma CommandWords()
    ensures VerbName(HELO) == "HELO" && VerbName(EHLO) == "EHLO" && VerbName(AUTH) == "AUTH" && VerbName(MAIL) == "MAIL"
    ensures VerbName(RCPT) == "RCPT" && VerbName(DATA) == "DATA" && VerbName(BDAT) == "BDAT" && VerbName(RSET) == "RSET"
    ensures VerbName(NOOP) == "NOOP" && VerbName(QUIT) == "QUIT" && VerbName(VRFY) == "VRFY"
    ensures VerbName(STARTTLS) == "STARTTLS"
  {
  }

  lemma WordInAnyCase(w: string, t: string)
    requires IsWordText(t) && SameButCase(w, t)
    ensures IsWordText(w)
  {
    forall i | 0 <= i < |w|
      ensures IsWord(w[i])
    {
      assert IsWord(t[i]) && SameLetter(w[i], t[i]);
    }
  }

  /** Whatever is written out is parsed back, however the letters of its command word are capitalised. */
  lemma ParsesInAnyCase(word: string, cmd: Command)
    requires SameButCase(word, VerbName(cmd.verb))
    requires forall i :: 0 <= i < |cmd.args| ==> IsWordText(cmd.args[i])
    ensures ParseLine(Join([word] + cmd.args, " ")) == Some(cmd)
  {
    var words := [word] + cmd.args;
    hide VerbName, VerbOf, Upper, SameButCase;
    VerbWord(cmd.verb);
    WordInAnyCase(word, VerbName(cmd.verb));
    UpperCompares(word, VerbName(cmd.verb));
    VerbUpper(cmd.verb);
    VerbNamed(cmd.verb);
    FieldsOfJoin(words);
    assert words[1..] == cmd.args;
  }

  /** A line is the command its first word names, in any letter case, with the words after it. */
  lemma CommandLines(word: string, args: seq<string>)
    requires forall i :: 0 <= i < |args| ==> IsWordText(args[i])
    ensures var line := Join([word] + args, " ");
      && (SameButCase(word, "HELO") ==> ParseLine(line) == Some(Command(HELO, args)))
      && (SameButCase(word, "EHLO") ==> ParseLine(line) == Some(Command(EHLO, args)))
      && (SameButCase(word, "AUTH") ==> ParseLine(line) == Some(Command(AUTH, args)))
      && (SameButCase(word, "MAIL") ==> ParseLine(line) == Some(Command(MAIL, args)))
      && (SameButCase(word, "RCPT") ==> ParseLine(line) == Some(Command(RCPT, args)))
      && (SameButCase(word, "DATA") ==> ParseLine(line) == Some(Command(DATA, args)))
      && (SameButCase(word, "BDAT") ==> ParseLine(line) == Some(Command(BDAT, args)))
      && (SameButCase(word, "RSET") ==> ParseLine(line) == Some(Command(RSET, args)))
      && (SameButCase(word, "NOOP") ==> ParseLine(line) == Some(Command(NOOP, args)))
      && (SameButCase(word, "QUIT") ==> ParseLine(line) == Some(Command(QUIT, args)))
      && (SameButCase(word, "VRFY") ==> ParseLine(line) == Some(Command(VRFY, args)))
      && (SameButCase(word, "STARTTLS") ==> ParseLine(line) == Some(Command(STARTTLS, args)))
  {
    hide ParseLine, SameButCase, VerbName, Join, IsWordText;
    CommandWords();
    forall v: Verb | SameButCase(word, VerbName(v))
      ensures ParseLine(Join([word] + args, " ")) == Some(Command(v, args))
    {
      ParsesInAnyCase(word, Command(v, args));
    }
  }

  /** Whatever is written out is parsed back. */
  lemma ParseSpelled(cmd: Command)
    requires forall i :: 0 <= i < |cmd.args| ==> IsWordText(cmd.args[i])
    ensures ParseLine(Spell(cmd)) == Some(cmd)
  {
    hide VerbName, ParseLine;
    ParsesInAnyCase(VerbName(cmd.verb), cmd);
  }

  predicate ArgsValid(c: Command) {
    match c.verb
    case HELO | EHLO | AUTH | VRFY => |c.args| >= 1
    case MAIL => |c.args| >= 1 && "FROM:" <= Upper(c.args[0])
    case RCPT => |c.args| >= 1 && "TO:" <= Upper(c.args[0])
    case BDAT => |c.args| >= 1 && (|c.args| > 1 ==> EqualFold(c.args[1], "LAST"))
    case _ => true
  }

  predicate Allowed(v: Verb, s: State) {
    match v
    case HELO | EHLO => s == Helo || s == Mail
    case AUTH => s == Mail || s == State.Auth
    case MAIL => s == Mail
    case RCPT => s == Rcpt
    case DATA => s == Rcpt
    case BDAT => s == Rcpt || s == Bdat
    case RSET => s == Helo || s == Mail || s == Rcpt || s == State.Auth
    case NOOP | QUIT => s != Greeting && s != State.Quit
    case STARTTLS => s == Helo || s == Mail
    case VRFY => true
  }

  /** The state test a handler repeats on its own, after the table has let the command through. */
  predicate HandlerGuard(v: Verb, s: State) {
    match v
    case HELO | EHLO => s == Helo
    case AUTH => s == Mail || s == State.Auth
    case MAIL => s == Mail
    case RCPT | DATA => s == Rcpt
    case BDAT => s == Rcpt || s == Bdat
    case _ => true
  }

  /** What each command demands of its arguments, letter case aside. */
  lemma ArgsDemanded(c: Command)
    ensures ArgsValid(c) <==>
      if c.verb == MAIL then c.args != [] && StartsInAnyCase(c.args[0], "FROM:")
      else if c.verb == RCPT then c.args != [] && StartsInAnyCase(c.args[0], "TO:")
      else if c.verb == BDAT then c.args != [] && (|c.args| == 1 || SameButCase(c.args[1], "LAST"))
      else c.args != [] || c.verb !in {HELO, EHLO, AUTH, VRFY}
  {
    hide Upper, SameButCase, EqualFold;
    if c.args != [] {
      FixedWords();
      PrefixInAnyCase("FROM:", c.args[0]);
      PrefixInAnyCase("TO:", c.args[0]);
    }
    if |c.args| > 1 {
      FoldCompares(c.args[1], "LAST");
    }
  }

  lemma FixedWords()
    ensures Upper("FROM:") == "FROM:" && Upper("TO:") == "TO:"
  {
    assert forall c :: c in "FROM:" || c in "TO:" ==> !('a' <= c <= 'z');
    CaseFixed("FROM:");
    CaseFixed("TO:");
  }

  /** The commands a state admits, state by state. */
  function AdmittedIn(s: State): set<Verb> {
    match s
    case Greeting => {VRFY}
    case Helo => {HELO, EHLO, RSET, NOOP, QUIT, STARTTLS, VRFY}
    case Auth => {AUTH, RSET, NOOP, QUIT, VRFY}
    case Mail => {HELO, EHLO, AUTH, MAIL, RSET, NOOP, QUIT, STARTTLS, VRFY}
    case Rcpt => {RCPT, DATA, BDAT, RSET, NOOP, QUIT, VRFY}
    case Data => {NOOP, QUIT, VRFY}
    case Bdat => {BDAT, NOOP, QUIT, VRFY}
    case Quit => {VRFY}
  }

  /** The table, which lists the states of each command, admits just these. */
  lemma AdmittedExactly(v: Verb, s: State)
    ensures Allowed(v, s) <==> v in AdmittedIn(s)
  {
  }

  predicate Breaks(v: Verb) {
    v == DATA || v == BDAT || v == AUTH || v == STARTTLS || v == QUIT
  }
}
