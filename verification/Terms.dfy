/** The terms an EHLO announces, the terms the session enforces, and how long both last. */
module Terms {
  import opened Strings
  import opened Commands
  import opened ErrorPattern
  import opened Replies
  import opened Ehlo
  import opened SessionModel
  import opened Moves

  // ---------- The reply ----------

  predicate IsContinuation(l: string) {
    "250-" <= l && '\r' !in l
  }

  lemma MechanismIsClean(part: string)
    ensures '\r' !in MechanismOf(part)
  {
    hide Contains;
    assert '\r' !in "PLAIN" && '\r' !in "LOGIN" && '\r' !in "XOAUTH2";
    assert '\r' !in "CRAM-MD5 CRAM-SHA256";
  }

  lemma AllMechanismsAreClean()
    ensures '\r' !in ALL_MECHANISMS
  {
  }

  lemma {:induction false} MechanismsAreClean(parts: seq<string>)
    ensures '\r' !in Mechanisms(parts) && '\r' !in LastMechanism(parts)
  {
    hide MechanismOf, Lower;
    AllMechanismsAreClean();
    if parts != [] {
      MechanismsAreClean(parts[..|parts| - 1]);
      MechanismIsClean(Lower(parts[|parts| - 1]));
    }
  }

  lemma {:induction false} AnnouncedAreContinuations(os: seq<Offer>)
    requires forall i :: 0 <= i < |os| ==> '\r' !in os[i].keyword
    ensures forall i :: 0 <= i < |Announced(os)| ==> IsContinuation(Announced(os)[i])
  {
    if os != [] {
      var n := |os| - 1;
      AnnouncedAreContinuations(os[..n]);
      assert IsContinuation("250-" + os[n].keyword);
    }
  }

  lemma KeywordsAreClean(auth: Option<string>, caps: Capabilities, size: nat)
    requires auth.Some? ==> '\r' !in auth.value
    ensures var os := Offers(auth, caps, size); forall i :: 0 <= i < |os| ==> '\r' !in os[i].keyword
  {
    hide FormatNat;
    NotInDigits('\r', size);
    FixedKeywordsAreClean();
    var os := Offers(auth, caps, size);
    assert '\r' !in "SIZE " && '\r' !in "AUTH ";
    assert '\r' !in os[1].keyword;
    assert '\r' !in os[3].keyword;
  }

  lemma FixedKeywordsAreClean()
    ensures '\r' !in "badsmtp.test" && '\r' !in "8BITMIME" && '\r' !in "PIPELINING" && '\r' !in "STARTTLS"
    ensures '\r' !in "CHUNKING" && '\r' !in "SMTPUTF8" && '\r' !in "ENHANCEDSTATUSCODES"
  {
  }

  lemma {:induction false} AnnouncedIff(os: seq<Offer>, k: nat)
    requires k < |os|
    requires forall i :: 0 <= i < |os| && i != k ==> os[i].keyword != os[k].keyword
    ensures "250-" + os[k].keyword in Announced(os) <==> os[k].on
  {
    var n := |os| - 1;
    var l := "250-" + os[k].keyword;
    forall o: Offer | o.keyword != os[k].keyword
      ensures l !in LineOf(o)
    {
      SameRest("250-", o.keyword, os[k].keyword);
    }
    if k < n {
      AnnouncedIff(os[..n], k);
    } else {
      AnnouncedNot(os[..n], os[k].keyword);
    }
  }

  lemma {:induction false} AnnouncedNot(os: seq<Offer>, keyword: string)
    requires forall i :: 0 <= i < |os| ==> os[i].keyword != keyword
    ensures "250-" + keyword !in Announced(os)
  {
    if os != [] {
      var n := |os| - 1;
      AnnouncedNot(os[..n], keyword);
      SameRest("250-", os[n].keyword, keyword);
    }
  }

  lemma KeywordsDiffer(auth: Option<string>, caps: Capabilities, size: nat)
    ensures var os := Offers(auth, caps, size);
      forall i, j :: 0 <= i < j < |os| ==> os[i].keyword != os[j].keyword
  {
    var os := Offers(auth, caps, size);
    assert os[0].keyword[0] == 'b' && os[1].keyword[0] == 'A' && os[2].keyword[0] == '8';
    assert os[3].keyword[..2] == "SI" && os[4].keyword[0] == 'P' && os[5].keyword[..2] == "ST";
    assert os[6].keyword[0] == 'C' && os[7].keyword[..2] == "SM" && os[8].keyword[0] == 'E';
  }

  ghost predicate Said(lines: seq<string>, keyword: string) {
    "250-" + keyword in lines
  }

  /** Each announced extension is a flag of the session, and the only SIZE line carries the size. */
  ghost predicate LinesAreFlags(lines: seq<string>, caps: Capabilities, size: int) {
    && (Said(lines, "8BITMIME") <==> caps.eightBit)
    && (Said(lines, "PIPELINING") <==> caps.pipelining)
    && (Said(lines, "SMTPUTF8") <==> caps.smtputf8)
    && (Said(lines, "ENHANCEDSTATUSCODES") <==> caps.enhanced)
    && (Said(lines, "CHUNKING") <==> caps.chunking)
    && (Said(lines, "STARTTLS") <==> caps.starttls)
    && (forall n: nat :: Said(lines, "SIZE " + FormatNat(n)) <==> caps.size && n == size)
  }

  /** The only AUTH line carries the mechanisms offered. */
  ghost predicate LinesOfferAuth(lines: seq<string>, auth: Option<string>) {
    forall m: string :: Said(lines, "AUTH " + m) <==> auth == Some(m)
  }

  lemma FlagsShown(auth: Option<string>, caps: Capabilities, size: nat)
    ensures LinesAreFlags(ReplyLines(auth, caps, size), caps, size)
  {
    hide Announced, FormatNat;
    var os := Offers(auth, caps, size);
    var lines := ReplyLines(auth, caps, size);
    KeywordsDiffer(auth, caps, size);
    forall k: nat | 2 <= k < 9
      ensures Said(lines, os[k].keyword) <==> os[k].on
    {
      AnnouncedIff(os, k);
      NotOkLine(os[k].keyword);
    }
    assert os[2].keyword == "8BITMIME" && os[4].keyword == "PIPELINING" && os[5].keyword == "STARTTLS";
    assert os[6].keyword == "CHUNKING" && os[7].keyword == "SMTPUTF8" && os[8].keyword == "ENHANCEDSTATUSCODES";
    forall n: nat
      ensures Said(lines, "SIZE " + FormatNat(n)) <==> caps.size && n == size
    {
      if n == size {
        assert os[3].keyword == "SIZE " + FormatNat(size);
      } else {
        OtherSizeNotSaid(auth, caps, size, n);
      }
    }
  }

  lemma OtherSizeNotSaid(auth: Option<string>, caps: Capabilities, size: nat, n: nat)
    requires n != size
    ensures !Said(ReplyLines(auth, caps, size), "SIZE " + FormatNat(n))
  {
    hide Announced, FormatNat;
    var os, other := Offers(auth, caps, size), Offers(auth, caps, n);
    KeywordsDiffer(auth, caps, n);
    ValueOfFormat(n);
    ValueOfFormat(size);
    SameRest("SIZE ", FormatNat(n), FormatNat(size));
    assert forall i :: 0 <= i < 9 && i != 3 ==> os[i].keyword == other[i].keyword;
    AnnouncedNot(os, other[3].keyword);
    NotOkLine(other[3].keyword);
  }

  lemma AuthShown(auth: Option<string>, caps: Capabilities, size: nat)
    ensures LinesOfferAuth(ReplyLines(auth, caps, size), auth)
  {
    hide Announced, FormatNat;
    var os := Offers(auth, caps, size);
    var lines := ReplyLines(auth, caps, size);
    forall m: string
      ensures Said(lines, "AUTH " + m) <==> auth == Some(m)
    {
      var other := Offers(Some(m), caps, size);
      KeywordsDiffer(Some(m), caps, size);
      assert forall i :: 0 <= i < 9 && i != 1 ==> os[i].keyword == other[i].keyword;
      assert other[1].keyword == "AUTH " + m;
      NotOkLine("AUTH " + m);
      SameRest("AUTH ", m, if auth.Some? then auth.value else "");
      if os[1].keyword == other[1].keyword {
        AnnouncedIff(os, 1);
      } else {
        AnnouncedNot(os, other[1].keyword);
      }
    }
  }

  lemma SameRest(start: string, a: string, b: string)
    ensures start + a == start + b ==> a == b
  {
    assert (start + a)[|start|..] == a && (start + b)[|start|..] == b;
  }

  lemma NotOkLine(keyword: string)
    ensures "250-" + keyword != R_OK
  {
    assert ("250-" + keyword)[3] == '-' && R_OK[3] == ' ';
  }

  /** A session about to answer an EHLO it does not reject. */
  ghost predicate Welcomes(hostname: string) {
    !Mentions(LabelParts(hostname), "reject") && !Mentions(LabelParts(hostname), "noehl")
  }

  /** The mechanisms an EHLO with these label parts is offered. */
  ghost function AuthOffer(parts: seq<string>): Option<string> {
    if Mentions(parts, "noauth") then None else Some(Mechanisms(parts))
  }

  /**
    For every host name the EHLO reply is a list of "250-" lines ended by one "250 OK", readable line by line;
    its extension lines are exactly the flags the session will go by, and it has no other SIZE or AUTH line than the
    one for the announced size and the offered mechanisms.
  */
  lemma EhloTellsTheTerms(s: Session, hostname: string)
    requires Welcomes(hostname)
    ensures |OnEhlo(s, hostname).replies| == 1
    ensures var f := OnEhlo(s, hostname);
      var lines, parts := SplitLines(f.replies[0]), WithoutDelays(LabelParts(hostname));
      && lines != [] && lines[|lines| - 1] == R_OK
      && (forall i :: 0 <= i < |lines| - 1 ==> IsContinuation(lines[i]))
      && LinesAreFlags(lines, f.next.caps, AnnouncedSize(parts)) && LinesOfferAuth(lines, AuthOffer(parts))
    ensures !Is421(OnEhlo(s, hostname).replies[0])
  {
    hide Is421, SplitLines, Offers, Announced, LinesAreFlags, LinesOfferAuth, Mentions, LabelParts, WithoutDelays;
    hide AnnouncedSize, IsContinuation, SizeOf, DelayAfter, Join, Mechanisms;
    var parts := WithoutDelays(LabelParts(hostname));
    var f := OnEhlo(s, hostname);
    var auth, size := AuthOffer(parts), AnnouncedSize(parts);
    MechanismsAreClean(parts);
    KeywordsAreClean(auth, f.next.caps, size);
    AnnouncedAreContinuations(Offers(auth, f.next.caps, size));
    FlagsShown(auth, f.next.caps, size);
    AuthShown(auth, f.next.caps, size);
    var lines := ReplyLines(auth, f.next.caps, size);
    forall i | 0 <= i < |lines|
      ensures '\r' !in lines[i]
    {
      if i < |lines| - 1 {
        ContinuationIsClean(lines[i]);
      }
    }
    LinesRecovered(lines);
    ReplyStarts(auth, f.next.caps, size);
    StartsWith250(f.replies[0]);
    NeverA421("250", f.replies[0][3..]);
  }

  lemma StartsWith250(text: string)
    requires "250-" <= text
    ensures text == "250" + text[3..]
  {
    assert "250-"[..3] == "250" && text[..3] == "250-"[..3];
  }

  lemma ContinuationIsClean(l: string)
    ensures IsContinuation(l) ==> '\r' !in l
  {
  }

  /**
    The announced size is the size enforced afterwards exactly when this EHLO names a size itself or no earlier
    EHLO had lowered it.
  */
  lemma AnnouncedIsEnforced(s: Session, hostname: string)
    requires Welcomes(hostname)
    requires s.advertisedSize == 0 || SIZE_MIN <= s.advertisedSize <= SIZE_MAX
    ensures var f := OnEhlo(s, hostname);
      var parts := WithoutDelays(LabelParts(hostname));
      f.next.caps.size ==>
        (MaxSize(f.next) == AnnouncedSize(parts) <==> SizeOf(parts).Some? || MaxSize(s) == MAX_MESSAGE)
  {
    hide Is421, LabelParts, WithoutDelays, Mentions, SizeOf, EhloReply, DelayAfter;
  }

  // ---------- Lasting terms ----------

  lemma TlsStays(env: Env, s: Session, e: Event)
    ensures s.tls ==> Step(env, s, e).next.tls
  {
    hide Step, MailIn, RcptIn, ErrorsOf, LostIn, MoveIn;
    var m := StepMoves(env, s, e);
  }

  /** TLS, once on, stays on. */
  lemma {:induction false} TlsOnlyRises(env: Env, r: Run, es: seq<Event>)
    ensures r.session.tls ==> RunAll(env, r, es).session.tls
  {
    hide Step;
    if es != [] {
      var p := RunAll(env, r, es[..|es| - 1]);
      TlsOnlyRises(env, r, es[..|es| - 1]);
      TlsStays(env, p.session, es[|es| - 1]);
    }
  }

  lemma TermsStep(env: Env, s: Session, e: Event)
    requires s.state != Helo
    ensures var t := Step(env, s, e).next;
      t.tls == s.tls ==> t.state != Helo && SameTerms(s, t)
  {
    hide Step, MailIn, RcptIn, ErrorsOf, LostIn, MoveIn;
    var m := StepMoves(env, s, e);
  }

  /** Once a session is past HELO, only a STARTTLS that succeeds brings it back there or changes any term. */
  lemma {:induction false} TermsLast(env: Env, r: Run, es: seq<Event>)
    requires r.session.state != Helo
    ensures var q := RunAll(env, r, es);
      q.session.tls == r.session.tls ==> q.session.state != Helo && SameTerms(r.session, q.session)
    ensures r.session.tls ==> RunAll(env, r, es).session.tls
  {
    hide Step;
    if es != [] {
      var p, e := RunAll(env, r, es[..|es| - 1]), es[|es| - 1];
      TermsLast(env, r, es[..|es| - 1]);
      TlsStays(env, p.session, e);
      if p.session.state != Helo {
        TermsStep(env, p.session, e);
      }
    }
  }

  // ---------- Announced and enforced over a run ----------

  /** An EHLO answered with a list of extensions. */
  predicate IsWelcome(x: Exchange) {
    ParseLine(x.line).Some? && ParseLine(x.line).value.verb == EHLO && |x.replies| == 1 && "250-" <= x.replies[0]
  }

  /** The host name an EHLO line gives. */
  function EhloName(line: string): string {
    if ParseLine(line).Some? && ParseLine(line).value.args != [] then ParseLine(line).value.args[0] else ""
  }

  lemma RefusalIsNoList(text: string)
    requires IsRefusal(text)
    ensures !("250-" <= text)
  {
    assert text[0] == '5';
  }

  /** Only an EHLO from HELO state that is not rejected is answered so. */
  lemma WelcomeFrom(env: Env, s: Session, e: Event) returns (s1: Session, host: string)
    requires IsWelcome(ExchangeOf(e, Step(env, s, e)))
    ensures s.state == Helo && Welcomes(host) && Step(env, s, e) == OnEhlo(s1, host)
    ensures s1.state == State.Mail && s1.advertisedSize == s.advertisedSize && s1.tls == s.tls
    ensures host == Lower(EhloName(e.line))
  {
    hide ParseLine, Is421, FormatError, ParseHelo, OnAuth, OnMail, OnRcpt, OnData, OnBdat, VrfyText, Lower, IsRefusal;
    hide EhloReply, LabelParts, Mentions, SequenceReply, WithoutDelays, Negotiate, DelayAfter, SizeOf;
    var cmd := ParseLine(e.line).value;
    SequenceReplyRefuses(cmd.verb, s.state);
    FixedRefusals();
    RefusalIsNoList(SequenceReply(cmd.verb, s.state));
    assert !("250-" <= "502 Command not implemented");
    assert Dispatch(s.state, e.line) == Accept(cmd);
    if ParseHelo(cmd.args[0]).Some? {
      ErrorIsNoList(s.caps.enhanced, ParseHelo(cmd.args[0]).value);
    }
    s1, host := s.(heloName := cmd.args[0], state := State.Mail), Lower(cmd.args[0]);
  }

  lemma FixedRefusals()
    ensures !("250-" <= R_TOO_LONG) && !("250-" <= R_SYNTAX) && !("250-" <= R_SEQUENCE) && !("250-" <= R_UNKNOWN)
  {
    assert R_TOO_LONG[0] == '5' && R_SYNTAX[0] == '5' && R_SEQUENCE[0] == '5' && R_UNKNOWN[0] == '5';
  }

  // ---------- Which host name asks for which extension ----------

  /** Some part of the first label, delays apart, contains the pattern. */
  ghost predicate Asks(hostname: string, pattern: string) {
    exists p :: p in LabelParts(hostname) && !("dlay" <= p) && Contains(p, pattern)
  }

  lemma AskedIsMentioned(hostname: string, pattern: string)
    ensures Mentions(WithoutDelays(LabelParts(Lower(hostname))), pattern) <==> Asks(hostname, pattern)
  {
    hide Contains, LabelParts, Lower, Drop;
    CaseMaps(hostname);
    LabelInAnyCase(hostname, Lower(hostname));
    var all := LabelParts(hostname);
    forall p: string
      ensures p in WithoutDelays(all) <==> p in all && !("dlay" <= p)
    {
      LeftAfterDrop(all, IsDelay, p);
    }
  }

  /** The extensions announced are those the host name does not ask to be left out. */
  ghost predicate OffersAsAsked(lines: seq<string>, hostname: string, tls: bool) {
    && (Said(lines, "8BITMIME") <==> !Asks(hostname, "no8bit"))
    && (Said(lines, "PIPELINING") <==> !Asks(hostname, "nopipelining"))
    && (Said(lines, "SMTPUTF8") <==> !Asks(hostname, "nosmtputf8"))
    && (Said(lines, "ENHANCEDSTATUSCODES") <==> !Asks(hostname, "noenhancedstatuscodes"))
    && (Said(lines, "CHUNKING") <==> !Asks(hostname, "nochunking"))
    && (Said(lines, "STARTTLS") <==> !Asks(hostname, "nostarttls") && !tls)
    && ((exists n: nat :: Said(lines, "SIZE " + FormatNat(n))) <==> !Asks(hostname, "nosize"))
    && ((exists m: string :: Said(lines, "AUTH " + m)) <==> !Asks(hostname, "noauth"))
  }

  lemma FlagsAsAsked(s: Session, name: string)
    requires Welcomes(Lower(name))
    ensures var caps, parts := OnEhlo(s, Lower(name)).next.caps, WithoutDelays(LabelParts(Lower(name)));
      && (caps.eightBit <==> !Asks(name, "no8bit")) && (caps.pipelining <==> !Asks(name, "nopipelining"))
      && (caps.smtputf8 <==> !Asks(name, "nosmtputf8")) && (caps.enhanced <==> !Asks(name, "noenhancedstatuscodes"))
      && (caps.chunking <==> !Asks(name, "nochunking")) && (caps.starttls <==> !Asks(name, "nostarttls") && !s.tls)
      && (caps.size <==> !Asks(name, "nosize")) && (AuthOffer(parts).None? <==> Asks(name, "noauth"))
  {
    hide Is421, Mentions, Asks, LabelParts, WithoutDelays, Lower, EhloReply, DelayAfter, SizeOf, Mechanisms;
    AskedIsMentioned(name, "no8bit");
    AskedIsMentioned(name, "nopipelining");
    AskedIsMentioned(name, "nosmtputf8");
    AskedIsMentioned(name, "noenhancedstatuscodes");
    AskedIsMentioned(name, "nochunking");
    AskedIsMentioned(name, "nostarttls");
    AskedIsMentioned(name, "nosize");
    AskedIsMentioned(name, "noauth");
  }

  /** Every EHLO reply that is a list announces just what its host name leaves in. */
  lemma OffersExactly(env: Env, s: Session, e: Event)
    requires IsWelcome(ExchangeOf(e, Step(env, s, e)))
    ensures OffersAsAsked(SplitLines(Step(env, s, e).replies[0]), EhloName(e.line), s.tls)
  {
    hide Step, SplitLines, Said, Asks, LabelParts, WithoutDelays, Lower, OnEhlo, EhloName, Welcomes, FormatNat;
    var s1, host := WelcomeFrom(env, s, e);
    var name, parts := EhloName(e.line), WithoutDelays(LabelParts(host));
    var lines, caps := SplitLines(Step(env, s, e).replies[0]), OnEhlo(s1, host).next.caps;
    EhloTellsTheTerms(s1, host);
    FlagsAsAsked(s1, name);
    SizesShown(lines, caps, AnnouncedSize(parts));
    AuthsShown(lines, AuthOffer(parts));
  }

  lemma SizesShown(lines: seq<string>, caps: Capabilities, size: nat)
    requires LinesAreFlags(lines, caps, size)
    ensures (exists n: nat :: Said(lines, "SIZE " + FormatNat(n))) <==> caps.size
  {
    hide Said, FormatNat;
    assert Said(lines, "SIZE " + FormatNat(size)) <==> caps.size;
  }

  lemma AuthsShown(lines: seq<string>, auth: Option<string>)
    requires LinesOfferAuth(lines, auth)
    ensures (exists m: string :: Said(lines, "AUTH " + m)) <==> auth.Some?
  {
    hide Said;
    if auth.Some? {
      assert Said(lines, "AUTH " + auth.value);
    }
  }

  /** After an EHLO whose label ends its delays with a positive one, that delay is in force, up to the maximum. */
  lemma DelayAsAsked(env: Env, s: Session, e: Event, before: seq<string>, n: nat, after: seq<string>)
    requires IsWelcome(ExchangeOf(e, Step(env, s, e))) && 0 < n <= INT_MAX
    requires LabelParts(EhloName(e.line)) == before + ["dlay" + FormatNat(n)] + after
    requires forall i :: 0 <= i < |after| ==> !("dlay" <= after[i])
    ensures Step(env, s, e).next.commandDelay == if n <= 605 then n else 605
  {
    hide Step, LabelParts, Lower, EhloName, FormatNat, Is421, EhloReply, Mentions, SizeOf, WithoutDelays, DelayAfter;
    var s1, host := WelcomeFrom(env, s, e);
    CaseMaps(EhloName(e.line));
    LabelInAnyCase(EhloName(e.line), host);
    LastDelayCounts(before, n, after, s1.commandDelay);
  }

  /** An EHLO with SIZE on announces, and the session enforces, the first size its label asks for, clamped. */
  lemma SizeAsAsked(env: Env, s: Session, e: Event, before: seq<string>, n: nat, after: seq<string>)
    requires IsWelcome(ExchangeOf(e, Step(env, s, e))) && 0 < n <= INT_MAX && !Asks(EhloName(e.line), "nosize")
    requires LabelParts(EhloName(e.line)) == before + ["size" + FormatNat(n)] + after
    requires forall i :: 0 <= i < |before| ==> RequestedSize(before[i]).None?
    ensures var size := if n < 1000 then 1000 else if n > 10485760 then 10485760 else n;
      MaxSize(Step(env, s, e).next) == size
      && Said(SplitLines(Step(env, s, e).replies[0]), "SIZE " + FormatNat(size))
  {
    hide Step, LabelParts, Lower, EhloName, FormatNat, Is421, EhloReply, Mentions, WithoutDelays, DelayAfter, SizeOf, Asks;
    hide SplitLines, Said, RequestedSize;
    var s1, host := WelcomeFrom(env, s, e);
    CaseMaps(EhloName(e.line));
    LabelInAnyCase(EhloName(e.line), host);
    KeptSize(before, n, after);
    FlagsAsAsked(s1, EhloName(e.line));
    EhloTellsTheTerms(s1, host);
  }

  lemma KeptSize(before: seq<string>, n: nat, after: seq<string>)
    requires 0 < n <= INT_MAX
    requires forall i :: 0 <= i < |before| ==> RequestedSize(before[i]).None?
    ensures SizeOf(WithoutDelays(before + ["size" + FormatNat(n)] + after)) == Some(Clamp(n))
  {
    hide FormatNat, RequestedSize, SizeOf, Drop;
    var part := "size" + FormatNat(n);
    DropConcat(before + [part], after, IsDelay);
    DropConcat(before, [part], IsDelay);
    KeptAlone(part);
    var kept := Drop(before, IsDelay);
    forall i | 0 <= i < |kept|
      ensures RequestedSize(kept[i]).None?
    {
      LeftAfterDrop(before, IsDelay, kept[i]);
    }
    FirstSizeCounts(kept, part, Drop(after, IsDelay));
    SizeAsWritten(n);
  }

  lemma KeptAlone(part: string)
    requires "size" <= part
    ensures Drop([part], IsDelay) == [part]
  {
    assert "size"[0] == 's' && "dlay"[0] == 'd';
    assert [part][..0] == [];
    assert Drop([part][..0], IsDelay) == [];
  }

  lemma {:induction false} PiecesAreOf(s: string, c: char, p: string)
    requires p in SplitOn(s, c)
    ensures forall x :: x in p ==> x in s
    decreases |s|
  {
    var k := IndexOf(s, c);
    if k < |s| && p != s[..k] {
      PiecesAreOf(s[k + 1..], c, p);
    }
  }

  lemma PartIsLower(hostname: string, part: string)
    requires part in LabelParts(hostname)
    ensures Lower(part) == part
  {
    hide Lower, SplitOn;
    var first := hostname[..IndexOf(hostname, '.')];
    PiecesAreOf(Lower(first), '-', part);
    CaseMaps(first);
    CaseFixed(part);
  }

  predicate NamesMechanism(part: string) {
    Contains(part, "authplain") || Contains(part, "authlogin") || Contains(part, "authcram")
    || Contains(part, "authoauth")
  }

  /** The mechanisms offered for a label part: by the first of these words that it contains. */
  function OfferedFor(part: string): string
    requires NamesMechanism(part)
  {
    if Contains(part, "authplain") then "PLAIN" else if Contains(part, "authlogin") then "LOGIN"
    else if Contains(part, "authcram") then "CRAM-MD5 CRAM-SHA256" else "XOAUTH2"
  }

  lemma NamedByParts(part: string)
    requires Lower(part) == part
    ensures MechanismOf(Lower(part)) == if NamesMechanism(part) then OfferedFor(part) else ""
  {
    hide Contains, Lower;
  }

  lemma {:induction false} NoneNamed(parts: seq<string>)
    requires forall i :: 0 <= i < |parts| ==> Lower(parts[i]) == parts[i] && !NamesMechanism(parts[i])
    ensures LastMechanism(parts) == ""
  {
    hide Contains, Lower, NamesMechanism, MechanismOf;
    if parts != [] {
      NoneNamed(parts[..|parts| - 1]);
      NamedByParts(parts[|parts| - 1]);
    }
  }

  /**
    An EHLO reply with an AUTH line offers the mechanisms that the last label part naming any asks for, delays apart,
    and all of them if none does.
  */
  lemma MechanismsAsAsked(env: Env, s: Session, e: Event, before: seq<string>, part: string, after: seq<string>)
    requires IsWelcome(ExchangeOf(e, Step(env, s, e))) && !Asks(EhloName(e.line), "noauth")
    requires WithoutDelays(LabelParts(EhloName(e.line))) == before + [part] + after
    requires forall i :: 0 <= i < |after| ==> !NamesMechanism(after[i])
    requires NamesMechanism(part) || forall i :: 0 <= i < |before| ==> !NamesMechanism(before[i])
    ensures Said(SplitLines(Step(env, s, e).replies[0]), "AUTH " +
      if NamesMechanism(part) then OfferedFor(part) else "PLAIN LOGIN CRAM-MD5 CRAM-SHA256 XOAUTH2")
  {
    hide Step, LabelParts, Lower, EhloName, FormatNat, Is421, EhloReply, Mentions, WithoutDelays, DelayAfter, SizeOf, Asks;
    hide SplitLines, Said, NamesMechanism, OfferedFor, MechanismOf, LastMechanism;
    var s1, host := WelcomeFrom(env, s, e);
    var name := EhloName(e.line);
    CaseMaps(name);
    LabelInAnyCase(name, host);
    PartsAreLower(name, before + [part] + after);
    assert forall i :: 0 <= i < |after| ==> after[i] == (before + [part] + after)[|before| + 1 + i];
    assert forall i :: 0 <= i < |before| ==> before[i] == (before + [part] + after)[i];
    assert part == (before + [part] + after)[|before|];
    LastNamed(before, part, after);
    FlagsAsAsked(s1, name);
    EhloTellsTheTerms(s1, host);
  }

  lemma PartsAreLower(name: string, kept: seq<string>)
    requires kept == WithoutDelays(LabelParts(name))
    ensures forall i :: 0 <= i < |kept| ==> Lower(kept[i]) == kept[i]
  {
    hide Lower, LabelParts, Drop;
    forall i | 0 <= i < |kept|
      ensures Lower(kept[i]) == kept[i]
    {
      LeftAfterDrop(LabelParts(name), IsDelay, kept[i]);
      PartIsLower(name, kept[i]);
    }
  }

  lemma LastNamed(before: seq<string>, part: string, after: seq<string>)
    requires Lower(part) == part
    requires forall i :: 0 <= i < |before| ==> Lower(before[i]) == before[i]
    requires forall i :: 0 <= i < |after| ==> Lower(after[i]) == after[i] && !NamesMechanism(after[i])
    requires NamesMechanism(part) || forall i :: 0 <= i < |before| ==> !NamesMechanism(before[i])
    ensures Mechanisms(before + [part] + after)
      == if NamesMechanism(part) then OfferedFor(part) else "PLAIN LOGIN CRAM-MD5 CRAM-SHA256 XOAUTH2"
  {
    hide Lower, NamesMechanism, MechanismOf, LastMechanism;
    forall i | 0 <= i < |after|
      ensures MechanismOf(Lower(after[i])) == ""
    {
      NamedByParts(after[i]);
    }
    NamedByParts(part);
    LastChoiceCounts(before, part, after);
    if NamesMechanism(part) {
      assert OfferedFor(part) != "";
    } else {
      NoneNamed(before);
    }
  }

  lemma NoSizeNoMatter(lines: seq<string>, caps: Capabilities, a: int, b: int)
    requires LinesAreFlags(lines, caps, a) && !caps.size
    ensures LinesAreFlags(lines, caps, b)
  {
    hide Said, FormatNat;
  }

  /** Terms change only by an EHLO that is answered with a list. */
  lemma NewTermsAreAnnounced(env: Env, s: Session, e: Event)
    ensures Step(env, s, e).next.caps != s.caps ==> IsWelcome(ExchangeOf(e, Step(env, s, e)))
  {
    hide Step, Moved, MoveIn, ParseLine, Is421;
    var m := StepMoves(env, s, e);
    var f := Step(env, s, e);
    if m.Hello? {
      HelloAnnounces(env, s, e);
    } else {
      KeepsTerms(m, env, s, ExchangeOf(e, f), f.next, f.end);
    }
  }

  lemma KeepsTerms(m: Move, env: Env, s: Session, x: Exchange, t: Session, end: End)
    requires Moved(m, env, s, x, t, end) && !m.Hello?
    ensures t.caps == s.caps
  {
    hide MailIn, RcptIn, ErrorsOf, LostIn;
  }

  lemma HelloAnnounces(env: Env, s: Session, e: Event)
    requires MoveIn(env, ExchangeOf(e, Step(env, s, e)), Step(env, s, e).end) == Hello
    ensures Step(env, s, e).next.caps != s.caps ==> IsWelcome(ExchangeOf(e, Step(env, s, e)))
  {
    hide ParseLine, Is421, FormatError, ParseHelo, OnAuth, OnMail, OnRcpt, OnData, OnBdat, VrfyText, Lower;
    hide EhloReply, LabelParts, Mentions, WithoutDelays, Negotiate, DelayAfter, SizeOf, SequenceReply;
    if |e.line| <= MAX_LINE && Dispatch(s.state, e.line).Accept? {
      var cmd := Dispatch(s.state, e.line).cmd;
      var parts := WithoutDelays(LabelParts(Lower(cmd.args[0])));
      EhloReplyStarts(parts, Negotiate(parts, s.tls));
    }
  }

  /** In a session in which no size is in force yet, an EHLO announces what it enforces. */
  lemma WelcomeTerms(env: Env, s: Session, e: Event)
    requires IsWelcome(ExchangeOf(e, Step(env, s, e))) && s.advertisedSize == 0
    ensures var f := Step(env, s, e);
      f.next.state == State.Mail && LinesAreFlags(SplitLines(f.replies[0]), f.next.caps, MaxSize(f.next))
  {
    hide Step, LinesAreFlags, SplitLines, LabelParts, WithoutDelays, Mentions, SizeOf, EhloReply, DelayAfter, Negotiate;
    var s1, host := WelcomeFrom(env, s, e);
    EhloTellsTheTerms(s1, host);
    AnnouncedIsEnforced(s1, host);
    var f := Step(env, s, e);
    if !f.next.caps.size {
      NoSizeNoMatter(SplitLines(f.replies[0]), f.next.caps, AnnouncedSize(WithoutDelays(LabelParts(host))), MaxSize(f.next));
    }
  }

  /** Before the first accepted HELO or EHLO nothing has been negotiated, as long as STARTTLS has not succeeded. */
  lemma {:induction false} NothingNegotiatedYet(env: Env, greets: bool, tls: bool, es: seq<Event>)
    ensures var s := RunAll(env, Start(greets, tls), es).session;
      s.tls == tls && (s.state == Helo || s.state == Greeting) ==> s.advertisedSize == 0 && s.caps == NONE
  {
    hide Step, MailIn, RcptIn, ErrorsOf, LostIn, MoveIn;
    if es != [] {
      var p := RunAll(env, Start(greets, tls), es[..|es| - 1]);
      NothingNegotiatedYet(env, greets, tls, es[..|es| - 1]);
      TlsOnlyRises(env, Start(greets, tls), es[..|es| - 1]);
      if p.end == Continue {
        var m := StepMoves(env, p.session, es[|es| - 1]);
      }
    }
  }

  /**
    In every run in which no STARTTLS succeeds, the extension lines of an EHLO reply anywhere in the log are the flags
    of every later session, and its SIZE line, if any, carries the size that session enforces.
  */
  lemma {:induction false} AdvertisedIsEnforced(env: Env, greets: bool, tls: bool, es: seq<Event>, k: nat)
    requires var r := RunAll(env, Start(greets, tls), es); k < |r.log| && IsWelcome(r.log[k]) && r.session.tls == tls
    ensures var r := RunAll(env, Start(greets, tls), es);
      r.session.state != Helo && LinesAreFlags(SplitLines(r.log[k].replies[0]), r.session.caps, MaxSize(r.session))
  {
    hide Step, LinesAreFlags, SplitLines, IsWelcome;
    var r0 := Start(greets, tls);
    var p, e := RunAll(env, r0, es[..|es| - 1]), es[|es| - 1];
    TlsOnlyRises(env, r0, es[..|es| - 1]);
    if p.end != Continue {
      AdvertisedIsEnforced(env, greets, tls, es[..|es| - 1], k);
    } else {
      TlsStays(env, p.session, e);
      if k < |p.log| {
        AdvertisedIsEnforced(env, greets, tls, es[..|es| - 1], k);
        TermsStep(env, p.session, e);
      } else {
        NothingNegotiatedYet(env, greets, tls, es[..|es| - 1]);
        var s1, host := WelcomeFrom(env, p.session, e);
        WelcomeTerms(env, p.session, e);
      }
    }
  }
}
