/**
  The session as the server runs it: an object that reads its connection, queues replies while the client
  pipelines and flushes them later, and updates its fields step by step. It is proved against the machine that
  answers at once (SessionModel), in which neither the queue nor the pipelining probe exists.
*/
module Server {
  import opened Strings
  import opened Commands
  import opened ErrorPattern
  import opened Replies
  import opened Ehlo
  import opened SessionModel
  import opened Framing
  import opened Pipelining

  function GreetingText(identity: string): string {
    "220" + (" " + identity + " ESMTP BadSMTP - The Reliably Unreliable Mail Server https://badsmtp.com")
  }

  /** After `given`, these replies were given too, in order; or the peer was gone before the last of them. */
  ghost predicate Told(given: seq<string>, replies: seq<string>, wire: seq<string>, queue: seq<string>,
                       left: nat, err: End)
  {
    if err == WriteFailed then left == 0 && wire < given + replies else wire + queue == given + replies
  }

  lemma ToldAll(given: seq<string>, replies: seq<string>, wire: seq<string>, queue: seq<string>, left: nat, err: End)
    requires Told(given, replies, wire, queue, left, err) && err != WriteFailed
    ensures wire + queue == given + replies
  {
  }

  lemma ToldNothing(wire: seq<string>, queue: seq<string>, left: nat, err: End)
    requires err != WriteFailed
    ensures Told(wire + queue, [], wire, queue, left, err)
  {
  }

  lemma ToldCutShort(given: seq<string>, replies: seq<string>, wire: seq<string>, queue: seq<string>, left: nat)
    requires left == 0 && wire < given
    ensures Told(given, replies, wire, queue, left, WriteFailed)
  {
  }

  lemma ToldInTwo(given: seq<string>, first: seq<string>, second: seq<string>, wire: seq<string>, queue: seq<string>,
                  left: nat, err: End)
    requires Told(given + first, second, wire, queue, left, err)
    ensures Told(given, first + second, wire, queue, left, err)
  {
    assert given + first + second == given + (first + second);
  }

  lemma ToldTooLittle(given: seq<string>, some: seq<string>, rest: seq<string>, wire: seq<string>, queue: seq<string>,
                      left: nat)
    requires Told(given, some, wire, queue, left, WriteFailed)
    ensures Told(given, some + rest, wire, queue, left, WriteFailed)
  {
    assert given + (some + rest) == (given + some) + rest;
  }

  method AddLine(lines: seq<string>, ghost os: seq<Offer>, o: Offer) returns (more: seq<string>)
    requires lines == Announced(os)
    ensures more == Announced(os + [o])
  {
    assert (os + [o])[..|os|] == os;
    more := lines;
    if o.on {
      more := more + ["250-" + o.keyword];
    }
  }

  function EarlyOffers(auth: Option<string>, caps: Capabilities, size: nat): seq<Offer> {
    [Offer(true, "badsmtp.test"), Offer(auth.Some?, "AUTH " + if auth.Some? then auth.value else ""),
     Offer(caps.eightBit, "8BITMIME"), Offer(caps.size, "SIZE " + FormatNat(size))]
  }

  function LaterOffers(caps: Capabilities): seq<Offer> {
    [Offer(caps.pipelining, "PIPELINING"), Offer(caps.starttls, "STARTTLS"), Offer(caps.chunking, "CHUNKING"),
     Offer(caps.smtputf8, "SMTPUTF8"), Offer(caps.enhanced, "ENHANCEDSTATUSCODES")]
  }

  lemma PatternsAreLower()
    ensures Lower("no8bit") == "no8bit" && Lower("nosize") == "nosize" && Lower("nopipelining") == "nopipelining"
    ensures Lower("nostarttls") == "nostarttls" && Lower("nochunking") == "nochunking"
    ensures Lower("nosmtputf8") == "nosmtputf8" && Lower("noenhancedstatuscodes") == "noenhancedstatuscodes"
  {
  }

  lemma ReadNothing(env: Env, input: Bytes)
    ensures ReadData(env, NoData, input) == (None, input)
  {
  }

  lemma NothingAnnounced()
    ensures Announced([]) == []
  {
  }

  class SmtpSession {
    const env: Env
    const oracle: nat -> Oracle   // how the outside world answers during the k-th command
    const probe: nat -> bool      // whether more input was waiting when the k-th command was read

    // the connection: bytes still to be read, replies written, and how many more writes will succeed
    var input: Bytes
    var wire: seq<string>
    var writesLeft: nat

    var session: Session

    var responseQueue: seq<string>
    var pipeliningMode: bool

    // the message store
    var delivered: seq<Message>

    ghost var log: seq<Exchange>
    var count: nat   // commands handled so far

    /** What is queued is queued because the client pipelines. */
    ghost predicate Valid()
      reads this
    {
      !pipeliningMode ==> responseQueue == []
    }

    /** Every reply given so far, whether written or still queued. */
    function Given(): seq<string>
      reads this
    {
      wire + responseQueue
    }

    /** How much can ever be written, used up or not. */
    function Budget(): nat
      reads this
    {
      |wire| + writesLeft
    }

    constructor (env: Env, oracle: nat -> Oracle, probe: nat -> bool, tls: bool, input: Bytes, budget: nat)
      ensures Valid() && session == FRESH.(tls := tls) && Given() == [] && Budget() == budget
      ensures this.env == env && this.oracle == oracle && this.probe == probe && this.input == input
      ensures delivered == [] && log == [] && count == 0 && !pipeliningMode && wire == [] && responseQueue == []
    {
      this.env, this.oracle, this.probe, this.input := env, oracle, probe, input;
      wire, writesLeft, responseQueue, pipeliningMode := [], budget, [], false;
      session := FRESH.(tls := tls);
      delivered, log, count := [], [], 0;
    }

    // ---------- Replies ----------

    method Write(text: string) returns (ok: bool)
      modifies `wire, `writesLeft
      ensures ok <==> old(writesLeft) > 0
      ensures ok ==> wire == old(wire) + [text]
      ensures !ok ==> wire == old(wire)
      ensures Budget() == old(Budget())
    {
      ok := writesLeft > 0;
      if ok {
        wire := wire + [text];
        writesLeft := writesLeft - 1;
      }
    }

    method FlushResponses() returns (err: End)
      modifies `wire, `writesLeft, `responseQueue
      ensures Budget() == old(Budget()) && old(wire) <= wire <= old(Given())
      ensures err == Continue ==> responseQueue == [] && wire == old(Given())
      ensures err != Continue ==> err == WriteFailed && responseQueue == old(responseQueue)
      ensures err != Continue ==> writesLeft == 0 && |wire| < |old(Given())|
    {
      var i := 0;
      while i < |responseQueue|
        invariant 0 <= i <= |responseQueue| && responseQueue == old(responseQueue)
        invariant wire == old(wire) + responseQueue[..i] && Budget() == old(Budget())
      {
        var ok := Write(responseQueue[i]);
        if !ok {
          assert wire == old(Given())[..|wire|];
          return WriteFailed;
        }
        i := i + 1;
      }
      assert responseQueue[..i] == responseQueue;
      responseQueue := [];
      return Continue;
    }

    method WriteResponse(text: string) returns (err: End)
      requires Valid()
      modifies `wire, `writesLeft, `responseQueue
      ensures Valid() && Budget() == old(Budget())
      ensures err != WriteFailed ==> err == EndOf(text)
      ensures Told(old(Given()), [text], wire, responseQueue, writesLeft, err)
      ensures err != WriteFailed ==>
        responseQueue == if pipeliningMode && err == Continue then old(responseQueue) + [text] else []
      ensures !pipeliningMode && old(writesLeft) == 0 ==> err == WriteFailed && wire == old(wire)
    {
      hide Is421;
      var is421 := Is421(text);
      if pipeliningMode && !is421 {
        responseQueue := responseQueue + [text];
        assert Given() == old(Given()) + [text];
        return Continue;
      }
      if pipeliningMode && is421 {
        var flushed := FlushResponses();
        if flushed != Continue {
          return flushed;
        }
        var ok := Write(text);
        return if ok then Eof else WriteFailed;
      }
      var ok := Write(text);
      return if !ok then WriteFailed else if is421 then Eof else Continue;
    }

    /** A handler has had effect `f`; or the peer was gone before all of it was told. */
    twostate predicate Did(f: Effect, err: End)
      reads this
    {
      && Valid() && Budget() == old(Budget()) && log == old(log) && count == old(count)
      && (err != WriteFailed ==>
            err == f.end && session == f.next && delivered == old(delivered) + OneOrNone(f.stored))
      && (err == WriteFailed ==> delivered <= old(delivered) + OneOrNone(f.stored))
      && Told(old(Given()), f.replies, wire, responseQueue, writesLeft, err)
      && (err != WriteFailed ==>
            responseQueue == if pipeliningMode && err == Continue then old(responseQueue) + f.replies else [])
    }

    // ---------- Handlers ----------

    method HandleHelo(cmd: Command) returns (err: End)
      requires Valid() && cmd.args != []
      modifies `session, `wire, `writesLeft, `responseQueue, `input, `delivered
      ensures Did(OnHelo(old(session), cmd), err) && input == old(input)
    {
      hide Told, Is421, FormatError, ParseHelo, OnEhlo, Lower;
      if session.state != Helo {
        err := WriteResponse(R_SEQUENCE);
        return;
      }
      session := session.(heloName := cmd.args[0]);
      var e := ParseHelo(cmd.args[0]);
      if e.Some? {
        err := WriteResponse(FormatError(session.caps.enhanced, e.value));
        return;
      }
      session := session.(state := State.Mail);
      if cmd.verb == EHLO {
        err := HandleEhlo(Lower(cmd.args[0]));
      } else {
        err := WriteResponse("250 badsmtp.test");
      }
    }

    method HandleEhlo(hostname: string) returns (err: End)
      requires Valid()
      modifies `session, `wire, `writesLeft, `responseQueue, `input, `delivered
      ensures Did(OnEhlo(old(session), hostname), err) && input == old(input)
    {
      hide Told, Is421, LabelParts, Mentions, WithoutDelays, DelayAfter, SizeOf, EhloReply, Negotiate, Join;
      var all := LabelParts(hostname);
      assert Lower("reject") == "reject" && Lower("noehl") == "noehl";
      var reject := HasCapability(all, "reject");
      var noehl := HasCapability(all, "noehl");
      if reject || noehl {
        err := WriteResponse("502 Command not implemented");
        return;
      }
      var parts, delay := TakeDelays(all, session.commandDelay);
      session := session.(commandDelay := delay);
      var lines := BuildEhloResponse(parts);
      err := WriteResponse(Join(lines, "\r\n"));
    }

    /** An extension that is on unless a label part names the pattern that switches it off; it gets its line. */
    method Switch(parts: seq<string>, pattern: string, offered: bool, keyword: string, lines: seq<string>,
                  ghost os: seq<Offer>)
      returns (on: bool, more: seq<string>)
      requires Lower(pattern) == pattern && lines == Announced(os)
      ensures on == (offered && !Mentions(parts, pattern))
      ensures more == Announced(os + [Offer(on, keyword)])
    {
      hide Mentions, Lower;
      var off := HasCapability(parts, pattern);
      on := !off && offered;
      more := AddLine(lines, os, Offer(on, keyword));
    }

    method AuthLine(parts: seq<string>, lines: seq<string>, ghost os: seq<Offer>)
      returns (auth: Option<string>, more: seq<string>)
      requires lines == Announced(os)
      ensures auth == if Mentions(parts, "noauth") then None else Some(Mechanisms(parts))
      ensures more == Announced(os + [Offer(auth.Some?, "AUTH " + if auth.Some? then auth.value else "")])
    {
      hide Mentions, Mechanisms;
      assert Lower("noauth") == "noauth";
      var noauth := HasCapability(parts, "noauth");
      auth := None;
      if !noauth {
        var mechanisms := GetAuthMechanisms(parts);
        auth := Some(mechanisms);
      }
      more := AddLine(lines, os, Offer(auth.Some?, "AUTH " + if auth.Some? then auth.value else ""));
    }

    method BuildEhloResponse(parts: seq<string>) returns (lines: seq<string>)
      modifies `session
      ensures session == old(session).(caps := Negotiate(parts, session.tls), advertisedSize :=
        if session.caps.size && SizeOf(parts).Some? then SizeOf(parts).value else old(session).advertisedSize)
      ensures Join(lines, "\r\n") == EhloReply(parts, session.caps)
    {
      hide Mentions, SizeOf, Mechanisms, Join, Announced, FormatNat;
      var auth, size;
      ghost var os;
      auth, size, lines, os := EarlyCapabilities(parts);
      lines := LaterCapabilities(parts, lines, os);
      assert os + LaterOffers(session.caps) == Offers(auth, session.caps, size);
      lines := lines + [R_OK];
    }

    method EarlyCapabilities(parts: seq<string>)
      returns (auth: Option<string>, size: nat, lines: seq<string>, ghost os: seq<Offer>)
      modifies `session
      ensures auth == if Mentions(parts, "noauth") then None else Some(Mechanisms(parts))
      ensures size == AnnouncedSize(parts)
      ensures session == old(session).(
        caps := old(session).caps.(eightBit := !Mentions(parts, "no8bit"), size := !Mentions(parts, "nosize")),
        advertisedSize :=
          if session.caps.size && SizeOf(parts).Some? then SizeOf(parts).value else old(session).advertisedSize)
      ensures os == EarlyOffers(auth, session.caps, size) && lines == Announced(os)
    {
      hide Mentions, SizeOf, Mechanisms, Announced, FormatNat, Lower;
      NothingAnnounced();
      PatternsAreLower();
      lines := AddLine([], [], Offer(true, "badsmtp.test"));
      os := [Offer(true, "badsmtp.test")];
      assert [] + os == os;
      var eightBit, sized;
      auth, lines := AuthLine(parts, lines, os);
      os := os + [Offer(auth.Some?, "AUTH " + if auth.Some? then auth.value else "")];
      eightBit, lines := Switch(parts, "no8bit", true, "8BITMIME", lines, os);
      os := os + [Offer(eightBit, "8BITMIME")];
      size := MAX_MESSAGE;
      var asked := ParseAndClampSize(parts);
      if asked.Some? {
        size := asked.value;
      }
      sized, lines := Switch(parts, "nosize", true, "SIZE " + FormatNat(size), lines, os);
      os := os + [Offer(sized, "SIZE " + FormatNat(size))];
      if sized && asked.Some? {
        session := session.(advertisedSize := size);
      }
      session := session.(caps := session.caps.(eightBit := eightBit, size := sized));
    }

    method LaterCapabilities(parts: seq<string>, lines: seq<string>, ghost os: seq<Offer>) returns (more: seq<string>)
      requires lines == Announced(os)
      modifies `session
      ensures var n := Negotiate(parts, session.tls);
        session == old(session).(caps := n.(eightBit := old(session).caps.eightBit, size := old(session).caps.size))
      ensures more == Announced(os + LaterOffers(session.caps))
    {
      hide Mentions, Announced, Lower;
      PatternsAreLower();
      var pipelining, starttls, chunking, smtputf8, enhanced;
      ghost var qs := os;
      pipelining, more := Switch(parts, "nopipelining", true, "PIPELINING", lines, qs);
      qs := qs + [Offer(pipelining, "PIPELINING")];
      starttls, more := Switch(parts, "nostarttls", !session.tls, "STARTTLS", more, qs);
      qs := qs + [Offer(starttls, "STARTTLS")];
      chunking, more := Switch(parts, "nochunking", true, "CHUNKING", more, qs);
      qs := qs + [Offer(chunking, "CHUNKING")];
      smtputf8, more := Switch(parts, "nosmtputf8", true, "SMTPUTF8", more, qs);
      qs := qs + [Offer(smtputf8, "SMTPUTF8")];
      enhanced, more := Switch(parts, "noenhancedstatuscodes", true, "ENHANCEDSTATUSCODES", more, qs);
      qs := qs + [Offer(enhanced, "ENHANCEDSTATUSCODES")];
      session := session.(caps := session.caps.(pipelining := pipelining, starttls := starttls, chunking := chunking,
                                                smtputf8 := smtputf8, enhanced := enhanced));
      assert qs == os + LaterOffers(session.caps);
    }

    method HandleAuth(cmd: Command, o: Oracle) returns (err: End)
      requires Valid() && cmd.args != [] && !pipeliningMode
      modifies `session, `wire, `writesLeft, `responseQueue, `input, `delivered
      ensures Did(OnAuth(old(session), cmd, o), err) && input == old(input)
    {
      hide Is421, FormatError, KnownMechanism, Authenticate, Told;
      if session.state != State.Mail && session.state != State.Auth {
        err := WriteResponse(R_SEQUENCE);
        return;
      }
      if session.errors.auth.Some? {
        err := WriteResponse(FormatError(session.caps.enhanced, session.errors.auth.value));
        return;
      }
      if !KnownMechanism(cmd.args[0]) {
        err := WriteResponse(R_NO_MECHANISM);
        return;
      }
      err := Converse(o);
    }

    /** The mechanism talks to the peer on its own, past the reply queue; then the result is told. */
    method Converse(o: Oracle) returns (err: End)
      requires Valid() && !pipeliningMode
      modifies `session, `wire, `writesLeft, `responseQueue, `input, `delivered
      ensures Did(Authenticate(old(session), o), err) && input == old(input)
    {
      hide Is421, Prompts, Told;
      var asked := SendPrompts(o.challenges);
      if !asked {
        err := WriteResponse(R_AUTH_FAILED);
        ToldTooLittle(old(Given()), Prompts(o.challenges), [AuthText(o.auth)], wire, responseQueue, writesLeft);
        return;
      }
      ghost var text := AuthText(o.auth);
      assert Given() == old(Given()) + Prompts(o.challenges);
      if o.auth == AuthFailed {
        err := WriteResponse(R_AUTH_FAILED);
      } else if o.auth == AuthInactive {
        err := WriteResponse(R_AUTH_INACTIVE);
      } else {
        session := session.(authenticated := true, state := State.Mail);
        err := WriteResponse(R_AUTH_OK);
      }
      ToldInTwo(old(Given()), Prompts(o.challenges), [text], wire, responseQueue, writesLeft, err);
    }

    method SendPrompts(challenges: seq<string>) returns (ok: bool)
      requires responseQueue == []
      modifies `wire, `writesLeft
      ensures Budget() == old(Budget())
      ensures ok ==> wire == old(wire) + Prompts(challenges)
      ensures !ok ==> writesLeft == 0
      ensures !ok ==> Told(old(wire), Prompts(challenges), wire, responseQueue, writesLeft, WriteFailed)
    {
      ghost var prompts := Prompts(challenges);
      for i := 0 to |challenges|
        invariant wire == old(wire) + prompts[..i] && Budget() == old(Budget())
      {
        ok := Write(Prompt(challenges[i]));
        if !ok {
          assert (old(wire) + prompts)[..|wire|] == wire;
          return false;
        }
      }
      assert prompts[..|challenges|] == prompts;
      return true;
    }

    method HandleMail(cmd: Command) returns (err: End)
      requires Valid() && cmd.args != []
      modifies `session, `wire, `writesLeft, `responseQueue, `input, `delivered
      ensures Did(OnMail(env, old(session), cmd), err) && input == old(input)
    {
      hide Told, Is421, FormatError, ParsePrefixed, RawMailbox, IsValidMailbox, NormaliseMailbox, ErrorsOf;
      if session.state != State.Mail {
        err := WriteResponse(R_SEQUENCE);
        return;
      }
      var raw := RawMailbox(env, cmd.args[0]);
      if raw == "" || !IsValidMailbox(env, raw, session.caps.smtputf8) {
        err := WriteResponse(R_SYNTAX);
        return;
      }
      var from := NormaliseMailbox(env, raw);
      var e := ParsePrefixed("mail", from);
      if e.Some? {
        err := WriteResponse(FormatError(session.caps.enhanced, e.value));
        return;
      }
      session := session.(errors := ErrorsOf(from));
      session := session.(mailFrom := from, state := State.Rcpt);
      err := WriteResponse(R_OK);
    }

    method HandleRcpt(cmd: Command) returns (err: End)
      requires Valid() && cmd.args != []
      modifies `session, `wire, `writesLeft, `responseQueue, `input, `delivered
      ensures Did(OnRcpt(env, old(session), cmd), err) && input == old(input)
    {
      hide Told, Is421, FormatError, ParsePrefixed, RawMailbox, IsValidMailbox, NormaliseMailbox, ErrorsOf;
      if session.state != State.Rcpt {
        err := WriteResponse(R_SEQUENCE);
        return;
      }
      var raw := RawMailbox(env, cmd.args[0]);
      if raw == "" || !IsValidMailbox(env, raw, session.caps.smtputf8) {
        err := WriteResponse(R_SYNTAX);
        return;
      }
      var to := NormaliseMailbox(env, raw);
      var e := ParsePrefixed("rcpt", to);
      if e.Some? {
        err := WriteResponse(FormatError(session.caps.enhanced, e.value));
        return;
      }
      session := session.(rcptTo := session.rcptTo + [to]);
      err := WriteResponse(R_OK);
    }

    method HandleVrfy(cmd: Command) returns (err: End)
      requires Valid()
      modifies `session, `wire, `writesLeft, `responseQueue, `input, `delivered
      ensures Did(Say(old(session), VrfyText(env, old(session), cmd)), err) && input == old(input)
    {
      hide Told, Is421, VrfyText;
      err := WriteResponse(VrfyText(env, session, cmd));
    }

    method StoreMessage(content: Bytes, o: Oracle) returns (ok: bool)
      modifies `delivered
      ensures ok <==> o.store.Stored?
      ensures delivered == old(delivered) + (if ok then [MessageOf(session, content)] else [])
    {
      ok := o.store.Stored?;
      if ok {
        delivered := delivered + [Message(session.mailFrom, session.rcptTo, content)];
      }
    }

    method ResetSessionState()
      modifies `session
      ensures session == ResetSession(old(session))
    {
      session := session.(state := State.Mail, rcptTo := [], mailFrom := "", errors := NO_ERRORS);
    }

    method HandleData(o: Oracle) returns (err: End)
      requires Valid() && !pipeliningMode
      modifies `session, `wire, `writesLeft, `responseQueue, `input, `delivered
      ensures var need := if old(session.state) == State.Rcpt && old(session.errors).data.None? then DotBody else NoData;
        var (data, rest) := ReadData(env, need, old(input));
        Did(OnData(old(session), data, o), err) && (err != WriteFailed ==> input == rest)
    {
      hide Is421, FormatError, StorageReply, Told, ReadData;
      ReadNothing(env, input);
      if session.state != State.Rcpt {
        err := WriteResponse(R_SEQUENCE);
        return;
      }
      if session.errors.data.Some? {
        err := WriteResponse(FormatError(session.caps.enhanced, session.errors.data.value));
        return;
      }
      session := session.(state := State.Data);
      NeverA421("354", " End data with <CR><LF>.<CR><LF>");
      var (data, rest) := ReadData(env, DotBody, input);
      ghost var later := OnData(old(session), data, o).replies[1..];
      assert [R_START_DATA] + later == OnData(old(session), data, o).replies;
      err := WriteResponse(R_START_DATA);
      if err != Continue {
        ToldTooLittle(old(Given()), [R_START_DATA], later, wire, responseQueue, writesLeft);
        return;
      }
      ToldAll(old(Given()), [R_START_DATA], wire, responseQueue, writesLeft, err);
      input := rest;
      err := StoreBody(data, o);
      ToldInTwo(old(Given()), [R_START_DATA], later, wire, responseQueue, writesLeft, err);
    }

    /** The second half of DATA: the body has been read, or not. */
    method StoreBody(data: Option<Bytes>, o: Oracle) returns (err: End)
      requires Valid() && !pipeliningMode && session.state == State.Data && session.errors.data.None?
      modifies `session, `wire, `writesLeft, `responseQueue, `input, `delivered
      ensures input == old(input)
      ensures var f := OnData(old(session).(state := State.Rcpt), data, o);
        f.replies != [] && Did(f.(replies := f.replies[1..]), err)
    {
      hide Is421, FormatError, StorageReply, Told;
      if data.None? || |data.value| > MaxSize(session) {
        assert [R_START_DATA][1..] == [];
        ToldNothing(wire, responseQueue, writesLeft, Broken);
        return Broken;
      }
      var ok := StoreMessage(data.value, o);
      if !ok {
        err := WriteResponse(StorageReply(o.store.reason));
        assert [R_START_DATA, StorageReply(o.store.reason)][1..] == [StorageReply(o.store.reason)];
        return;
      }
      ResetSessionState();
      err := WriteResponse(R_ACCEPTED);
      assert [R_START_DATA, R_ACCEPTED][1..] == [R_ACCEPTED];
    }

    /** Exactly `n` bytes, and an optional line end after them. */
    method ReadBdatChunk(n: nat) returns (chunk: Option<Bytes>)
      modifies `input
      ensures (chunk, input) == ReadData(env, ChunkOf(n), old(input))
    {
      if |input| < n {
        input := "";
        return None;
      }
      chunk := Some(input[..n]);
      input := input[n..];
      if |input| >= 2 && input[0] == '\r' && input[1] == '\n' {
        input := input[2..];
      }
    }

    /** What BDAT decides before it reads anything. */
    method PlanBdat(cmd: Command) returns (plan: ChunkPlan)
      requires cmd.args != []
      ensures plan == PlanChunk(session, cmd)
    {
      hide Is421, FormatError, Atoi, EqualFold, FormatInt;
      if !(session.state == State.Rcpt || session.state == State.Bdat) {
        return ChunkRefused(R_SEQUENCE);
      }
      var size := Atoi(cmd.args[0]);
      if size.None? || size.value < 0 {
        return ChunkRefused(R_SYNTAX);
      }
      var n := size.value;
      var last := false;
      if |cmd.args| > 1 && EqualFold(cmd.args[1], "LAST") {
        last := true;
      }
      if session.errors.data.Some? && last {
        return ChunkRefused(FormatError(session.caps.enhanced, session.errors.data.value));
      }
      var max := if session.advertisedSize > 0 then session.advertisedSize else MAX_MESSAGE;
      if Add64(|session.bdatBuffer|, n) > max {
        return ChunkRefused(SizeReply(max));
      }
      if |session.bdatBuffer| + n > INT_MAX {
        return ChunkCrash;   // the allocation for the chunk panics
      }
      return ChunkRead(n, last);
    }

    method HandleBdat(cmd: Command, o: Oracle) returns (err: End)
      requires Valid() && cmd.args != [] && !pipeliningMode
      modifies `session, `wire, `writesLeft, `responseQueue, `input, `delivered
      ensures var plan := PlanChunk(old(session), cmd);
        var (data, rest) := ReadData(env, if plan.ChunkRead? then ChunkOf(plan.size) else NoData, old(input));
        Did(OnBdat(old(session), cmd, data, o), err) && (err != WriteFailed ==> input == rest)
    {
      hide Is421, FormatError, PlanChunk, Told, TakeChunk;
      var plan := PlanBdat(cmd);
      match plan
      case ChunkRefused(text) =>
        err := WriteResponse(text);
      case ChunkCrash =>
        ToldNothing(wire, responseQueue, writesLeft, Crash);
        err := Crash;
      case ChunkRead(n, last) =>
        var chunk := ReadBdatChunk(n);
        if chunk.None? {
          ToldNothing(wire, responseQueue, writesLeft, Broken);
          return Broken;
        }
        err := StoreChunk(last, chunk.value, o);
    }

    method StoreChunk(last: bool, chunk: Bytes, o: Oracle) returns (err: End)
      requires Valid()
      modifies `session, `wire, `writesLeft, `responseQueue, `input, `delivered
      ensures Did(TakeChunk(old(session), last, chunk, o), err) && input == old(input)
    {
      hide Is421, StorageReply, Told;
      session := session.(bdatBuffer := session.bdatBuffer + chunk);
      if last {
        var ok := StoreMessage(session.bdatBuffer, o);
        if !ok {
          err := WriteResponse(StorageReply(o.store.reason));
          return;
        }
        session := session.(bdatBuffer := "");
        ResetSessionState();
        err := WriteResponse(R_ACCEPTED);
        return;
      }
      session := session.(state := State.Bdat);
      err := WriteResponse(R_OK);
    }

    method HandleRset() returns (err: End)
      requires Valid()
      modifies `session, `wire, `writesLeft, `responseQueue, `input, `delivered
      ensures Did(OnRset(old(session)), err) && input == old(input)
    {
      hide Told, Is421, FormatError;
      if session.errors.rset.Some? {
        err := WriteResponse(FormatError(session.caps.enhanced, session.errors.rset.value));
        return;
      }
      session := session.(state := State.Mail, mailFrom := "", rcptTo := []);
      err := WriteResponse(R_OK);
    }

    method HandleNoop() returns (err: End)
      requires Valid()
      modifies `session, `wire, `writesLeft, `responseQueue, `input, `delivered
      ensures Did(OnNoop(old(session)), err) && input == old(input)
    {
      hide Told, Is421, FormatError;
      if session.errors.noop.Some? {
        err := WriteResponse(FormatError(session.caps.enhanced, session.errors.noop.value));
      } else {
        err := WriteResponse(R_OK);
      }
    }

    method HandleStartTls(o: Oracle) returns (err: End)
      requires Valid() && !pipeliningMode
      modifies `session, `wire, `writesLeft, `responseQueue, `input, `delivered
      ensures Did(OnStartTls(old(session), o), err) && input == old(input)
    {
      hide Is421, FormatError;
      if session.errors.starttls.Some? {
        err := WriteResponse(FormatError(session.caps.enhanced, session.errors.starttls.value));
        return;
      }
      if session.tls {
        err := WriteResponse("554 TLS already started");
        return;
      }
      NeverA421("220", " Ready to start TLS");
      err := WriteResponse(R_READY);
      if err != Continue {
        return;
      }
      if !o.handshake {
        return Broken;
      }
      session := session.(tls := true, state := Helo);
    }

    method HandleQuit() returns (err: End)
      requires Valid() && !pipeliningMode
      modifies `session, `wire, `writesLeft, `responseQueue, `input, `delivered
      ensures Did(OnQuit(old(session)), err) && input == old(input)
    {
      hide Is421, FormatError;
      if session.errors.quit.Some? {
        err := WriteResponse(FormatError(session.caps.enhanced, session.errors.quit.value));
      } else {
        NeverA421("221", " Bye");
        err := WriteResponse(R_BYE);
      }
      if err != Continue {
        return;
      }
      session := session.(state := State.Quit);
      return Eof;
    }

    // ---------- One command ----------

    /** Parsing and the checks before dispatch; a refused command is answered here. */
    method ParseAndLogCommand(line: string) returns (cmd: Option<Command>, err: End)
      requires Valid() && |line| <= MAX_LINE
      modifies `wire, `writesLeft, `responseQueue
      ensures match Dispatch(session.state, line)
        case Refuse(text) => cmd.None? && Did(Say(session, text), err)
        case Accept(c) =>
          cmd == Some(c) && err == Continue
          && wire == old(wire) && writesLeft == old(writesLeft) && responseQueue == old(responseQueue)
    {
      hide Told, Is421, ParseLine, ArgsValid;
      cmd, err := ParseLine(line), Continue;
      if cmd.None? {
        err := WriteResponse(R_UNKNOWN);
      } else if !Allowed(cmd.value.verb, session.state) {
        err := WriteResponse(SequenceReply(cmd.value.verb, session.state));
        cmd := None;
      } else if !ArgsValid(cmd.value) {
        err := WriteResponse(R_SYNTAX);
        cmd := None;
      }
    }

    method RunHandler(cmd: Command, line: string, o: Oracle) returns (err: End)
      requires Valid() && ArgsValid(cmd) && (Breaks(cmd.verb) ==> !pipeliningMode)
      modifies `session, `wire, `writesLeft, `responseQueue, `input, `delivered
      ensures var (data, rest) := ReadData(env, CommandNeed(old(session), cmd), old(input));
        Did(Handle(env, old(session), cmd, Event(line, data, o)), err) && (err != WriteFailed ==> input == rest)
      ensures Breaks(cmd.verb) ==> responseQueue == []
    {
      hide Told, OnHelo, OnAuth, OnMail, OnRcpt, OnData, OnBdat, OnRset, OnNoop, OnStartTls, OnQuit, VrfyText;
      hide PlanChunk, Is421;
      match cmd.verb
      case HELO => err := HandleHelo(cmd);
      case EHLO => err := HandleHelo(cmd);
      case AUTH => err := HandleAuth(cmd, o);
      case MAIL => err := HandleMail(cmd);
      case RCPT => err := HandleRcpt(cmd);
      case DATA => err := HandleData(o);
      case BDAT => err := HandleBdat(cmd, o);
      case RSET => err := HandleRset();
      case NOOP => err := HandleNoop();
      case STARTTLS => err := HandleStartTls(o);
      case QUIT => err := HandleQuit();
      case VRFY => err := HandleVrfy(cmd);
    }

    /** Queued replies go out when the command breaks pipelining or failed. */
    method FlushAndReturn(cmdErr: End) returns (err: End)
      modifies `wire, `writesLeft, `responseQueue
      ensures Budget() == old(Budget()) && (pipeliningMode || old(responseQueue) == [] ==> Valid())
      ensures err == cmdErr || err == WriteFailed
      ensures forall given, replies ::
        Told(given, replies, old(wire), old(responseQueue), old(writesLeft), cmdErr)
        ==> Told(given, replies, wire, responseQueue, writesLeft, err)
      ensures err != WriteFailed ==> responseQueue == []
    {
      var flushed := FlushResponses();
      err := if flushed != Continue then flushed else cmdErr;
    }

    method HandleCommand(line: string, o: Oracle) returns (err: End)
      requires Valid() && |line| <= MAX_LINE
      modifies this
      ensures var (data, rest) := ReadData(env, NeedOf(old(session), line), old(input));
        Did(Step(env, old(session), Event(line, data, o)), err) && (err != WriteFailed ==> input == rest)
      ensures err != WriteFailed ==> pipeliningMode == (old(pipeliningMode) && !BreaksIn(old(session), line))
    {
      hide Told, Is421, ParseLine, ArgsValid, Handle, CommandNeed, ReadData;
      ReadNothing(env, input);
      var cmd;
      cmd, err := ParseAndLogCommand(line);
      if cmd.None? {
        return;
      }
      var breaks := Breaks(cmd.value.verb);
      if breaks {
        err := FlushResponses();
        if err != Continue {
          ghost var (data, _) := ReadData(env, NeedOf(session, line), input);
          ToldCutShort(old(Given()), Step(env, session, Event(line, data, o)).replies, wire, responseQueue, writesLeft);
          return;
        }
        pipeliningMode := false;
        assert Given() == old(Given());
      }
      err := RunHandler(cmd.value, line, o);
      if err == Crash {
        return;
      }
      if err != Continue || breaks {
        err := FlushAndReturn(err);
      }
    }

    // ---------- The session ----------

    /** The greeting, unless the port drops its connections. */
    method Greet(greets: bool, identity: string) returns (err: End)
      requires Valid() && !pipeliningMode
      modifies `session, `wire, `writesLeft, `responseQueue
      ensures Valid() && Budget() == old(Budget())
      ensures err == Continue || err == WriteFailed
      ensures err == Continue && greets ==> session == old(session).(state := Helo)
      ensures err == Continue && !greets ==> session == old(session)
      ensures Told(old(Given()), if greets then [GreetingText(identity)] else [], wire, responseQueue, writesLeft, err)
    {
      hide Is421, Told;
      if !greets {
        ToldNothing(wire, responseQueue, writesLeft, Continue);
        return Continue;
      }
      NeverA421("220", GreetingText(identity)[3..]);
      assert GreetingText(identity) == "220" + GreetingText(identity)[3..];
      err := WriteResponse(GreetingText(identity));
      if err == Continue {
        session := session.(state := Helo);
      }
    }

    function Piped(): Pipe
      reads this
    {
      Pipe(pipeliningMode, responseQueue)
    }

    /**
      Where a session stands that set out for the run `goal` and the pipe `pipe`, having given `base` before its first
      command.
    */
    ghost predicate OnItsWay(base: seq<string>, goal: Run, pipe: Pipe)
      reads this
    {
      && Valid() && count == |log|
      && Given() == base + Trace(log) && delivered == Delivered(log)
      && goal == RunBytes(env, oracle, Run(session, log, Continue), input)
      && pipe == PipeBytes(env, oracle, probe, Run(session, log, Continue), Piped(), input)
    }

    /** How a session ends that set out so: it got there, or its peer was gone on the way. */
    ghost predicate Arrived(base: seq<string>, goal: Run, pipe: Pipe, err: End)
      reads this
    {
      && (err != WriteFailed ==> Run(session, log, err) == goal && delivered == Delivered(goal.log) && Piped() == pipe)
      && (err == WriteFailed ==> delivered <= Delivered(goal.log))
      && Told(base, Trace(goal.log), wire, responseQueue, writesLeft, err)
    }

    /** One command line of any length: probe for pipelining, then handle it. */
    method HandleLine(line: string, o: Oracle) returns (err: End)
      requires Valid()
      modifies this
      ensures var (data, rest) := ReadData(env, NeedOf(old(session), line), old(input));
        var f := Step(env, old(session), Event(line, data, o));
        && Did(f, err) && (err != WriteFailed ==> input == rest)
        && (err != WriteFailed ==>
              Piped() == PipeStep(old(Piped()), old(session), line, Probed(probe, old(count)), f))
    {
      hide Told, Is421, Dispatch, Handle, ReadData;
      if |line| > MAX_LINE {
        ReadNothing(env, input);
        err := WriteResponse(R_TOO_LONG);
        return;
      }
      if session.caps.pipelining && !pipeliningMode {
        var waiting := Probed(probe, count);
        if waiting {
          pipeliningMode := true;
        }
      }
      assert Given() == old(Given());
      err := HandleCommand(line, o);
    }

    /** One turn of the loop: read a line, skip a blank one, handle any other. */
    method OneLine(ghost base: seq<string>, ghost goal: Run, ghost pipe: Pipe) returns (err: End)
      requires OnItsWay(base, goal, pipe) && input != ""
      modifies this
      ensures Budget() == old(Budget())
      ensures err == Continue ==> OnItsWay(base, goal, pipe) && |input| < |old(input)|
      ensures err != Continue ==> Arrived(base, goal, pipe, err)
    {
      hide Told, Step, ReadData, NeedOf, ReadLine, TrimSpace, RunBytes, PipeBytes, PipeStep, Trace, Delivered;
      ghost var r := Run(session, log, Continue);
      OneTurn(env, oracle, r, input);
      PipeTurn(env, oracle, probe, r, Piped(), input);
      var (raw, rest) := ReadLine(input);
      input := rest;
      var line := TrimSpace(raw);
      if line == "" {
        return Continue;
      }
      ghost var (data, rest') := ReadData(env, NeedOf(session, line), rest);
      var o := AnswerAt(oracle, count);
      ghost var e := Event(line, data, o);
      ghost var f := Step(env, session, e);
      ghost var next := Extend(env, r, e);
      err := HandleLine(line, o);
      LogGrows(env, oracle, next, rest');
      LongerLog(next.log, goal.log);
      LogSnoc(r.log, ExchangeOf(e, f));
      if err == WriteFailed {
        ToldLater(base, Trace(r.log), f.replies, Trace(goal.log), wire, responseQueue, writesLeft);
        return;
      }
      ToldAll(base + Trace(r.log), f.replies, wire, responseQueue, writesLeft, err);
      assert (base + Trace(r.log)) + f.replies == base + Trace(next.log);
      log := next.log;
      count := count + 1;
      if err != Continue {
        NoMoreTurns(env, oracle, next, rest');
        PipeRests(env, oracle, probe, next, Piped(), rest');
        ToldExactly(base, Trace(next.log), wire, responseQueue, writesLeft, err);
      }
    }

    method RunCommandLoop(ghost base: seq<string>, ghost goal: Run, ghost pipe: Pipe) returns (err: End)
      requires OnItsWay(base, goal, pipe)
      modifies this
      ensures Budget() == old(Budget()) && Arrived(base, goal, pipe, err)
    {
      hide Told, RunBytes, PipeBytes, Trace, Delivered;
      while input != ""
        invariant OnItsWay(base, goal, pipe) && Budget() == old(Budget())
        decreases |input|
      {
        err := OneLine(base, goal, pipe);
        if err != Continue {
          return;
        }
      }
      NoMoreTurns(env, oracle, Run(session, log, Continue), input);
      PipeRests(env, oracle, probe, Run(session, log, Continue), Piped(), input);
      ToldExactly(base, Trace(log), wire, responseQueue, writesLeft, Continue);
      return Continue;
    }

    /** A whole session, from the greeting to its end. */
    method HandleSession(greets: bool, identity: string, ghost goal: Run, ghost pipe: Pipe) returns (err: End)
      requires Valid() && !pipeliningMode && count == 0 && log == [] && delivered == [] && wire == []
      requires session == FRESH.(tls := session.tls)
      requires goal == RunBytes(env, oracle, Start(greets, session.tls), input)
      requires pipe == PipeBytes(env, oracle, probe, Start(greets, session.tls), IDLE, input)
      modifies this
      ensures Budget() == old(Budget())
      ensures Arrived(if greets then [GreetingText(identity)] else [], goal, pipe, err)
    {
      hide Told, RunBytes, PipeBytes, Step;
      ghost var base := if greets then [GreetingText(identity)] else [];
      err := Greet(greets, identity);
      if err != Continue {
        assert old(Given()) + base == base;
        ToldTooLittle(old(Given()), base, Trace(goal.log), wire, responseQueue, writesLeft);
        ToldFromNothing(base, Trace(goal.log), wire, responseQueue, writesLeft);
        return;
      }
      ToldAll(old(Given()), base, wire, responseQueue, writesLeft, err);
      assert old(Given()) + base == base + Trace([]);
      err := RunCommandLoop(base, goal, pipe);
    }
  }

  lemma ToldExactly(base: seq<string>, trace: seq<string>, wire: seq<string>, queue: seq<string>, left: nat, err: End)
    requires wire + queue == base + trace && err != WriteFailed
    ensures Told(base, trace, wire, queue, left, err)
  {
  }

  lemma ToldFromNothing(base: seq<string>, trace: seq<string>, wire: seq<string>, queue: seq<string>, left: nat)
    requires Told([], base + trace, wire, queue, left, WriteFailed)
    ensures Told(base, trace, wire, queue, left, WriteFailed)
  {
    assert [] + (base + trace) == base + trace;
  }

  lemma ToldLater(base: seq<string>, trace: seq<string>, replies: seq<string>, all: seq<string>,
                  wire: seq<string>, queue: seq<string>, left: nat)
    requires Told(base + trace, replies, wire, queue, left, WriteFailed) && trace + replies <= all
    ensures Told(base, all, wire, queue, left, WriteFailed)
  {
    assert base + trace + replies == base + (trace + replies);
    assert base + (trace + replies) <= base + all;
  }

  // ---------- What the outside sees ----------

  /**
    A session served to its end. Whatever the pipelining probe answers, the replies (written, then queued), the
    final session and the stored messages are those of the machine that answers at once, and what is still queued is
    what the rules of pipelining withhold. If the peer goes away, what was written is a beginning of that.
  */
  method Serve(env: Env, oracle: nat -> Oracle, probe: nat -> bool, greets: bool, identity: string, tls: bool,
               input: Bytes, budget: nat)
    returns (session: Session, wire: seq<string>, queued: seq<string>, delivered: seq<Message>, end: End)
    ensures var r := RunBytes(env, oracle, Start(greets, tls), input);
      var all := (if greets then [GreetingText(identity)] else []) + Trace(r.log);
      && (end != WriteFailed ==>
            session == r.session && end == r.end && wire + queued == all && delivered == Delivered(r.log))
      && (end != WriteFailed ==> queued == PipeBytes(env, oracle, probe, Start(greets, tls), IDLE, input).queue)
      && (end == WriteFailed ==> |wire| == budget && wire < all && delivered <= Delivered(r.log))
  {
    hide RunBytes, PipeBytes, Trace, Delivered;
    var s := new SmtpSession(env, oracle, probe, tls, input, budget);
    ghost var goal := RunBytes(env, oracle, Start(greets, tls), input);
    ghost var pipe := PipeBytes(env, oracle, probe, Start(greets, tls), IDLE, input);
    end := s.HandleSession(greets, identity, goal, pipe);
    session, wire, queued, delivered := s.session, s.wire, s.responseQueue, s.delivered;
  }

  /** Two servings of the same stream, probed differently, cannot be told apart except by when replies are written. */
  method PipeliningIsTransparent(env: Env, oracle: nat -> Oracle, probe1: nat -> bool, probe2: nat -> bool, greets: bool,
                                 identity: string, tls: bool, input: Bytes, budget: nat)
    returns (session1: Session, session2: Session, given1: seq<string>, given2: seq<string>,
             delivered1: seq<Message>, delivered2: seq<Message>, end1: End, end2: End)
    ensures end1 != WriteFailed && end2 != WriteFailed ==>
      session1 == session2 && given1 == given2 && delivered1 == delivered2 && end1 == end2
    ensures end1 == WriteFailed && end2 != WriteFailed ==> given1 < given2 && delivered1 <= delivered2
    ensures end1 == WriteFailed && end2 == WriteFailed ==> given1 == given2 && |given1| == budget
  {
    hide RunBytes, PipeBytes, Trace, Delivered;
    var wire1, queued1, wire2, queued2;
    session1, wire1, queued1, delivered1, end1 := Serve(env, oracle, probe1, greets, identity, tls, input, budget);
    session2, wire2, queued2, delivered2, end2 := Serve(env, oracle, probe2, greets, identity, tls, input, budget);
    given1 := if end1 == WriteFailed then wire1 else wire1 + queued1;
    given2 := if end2 == WriteFailed then wire2 else wire2 + queued2;
    ghost var all := (if greets then [GreetingText(identity)] else [])
      + Trace(RunBytes(env, oracle, Start(greets, tls), input).log);
    assert end1 == WriteFailed ==> wire1 == all[..budget];
    assert end2 == WriteFailed ==> wire2 == all[..budget];
  }
}
