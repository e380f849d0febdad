/**
  The byte stream of a session: lines, the chunks and bodies that some of them bring along, and nothing else.
  What a line brings along depends on the session, so reading and stepping are interleaved.
*/
module Framing {
  import opened Strings
  import opened Commands
  import opened SessionModel

  // ---------- Reading ----------

  /** One line without its line end, and what follows; an unfinished last line counts as a line. */
  function ReadLine(input: Bytes): (r: (string, Bytes))
    requires input != ""
    ensures |r.1| < |input|
  {
    var k := IndexOf(input, '\n');
    if k == |input| then (input, "")
    else (input[..if k > 0 && input[k - 1] == '\r' then k - 1 else k], input[k + 1..])
  }

  function SkipCrlf(input: Bytes): (rest: Bytes)
    ensures |rest| <= |input|
  {
    if "\r\n" <= input then input[2..] else input
  }

  /** What a command line makes the session read. */
  datatype Need = NoData | ChunkOf(size: nat) | DotBody

  function CommandNeed(s: Session, cmd: Command): Need
    requires ArgsValid(cmd)
  {
    if cmd.verb == BDAT then
      match PlanChunk(s, cmd)
      case ChunkRead(n, _) => ChunkOf(n)
      case _ => NoData
    else if cmd.verb == DATA && s.state == State.Rcpt && s.errors.data.None? then DotBody
    else NoData
  }

  function NeedOf(s: Session, line: string): Need {
    if |line| > MAX_LINE then NoData
    else match Dispatch(s.state, line)
      case Refuse(_) => NoData
      case Accept(cmd) => CommandNeed(s, cmd)
  }

  function ReadData(env: Env, need: Need, input: Bytes): (r: (Option<Bytes>, Bytes))
    ensures |r.1| <= |input|
  {
    match need
    case NoData => (None, input)
    case ChunkOf(n) => if |input| < n then (None, "") else (Some(input[..n]), SkipCrlf(input[n..]))
    case DotBody =>
      match env.readDot(input)
      case None => (None, "")
      case Some((body, used)) => if used > |input| then (None, "") else (Some(body), input[used..])
  }

  function AnswerAt(oracle: nat -> Oracle, k: nat): Oracle {
    oracle(k)
  }

  /** The run of a session over a stream of bytes: the loop reads a line, skips blank ones, and steps. */
  ghost function RunBytes(env: Env, oracle: nat -> Oracle, r: Run, input: Bytes): Run
    decreases |input|
  {
    if r.end != Continue || input == "" then r
    else
      var (raw, rest) := ReadLine(input);
      var line := TrimSpace(raw);
      if line == "" then RunBytes(env, oracle, r, rest)
      else
        var (data, rest') := ReadData(env, NeedOf(r.session, line), rest);
        RunBytes(env, oracle, Extend(env, r, Event(line, data, AnswerAt(oracle, |r.log|))), rest')
  }

  /** One turn of the loop. */
  lemma OneTurn(env: Env, oracle: nat -> Oracle, r: Run, input: Bytes)
    requires r.end == Continue && input != ""
    ensures var (raw, rest) := ReadLine(input);
      var line := TrimSpace(raw);
      RunBytes(env, oracle, r, input) ==
        if line == "" then RunBytes(env, oracle, r, rest)
        else
          var (data, rest') := ReadData(env, NeedOf(r.session, line), rest);
          RunBytes(env, oracle, Extend(env, r, Event(line, data, AnswerAt(oracle, |r.log|))), rest')
  {
    hide Extend, ReadLine, TrimSpace, ReadData, NeedOf;
  }

  lemma NoMoreTurns(env: Env, oracle: nat -> Oracle, r: Run, input: Bytes)
    requires r.end != Continue || input == ""
    ensures RunBytes(env, oracle, r, input) == r
  {
    hide Extend, ReadLine, TrimSpace, ReadData, NeedOf;
  }

  /** A run only ever adds to its log. */
  lemma {:induction false} LogGrows(env: Env, oracle: nat -> Oracle, r: Run, input: Bytes)
    ensures r.log <= RunBytes(env, oracle, r, input).log
    decreases |input|
  {
    hide Step, ReadLine, TrimSpace, ReadData, NeedOf, RunBytes;
    if r.end != Continue || input == "" {
      NoMoreTurns(env, oracle, r, input);
    } else {
      OneTurn(env, oracle, r, input);
      var (raw, rest) := ReadLine(input);
      var line := TrimSpace(raw);
      if line == "" {
        LogGrows(env, oracle, r, rest);
      } else {
        var (data, rest') := ReadData(env, NeedOf(r.session, line), rest);
        LogGrows(env, oracle, Extend(env, r, Event(line, data, AnswerAt(oracle, |r.log|))), rest');
      }
    }
  }

  lemma {:induction false} LongerLog(a: seq<Exchange>, b: seq<Exchange>)
    requires a <= b
    ensures Trace(a) <= Trace(b) && Delivered(a) <= Delivered(b)
    decreases |b|
  {
    if |a| < |b| {
      LongerLog(a, b[..|b| - 1]);
    } else {
      assert a == b;
    }
  }

  lemma {:induction false} RunAllCons(env: Env, r: Run, e: Event, es: seq<Event>)
    ensures RunAll(env, r, [e] + es) == RunAll(env, Extend(env, r, e), es)
  {
    hide Extend;
    if es == [] {
      assert [e] + es == [e] && [e][..0] == [];
      assert RunAll(env, r, [e][..0]) == r;
    } else {
      var n := |es| - 1;
      assert ([e] + es)[..|[e] + es| - 1] == [e] + es[..n];
      RunAllCons(env, r, e, es[..n]);
    }
  }

  /** Whatever arrives on the stream, the run is a run over some events, so all that holds of those holds of it. */
  lemma {:induction false} BytesAreEvents(env: Env, oracle: nat -> Oracle, r: Run, input: Bytes) returns (es: seq<Event>)
    ensures RunBytes(env, oracle, r, input) == RunAll(env, r, es)
    decreases |input|
  {
    hide Extend, ReadLine, TrimSpace, ReadData, NeedOf;
    es := [];
    if r.end == Continue && input != "" {
      var (raw, rest) := ReadLine(input);
      var line := TrimSpace(raw);
      if line == "" {
        es := BytesAreEvents(env, oracle, r, rest);
      } else {
        var (data, rest') := ReadData(env, NeedOf(r.session, line), rest);
        var e := Event(line, data, AnswerAt(oracle, |r.log|));
        var more := BytesAreEvents(env, oracle, Extend(env, r, e), rest');
        es := [e] + more;
        RunAllCons(env, r, e, more);
      }
    }
  }

  // ---------- Writing ----------

  /**
    What a client sends for one command: the line, how it ends it, the bytes that belong to it (with the body they
    stand for, when they are a dot-terminated body), and whether it adds an empty line: after a chunk that is the
    optional line end, elsewhere a blank line.
  */
  datatype Item = Item(line: string, crlf: bool, bytes: Bytes, body: Bytes, trailer: bool)

  function LineEnd(crlf: bool): string {
    if crlf then "\r\n" else "\n"
  }

  function Trailer(it: Item): string {
    if it.trailer then "\r\n" else ""
  }

  function EncodeItem(it: Item): Bytes {
    it.line + (LineEnd(it.crlf) + (it.bytes + Trailer(it)))
  }

  function Encode(items: seq<Item>): Bytes {
    if items == [] then "" else EncodeItem(items[0]) + Encode(items[1..])
  }

  predicate IsLine(l: string) {
    l != "" && !IsSpace(l[0]) && !IsSpace(l[|l| - 1]) && '\n' !in l
  }

  /** The bytes a client sends along are those the session will read for the line. */
  ghost predicate Supplies(env: Env, need: Need, it: Item, rest: Bytes) {
    match need
    case NoData => it.bytes == ""
    case ChunkOf(n) => |it.bytes| == n
    case DotBody => env.readDot(it.bytes + (Trailer(it) + rest)) == Some((it.body, |it.bytes|))
  }

  function EventFor(s: Session, it: Item, o: Oracle): Event {
    match NeedOf(s, it.line)
    case NoData => Event(it.line, None, o)
    case ChunkOf(_) => Event(it.line, Some(it.bytes), o)
    case DotBody => Event(it.line, Some(it.body), o)
  }

  /** The run a client means: its commands one after the other, each with its own bytes. */
  ghost function RunItems(env: Env, oracle: nat -> Oracle, r: Run, items: seq<Item>): Run
    decreases |items|
  {
    if items == [] || r.end != Continue then r
    else RunItems(env, oracle, Extend(env, r, EventFor(r.session, items[0], AnswerAt(oracle, |r.log|))), items[1..])
  }

  ghost predicate WellSent(env: Env, oracle: nat -> Oracle, r: Run, items: seq<Item>)
    decreases |items|
  {
    items == [] || r.end != Continue ||
    (IsLine(items[0].line)
     && Supplies(env, NeedOf(r.session, items[0].line), items[0], Encode(items[1..]))
     && IsSendable(items[1..])
     && WellSent(env, oracle, Extend(env, r, EventFor(r.session, items[0], AnswerAt(oracle, |r.log|))), items[1..]))
  }

  /** What comes next does not look like the optional line end after a chunk. */
  predicate IsSendable(items: seq<Item>) {
    items == [] || IsLine(items[0].line)
  }

  // ---------- Reading what was written ----------

  lemma LineRead(l: string, crlf: bool, rest: Bytes)
    requires IsLine(l)
    ensures var input := l + (LineEnd(crlf) + rest);
      input != "" && ReadLine(input) == (l, rest) && TrimSpace(ReadLine(input).0) == l
  {
    hide TrimSpace;
    TrimFixed(l);
    var body := if crlf then l + "\r" else l;
    var input := l + (LineEnd(crlf) + rest);
    assert '\n' !in body;
    assert input == body + ['\n'] + rest;
    IndexAfter(body, '\n', rest);
    assert input[..|l|] == l && input[|body| + 1..] == rest;
    if !crlf {
      assert input[|l| - 1] == l[|l| - 1];
    }
  }

  lemma {:induction false} NextIsNoCrlf(items: seq<Item>)
    requires IsSendable(items)
    ensures SkipCrlf(Encode(items)) == Encode(items)
  {
    if items != [] {
      assert Encode(items)[0] == items[0].line[0];
      assert IsSpace("\r\n"[0]);
    }
  }

  /** What a line has brought along is read, and what is left is the rest, with at most a blank line before it. */
  lemma DataRead(env: Env, need: Need, it: Item, items: seq<Item>)
    requires IsSendable(items) && Supplies(env, need, it, Encode(items))
    ensures var r := ReadData(env, need, (it.bytes + Trailer(it)) + Encode(items));
      (r.1 == Encode(items) || (it.trailer && r.1 == "\r\n" + Encode(items)))
      && r.0 == (match need case NoData => None case ChunkOf(_) => Some(it.bytes) case DotBody => Some(it.body))
  {
    hide Encode, IsSendable;
    var rest, tail := Encode(items), Trailer(it);
    var input := (it.bytes + tail) + rest;
    assert input == it.bytes + (tail + rest);
    assert input[..|it.bytes|] == it.bytes && input[|it.bytes|..] == tail + rest;
    NextIsNoCrlf(items);
    if it.trailer {
      assert "\r\n" <= tail + rest && (tail + rest)[2..] == rest;
    } else {
      assert tail + rest == rest && it.bytes + tail == it.bytes;
    }
  }

  /** A blank line is skipped. */
  lemma BlankLine(env: Env, oracle: nat -> Oracle, r: Run, rest: Bytes)
    ensures RunBytes(env, oracle, r, "\r\n" + rest) == RunBytes(env, oracle, r, rest)
  {
    hide RunBytes, TrimSpace;
    var input := "\r\n" + rest;
    if r.end == Continue {
      assert input == "\r" + ['\n'] + rest;
      IndexAfter("\r", '\n', rest);
      assert input[..0] == "" && input[2..] == rest;
      assert ReadLine(input) == ("", rest);
      BlankIsBlank();
      OneTurn(env, oracle, r, input);
    } else {
      NoMoreTurns(env, oracle, r, input);
      NoMoreTurns(env, oracle, r, rest);
    }
  }

  lemma BlankIsBlank()
    ensures TrimSpace("") == ""
  {
  }

  /**
    The loop recovers exactly the lines that were sent and exactly the bytes each of them brought, whatever those
    bytes look like, and ends in the run the client meant.
  */
  lemma {:induction false} FramingRoundTrip(env: Env, oracle: nat -> Oracle, r: Run, items: seq<Item>)
    requires WellSent(env, oracle, r, items)
    ensures RunBytes(env, oracle, r, Encode(items)) == RunItems(env, oracle, r, items)
    decreases |items|
  {
    hide Extend, NeedOf, ReadLine, TrimSpace, ReadData, Supplies, RunBytes, Trailer, LineEnd;
    if items == [] || r.end != Continue {
      NoMoreTurns(env, oracle, r, Encode(items));
    } else {
      var it, rest := items[0], Encode(items[1..]);
      var data := it.bytes + Trailer(it);
      assert Encode(items) == it.line + (LineEnd(it.crlf) + (data + rest));
      LineRead(it.line, it.crlf, data + rest);
      DataRead(env, NeedOf(r.session, it.line), it, items[1..]);
      var next := Extend(env, r, EventFor(r.session, it, AnswerAt(oracle, |r.log|)));
      OneTurn(env, oracle, r, Encode(items));
      BlankLine(env, oracle, next, rest);
      FramingRoundTrip(env, oracle, next, items[1..]);
    }
  }

  // ---------- Line ends ----------

  /** The same commands with the same bytes, the line ends written differently. */
  predicate SameButLineEnds(xs: seq<Item>, ys: seq<Item>) {
    |xs| == |ys|
    && forall i :: 0 <= i < |xs| ==> xs[i].line == ys[i].line && xs[i].bytes == ys[i].bytes && xs[i].body == ys[i].body
  }

  /** Where a body ends does not depend on what follows it. */
  ghost predicate BodiesEndThemselves(env: Env) {
    forall bytes: Bytes, u: Bytes, v: Bytes ::
      var r := env.readDot(bytes + u);
      r.Some? && r.value.1 == |bytes| ==> env.readDot(bytes + v) == r
  }

  predicate NoBodies(items: seq<Item>) {
    forall i :: 0 <= i < |items| ==> ParseLine(items[i].line).None? || ParseLine(items[i].line).value.verb != DATA
  }

  lemma NoBodyNeeded(s: Session, line: string)
    requires ParseLine(line).None? || ParseLine(line).value.verb != DATA
    ensures NeedOf(s, line) != DotBody
  {
    hide ParseLine, PlanChunk;
  }

  lemma SameSupplies(env: Env, s: Session, x: Item, y: Item, xs: seq<Item>, ys: seq<Item>)
    requires Supplies(env, NeedOf(s, x.line), x, Encode(xs)) && x.line == y.line && x.bytes == y.bytes && x.body == y.body
    requires BodiesEndThemselves(env) || NoBodies([x])
    ensures Supplies(env, NeedOf(s, y.line), y, Encode(ys))
  {
    hide NeedOf, Encode, ParseLine, Trailer;
    if NoBodies([x]) {
      assert [x][0] == x;
      NoBodyNeeded(s, x.line);
    }
  }

  /**
    However a client writes its line ends, CRLF or LF after a line and an empty line or none after what the line
    brought along, if the stream is well sent one way it is well sent the other way and means the same run.
  */
  lemma {:induction false} SameRunItems(env: Env, oracle: nat -> Oracle, r: Run, xs: seq<Item>, ys: seq<Item>)
    requires SameButLineEnds(xs, ys) && WellSent(env, oracle, r, xs) && (BodiesEndThemselves(env) || NoBodies(xs))
    ensures WellSent(env, oracle, r, ys)
    ensures RunItems(env, oracle, r, xs) == RunItems(env, oracle, r, ys)
    decreases |xs|
  {
    hide Extend, NeedOf, Supplies, BodiesEndThemselves, Encode, ParseLine;
    if xs != [] && r.end == Continue {
      var e := EventFor(r.session, xs[0], AnswerAt(oracle, |r.log|));
      assert e == EventFor(r.session, ys[0], AnswerAt(oracle, |r.log|));
      assert NoBodies(xs) ==> NoBodies([xs[0]]) && NoBodies(xs[1..]);
      SameSupplies(env, r.session, xs[0], ys[0], xs[1..], ys[1..]);
      SameRunItems(env, oracle, Extend(env, r, e), xs[1..], ys[1..]);
    }
  }

  /** The kind of line end after any line, and an empty line after any line, chunk or body, change nothing. */
  lemma LineEndsDoNotMatter(env: Env, oracle: nat -> Oracle, r: Run, xs: seq<Item>, ys: seq<Item>)
    requires SameButLineEnds(xs, ys) && WellSent(env, oracle, r, xs) && (BodiesEndThemselves(env) || NoBodies(xs))
    ensures WellSent(env, oracle, r, ys)
    ensures RunBytes(env, oracle, r, Encode(xs)) == RunBytes(env, oracle, r, Encode(ys))
  {
    hide RunBytes, WellSent, Encode, RunItems, SameButLineEnds, BodiesEndThemselves, NoBodies;
    SameRunItems(env, oracle, r, xs, ys);
    FramingRoundTrip(env, oracle, r, xs);
    FramingRoundTrip(env, oracle, r, ys);
  }
}
