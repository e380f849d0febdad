/**
  Which replies a pipelining session withholds: its mode and its queue, for every answer of the probe that looks for
  waiting input. The session switches to queueing when it reads a line of admissible length while PIPELINING is in
  force and more input is waiting; a breaking command switches it back.
*/
module Pipelining {
  import opened Strings
  import opened Commands
  import opened Ehlo
  import opened SessionModel
  import opened Framing
  import opened Terms

  datatype Pipe = Pipe(mode: bool, queue: seq<string>)

  const IDLE := Pipe(false, [])

  function Probed(probe: nat -> bool, k: nat): bool {
    probe(k)
  }

  /** The line is a command, admitted by the table, that does not go together with queueing. */
  predicate BreaksIn(s: Session, line: string) {
    |line| <= MAX_LINE && Dispatch(s.state, line).Accept?
    && Dispatch(s.state, line).cmd.verb in {DATA, BDAT, AUTH, STARTTLS, QUIT}
  }

  predicate OpensIn(s: Session, line: string, waiting: bool) {
    |line| <= MAX_LINE && s.caps.pipelining && waiting
  }

  function PipeStep(p: Pipe, s: Session, line: string, waiting: bool, f: Effect): Pipe {
    var mode := !BreaksIn(s, line) && (p.mode || OpensIn(s, line, waiting));
    Pipe(mode, if mode && f.end == Continue then p.queue + f.replies else [])
  }

  /** Mode and queue at the end of a stream of bytes, read as RunBytes reads it. */
  ghost function PipeBytes(env: Env, oracle: nat -> Oracle, probe: nat -> bool, r: Run, p: Pipe, input: Bytes): Pipe
    decreases |input|
  {
    if r.end != Continue || input == "" then p
    else
      var (raw, rest) := ReadLine(input);
      var line := TrimSpace(raw);
      if line == "" then PipeBytes(env, oracle, probe, r, p, rest)
      else
        var (data, rest') := ReadData(env, NeedOf(r.session, line), rest);
        var e := Event(line, data, AnswerAt(oracle, |r.log|));
        var p' := PipeStep(p, r.session, line, Probed(probe, |r.log|), Step(env, r.session, e));
        PipeBytes(env, oracle, probe, Extend(env, r, e), p', rest')
  }

  lemma PipeTurn(env: Env, oracle: nat -> Oracle, probe: nat -> bool, r: Run, p: Pipe, input: Bytes)
    requires r.end == Continue && input != ""
    ensures var (raw, rest) := ReadLine(input);
      var line := TrimSpace(raw);
      PipeBytes(env, oracle, probe, r, p, input) ==
        if line == "" then PipeBytes(env, oracle, probe, r, p, rest)
        else
          var (data, rest') := ReadData(env, NeedOf(r.session, line), rest);
          var e := Event(line, data, AnswerAt(oracle, |r.log|));
          var p' := PipeStep(p, r.session, line, Probed(probe, |r.log|), Step(env, r.session, e));
          PipeBytes(env, oracle, probe, Extend(env, r, e), p', rest')
  {
    hide Step, Extend, ReadLine, TrimSpace, ReadData, NeedOf, PipeStep;
  }

  lemma PipeRests(env: Env, oracle: nat -> Oracle, probe: nat -> bool, r: Run, p: Pipe, input: Bytes)
    requires r.end != Continue || input == ""
    ensures PipeBytes(env, oracle, probe, r, p, input) == p
  {
    hide Step, Extend, ReadLine, TrimSpace, ReadData, NeedOf, PipeStep;
  }

  /** Mode and queue after a sequence of events. */
  ghost function PipeAll(env: Env, probe: nat -> bool, r: Run, es: seq<Event>): Pipe {
    if es == [] then IDLE
    else
      var n := |es| - 1;
      var p, q := PipeAll(env, probe, r, es[..n]), RunAll(env, r, es[..n]);
      if q.end != Continue then p
      else PipeStep(p, q.session, es[n].line, Probed(probe, |q.log|), Step(env, q.session, es[n]))
  }

  lemma OneMoreEvent(env: Env, probe: nat -> bool, r: Run, es: seq<Event>, e: Event)
    requires RunAll(env, r, es).end == Continue
    ensures RunAll(env, r, es + [e]) == Extend(env, RunAll(env, r, es), e)
    ensures var q := RunAll(env, r, es);
      PipeAll(env, probe, r, es + [e])
      == PipeStep(PipeAll(env, probe, r, es), q.session, e.line, Probed(probe, |q.log|), Step(env, q.session, e))
  {
    hide Step, Extend, PipeStep;
    assert (es + [e])[..|es|] == es;
  }

  /** What holds of the queue after every sequence of events holds of it after every stream of bytes. */
  lemma {:induction false} PipesAreEvents(env: Env, oracle: nat -> Oracle, probe: nat -> bool, r: Run, before: seq<Event>,
                                          input: Bytes)
    returns (es: seq<Event>)
    ensures var q := RunAll(env, r, before);
      && RunBytes(env, oracle, q, input) == RunAll(env, r, es)
      && PipeBytes(env, oracle, probe, q, PipeAll(env, probe, r, before), input) == PipeAll(env, probe, r, es)
    decreases |input|
  {
    hide Step, Extend, ReadLine, TrimSpace, ReadData, NeedOf, PipeStep, RunBytes, PipeBytes, RunAll, PipeAll;
    var q, p := RunAll(env, r, before), PipeAll(env, probe, r, before);
    if q.end != Continue || input == "" {
      NoMoreTurns(env, oracle, q, input);
      PipeRests(env, oracle, probe, q, p, input);
      es := before;
    } else {
      OneTurn(env, oracle, q, input);
      PipeTurn(env, oracle, probe, q, p, input);
      var (raw, rest) := ReadLine(input);
      var line := TrimSpace(raw);
      if line == "" {
        es := PipesAreEvents(env, oracle, probe, r, before, rest);
      } else {
        var (data, rest') := ReadData(env, NeedOf(q.session, line), rest);
        var e := Event(line, data, AnswerAt(oracle, |q.log|));
        OneMoreEvent(env, probe, r, before, e);
        es := PipesAreEvents(env, oracle, probe, r, before + [e], rest');
      }
    }
  }

  // ---------- What is withheld ----------

  ghost function SessionAt(env: Env, r: Run, es: seq<Event>, k: nat): Session
    requires k <= |es|
  {
    RunAll(env, r, es[..k]).session
  }

  ghost predicate OpensAt(env: Env, probe: nat -> bool, r: Run, es: seq<Event>, k: nat)
    requires k < |es|
  {
    OpensIn(SessionAt(env, r, es, k), es[k].line, Probed(probe, k))
  }

  ghost predicate BreaksAt(env: Env, r: Run, es: seq<Event>, k: nat)
    requires k < |es|
  {
    BreaksIn(SessionAt(env, r, es, k), es[k].line)
  }

  lemma SameBefore(env: Env, probe: nat -> bool, r: Run, es: seq<Event>, n: nat, k: nat)
    requires k < n <= |es|
    ensures OpensAt(env, probe, r, es[..n], k) == OpensAt(env, probe, r, es, k)
    ensures BreaksAt(env, r, es[..n], k) == BreaksAt(env, r, es, k)
  {
    assert es[..n][..k] == es[..k];
  }

  lemma {:induction false} OneEntryEach(env: Env, r: Run, es: seq<Event>)
    requires RunAll(env, r, es).end == Continue && r.end == Continue
    ensures |RunAll(env, r, es).log| == |r.log| + |es|
  {
    hide Step;
    if es != [] {
      OneEntryEach(env, r, es[..|es| - 1]);
    }
  }

  /** The replies given from the `j`-th command on. */
  function RepliesFrom(log: seq<Exchange>, j: nat): seq<string>
    requires j <= |log|
  {
    Trace(log[j..])
  }

  lemma OneMoreReply(log: seq<Exchange>, x: Exchange, j: nat)
    requires j <= |log|
    ensures RepliesFrom(log + [x], j) == RepliesFrom(log, j) + x.replies
    ensures RepliesFrom(log, |log|) == []
  {
    assert (log + [x])[j..] == log[j..] + [x];
    LogSnoc(log[j..], x);
  }

  /** Since command `j`, at which the client was first seen to pipeline, no breaking command has come. */
  ghost predicate WithheldSince(env: Env, probe: nat -> bool, r: Run, es: seq<Event>, j: nat) {
    && j <= |es|
    && (j < |es| ==> OpensAt(env, probe, r, es, j))
    && (forall k :: j <= k < |es| ==> !BreaksAt(env, r, es, k))
    && (forall k :: 0 <= k < j && OpensAt(env, probe, r, es, k) ==> exists b :: k <= b < j && BreaksAt(env, r, es, b))
  }

  lemma SinceStays(env: Env, probe: nat -> bool, r: Run, es: seq<Event>, j: nat)
    requires es != [] && j < |es| && WithheldSince(env, probe, r, es[..|es| - 1], j)
    requires !BreaksAt(env, r, es, |es| - 1) && (j == |es| - 1 ==> OpensAt(env, probe, r, es, j))
    ensures WithheldSince(env, probe, r, es, j)
  {
    hide OpensAt, BreaksAt;
    var n := |es| - 1;
    forall k | 0 <= k < n
      ensures OpensAt(env, probe, r, es[..n], k) == OpensAt(env, probe, r, es, k)
      ensures BreaksAt(env, r, es[..n], k) == BreaksAt(env, r, es, k)
    {
      SameBefore(env, probe, r, es, n, k);
    }
    forall k | 0 <= k < j && OpensAt(env, probe, r, es, k)
      ensures exists b :: k <= b < j && BreaksAt(env, r, es, b)
    {
      var b :| k <= b < j && BreaksAt(env, r, es[..n], b);
    }
  }

  /** Not queueing now: whenever the client was seen to pipeline, a breaking command has come since. */
  lemma NothingSince(env: Env, probe: nat -> bool, r: Run, es: seq<Event>, j: nat)
    requires es != [] && WithheldSince(env, probe, r, es[..|es| - 1], j)
    requires BreaksAt(env, r, es, |es| - 1) || (j == |es| - 1 && !OpensAt(env, probe, r, es, j))
    ensures WithheldSince(env, probe, r, es, |es|)
  {
    hide OpensAt, BreaksAt;
    var n := |es| - 1;
    forall k | 0 <= k < |es| && OpensAt(env, probe, r, es, k)
      ensures exists b :: k <= b < |es| && BreaksAt(env, r, es, b)
    {
      if BreaksAt(env, r, es, n) {
        assert k <= n < |es|;
      } else {
        SameBefore(env, probe, r, es, n, k);
        var b :| k <= b < j && BreaksAt(env, r, es[..n], b);
        SameBefore(env, probe, r, es, n, b);
      }
    }
  }

  /**
    For every probe and every run that goes on: the session queues exactly if the client was seen to pipeline since the
    last breaking command, and what it withholds is exactly the replies from the first such command on.
  */
  lemma {:induction false} WithheldExactly(env: Env, probe: nat -> bool, r: Run, es: seq<Event>) returns (j: nat)
    requires r.end == Continue && r.log == [] && RunAll(env, r, es).end == Continue
    ensures WithheldSince(env, probe, r, es, j) && j <= |es| == |RunAll(env, r, es).log|
    ensures var p := PipeAll(env, probe, r, es);
      (p.mode <==> j < |es|) && p.queue == RepliesFrom(RunAll(env, r, es).log, j)
  {
    hide Step, WithheldSince, RepliesFrom, OpensIn, BreaksIn;
    OneEntryEach(env, r, es);
    if es == [] {
      j := 0;
      NoneWithheld(env, probe, r);
    } else {
      var n := |es| - 1;
      var e, q := es[n], RunAll(env, r, es[..n]);
      var i := WithheldExactly(env, probe, r, es[..n]);
      var f := Step(env, q.session, e);
      OneMoreReply(q.log, ExchangeOf(e, f), i);
      OneMoreReply(q.log + [ExchangeOf(e, f)], ExchangeOf(e, f), i);
      if BreaksAt(env, r, es, n) || (i == n && !OpensAt(env, probe, r, es, i)) {
        j := |es|;
        NothingSince(env, probe, r, es, i);
      } else {
        j := i;
        SinceStays(env, probe, r, es, i);
      }
    }
  }

  lemma NoneWithheld(env: Env, probe: nat -> bool, r: Run)
    ensures WithheldSince(env, probe, r, [], 0) && RepliesFrom([], 0) == []
  {
  }

  /** After the end, whatever the reason, nothing is withheld. */
  lemma {:induction false} NothingWithheldAtTheEnd(env: Env, probe: nat -> bool, r: Run, es: seq<Event>)
    requires r.end == Continue && RunAll(env, r, es).end != Continue
    ensures PipeAll(env, probe, r, es).queue == []
  {
    hide Step;
    if RunAll(env, r, es[..|es| - 1]).end != Continue {
      NothingWithheldAtTheEnd(env, probe, r, es[..|es| - 1]);
    }
  }

  // ---------- Withheld only as announced ----------

  /** As long as no STARTTLS succeeds, a session queues only while PIPELINING is in force. */
  lemma {:induction false} QueuesOnlyInForce(env: Env, probe: nat -> bool, greets: bool, tls: bool, es: seq<Event>)
    requires RunAll(env, Start(greets, tls), es).session.tls == tls
    ensures var s := RunAll(env, Start(greets, tls), es).session;
      PipeAll(env, probe, Start(greets, tls), es).mode ==> s.caps.pipelining && s.state != Helo
  {
    hide Step, BreaksIn;
    var r0 := Start(greets, tls);
    if es != [] {
      var q, e := RunAll(env, r0, es[..|es| - 1]), es[|es| - 1];
      TlsOnlyRises(env, r0, es[..|es| - 1]);
      TlsStays(env, q.session, e);
      QueuesOnlyInForce(env, probe, greets, tls, es[..|es| - 1]);
      NothingNegotiatedYet(env, greets, tls, es[..|es| - 1]);
      if q.session.state != Helo {
        TermsStep(env, q.session, e);
      }
    }
  }

  /** A session in which PIPELINING is in force has announced it, as long as no STARTTLS succeeds. */
  lemma {:induction false} InForceMeansAnnounced(env: Env, greets: bool, tls: bool, es: seq<Event>) returns (k: nat)
    requires var s := RunAll(env, Start(greets, tls), es).session; s.tls == tls && s.caps != NONE
    ensures var log := RunAll(env, Start(greets, tls), es).log; k < |log| && IsWelcome(log[k])
  {
    hide Step, IsWelcome;
    var r0 := Start(greets, tls);
    var q, e := RunAll(env, r0, es[..|es| - 1]), es[|es| - 1];
    TlsOnlyRises(env, r0, es[..|es| - 1]);
    TlsStays(env, q.session, e);
    if q.end != Continue || q.session.caps != NONE {
      k := InForceMeansAnnounced(env, greets, tls, es[..|es| - 1]);
    } else {
      k := |q.log|;
      NewTermsAreAnnounced(env, q.session, e);
    }
  }

  /**
    As long as no STARTTLS succeeds, a session that withholds replies has announced PIPELINING in its EHLO reply, and
    no EHLO reply in its log is without it.
  */
  lemma QueueingIsAnnounced(env: Env, probe: nat -> bool, greets: bool, tls: bool, es: seq<Event>) returns (k: nat)
    requires RunAll(env, Start(greets, tls), es).session.tls == tls && PipeAll(env, probe, Start(greets, tls), es).mode
    ensures var log := RunAll(env, Start(greets, tls), es).log; k < |log| && IsWelcome(log[k])
    ensures var log := RunAll(env, Start(greets, tls), es).log;
      forall i :: 0 <= i < |log| && IsWelcome(log[i]) ==> Said(SplitLines(log[i].replies[0]), "PIPELINING")
  {
    hide RunAll, PipeAll, SplitLines, Said, ParseLine;
    QueuesOnlyInForce(env, probe, greets, tls, es);
    k := InForceMeansAnnounced(env, greets, tls, es);
    var log := RunAll(env, Start(greets, tls), es).log;
    forall i | 0 <= i < |log| && IsWelcome(log[i])
      ensures Said(SplitLines(log[i].replies[0]), "PIPELINING")
    {
      AdvertisedIsEnforced(env, greets, tls, es, i);
    }
  }
}
