/** What a client can rely on, whatever bytes it sends: the theorems about runs, on the byte stream. */
module Guarantees {
  import opened Replies
  import opened SessionModel
  import opened Framing
  import opened Pipelining
  import opened History
  import opened Dialogue
  import opened Server

  /** All replies of a session, the greeting first. */
  ghost function AllReplies(greets: bool, identity: string, r: Run): seq<string> {
    (if greets then [GreetingText(identity)] else []) + Trace(r.log)
  }

  lemma GreetingIsNo421(identity: string)
    ensures !Is421(GreetingText(identity))
  {
    hide Is421;
    assert GreetingText(identity) == "220" + GreetingText(identity)[3..];
    NeverA421("220", GreetingText(identity)[3..]);
  }

  /**
    Whatever a client sends: every command but a failed last one gets exactly one reply, prompts apart; a 421 is the
    last reply of all and ends the session; and the session ends by itself only with a 421 or after QUIT.
  */
  lemma AnyStreamIsAnswered(env: Env, oracle: nat -> Oracle, greets: bool, identity: string, tls: bool, input: Bytes,
                            k: nat)
    ensures var r := RunBytes(env, oracle, Start(greets, tls), input);
      DialogueOk(env, r)
      && (k < |AllReplies(greets, identity, r)| && Is421(AllReplies(greets, identity, r)[k])
          ==> k == |AllReplies(greets, identity, r)| - 1 && r.end == Eof)
  {
    hide RunBytes, RunAll, Is421, GreetingText, AnsweredOnce, Trace;
    var es := BytesAreEvents(env, oracle, Start(greets, tls), input);
    OneReplyEach(env, greets, tls, es);
    GreetingIsNo421(identity);
  }

  /**
    Whatever a client sends: each stored message has the sender and the recipients the client was told were
    accepted and no sender that asked for a DATA error; remembered errors are those of the last accepted MAIL; and
    the chunk buffer holds the chunks taken since a BDAT message was last stored.
  */
  lemma AnyStreamKeepsEnvelopes(env: Env, oracle: nat -> Oracle, greets: bool, tls: bool, input: Bytes)
    ensures Inv(env, RunBytes(env, oracle, Start(greets, tls), input))
  {
    hide RunBytes, RunAll, Inv;
    var es := BytesAreEvents(env, oracle, Start(greets, tls), input);
    InvAlways(env, greets, tls, es);
  }

  /**
    Whatever a client sends: replies are withheld only in a session that goes on and in which the probe has seen input
    waiting; and, as long as no STARTTLS succeeds, only while PIPELINING is in force.
  */
  lemma AnyStreamIsWithheldOnlyIfProbed(env: Env, oracle: nat -> Oracle, probe: nat -> bool, greets: bool, tls: bool,
                                        input: Bytes)
    ensures var r := RunBytes(env, oracle, Start(greets, tls), input);
      var p := PipeBytes(env, oracle, probe, Start(greets, tls), IDLE, input);
      && (p.queue != [] ==> r.end == Continue && exists k: nat :: k < |r.log| && Probed(probe, k))
      && (p.queue != [] && r.session.tls == tls ==> r.session.caps.pipelining)
  {
    hide RunBytes, PipeBytes, Step, WithheldSince, RepliesFrom;
    var r0 := Start(greets, tls);
    var es := PipesAreEvents(env, oracle, probe, r0, [], input);
    if RunAll(env, r0, es).end != Continue {
      NothingWithheldAtTheEnd(env, probe, r0, es);
    } else {
      var j := WithheldExactly(env, probe, r0, es);
      FirstWithheld(env, probe, r0, es, j);
      if RunAll(env, r0, es).session.tls == tls {
        QueuesOnlyInForce(env, probe, greets, tls, es);
      }
    }
  }

  lemma FirstWithheld(env: Env, probe: nat -> bool, r: Run, es: seq<Event>, j: nat)
    requires WithheldSince(env, probe, r, es, j) && |RunAll(env, r, es).log| == |es|
    ensures j < |es| ==> Probed(probe, j)
    ensures j == |es| ==> RepliesFrom(RunAll(env, r, es).log, j) == []
  {
    hide RunAll;
  }

  /**
    A served session: a 421 on the wire is the last reply there, nothing is left queued behind it, and every reply
    before it was written before it; a peer that goes away has seen none. What is left queued is left because the
    session goes on and the client was seen to pipeline.
  */
  method ServeToTheEnd(env: Env, oracle: nat -> Oracle, probe: nat -> bool, greets: bool, identity: string, tls: bool,
                       input: Bytes, budget: nat)
    returns (wire: seq<string>, queued: seq<string>, end: End)
    ensures end != WriteFailed ==>
      forall k :: 0 <= k < |wire| && Is421(wire[k]) ==> k == |wire| - 1 && queued == [] && end == Eof
    ensures end != WriteFailed ==> forall t :: t in queued ==> !Is421(t)
    ensures end == WriteFailed ==> forall t :: t in wire ==> !Is421(t)
    ensures end != WriteFailed && queued != [] ==> end == Continue && exists k :: Probed(probe, k)
  {
    hide RunBytes, PipeBytes, Is421, GreetingText, Trace, Delivered;
    var session, delivered;
    session, wire, queued, delivered, end := Serve(env, oracle, probe, greets, identity, tls, input, budget);
    ghost var r := RunBytes(env, oracle, Start(greets, tls), input);
    ghost var all := AllReplies(greets, identity, r);
    AnyStreamIsWithheldOnlyIfProbed(env, oracle, probe, greets, tls, input);
    forall k: nat | k < |all| && Is421(all[k])
      ensures k == |all| - 1 && r.end == Eof
    {
      AnyStreamIsAnswered(env, oracle, greets, identity, tls, input, k);
    }
    assert forall k :: 0 <= k < |wire| ==> wire[k] == all[k];
    if end != WriteFailed {
      assert forall j :: 0 <= j < |queued| ==> queued[j] == all[|wire| + j];
    }
  }
}
