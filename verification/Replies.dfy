/** Reply texts: the standard messages, simulated errors, and how a reply is recognised as a 421. */
module Replies {
  import opened Strings
  import opened ErrorPattern

  // a code is written apart from its text where proofs go by the code
  const R_OK := "250" + " OK"
  const R_ACCEPTED := "250" + " OK Message accepted for delivery"
  const R_START_DATA := "354" + " End data with <CR><LF>.<CR><LF>"
  const R_READY := "220" + " Ready to start TLS"
  const R_UNKNOWN := "500 Command not recognised"
  const R_TOO_LONG := "500 Command too long"
  const R_SYNTAX := "501" + " Syntax error in parameters"
  const R_SEQUENCE := "503 Bad sequence of commands"
  const R_BYE := "221 Bye"
  const R_AUTH_OK := "235 Authentication successful"
  const R_AUTH_FAILED := "535 Authentication failed"
  const R_AUTH_INACTIVE := "535" + " Authentication failed: account inactive"
  const R_NO_MECHANISM := "504" + " Authentication mechanism not supported"
  const M_421 := "Service not available, closing transmission channel"

  function ErrorMessage(code: nat): (m: string)
    ensures |m| >= 13
  {
    if code == 421 then M_421
    else if code < 500 then TransientMessage(code)
    else if code < 550 then SyntaxMessage(code)
    else MailboxMessage(code)
  }

  function TransientMessage(code: nat): (m: string)
    ensures |m| >= 13
  {
    if code == 450 then "Requested mail action not taken: mailbox unavailable"
    else if code == 451 then "Requested action aborted: local error in processing"
    else if code == 452 then "Requested action not taken: insufficient system storage"
    else "Unknown error"
  }

  function SyntaxMessage(code: nat): (m: string)
    ensures |m| >= 13
  {
    if code == 500 then "Syntax error, command unrecognized"
    else if code == 501 then "Syntax error in parameters or arguments"
    else if code == 502 then "Command not implemented"
    else if code == 503 then "Bad sequence of commands"
    else if code == 504 then "Command parameter not implemented"
    else if code == 521 then "Machine does not accept mail"
    else if code == 535 then "Authentication failed"
    else "Unknown error"
  }

  function MailboxMessage(code: nat): (m: string)
    ensures |m| >= 13
  {
    if code == 550 then "Requested action not taken: mailbox unavailable"
    else if code == 551 then "User not local; please try forward path"
    else if code == 552 then "Requested mail action aborted: exceeded storage allocation"
    else if code == 553 then "Requested action not taken: mailbox name not allowed"
    else if code == 554 then "Transaction failed"
    else if code == 571 then "Blocked - see https://example.com/blocked"
    else "Unknown error"
  }

  /** The reply for a simulated error; the enhanced code is shown only when the session negotiated it. */
  function FormatError(enhancedCodes: bool, e: ErrorResult): string {
    if enhancedCodes && e.enhanced != ""
    then FormatNat(e.code) + (" " + e.enhanced + " " + ErrorMessage(e.code))
    else FormatNat(e.code) + (" " + ErrorMessage(e.code))
  }

  /** The enhanced code stands between code and message exactly when it was negotiated and the address gives one. */
  lemma EnhancedShown(enhancedCodes: bool, e: ErrorResult)
    ensures FormatError(enhancedCodes, e) == FormatNat(e.code) + (" " + e.enhanced + " " + ErrorMessage(e.code))
      <==> enhancedCodes && e.enhanced != ""
    ensures FormatError(enhancedCodes, e) == FormatNat(e.code) + (" " + ErrorMessage(e.code))
      <==> !enhancedCodes || e.enhanced == ""
  {
    hide FormatNat, ErrorMessage;
    var code, message := FormatNat(e.code), ErrorMessage(e.code);
    assert |code + (" " + e.enhanced + " " + message)| == |code + (" " + message)| + |e.enhanced| + 1;
  }

  // ---------- Recognising a 421 ----------

  function FirstLine(s: string): (f: string)
    ensures f <= s
  {
    if s == "" || (|s| >= 2 && s[0] == '\r' && s[1] == '\n') then ""
    else [s[0]] + FirstLine(s[1..])
  }

  predicate IsBlank(c: char) {
    c == ' ' || c == '\t'
  }

  function TrimPrefix(s: string, p: string): string {
    if p <= s then s[|p|..] else s
  }

  predicate Is421(response: string) {
    response != "" &&
    var line := FirstLine(response);
    var first := line[SpanLen(line, IsBlank)..];
    if |first| >= 3 && Atoi(first[..3]).Some? then Atoi(first[..3]) == Some(421)
    else
      var canon := Lower(TrimSpace(M_421));
      EqualFold(TrimSpace(first), canon) || EqualFold(TrimSpace(TrimPrefix(first, "421 ")), canon)
  }

  predicate StartsWithCode(t: string) {
    |t| >= 3 && ThreeDigits(t[..3])
  }

  lemma {:induction false} FirstLineKeeps(t: string, k: nat)
    requires k <= |t| && '\r' !in t[..k]
    ensures k <= |FirstLine(t)| && FirstLine(t)[..k] == t[..k]
  {
    if k > 0 {
      assert t[..k][0] != '\r';
      assert t[..k][1..] == t[1..][..k - 1];
      FirstLineKeeps(t[1..], k - 1);
    }
  }

  /** A reply that starts with three digits is a 421 exactly when those digits are. */
  lemma CodeDecides(t: string)
    requires StartsWithCode(t)
    ensures Is421(t) <==> t[..3] == "421"
  {
    var d := t[..3];
    FirstLineKeeps(t, 3);
    var line := FirstLine(t);
    assert !IsBlank(line[0]) by { assert line[0] == d[0]; }
    assert line[SpanLen(line, IsBlank)..] == line;
    ValueOfThree(d);
    assert Atoi(d) == Some(Value(d));
  }

  lemma NeverA421(code: string, rest: string)
    requires ThreeDigits(code) && code != "421"
    ensures !Is421(code + rest)
  {
    hide Is421;
    assert (code + rest)[..3] == code;
    CodeDecides(code + rest);
  }

  lemma FormatOf421()
    ensures FormatNat(421) == "421"
  {
    assert FormatNat(4) == "4";
    assert FormatNat(42) == "42";
  }

  /** The code printed in front of a simulated error. */
  lemma ErrorStart(enhancedCodes: bool, e: ErrorResult)
    requires e.code <= 999
    ensures var t := FormatError(enhancedCodes, e);
      var n := |FormatNat(e.code)|;
      1 <= n <= 3 && n + 14 <= |t| && t[..n] == FormatNat(e.code) && t[n] == ' ' && (n == 3 <==> e.code >= 100)
  {
    FormatWidth(e.code);
  }

  lemma CanonicalMessage()
    ensures var canon := Lower(TrimSpace(M_421)); canon != "" && !IsDigit(Lower(canon)[0])
  {
    hide Lower, TrimSpace;
    MessageEnds();
    Canonical(M_421);
  }

  lemma MessageEnds()
    ensures |M_421| == 51 && M_421[0] == 'S' && M_421[50] == 'l'
  {
    var words := "Service not available, " + "closing transmission channel";
    assert words[0] == 'S';
    assert M_421 == words;
  }

  lemma Canonical(text: string)
    requires text != "" && text[0] == 'S' && !IsSpace(text[|text| - 1])
    ensures var canon := Lower(TrimSpace(text)); canon != "" && !IsDigit(Lower(canon)[0])
  {
    TrimFixed(text);
  }

  lemma TrimKeepsDigit(s: string)
    requires s != "" && IsDigit(s[0])
    ensures TrimSpace(s) != "" && TrimSpace(s)[0] == s[0]
  {
    SpanOfRun("", s, IsSpace);
    assert "" + s == s;
    assert TrimLeft(s) == s;
    TrimRightKeeps(s, 1);
  }

  lemma NotAMessage(first: string, canon: string)
    requires first != "" && IsDigit(first[0])
    requires canon != "" && !IsDigit(Lower(canon)[0])
    ensures !EqualFold(TrimSpace(first), canon)
  {
    TrimKeepsDigit(first);
    assert Lower(TrimSpace(first))[0] == first[0];
  }

  lemma {:induction false} TrimRightKeeps(s: string, k: nat)
    requires 0 < k <= |s| && !IsSpace(s[k - 1])
    ensures k <= |TrimRight(s)|
  {
    if k < |s| && IsSpace(s[|s| - 1]) {
      TrimRightKeeps(s[..|s| - 1], k);
    }
  }

  lemma ShortCodeIsNo421(enhancedCodes: bool, e: ErrorResult)
    requires e.code < 100
    ensures !Is421(FormatError(enhancedCodes, e))
  {
    hide FormatError, FormatNat, Lower, TrimSpace;
    var t := FormatError(enhancedCodes, e);
    var n := |FormatNat(e.code)|;
    ErrorStart(enhancedCodes, e);
    assert forall i :: 0 <= i < n ==> t[i] == t[..n][i];
    assert '\r' !in t[..n + 1];
    FirstLineKeeps(t, n + 1);
    var line := FirstLine(t);
    assert line[0] == t[0] && line[n] == ' ';
    assert line[SpanLen(line, IsBlank)..] == line;
    if |line| >= 3 {
      assert line[..3][n] == ' ';
      SpaceIsNoNumber(line[..3], n);
    }
    CanonicalMessage();
    NotAMessage(line, Lower(TrimSpace(M_421)));
    assert !("421 " <= line) by { assert "421 "[n] != ' '; }
  }

  /** Every simulated error from 000 to 999 closes the connection exactly when its code is 421. */
  lemma SimulatedErrorIs421(enhancedCodes: bool, e: ErrorResult)
    requires e.code <= 999
    ensures Is421(FormatError(enhancedCodes, e)) <==> e.code == 421
  {
    hide Is421, FormatError;
    if e.code >= 100 {
      var t := FormatError(enhancedCodes, e);
      ErrorStart(enhancedCodes, e);
      assert t[..3] == FormatNat(e.code);
      CodeDecides(t);
      ValueOfFormat(e.code);
      FormatOf421();
      ValueOfFormat(421);
    } else {
      ShortCodeIsNo421(enhancedCodes, e);
    }
  }

  /** The code a simulated error is printed with is its own. */
  lemma ErrorCodeShows(enhancedCodes: bool, e: ErrorResult, code: nat)
    requires FormatNat(code) + " " <= FormatError(enhancedCodes, e)
    ensures e.code == code
  {
    hide FormatNat;
    var t, d, c := FormatError(enhancedCodes, e), FormatNat(e.code), FormatNat(code);
    assert t[..|d|] == d && t[|d|] == ' ';
    assert t[..|c|] == c && t[|c|] == ' ' by { assert (c + " ")[..|c|] == c; }
    assert forall i :: 0 <= i < |d| ==> IsDigit(d[i]) && t[i] != ' ';
    assert forall i :: 0 <= i < |c| ==> IsDigit(c[i]) && t[i] != ' ';
    assert |c| == |d|;
    ValueOfFormat(e.code);
    ValueOfFormat(code);
  }

  /** A fixed reply whose code has no message of its own is no simulated error, unless it ends like one. */
  lemma NotASimulatedError(enhancedCodes: bool, e: ErrorResult, code: nat, text: string)
    requires code < 450 && code != 421 && FormatNat(code) + " " <= text && text[|text| - 1] != 'r'
    ensures FormatError(enhancedCodes, e) != text
  {
    hide FormatNat;
    assert ErrorMessage(code) == "Unknown error";
    if FormatError(enhancedCodes, e) == text {
      ErrorCodeShows(enhancedCodes, e, code);
    }
  }

  lemma FixedCodes()
    ensures FormatNat(220) == "220" && FormatNat(235) == "235" && FormatNat(334) == "334" && FormatNat(354) == "354"
    ensures FormatNat(250) == "250"
  {
    assert FormatNat(2) == "2" && FormatNat(22) == "22" && FormatNat(23) == "23" && FormatNat(25) == "25";
    assert FormatNat(3) == "3" && FormatNat(33) == "33" && FormatNat(35) == "35";
  }

  /** No simulated error reads like the prompt for a body, the go-ahead for TLS, a login or an accepted message. */
  lemma ErrorIsNoFixedReply(enhancedCodes: bool, e: ErrorResult)
    ensures FormatError(enhancedCodes, e) != R_START_DATA
    ensures FormatError(enhancedCodes, e) != R_READY
    ensures FormatError(enhancedCodes, e) != R_AUTH_OK
    ensures FormatError(enhancedCodes, e) != R_ACCEPTED
  {
    hide FormatError, FormatNat;
    FixedCodes();
    NotASimulatedError(enhancedCodes, e, 354, R_START_DATA);
    NotASimulatedError(enhancedCodes, e, 220, R_READY);
    NotASimulatedError(enhancedCodes, e, 235, R_AUTH_OK);
    NotASimulatedError(enhancedCodes, e, 250, R_ACCEPTED);
  }

  /** No simulated error starts like a reply of several lines. */
  lemma ErrorIsNoList(enhancedCodes: bool, e: ErrorResult)
    ensures !("250-" <= FormatError(enhancedCodes, e))
  {
    hide FormatNat, ErrorMessage;
    var t, d := FormatError(enhancedCodes, e), FormatNat(e.code);
    assert t[..|d|] == d && t[|d|] == ' ';
    assert forall i :: 0 <= i < |d| ==> IsDigit(d[i]) && t[i] == d[i];
    var list := "250-";
    assert list[0] == '2' && list[1] == '5' && list[2] == '0' && list[3] == '-';
  }

  /** A simulated error looks like an AUTH prompt exactly when its code is the prompt's. */
  lemma ErrorLooksLikePrompt(enhancedCodes: bool, e: ErrorResult)
    ensures "334 " <= FormatError(enhancedCodes, e) <==> e.code == 334
  {
    hide FormatNat, ErrorMessage;
    FixedCodes();
    assert "334" + " " == "334 ";
    if "334 " <= FormatError(enhancedCodes, e) {
      ErrorCodeShows(enhancedCodes, e, 334);
    }
  }

  lemma SpaceIsNoNumber(s: string, k: nat)
    requires 0 < k < |s| && s[k] == ' '
    ensures Atoi(s) == None
  {
    assert s[1..][k - 1] == ' ';
  }

  /** A simulated error has at least 15 characters, so it is never one of the short fixed replies. */
  lemma ErrorIsLong(enhancedCodes: bool, e: ErrorResult)
    ensures |FormatError(enhancedCodes, e)| >= 15
  {
  }
}
