/** Delivery into a maildir: written in tmp/, then renamed into new/, whatever fails on the way. */
module Maildir {
  import opened Strings

  datatype Message = Message(from: string, to: seq<string>, content: string)

  // ---------- File names ----------

  function Filename(seconds: int, micros: int, pid: nat, counter: nat, host: string): string {
    var unique := FormatInt(micros) + ("_" + (FormatNat(pid) + ("_" + FormatNat(counter))));
    FormatInt(seconds) + ("." + (unique + ("." + host)))
  }

  function Before(s: string, c: char): string {
    s[..IndexOf(s, c)]
  }

  function After(s: string, c: char): string {
    if IndexOf(s, c) < |s| then s[IndexOf(s, c) + 1..] else ""
  }

  lemma CutAtFirst(u: string, c: char, v: string)
    requires c !in u
    ensures Before(u + ([c] + v), c) == u && After(u + ([c] + v), c) == v
  {
    assert u + ([c] + v) == u + [c] + v;
    IndexAfter(u, c, v);
  }

  lemma NumbersAreClean(n: int)
    ensures '.' !in FormatInt(n) && '_' !in FormatInt(n)
  {
    NotInDigits('.', if n < 0 then -n else n);
    NotInDigits('_', if n < 0 then -n else n);
  }

  /** The middle part of a file name. */
  function Unique(name: string): string {
    Before(After(name, '.'), '.')
  }

  /** The name spells the times, the process, the counter and the host it was made with. */
  lemma NameTells(seconds: int, micros: int, pid: nat, counter: nat, host: string)
    ensures var name := Filename(seconds, micros, pid, counter, host);
      var unique := Unique(name);
      && Before(name, '.') == FormatInt(seconds) && After(After(name, '.'), '.') == host
      && Before(unique, '_') == FormatInt(micros) && Before(After(unique, '_'), '_') == FormatNat(pid)
      && After(After(unique, '_'), '_') == FormatNat(counter)
  {
    hide FormatInt, FormatNat, Before, After;
    NumbersAreClean(seconds);
    NumbersAreClean(micros);
    NotInDigits('.', pid);
    NotInDigits('_', pid);
    NotInDigits('.', counter);
    var c := FormatNat(counter);
    var pc := FormatNat(pid) + ("_" + c);
    var unique := FormatInt(micros) + ("_" + pc);
    CutAtFirst(FormatInt(seconds), '.', unique + ("." + host));
    CutAtFirst(unique, '.', host);
    CutAtFirst(FormatInt(micros), '_', pc);
    CutAtFirst(FormatNat(pid), '_', c);
  }

  lemma PrintedDiffers(a: int, b: int)
    requires FormatInt(a) == FormatInt(b)
    ensures a == b
  {
    ValueOfFormat(if a < 0 then -a else a);
    ValueOfFormat(if b < 0 then -b else b);
    assert FormatInt(a)[0] == '-' <==> a < 0 by { if a >= 0 { assert IsDigit(FormatNat(a)[0]); } }
    assert FormatInt(b)[0] == '-' <==> b < 0 by { if b >= 0 { assert IsDigit(FormatNat(b)[0]); } }
    if a < 0 {
      assert FormatInt(a)[1..] == FormatNat(-a) && FormatInt(b)[1..] == FormatNat(-b);
    }
  }

  /** Names are equal only if all they were made from is equal; so names made with different counters differ. */
  lemma NamesNeverCollide(s1: int, m1: int, p1: nat, c1: nat, h1: string, s2: int, m2: int, p2: nat, c2: nat, h2: string)
    requires Filename(s1, m1, p1, c1, h1) == Filename(s2, m2, p2, c2, h2)
    ensures s1 == s2 && m1 == m2 && p1 == p2 && c1 == c2 && h1 == h2
  {
    hide Filename, Before, After, FormatInt, FormatNat, Unique;
    NameTells(s1, m1, p1, c1, h1);
    NameTells(s2, m2, p2, c2, h2);
    PrintedDiffers(s1, s2);
    PrintedDiffers(m1, m2);
    ValueOfFormat(p1);
    ValueOfFormat(p2);
    ValueOfFormat(c1);
    ValueOfFormat(c2);
  }

  // ---------- File contents ----------

  function FromLine(m: Message): string {
    "From: " + m.from + "\r\n"
  }

  function ToLine(m: Message): string {
    if m.to == [] then "" else "To: " + Join(m.to, ", ") + "\r\n"
  }

  lemma NoToLine(m: Message)
    requires m.to == []
    ensures ToLine(m) == ""
  {
  }

  function ReceivedLine(date: string): string {
    "Received: by badsmtp.test; " + date + "\r\n"
  }

  /** A complete message file. */
  function Rendered(m: Message, date: string): string {
    FromLine(m) + ToLine(m) + ReceivedLine(date) + "\r\n" + m.content
  }

  // ---------- Reading a file back ----------

  /** The header lines of a file, up to the first empty line, and what follows that. */
  function ReadHeaders(file: string): (r: (seq<string>, string))
    decreases |file|
  {
    var line := Before(file, '\r');
    if |file| < |line| + 2 then ([line], "")
    else if line == "" then ([], file[2..])
    else
      var rest := ReadHeaders(file[|line| + 2..]);
      ([line] + rest.0, rest.1)
  }

  /** The value of the first header that starts so. */
  function HeaderValue(headers: seq<string>, start: string): Option<string> {
    if headers == [] then None
    else if start <= headers[0] then Some(headers[0][|start|..])
    else HeaderValue(headers[1..], start)
  }

  /** The position of the first ", ", or the length of `s` when there is none. */
  function FirstComma(s: string): (k: nat)
    ensures k <= |s| && (k < |s| ==> k + 2 <= |s|)
  {
    if s == "" || ", " <= s then 0 else 1 + FirstComma(s[1..])
  }

  function SplitList(s: string): seq<string>
    decreases |s|
  {
    var k := FirstComma(s);
    if k == |s| then [s] else [s[..k]] + SplitList(s[k + 2..])
  }

  /** The message a file holds. */
  function ReadMessage(file: string): Option<Message> {
    var (headers, body) := ReadHeaders(file);
    var from, to := HeaderValue(headers, "From: "), HeaderValue(headers, "To: ");
    if from.None? then None
    else Some(Message(from.value, if to.None? then [] else SplitList(to.value), body))
  }

  predicate HasComma(s: string) {
    exists i :: 0 <= i < |s| - 1 && s[i] == ',' && s[i + 1] == ' '
  }

  /** Addresses and dates that fit into a header: no line end, and no separator inside a recipient. */
  predicate FitsHeaders(m: Message, date: string) {
    '\r' !in m.from && '\r' !in date && forall i :: 0 <= i < |m.to| ==> '\r' !in m.to[i] && !HasComma(m.to[i])
  }

  lemma {:induction false} FirstCommaOf(u: string, v: string)
    requires !HasComma(u)
    ensures FirstComma(u + ", " + v) == |u| && FirstComma(u) == |u|
  {
    if u == "" {
      assert u + ", " + v == ", " + v;
    } else {
      var s := u + ", " + v;
      assert s[1..] == u[1..] + ", " + v;
      assert !HasComma(u[1..]) by {
        assert forall i :: 0 <= i < |u[1..]| ==> u[1..][i] == u[i + 1];
      }
      FirstCommaOf(u[1..], v);
      NoCommaAt(u, v);
    }
  }

  lemma NoCommaAt(u: string, v: string)
    requires u != "" && !HasComma(u)
    ensures !(", " <= u + ", " + v) && !(", " <= u)
  {
    var s := u + ", " + v;
    assert ", "[0] == ',' && ", "[1] == ' ';
    assert s[0] == u[0];
    if |u| == 1 {
      assert s[1] == ',';
    } else {
      assert s[1] == u[1];
    }
  }

  /** Splitting undoes joining. */
  lemma {:induction false} ListReadsBack(parts: seq<string>)
    requires parts != [] && forall i :: 0 <= i < |parts| ==> !HasComma(parts[i])
    ensures SplitList(Join(parts, ", ")) == parts
  {
    hide HasComma, FirstComma;
    if |parts| == 1 {
      FirstCommaOf(parts[0], "");
    } else {
      var rest := Join(parts[1..], ", ");
      var s := parts[0] + ", " + rest;
      FirstCommaOf(parts[0], rest);
      assert s[..|parts[0]|] == parts[0] && s[|parts[0]| + 2..] == rest;
      ListReadsBack(parts[1..]);
    }
  }

  lemma HeaderRead(line: string, rest: string)
    requires line != "" && '\r' !in line
    ensures ReadHeaders(line + "\r\n" + rest) == ([line] + ReadHeaders(rest).0, ReadHeaders(rest).1)
  {
    var file := line + "\r\n" + rest;
    assert file == line + (['\r'] + ("\n" + rest));
    CutAtFirst(line, '\r', "\n" + rest);
    assert file[|line| + 2..] == rest;
  }

  lemma BodyRead(content: string)
    ensures ReadHeaders("\r\n" + content) == ([], content)
  {
    var file := "\r\n" + content;
    assert file == "" + (['\r'] + ("\n" + content));
    CutAtFirst("", '\r', "\n" + content);
    assert file[2..] == content;
  }

  lemma {:induction false} NoLineEnd(parts: seq<string>)
    requires forall i :: 0 <= i < |parts| ==> '\r' !in parts[i]
    ensures '\r' !in Join(parts, ", ")
  {
    if |parts| > 1 {
      NoLineEnd(parts[1..]);
    }
  }

  lemma HeaderStarts(from: string, to: string, date: string)
    ensures var f, t, d := "From: " + from, "To: " + to, "Received: by badsmtp.test; " + date;
      && HeaderValue([f, t, d], "From: ") == Some(from) && HeaderValue([f, t, d], "To: ") == Some(to)
      && HeaderValue([f, d], "From: ") == Some(from) && HeaderValue([f, d], "To: ") == None
  {
    var f, t, d := "From: " + from, "To: " + to, "Received: by badsmtp.test; " + date;
    assert f[|"From: "|..] == from && t[|"To: "|..] == to;
    assert f[0] == 'F' && t[0] == 'T' && d[0] == 'R' && "To: "[0] == 'T';
    var none: seq<string> := [];
    assert [f, t, d][1..] == [t, d] && [f, d][1..] == [d] && [d][1..] == none;
    assert HeaderValue([t, d], "To: ") == Some(to);
    assert HeaderValue(none, "To: ") == None;
    assert HeaderValue([d], "To: ") == None;
  }

  lemma RenderedLines(m: Message, date: string)
    ensures var tail := "\r\n" + m.content;
      var received := "Received: by badsmtp.test; " + date + "\r\n" + tail;
      Rendered(m, date) == "From: " + m.from + "\r\n"
                           + (if m.to == [] then received else "To: " + Join(m.to, ", ") + "\r\n" + received)
  {
    hide Join;
  }

  /** A complete file reads back as the message it was made from: sender, recipients in order, and content. */
  lemma FileReadsBack(m: Message, date: string)
    requires FitsHeaders(m, date)
    ensures ReadMessage(Rendered(m, date)) == Some(m)
  {
    hide Rendered, Join, HeaderValue, ReadHeaders, SplitList, HasComma;
    RenderedLines(m, date);
    BodyRead(m.content);
    var tail := "\r\n" + m.content;
    var from, to, got := "From: " + m.from, "To: " + Join(m.to, ", "), "Received: by badsmtp.test; " + date;
    var received := got + "\r\n" + tail;
    assert '\r' !in from && '\r' !in got;
    HeaderRead(got, tail);
    HeaderStarts(m.from, Join(m.to, ", "), date);
    if m.to == [] {
      HeaderRead(from, received);
      assert [from] + ([got] + []) == [from, got];
    } else {
      NoLineEnd(m.to);
      assert '\r' !in to;
      HeaderRead(to, received);
      HeaderRead(from, to + "\r\n" + received);
      assert [from] + ([to] + ([got] + [])) == [from, to, got];
      ListReadsBack(m.to);
    }
  }

  // ---------- Writing a file ----------

  /** What may fail during one delivery: each write may break off after some bytes. */
  datatype Faults = Faults(
    mkdir: bool, temp: Option<string>, pathOk: bool,
    fromLine: Option<nat>, toLine: Option<nat>, receivedLine: Option<nat>, blankLine: Option<nat>, body: Option<nat>,
    close: bool, remove: bool, rename: bool)

  predicate AllWritten(m: Message, f: Faults) {
    f.fromLine.None? && (m.to == [] || f.toLine.None?) && f.receivedLine.None? && f.blankLine.None? && f.body.None?
  }

  predicate NothingFails(m: Message, f: Faults) {
    f.mkdir && f.temp.Some? && f.pathOk && AllWritten(m, f) && f.close && f.rename
  }

  /** One write to an open file; a fault leaves some of the text written. */
  method WriteString(file: string, text: string, fault: Option<nat>) returns (ok: bool, after: string)
    ensures ok <==> fault.None?
    ensures ok ==> after == file + text
    ensures file <= after <= file + text
  {
    ok := fault.None?;
    var n := if ok || fault.value > |text| then |text| else fault.value;
    after := file + text[..n];
    assert text[..|text|] == text;
  }

  /** The header lines and the body, one after the other, until one cannot be written. */
  method WriteMessage(m: Message, date: string, f: Faults) returns (ok: bool, file: string)
    ensures ok <==> AllWritten(m, f)
    ensures ok ==> file == Rendered(m, date)
    ensures ok && FitsHeaders(m, date) ==> ReadMessage(file) == Some(m)
  {
    hide FitsHeaders, ReadMessage;
    if FitsHeaders(m, date) {
      FileReadsBack(m, date);
    }
    hide FromLine, ReceivedLine, ToLine;
    ok, file := WriteString("", FromLine(m), f.fromLine);
    if !ok { return; }
    assert file == FromLine(m);
    if |m.to| > 0 {
      ok, file := WriteString(file, ToLine(m), f.toLine);
      if !ok { return; }
    } else {
      NoToLine(m);
      assert file == FromLine(m) + "";
    }
    ok, file := WriteString(file, ReceivedLine(date), f.receivedLine);
    if !ok { return; }
    ok, file := WriteString(file, "\r\n", f.blankLine);
    if !ok { return; }
    ok, file := WriteString(file, m.content, f.body);
  }

  // ---------- The mailbox ----------

  /** The deliveries among the first `n` in which nothing that matters failed. */
  function Successes(ms: seq<Message>, faults: seq<Faults>, n: nat): set<nat>
    requires n <= |ms| == |faults|
  {
    set i: nat | i < n && NothingFails(ms[i], faults[i])
  }

  lemma OneMoreDelivery(ms: seq<Message>, faults: seq<Faults>, n: nat)
    requires n < |ms| == |faults|
    ensures |Successes(ms, faults, n + 1)|
      == |Successes(ms, faults, n)| + (if NothingFails(ms[n], faults[n]) then 1 else 0)
  {
    hide NothingFails;
    var now, more := Successes(ms, faults, n), Successes(ms, faults, n + 1);
    assert more == now + (if NothingFails(ms[n], faults[n]) then {n} else {});
  }

  /**
    What deliveries have done to new/: each delivered message is there, complete and under a name of its own, and
    nothing else has changed.
  */
  ghost predicate Filed(ms: seq<Message>, dates: seq<string>, names: seq<Option<string>>,
                        before: map<string, string>, after: map<string, string>)
  {
    && |names| <= |ms| == |dates|
    && (forall i, j :: 0 <= i < j < |names| && names[i].Some? ==> names[i] != names[j])
    && (forall i :: 0 <= i < |names| && names[i].Some? ==>
          names[i].value in after && after[names[i].value] == Rendered(ms[i], dates[i]))
    && (forall name :: name in after && Some(name) !in names ==> name in before && after[name] == before[name])
    && before.Keys <= after.Keys
  }

  lemma FiledOne(ms: seq<Message>, dates: seq<string>, names: seq<Option<string>>,
                 before: map<string, string>, now: map<string, string>, name: string)
    requires Filed(ms, dates, names, before, now) && |names| < |ms| && Some(name) !in names
    ensures var n := |names|;
      Filed(ms, dates, names + [Some(name)], before, now[name := Rendered(ms[n], dates[n])])
  {
    hide Rendered;
    var more := names + [Some(name)];
    assert forall x :: x in more <==> x in names || x == Some(name);
  }

  lemma FiledNone(ms: seq<Message>, dates: seq<string>, names: seq<Option<string>>,
                  before: map<string, string>, now: map<string, string>)
    requires Filed(ms, dates, names, before, now) && |names| < |ms|
    ensures Filed(ms, dates, names + [None], before, now)
  {
    hide Rendered;
    var none: Option<string> := None;
    assert forall x :: x in names + [none] <==> x in names || x == none;
  }

  /** No file that was there before has been overwritten, and new/ has grown by the number saved. */
  ghost predicate Grown(names: seq<Option<string>>, saved: nat, before: map<string, string>, after: map<string, string>) {
    |after| == |before| + saved && forall name :: name in before ==> Some(name) !in names
  }

  lemma GrownOne(names: seq<Option<string>>, saved: nat, before: map<string, string>, now: map<string, string>,
                 name: string, text: string)
    requires Grown(names, saved, before, now) && before.Keys <= now.Keys && name !in now
    ensures Grown(names + [Some(name)], saved + 1, before, now[name := text])
  {
    assert now[name := text].Keys == now.Keys + {name};
  }

  lemma GrownNone(names: seq<Option<string>>, saved: nat, before: map<string, string>, now: map<string, string>)
    requires Grown(names, saved, before, now)
    ensures Grown(names + [None], saved, before, now)
  {
  }

  lemma FiledKeeps(ms: seq<Message>, dates: seq<string>, names: seq<Option<string>>,
                   before: map<string, string>, now: map<string, string>)
    requires Filed(ms, dates, names, before, now)
    ensures before.Keys <= now.Keys
  {
  }

  /** What stays behind in tmp/ are files of the first `n` deliveries whose removal failed. */
  ghost predicate OnlyUnremovable(faults: seq<Faults>, n: nat, before: map<string, string>, after: map<string, string>)
    requires n <= |faults|
  {
    forall path :: path in after && path !in before ==>
      exists i :: 0 <= i < n && faults[i].temp == Some(path) && !faults[i].remove
  }

  lemma UnremovableStep(faults: seq<Faults>, n: nat, before: map<string, string>, now: map<string, string>,
                        after: map<string, string>)
    requires n < |faults| && OnlyUnremovable(faults, n, before, now)
    requires after == now || (faults[n].temp.Some? && !faults[n].remove && after - {faults[n].temp.value} == now)
    ensures OnlyUnremovable(faults, n + 1, before, after)
  {
    forall path | path in after && path !in before
      ensures exists i :: 0 <= i < n + 1 && faults[i].temp == Some(path) && !faults[i].remove
    {
      if path !in now {
        assert path !in after - {faults[n].temp.value};
        assert faults[n].temp == Some(path);
      }
    }
  }

  class Mailbox {
    const host: string
    const pid: nat
    ghost const inherited: set<string>   // the names in new/ when the process started
    var tmpDir: map<string, string>
    var newDir: map<string, string>
    var counter: nat   // the process-wide message counter

    /** A name this process has made while its counter was at most `bound`. */
    ghost predicate Made(name: string, bound: nat) {
      exists seconds, micros, c: nat :: c <= bound && name == Filename(seconds, micros, pid, c, host)
    }

    /** Every file in new/ was there before, or this process put it there under a counter already used. */
    ghost predicate Valid()
      reads this
    {
      inherited <= newDir.Keys && forall name :: name in newDir ==> name in inherited || Made(name, counter)
    }

    /** The clock has passed every file that an earlier process with this pid and host has left. */
    ghost predicate Later(micros: int) {
      forall s, m, c: nat :: Filename(s, m, pid, c, host) in inherited ==> m < micros
    }

    constructor (host: string, pid: nat, tmpDir: map<string, string>, newDir: map<string, string>)
      ensures Valid() && this.tmpDir == tmpDir && this.newDir == newDir && counter == 0
      ensures this.host == host && this.pid == pid && inherited == newDir.Keys
    {
      this.host, this.pid, this.tmpDir, this.newDir, counter := host, pid, tmpDir, newDir, 0;
      this.inherited := newDir.Keys;
    }

    lemma NewName(seconds: int, micros: int, c: nat, bound: nat)
      requires bound < c
      ensures !Made(Filename(seconds, micros, pid, c, host), bound)
    {
      hide Filename;
      if Made(Filename(seconds, micros, pid, c, host), bound) {
        var s, m, k: nat :| k <= bound && Filename(seconds, micros, pid, c, host) == Filename(s, m, pid, k, host);
        NamesNeverCollide(seconds, micros, pid, c, host, s, m, pid, k, host);
      }
    }

    lemma StillMade(name: string, bound: nat, more: nat)
      requires Made(name, bound) && bound <= more
      ensures Made(name, more)
    {
    }

    /** Best effort: the file goes unless removing it fails too. */
    method RemoveTemp(path: string, removable: bool)
      modifies `tmpDir
      ensures tmpDir == if removable then old(tmpDir) - {path} else old(tmpDir)
    {
      if removable {
        tmpDir := tmpDir - {path};
      }
    }

    /**
      For every combination of failures: success exactly when nothing that matters failed; then new/ has this file,
      complete, under a name not there before unless an earlier process left it, which it cannot have done if the
      clock has moved on; otherwise new/ is unchanged. The temporary file is gone unless removing it failed.
    */
    method SaveMessage(m: Message, seconds: int, micros: int, date: string, f: Faults) returns (ok: bool)
      requires Valid()
      requires f.temp.Some? ==> f.temp.value !in tmpDir
      modifies this
      ensures Valid() && old(counter) <= counter <= old(counter) + 1
      ensures ok <==> NothingFails(m, f)
      ensures ok ==> counter == old(counter) + 1
      ensures ok ==> var name := Filename(seconds, micros, pid, counter, host);
        && newDir == old(newDir)[name := Rendered(m, date)]
        && (FitsHeaders(m, date) ==> ReadMessage(newDir[name]) == Some(m))
        && (name in old(newDir) <==> name in inherited)
        && (Later(micros) ==> name !in inherited)
      ensures !ok ==> newDir == old(newDir)
      ensures ok || f.remove || f.temp.None? ==> tmpDir == old(tmpDir)
      ensures f.temp.Some? ==> tmpDir - {f.temp.value} == old(tmpDir)
    {
      hide Rendered, Filename, FitsHeaders, ReadMessage;
      if !f.mkdir {
        return false;
      }
      if f.temp.None? {
        return false;
      }
      var path := f.temp.value;
      tmpDir := tmpDir[path := ""];
      assert tmpDir - {path} == old(tmpDir);
      if !f.pathOk {
        RemoveTemp(path, f.remove);
        return false;
      }
      var written, file := WriteMessage(m, date, f);
      tmpDir := tmpDir[path := file];
      assert tmpDir - {path} == old(tmpDir);
      if !f.close || !written {
        RemoveTemp(path, f.remove);
        return false;
      }
      counter := counter + 1;
      var name := Filename(seconds, micros, pid, counter, host);
      KeepsValid();
      if !f.rename {
        RemoveTemp(path, f.remove);
        return false;
      }
      NewName(seconds, micros, counter, old(counter));
      newDir := newDir[name := tmpDir[path]];
      tmpDir := tmpDir - {path};
      assert Made(name, counter);
      return true;
    }

    twostate lemma KeepsValid()
      requires old(Valid()) && newDir == old(newDir) && counter >= old(counter)
      ensures Valid()
    {
      forall name | name in newDir && name !in inherited
        ensures Made(name, counter)
      {
        StillMade(name, old(counter), counter);
      }
    }

    /**
      Over any number of deliveries: exactly those in which nothing failed are in new/, each complete and under a name
      of its own; nothing else in new/ has changed; and if the clock has moved on since an earlier process, no earlier
      file is overwritten, so new/ has grown by exactly the number of successes. What stays behind in tmp/ are files
      whose removal failed.
    */
    method SaveAll(ms: seq<Message>, seconds: seq<int>, micros: seq<int>, dates: seq<string>, faults: seq<Faults>)
      returns (names: seq<Option<string>>, saved: nat)
      requires Valid() && |seconds| == |micros| == |dates| == |faults| == |ms|
      requires forall i :: 0 <= i < |faults| && faults[i].temp.Some? ==> faults[i].temp.value !in tmpDir
      requires forall i, j :: 0 <= i < j < |faults| && faults[i].temp.Some? ==> faults[i].temp != faults[j].temp
      modifies this
      ensures Valid() && |names| == |ms| && saved == |Successes(ms, faults, |ms|)|
      ensures forall i :: 0 <= i < |ms| ==> (names[i].Some? <==> NothingFails(ms[i], faults[i]))
      ensures Filed(ms, dates, names, old(newDir), newDir)
      ensures (forall i :: 0 <= i < |ms| ==> Later(micros[i])) ==> Grown(names, saved, old(newDir), newDir)
      ensures OnlyUnremovable(faults, |ms|, old(tmpDir), tmpDir)
    {
      hide NothingFails, Filename, Rendered, Later, Successes, Filed, OnlyUnremovable, Grown, Valid, Made;
      names, saved := [], 0;
      NoDelivery(ms, dates, faults, newDir, tmpDir);
      for i := 0 to |ms|
        invariant Valid() && |names| == i && saved == |Successes(ms, faults, i)|
        invariant forall k :: 0 <= k < i ==> (names[k].Some? <==> NothingFails(ms[k], faults[k]))
        invariant forall k :: 0 <= k < i && names[k].Some? ==> Made(names[k].value, counter)
        invariant Filed(ms, dates, names, old(newDir), newDir)
        invariant (forall k :: 0 <= k < |ms| ==> Later(micros[k])) ==> Grown(names, saved, old(newDir), newDir)
        invariant OnlyUnremovable(faults, i, old(tmpDir), tmpDir)
        invariant forall k :: i <= k < |faults| && faults[k].temp.Some? ==> faults[k].temp.value !in tmpDir
      {
        ghost var before, tmpBefore, bound := newDir, tmpDir, counter;
        var ok := SaveMessage(ms[i], seconds[i], micros[i], dates[i], faults[i]);
        OneMoreDelivery(ms, faults, i);
        UnremovableStep(faults, i, old(tmpDir), tmpBefore, tmpDir);
        TempsStayFree(faults, i, tmpBefore, tmpDir);
        FiledKeeps(ms, dates, names, old(newDir), before);
        forall k | 0 <= k < i && names[k].Some?
          ensures Made(names[k].value, counter)
        {
          StillMade(names[k].value, bound, counter);
        }
        if ok {
          var name := Filename(seconds[i], micros[i], pid, counter, host);
          NewName(seconds[i], micros[i], counter, bound);
          IsMade(seconds[i], micros[i], counter);
          FiledOne(ms, dates, names, old(newDir), before, name);
          if forall k :: 0 <= k < |ms| ==> Later(micros[k]) {
            GrownOne(names, saved, old(newDir), before, name, Rendered(ms[i], dates[i]));
          }
          names, saved := names + [Some(name)], saved + 1;
        } else {
          FiledNone(ms, dates, names, old(newDir), before);
          if forall k :: 0 <= k < |ms| ==> Later(micros[k]) {
            GrownNone(names, saved, old(newDir), before);
          }
          names := names + [None];
        }
      }
    }

    lemma IsMade(seconds: int, micros: int, c: nat)
      ensures Made(Filename(seconds, micros, pid, c, host), c)
    {
    }
  }

  lemma TempsStayFree(faults: seq<Faults>, i: nat, before: map<string, string>, after: map<string, string>)
    requires i < |faults| && (after == before || (faults[i].temp.Some? && after - {faults[i].temp.value} == before))
    requires forall k :: i <= k < |faults| && faults[k].temp.Some? ==> faults[k].temp.value !in before
    requires forall k, l :: 0 <= k < l < |faults| && faults[k].temp.Some? ==> faults[k].temp != faults[l].temp
    ensures forall k :: i < k < |faults| && faults[k].temp.Some? ==> faults[k].temp.value !in after
  {
    forall k | i < k < |faults| && faults[k].temp.Some?
      ensures faults[k].temp.value !in after
    {
      if faults[i].temp.Some? {
        assert faults[k].temp.value != faults[i].temp.value;
        assert faults[k].temp.value !in after - {faults[i].temp.value};
      }
    }
  }

  lemma NoDelivery(ms: seq<Message>, dates: seq<string>, faults: seq<Faults>, newDir: map<string, string>,
                   tmpDir: map<string, string>)
    requires |ms| == |faults| == |dates|
    ensures Grown([], 0, newDir, newDir)
    ensures Successes(ms, faults, 0) == {} && Filed(ms, dates, [], newDir, newDir)
    ensures OnlyUnremovable(faults, 0, tmpDir, tmpDir)
  {
  }

  const ALL_WELL := Faults(true, Some("t"), true, None, None, None, None, None, true, true, true)

  /**
    A process that restarts with the same pid and host and finds the clock where its predecessor had it overwrites the
    predecessor's file: two deliveries succeed and one file is left.
  */
  method RestartCanOverwrite(host: string, pid: nat, seconds: int, micros: int, date: string, m1: Message, m2: Message)
    returns (ok1: bool, ok2: bool, left: map<string, string>)
    ensures ok1 && ok2 && left == map[Filename(seconds, micros, pid, 1, host) := Rendered(m2, date)]
  {
    hide Filename, Rendered;
    var first := new Mailbox(host, pid, map[], map[]);
    ok1 := first.SaveMessage(m1, seconds, micros, date, ALL_WELL);
    var second := new Mailbox(host, pid, first.tmpDir, first.newDir);
    ok2 := second.SaveMessage(m2, seconds, micros, date, ALL_WELL);
    left := second.newDir;
  }
}
