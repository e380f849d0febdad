/** What an EHLO name asks for: delays, a size limit, an AUTH list and extensions to switch off; and the reply. */
module Ehlo {
  import opened Strings
  import opened Replies

  const MAX_MESSAGE: int := 10 * 1024 * 1024
  const SIZE_MIN: int := 1000
  const SIZE_MAX: int := 10485760
  const MAX_DELAY: int := 605

  datatype Capabilities = Capabilities(
    size: bool, pipelining: bool, enhanced: bool, smtputf8: bool, chunking: bool, starttls: bool, eightBit: bool)

  const NONE := Capabilities(false, false, false, false, false, false, false)

  /** The dash-separated parts of the leftmost label, in lower case. */
  function LabelParts(hostname: string): (parts: seq<string>)
    ensures |parts| >= 1
  {
    SplitOn(Lower(hostname[..IndexOf(hostname, '.')]), '-')
  }

  /** Letter case makes no difference to the parts. */
  lemma LabelInAnyCase(h1: string, h2: string)
    requires SameButCase(h1, h2)
    ensures LabelParts(h1) == LabelParts(h2)
  {
    hide Lower, SplitOn;
    var k1, k2 := IndexOf(h1, '.'), IndexOf(h2, '.');
    assert forall i :: 0 <= i < |h1| ==> SameLetter(h1[i], h2[i]) && (h1[i] == '.' <==> h2[i] == '.');
    assert k1 == k2;
    assert SameButCase(h1[..k1], h2[..k1]);
    FoldCompares(h1[..k1], h2[..k1]);
  }

  /** The parts come back as they were written, whatever follows the first dot and whatever the letter case. */
  lemma LabelRoundTrip(parts: seq<string>, rest: string, hostname: string)
    requires parts != []
    requires forall i :: 0 <= i < |parts| ==>
      '-' !in parts[i] && '.' !in parts[i] && forall c :: c in parts[i] ==> !('A' <= c <= 'Z')
    requires SameButCase(hostname, Join(parts, "-") + "." + rest)
    ensures LabelParts(hostname) == parts
  {
    hide SplitOn, Join, Lower, LabelParts, SameButCase;
    forall i | 0 <= i < |parts|
      ensures Lower(parts[i]) == parts[i]
    {
      CaseFixed(parts[i]);
    }
    JoinedLabel(parts);
    LabelBeforeDot(Join(parts, "-"), rest);
    SplitJoin(parts, '-');
    LabelInAnyCase(hostname, Join(parts, "-") + "." + rest);
  }

  lemma LabelBeforeDot(leftmost: string, rest: string)
    requires '.' !in leftmost
    ensures LabelParts(leftmost + "." + rest) == SplitOn(Lower(leftmost), '-')
  {
    hide SplitOn, Lower, IndexOf;
    IndexAfter(leftmost, '.', rest);
    assert (leftmost + "." + rest)[..|leftmost|] == leftmost;
  }

  lemma {:induction false} JoinedLabel(parts: seq<string>)
    requires forall i :: 0 <= i < |parts| ==> '.' !in parts[i] && Lower(parts[i]) == parts[i]
    ensures '.' !in Join(parts, "-") && Lower(Join(parts, "-")) == Join(parts, "-")
  {
    if |parts| > 1 {
      var rest := Join(parts[1..], "-");
      JoinedLabel(parts[1..]);
      assert Lower(parts[0] + "-" + rest) == Lower(parts[0]) + "-" + Lower(rest);
    }
  }

  ghost predicate Mentions(parts: seq<string>, pattern: string) {
    exists p :: p in parts && Contains(p, pattern)
  }

  method HasCapability(parts: seq<string>, pattern: string) returns (b: bool)
    ensures b <==> Mentions(parts, Lower(pattern))
  {
    for i := 0 to |parts|
      invariant forall k :: 0 <= k < i ==> !Contains(parts[k], Lower(pattern))
    {
      if Contains(parts[i], Lower(pattern)) {
        return true;
      }
    }
    return false;
  }

  // ---------- Command delays ----------

  predicate IsDelay(part: string) {
    "dlay" <= part
  }

  function DelayValue(part: string): (v: int)
    ensures 0 <= v <= MAX_DELAY
  {
    if !IsDelay(part) || part[4..] == "" then 0
    else match Atoi(part[4..])
      case None => 0
      case Some(v) => if v < 0 then 0 else if v > MAX_DELAY then MAX_DELAY else v
  }

  /** A written delay is read as written, up to the maximum. */
  lemma DelayAsWritten(n: nat)
    requires n <= INT_MAX
    ensures DelayValue("dlay" + FormatNat(n)) == if n <= MAX_DELAY then n else MAX_DELAY
  {
    hide Atoi;
    AtoiOfFormat(n);
    assert ("dlay" + FormatNat(n))[4..] == FormatNat(n);
  }

  /** The elements outside `p`, in order. */
  function Drop<T>(xs: seq<T>, p: T -> bool): seq<T> {
    if xs == [] then []
    else
      var n := |xs| - 1;
      Drop(xs[..n], p) + (if p(xs[n]) then [] else [xs[n]])
  }

  /** The last positive value `f` gives on the list, or `v` when there is none. */
  function LastPositive<T>(xs: seq<T>, f: T -> int, v: int): int {
    if xs == [] then v
    else
      var n := |xs| - 1;
      if f(xs[n]) > 0 then f(xs[n]) else LastPositive(xs[..n], f, v)
  }

  lemma DropStep<T>(xs: seq<T>, j: nat, p: T -> bool)
    requires j < |xs|
    ensures Drop(xs[..j + 1], p) == Drop(xs[..j], p) + (if p(xs[j]) then [] else [xs[j]])
  {
    assert xs[..j + 1][..j] == xs[..j];
  }

  lemma LastPositiveStep<T>(xs: seq<T>, j: nat, f: T -> int, v: int)
    requires j < |xs|
    ensures LastPositive(xs[..j + 1], f, v) == if f(xs[j]) > 0 then f(xs[j]) else LastPositive(xs[..j], f, v)
  {
    assert xs[..j + 1][..j] == xs[..j];
  }

  /** Dropping treats every stretch of the list on its own, so order and multiplicity are kept. */
  lemma {:induction false} DropConcat<T>(xs: seq<T>, ys: seq<T>, p: T -> bool)
    ensures Drop(xs + ys, p) == Drop(xs, p) + Drop(ys, p)
  {
    if ys == [] {
      assert xs + ys == xs;
    } else {
      var n := |ys| - 1;
      assert (xs + ys)[..|xs| + n] == xs + ys[..n];
      DropConcat(xs, ys[..n], p);
    }
  }

  /** What is left is what was there and is not dropped. */
  lemma {:induction false} LeftAfterDrop<T>(xs: seq<T>, p: T -> bool, x: T)
    ensures x in Drop(xs, p) <==> x in xs && !p(x)
  {
    if xs != [] {
      LeftAfterDrop(xs[..|xs| - 1], p, x);
      assert x in xs <==> x in xs[..|xs| - 1] || x == xs[|xs| - 1];
    }
  }

  /** Either no element has a positive value and the default stands, or the last one that has decides. */
  lemma {:induction false} LastPositiveMeaning<T>(xs: seq<T>, f: T -> int, v: int) returns (k: int)
    ensures -1 <= k < |xs|
    ensures forall l :: k < l < |xs| ==> f(xs[l]) <= 0
    ensures LastPositive(xs, f, v) == if k < 0 then v else f(xs[k])
    ensures k >= 0 ==> f(xs[k]) > 0
  {
    k := |xs| - 1;
    if xs != [] && f(xs[k]) <= 0 {
      k := LastPositiveMeaning(xs[..k], f, v);
    }
  }

  function WithoutDelays(parts: seq<string>): seq<string> {
    Drop(parts, IsDelay)
  }

  /** The delay in force after the parts: the value of the last one that asks for more than zero. */
  function DelayAfter(parts: seq<string>, delay: int): int {
    LastPositive(parts, DelayValue, delay)
  }

  lemma SplitAt<T>(front: seq<T>, all: seq<T>, j: nat)
    requires j < |all|
    ensures var xs := front + all[j..];
      xs[..|front|] == front && xs[|front|] == all[j] && xs[|front| + 1..] == all[j + 1..]
      && xs == (front + [all[j]]) + all[j + 1..]
  {
  }

  /** The loop that takes the elements of `p` out of the list while walking over it. */
  method TakeOut<T>(all: seq<T>, p: T -> bool, f: T -> int, v0: int) returns (parts: seq<T>, v: int)
    requires forall x :: f(x) > 0 ==> p(x)
    ensures parts == Drop(all, p)
    ensures v == LastPositive(all, f, v0)
  {
    parts, v := all, v0;
    var i := 0;
    ghost var j, front := 0, [];   // how much of `all` has been looked at, and what is kept of it
    while i < |parts|
      invariant 0 <= j <= |all|
      invariant front == Drop(all[..j], p) && i == |front|
      invariant parts == front + all[j..]
      invariant v == LastPositive(all[..j], f, v0)
      decreases |all| - j
    {
      DropStep(all, j, p);
      LastPositiveStep(all, j, f, v0);
      SplitAt(front, all, j);
      var x := parts[i];
      assert x == all[j];
      if p(x) {
        if f(x) > 0 {
          v := f(x);
        }
        parts := parts[..i] + parts[i + 1..];
        assert parts == front + all[j + 1..];
      } else {
        i := i + 1;
        front := front + [x];
        assert parts == front + all[j + 1..];
      }
      j := j + 1;
    }
    assert all[..j] == all;
    assert parts == front;
  }

  method TakeDelays(all: seq<string>, delay0: int) returns (parts: seq<string>, delay: int)
    ensures parts == WithoutDelays(all)
    ensures delay == DelayAfter(all, delay0)
  {
    parts, delay := TakeOut(all, IsDelay, DelayValue, delay0);
  }

  /** An EHLO keeps the delay within 0..605. */
  lemma DelayBounded(parts: seq<string>, delay: int)
    requires 0 <= delay <= MAX_DELAY
    ensures 0 <= DelayAfter(parts, delay) <= MAX_DELAY
  {
    var k := LastPositiveMeaning(parts, DelayValue, delay);
  }

  /** The last delay of a label that asks for more than zero counts, as written up to the maximum. */
  lemma {:induction false} LastDelayCounts(before: seq<string>, n: nat, after: seq<string>, delay: int)
    requires 0 < n <= INT_MAX
    requires forall i :: 0 <= i < |after| ==> !("dlay" <= after[i])
    ensures DelayAfter(before + ["dlay" + FormatNat(n)] + after, delay) == if n <= MAX_DELAY then n else MAX_DELAY
  {
    hide DelayValue, FormatNat;
    var part := "dlay" + FormatNat(n);
    var all := before + [part] + after;
    DelayAsWritten(n);
    if after == [] {
      assert all[..|all| - 1] == before && all[|all| - 1] == part;
    } else {
      var m := |after| - 1;
      LastDelayCounts(before, n, after[..m], delay);
      NoDelayNoValue(after[m]);
      assert all[..|all| - 1] == before + [part] + after[..m] && all[|all| - 1] == after[m];
    }
  }

  lemma NoDelayNoValue(part: string)
    requires !("dlay" <= part)
    ensures DelayValue(part) == 0
  {
  }

  // ---------- The size limit ----------

  /** `size(\d+)`: the digits of the first such place in the part. */
  function FindSize(part: string): (r: Option<string>)
    ensures r.Some? ==> r.value != "" && All(r.value, IsDigit)
  {
    if part == "" then None
    else if "size" <= part && SpanLen(part[4..], IsDigit) > 0 then Some(part[4..][..SpanLen(part[4..], IsDigit)])
    else FindSize(part[1..])
  }

  /** The positive machine integer a part asks for, if any. */
  function RequestedSize(part: string): (r: Option<int>)
    ensures r.Some? ==> r.value > 0
  {
    match FindSize(part)
    case None => None
    case Some(d) => if Atoi(d).Some? && Atoi(d).value > 0 then Atoi(d) else None
  }

  function Clamp(v: int): (r: int)
    ensures SIZE_MIN <= r <= SIZE_MAX
    ensures SIZE_MIN <= v <= SIZE_MAX ==> r == v
    ensures v <= r ==> r == v || r == SIZE_MIN
    ensures v >= r ==> r == v || r == SIZE_MAX
  {
    if v < SIZE_MIN then SIZE_MIN else if v > SIZE_MAX then SIZE_MAX else v
  }

  /** A written size is read as written. */
  lemma SizeAsWritten(n: nat)
    requires 0 < n <= INT_MAX
    ensures RequestedSize("size" + FormatNat(n)) == Some(n)
  {
    hide Atoi;
    AtoiOfFormat(n);
    var digits := FormatNat(n);
    var part := "size" + digits;
    assert part[4..] == digits && digits + "" == digits;
    SpanOfRun(digits, "", IsDigit);
    assert digits[..|digits|] == digits;
    assert FindSize(part) == Some(digits);
  }

  /** The digits after the first "size" count wherever it stands in the part. */
  lemma {:induction false} SizeAnywhere(before: string, n: nat, after: string)
    requires 0 < n <= INT_MAX && 's' !in before && (after != "" ==> !IsDigit(after[0]))
    ensures FindSize(before + ("size" + (FormatNat(n) + after))) == Some(FormatNat(n))
    ensures RequestedSize(before + ("size" + (FormatNat(n) + after))) == Some(n)
  {
    hide Atoi, FormatNat;
    AtoiOfFormat(n);
    var digits := FormatNat(n);
    var part := before + ("size" + (digits + after));
    if before == "" {
      assert part == "size" + (digits + after) && part[4..] == digits + after;
      SpanOfRun(digits, after, IsDigit);
      assert (digits + after)[..|digits|] == digits;
    } else {
      assert "size"[0] == 's' && part[0] == before[0];
      assert part[1..] == before[1..] + ("size" + (digits + after));
      SizeAnywhere(before[1..], n, after);
    }
  }

  function SizeOf(parts: seq<string>): (r: Option<int>)
    ensures r.Some? ==> SIZE_MIN <= r.value <= SIZE_MAX
  {
    if parts == [] then None
    else if RequestedSize(parts[0]).Some? then Some(Clamp(RequestedSize(parts[0]).value))
    else SizeOf(parts[1..])
  }

  /** The first part that asks for a size decides. */
  lemma {:induction false} FirstSizeCounts(before: seq<string>, part: string, after: seq<string>)
    requires forall i :: 0 <= i < |before| ==> RequestedSize(before[i]).None?
    ensures SizeOf(before + [part] + after) ==
      if RequestedSize(part).Some? then Some(Clamp(RequestedSize(part).value)) else SizeOf(after)
  {
    hide RequestedSize;
    var all := before + [part] + after;
    if before == [] {
      assert all == [part] + after && all[1..] == after;
    } else {
      assert all[1..] == before[1..] + [part] + after;
      FirstSizeCounts(before[1..], part, after);
    }
  }

  method ParseAndClampSize(parts: seq<string>) returns (r: Option<int>)
    ensures r == SizeOf(parts)
  {
    for i := 0 to |parts|
      invariant SizeOf(parts) == SizeOf(parts[i..])
    {
      var m := FindSize(parts[i]);
      if m.Some? {
        var v := Atoi(m.value);
        if v.None? || v.value <= 0 {
          continue;
        }
        return Some(Clamp(v.value));
      }
    }
    return None;
  }

  // ---------- The AUTH list ----------

  const ALL_MECHANISMS := "PLAIN LOGIN CRAM-MD5 CRAM-SHA256 XOAUTH2"

  function MechanismOf(part: string): string {
    if Contains(part, "authplain") then "PLAIN"
    else if Contains(part, "authlogin") then "LOGIN"
    else if Contains(part, "authcram") then "CRAM-MD5 CRAM-SHA256"
    else if Contains(part, "authoauth") then "XOAUTH2"
    else ""
  }

  /** The choice of the last part that makes one; empty when none does. */
  function LastMechanism(parts: seq<string>): string {
    if parts == [] then ""
    else
      var n := |parts| - 1;
      if MechanismOf(Lower(parts[n])) != "" then MechanismOf(Lower(parts[n])) else LastMechanism(parts[..n])
  }

  function Mechanisms(parts: seq<string>): string {
    if LastMechanism(parts) != "" then LastMechanism(parts) else ALL_MECHANISMS
  }

  /** The last part that names a mechanism decides; without one, all are offered. */
  lemma {:induction false} LastChoiceCounts(before: seq<string>, part: string, after: seq<string>)
    requires forall i :: 0 <= i < |after| ==> MechanismOf(Lower(after[i])) == ""
    ensures LastMechanism(before + [part] + after) ==
      if MechanismOf(Lower(part)) != "" then MechanismOf(Lower(part)) else LastMechanism(before)
  {
    hide MechanismOf, Lower;
    var all := before + [part] + after;
    if after == [] {
      assert all[..|all| - 1] == before && all[|all| - 1] == part;
    } else {
      var m := |after| - 1;
      LastChoiceCounts(before, part, after[..m]);
      assert all[..|all| - 1] == before + [part] + after[..m] && all[|all| - 1] == after[m];
    }
  }

  method GetAuthMechanisms(parts: seq<string>) returns (m: string)
    ensures m == Mechanisms(parts)
  {
    var last := "";
    for i := 0 to |parts|
      invariant last == LastMechanism(parts[..i])
    {
      assert parts[..i + 1][..i] == parts[..i];
      var part := Lower(parts[i]);
      if Contains(part, "authplain") {
        last := "PLAIN";
      } else if Contains(part, "authlogin") {
        last := "LOGIN";
      } else if Contains(part, "authcram") {
        last := "CRAM-MD5 CRAM-SHA256";
      } else if Contains(part, "authoauth") {
        last := "XOAUTH2";
      }
    }
    assert parts[..|parts|] == parts;
    return if last != "" then last else ALL_MECHANISMS;
  }

  // ---------- The reply ----------

  ghost function Negotiate(parts: seq<string>, tls: bool): Capabilities {
    Capabilities(
      !Mentions(parts, "nosize"), !Mentions(parts, "nopipelining"), !Mentions(parts, "noenhancedstatuscodes"),
      !Mentions(parts, "nosmtputf8"), !Mentions(parts, "nochunking"), !Mentions(parts, "nostarttls") && !tls,
      !Mentions(parts, "no8bit"))
  }

  /** The size limit the reply announces. */
  function AnnouncedSize(parts: seq<string>): (n: int)
    ensures SIZE_MIN <= n <= SIZE_MAX
  {
    if SizeOf(parts).Some? then SizeOf(parts).value else MAX_MESSAGE
  }

  /** What an EHLO reply can announce: a keyword, and whether this session announces it. */
  datatype Offer = Offer(on: bool, keyword: string)

  function Offers(auth: Option<string>, caps: Capabilities, size: nat): (os: seq<Offer>)
    ensures |os| == 9
  {
    [Offer(true, "badsmtp.test"),
     Offer(auth.Some?, "AUTH " + if auth.Some? then auth.value else ""),
     Offer(caps.eightBit, "8BITMIME"),
     Offer(caps.size, "SIZE " + FormatNat(size)),
     Offer(caps.pipelining, "PIPELINING"),
     Offer(caps.starttls, "STARTTLS"),
     Offer(caps.chunking, "CHUNKING"),
     Offer(caps.smtputf8, "SMTPUTF8"),
     Offer(caps.enhanced, "ENHANCEDSTATUSCODES")]
  }

  function LineOf(o: Offer): seq<string> {
    if o.on then ["250-" + o.keyword] else []
  }

  function Announced(os: seq<Offer>): seq<string> {
    if os == [] then [] else Announced(os[..|os| - 1]) + LineOf(os[|os| - 1])
  }

  function ReplyLines(auth: Option<string>, caps: Capabilities, size: nat): seq<string> {
    Announced(Offers(auth, caps, size)) + [R_OK]
  }

  lemma {:induction false} FirstAnnounced(os: seq<Offer>)
    requires os != [] && os[0].on
    ensures Announced(os) != [] && Announced(os)[0] == "250-" + os[0].keyword
  {
    if |os| > 1 {
      FirstAnnounced(os[..|os| - 1]);
    } else {
      assert os[..0] == [];
      assert Announced(os[..0]) == [];
    }
  }

  /** The reply goes on for more than one line. */
  lemma ReplyStarts(auth: Option<string>, caps: Capabilities, size: nat)
    ensures "250-" <= Join(ReplyLines(auth, caps, size), "\r\n")
  {
    hide Announced;
    FirstAnnounced(Offers(auth, caps, size));
    var lines := ReplyLines(auth, caps, size);
    assert "250-" <= lines[0];
  }

  // ---------- How a client reads the reply ----------

  function SplitLines(s: string): seq<string>
    decreases |s|
  {
    var f := FirstLine(s);
    if |f| + 2 > |s| then [s] else [f] + SplitLines(s[|f| + 2..])
  }

  lemma {:induction false} FirstLineOf(u: string, v: string)
    requires '\r' !in u
    ensures FirstLine(u) == u
    ensures FirstLine(u + ("\r\n" + v)) == u
  {
    if u == "" {
      assert u + ("\r\n" + v) == "\r\n" + v;
    } else {
      FirstLineOf(u[1..], v);
      assert (u + ("\r\n" + v))[1..] == u[1..] + ("\r\n" + v);
    }
  }

  /** Splitting a reply at its line ends gives back the lines it was joined from. */
  lemma {:induction false} LinesRecovered(lines: seq<string>)
    requires lines != []
    requires forall i :: 0 <= i < |lines| ==> '\r' !in lines[i]
    ensures SplitLines(Join(lines, "\r\n")) == lines
  {
    var s := Join(lines, "\r\n");
    if |lines| == 1 {
      FirstLineOf(lines[0], "");
    } else {
      var rest := Join(lines[1..], "\r\n");
      assert s == lines[0] + ("\r\n" + rest);
      FirstLineOf(lines[0], rest);
      assert s[|lines[0]| + 2..] == rest;
      LinesRecovered(lines[1..]);
    }
  }
}
