/** The domain-name check: a nested regular expression, proved to accept exactly the dotted lists of labels. */
module Domain {
  import opened Strings

  // ---------- Regular expressions ----------

  datatype Re =
    | One(cls: char -> bool)      // one character of a class
    | Cat(first: Re, second: Re)
    | Opt(body: Re)               // (?: )?
    | Star(body: Re)              // (?: )*
    | UpTo(body: Re, max: nat)    // { 0 , max }

  /** A derivation: which part of the text each part of the expression matched. */
  datatype Parse = Leaf(c: char) | Pair(l: Parse, r: Parse) | Absent | Present(p: Parse) | Many(ps: seq<Parse>)

  ghost predicate Derives(re: Re, p: Parse)
    decreases p
  {
    match re
    case One(cls) => p.Leaf? && cls(p.c)
    case Cat(a, b) => p.Pair? && Derives(a, p.l) && Derives(b, p.r)
    case Opt(a) => p.Absent? || (p.Present? && Derives(a, p.p))
    case Star(a) => p.Many? && forall q :: q in p.ps ==> Derives(a, q)
    case UpTo(a, n) => p.Many? && |p.ps| <= n && forall q :: q in p.ps ==> Derives(a, q)
  }

  /** The text a derivation spans. */
  function Yield(p: Parse): string
    decreases p, 0
  {
    match p
    case Leaf(c) => [c]
    case Pair(l, r) => Yield(l) + Yield(r)
    case Absent => ""
    case Present(q) => Yield(q)
    case Many(qs) => YieldAll(qs)
  }

  function YieldAll(ps: seq<Parse>): string
    decreases ps, 1
  {
    if ps == [] then "" else Yield(ps[0]) + YieldAll(ps[1..])
  }

  /** Whether `re` matches the whole of `s`. */
  ghost predicate Matches(re: Re, s: string) {
    exists p :: Derives(re, p) && Yield(p) == s
  }

  // ---------- The pattern of the server ----------

  /** `lnm` is the class of letters, numbers and marks. */
  function Inner(lnm: char -> bool): char -> bool {
    c => lnm(c) || c == '-'
  }

  const DOT: char -> bool := c => c == '.'

  function LabelRe(lnm: char -> bool): Re {
    Cat(One(lnm), Opt(Cat(UpTo(One(Inner(lnm)), 61), One(lnm))))
  }

  function TailRe(lnm: char -> bool): Re {
    Star(Cat(One(DOT), LabelRe(lnm)))
  }

  function DomainRe(lnm: char -> bool): Re {
    Cat(LabelRe(lnm), TailRe(lnm))
  }

  /** The number of bytes of a character in UTF-8. */
  function Utf8Size(c: char): nat {
    if c as int < 0x80 then 1 else if c as int < 0x800 then 2 else if c as int < 0x10000 then 3 else 4
  }

  function Utf8Len(s: string): nat {
    if s == "" then 0 else Utf8Size(s[0]) + Utf8Len(s[1..])
  }

  ghost predicate ValidateDomain(lnm: char -> bool, domain: string) {
    domain != "" && Utf8Len(domain) <= 255 && Matches(DomainRe(lnm), domain)
  }

  // ---------- The specification by labels ----------

  predicate GoodLabel(lnm: char -> bool, l: string) {
    1 <= |l| <= 63 && lnm(l[0]) && lnm(l[|l| - 1]) && forall i :: 0 <= i < |l| ==> lnm(l[i]) || l[i] == '-'
  }

  predicate GoodLabels(lnm: char -> bool, ls: seq<string>) {
    ls != [] && forall i :: 0 <= i < |ls| ==> GoodLabel(lnm, ls[i])
  }

  // ---------- The proof ----------

  /** One character per repetition. */
  lemma {:induction false} RunShape(cls: char -> bool, ps: seq<Parse>)
    requires forall q :: q in ps ==> Derives(One(cls), q)
    ensures |YieldAll(ps)| == |ps| && All(YieldAll(ps), cls)
  {
    if ps != [] {
      assert ps[0] in ps;
      RunShape(cls, ps[1..]);
    }
  }

  lemma {:induction false} RunFits(cls: char -> bool, s: string) returns (ps: seq<Parse>)
    requires All(s, cls)
    ensures |ps| == |s| && YieldAll(ps) == s
    ensures forall q :: q in ps ==> Derives(One(cls), q)
  {
    ps := [];
    if s != "" {
      var more := RunFits(cls, s[1..]);
      ps := [Leaf(s[0])] + more;
      assert ps[1..] == more;
    }
  }

  lemma LabelShape(lnm: char -> bool, p: Parse)
    requires Derives(LabelRe(lnm), p)
    ensures GoodLabel(lnm, Yield(p))
  {
    assert Derives(One(lnm), p.l);
    if p.r.Present? {
      var run, last := UpTo(One(Inner(lnm)), 61), One(lnm);
      assert Derives(Opt(Cat(run, last)), p.r);
      assert Derives(Cat(run, last), p.r.p);
      assert Derives(run, p.r.p.l) && Derives(last, p.r.p.r);
      RunShape(Inner(lnm), p.r.p.l.ps);
      assert Yield(p.r.p) == YieldAll(p.r.p.l.ps) + [p.r.p.r.c];
      assert Yield(p) == [p.l.c] + (YieldAll(p.r.p.l.ps) + [p.r.p.r.c]);
    }
  }

  lemma LabelFits(lnm: char -> bool, s: string) returns (p: Parse)
    requires GoodLabel(lnm, s)
    ensures Derives(LabelRe(lnm), p) && Yield(p) == s
  {
    if |s| == 1 {
      p := Pair(Leaf(s[0]), Absent);
    } else {
      var run, last := UpTo(One(Inner(lnm)), 61), One(lnm);
      var ps := RunFits(Inner(lnm), s[1..|s| - 1]);
      p := Pair(Leaf(s[0]), Present(Pair(Many(ps), Leaf(s[|s| - 1]))));
      assert Derives(run, p.r.p.l) && Derives(last, p.r.p.r);
      assert Derives(Cat(run, last), p.r.p);
      assert Derives(Opt(Cat(run, last)), p.r);
      assert Yield(p.r.p) == s[1..|s| - 1] + [s[|s| - 1]];
    }
  }

  /** A dotted list, each label written with the dot before it. */
  function Dotted(ls: seq<string>): string {
    if ls == [] then "" else "." + Join(ls, ".")
  }

  lemma DottedCons(lab: string, more: seq<string>)
    ensures Dotted([lab] + more) == ("." + lab) + Dotted(more)
    ensures Join([lab] + more, ".") == lab + Dotted(more)
  {
    if more == [] {
      assert [lab] + more == [lab];
    } else {
      JoinCons(lab, more, ".");
      assert lab + "." + Join(more, ".") == lab + ("." + Join(more, "."));
    }
  }

  lemma DottedLabelShape(lnm: char -> bool, q: Parse) returns (lab: string)
    requires Derives(Cat(One(DOT), LabelRe(lnm)), q)
    ensures GoodLabel(lnm, lab) && Yield(q) == "." + lab
  {
    LabelShape(lnm, q.r);
    assert Derives(One(DOT), q.l);
    lab := Yield(q.r);
  }

  /** The labels of the repetitions after the first label. */
  lemma {:induction false} TailShape(lnm: char -> bool, ps: seq<Parse>) returns (ls: seq<string>)
    requires forall q :: q in ps ==> Derives(Cat(One(DOT), LabelRe(lnm)), q)
    ensures forall i :: 0 <= i < |ls| ==> GoodLabel(lnm, ls[i])
    ensures YieldAll(ps) == Dotted(ls)
  {
    ls := [];
    if ps != [] {
      assert ps[0] in ps;
      var lab := DottedLabelShape(lnm, ps[0]);
      var more := TailShape(lnm, ps[1..]);
      ls := [lab] + more;
      DottedCons(lab, more);
    }
  }

  lemma {:induction false} TailFits(lnm: char -> bool, ls: seq<string>) returns (ps: seq<Parse>)
    requires forall i :: 0 <= i < |ls| ==> GoodLabel(lnm, ls[i])
    ensures forall q :: q in ps ==> Derives(Cat(One(DOT), LabelRe(lnm)), q)
    ensures YieldAll(ps) == Dotted(ls)
  {
    ps := [];
    if ls != [] {
      var p := LabelFits(lnm, ls[0]);
      var more := TailFits(lnm, ls[1..]);
      ps := [Pair(Leaf('.'), p)] + more;
      assert ps[1..] == more;
      assert Yield(ps[0]) == "." + ls[0];
      DottedCons(ls[0], ls[1..]);
      assert [ls[0]] + ls[1..] == ls;
    }
  }

  /** The pattern accepts exactly the dot-joined lists of labels. */
  lemma RegexIsLabelList(lnm: char -> bool, s: string)
    ensures Matches(DomainRe(lnm), s) <==> exists ls :: GoodLabels(lnm, ls) && s == Join(ls, ".")
  {
    if Matches(DomainRe(lnm), s) {
      var p :| Derives(DomainRe(lnm), p) && Yield(p) == s;
      LabelShape(lnm, p.l);
      assert Derives(TailRe(lnm), p.r);
      var more := TailShape(lnm, p.r.ps);
      var ls := [Yield(p.l)] + more;
      assert Yield(p.r) == YieldAll(p.r.ps);
      DottedCons(Yield(p.l), more);
      assert GoodLabels(lnm, ls) && s == Join(ls, ".");
    }
    forall ls | GoodLabels(lnm, ls) && s == Join(ls, ".")
      ensures Matches(DomainRe(lnm), s)
    {
      var first := LabelFits(lnm, ls[0]);
      var ps := TailFits(lnm, ls[1..]);
      var p := Pair(first, Many(ps));
      DottedCons(ls[0], ls[1..]);
      assert [ls[0]] + ls[1..] == ls;
      assert Derives(DomainRe(lnm), p);
      assert Yield(p) == ls[0] + YieldAll(ps);
    }
  }

  /** Deciding a domain needs one split at the dots: the labels of a name are the only candidates. */
  lemma ValidatedByLabels(lnm: char -> bool, domain: string)
    requires !lnm('.')
    ensures ValidateDomain(lnm, domain) <==> Utf8Len(domain) <= 255 && GoodLabels(lnm, SplitOn(domain, '.'))
  {
    RegexIsLabelList(lnm, domain);
    JoinSplit(domain, '.');
    forall ls | GoodLabels(lnm, ls) && domain == Join(ls, ".")
      ensures SplitOn(domain, '.') == ls
    {
      SplitJoin(ls, '.');
    }
    assert SplitOn("", '.') == [""] && !GoodLabel(lnm, "");
  }
}
