/**
  The text operations the server takes from its standard library: trimming, splitting, case mapping,
  and decimal numbers in 64-bit integers. A character stands for one byte of a Go string here;
  white space and letter case are those of ASCII.
*/
module Strings {

  datatype Option<+T> = None | Some(value: T)

  const INT_MAX: int := 0x7FFF_FFFF_FFFF_FFFF
  const INT_MIN: int := -0x8000_0000_0000_0000

  // ---------- Character classes and spans ----------

  predicate IsSpace(c: char) {
    c == ' ' || '\t' <= c <= '\r'
  }

  predicate IsWord(c: char) {
    !IsSpace(c)
  }

  predicate IsDigit(c: char) {
    '0' <= c <= '9'
  }

  predicate IsLower(c: char) {
    'a' <= c <= 'z'
  }

  ghost predicate All(s: string, p: char -> bool) {
    forall i :: 0 <= i < |s| ==> p(s[i])
  }

  /** The length of the longest prefix of `s` whose characters all satisfy `p`. */
  function SpanLen(s: string, p: char -> bool): (n: nat)
    ensures n <= |s|
    ensures All(s[..n], p)
    ensures n < |s| ==> !p(s[n])
  {
    if s == "" || !p(s[0]) then 0 else 1 + SpanLen(s[1..], p)
  }

  /** A run of `p`-characters that cannot be prolonged is exactly what the span finds. */
  lemma {:induction false} SpanOfRun(u: string, v: string, p: char -> bool)
    requires All(u, p)
    requires v != "" ==> !p(v[0])
    ensures SpanLen(u + v, p) == |u|
  {
    if u == "" {
      assert u + v == v;
    } else {
      assert (u + v)[1..] == u[1..] + v;
      SpanOfRun(u[1..], v, p);
    }
  }

  // ---------- Trimming and splitting ----------

  function TrimLeft(s: string): (t: string)
    ensures |t| <= |s|
    ensures t != "" ==> !IsSpace(t[0])
  {
    s[SpanLen(s, IsSpace)..]
  }

  function TrimRight(s: string): (t: string)
    ensures t <= s
    ensures t != "" ==> !IsSpace(t[|t| - 1])
  {
    if s != "" && IsSpace(s[|s| - 1]) then TrimRight(s[..|s| - 1]) else s
  }

  function TrimSpace(s: string): (t: string)
    ensures |t| <= |s|
    ensures t != "" ==> !IsSpace(t[0]) && !IsSpace(t[|t| - 1])
  {
    TrimRight(TrimLeft(s))
  }

  /** Text that starts and ends with a word character survives trimming unchanged. */
  lemma TrimFixed(s: string)
    requires s != "" && !IsSpace(s[0]) && !IsSpace(s[|s| - 1])
    ensures TrimSpace(s) == s
  {
    assert s == "" + s;
    SpanOfRun("", s, IsSpace);
    assert TrimLeft(s) == s;
  }

  lemma {:induction false} TrimRightOf(u: string, v: string)
    requires u != "" && !IsSpace(u[|u| - 1]) && All(v, IsSpace)
    ensures TrimRight(u + v) == u
    decreases |v|
  {
    if v == "" {
      assert u + v == u;
    } else {
      assert (u + v)[..|u + v| - 1] == u + v[..|v| - 1];
      TrimRightOf(u, v[..|v| - 1]);
    }
  }

  /** Blank, tab, line feed, vertical tab, form feed or carriage return. */
  predicate IsWhite(c: char) {
    c as int in {32, 9, 10, 11, 12, 13}
  }

  /** White space around a text is trimmed, and nothing else. */
  lemma TrimAround(before: string, s: string, after: string)
    requires forall i :: 0 <= i < |before| ==> IsWhite(before[i])
    requires forall i :: 0 <= i < |after| ==> IsWhite(after[i])
    requires s != "" && !IsWhite(s[0]) && !IsWhite(s[|s| - 1])
    ensures TrimSpace(before + s + after) == s
  {
    assert before + s + after == before + (s + after);
    SpanOfRun(before, s + after, IsSpace);
    assert (before + (s + after))[|before|..] == s + after;
    TrimRightOf(s, after);
  }

  /** The maximal runs of word characters, in order. */
  function Fields(s: string): (ws: seq<string>)
    decreases |s|
    ensures forall i :: 0 <= i < |ws| ==> ws[i] != ""
  {
    var t := TrimLeft(s);
    if t == "" then []
    else
      var k := SpanLen(t, IsWord);
      assert IsWord(t[0]);
      [t[..k]] + Fields(t[k..])
  }

  ghost predicate IsWordText(w: string) {
    w != "" && All(w, IsWord)
  }

  lemma FieldsStep(w: string, rest: string)
    requires IsWordText(w) && (rest != "" ==> IsSpace(rest[0]))
    ensures Fields(w + rest) == [w] + Fields(rest)
  {
    var s := w + rest;
    assert s == "" + s;
    SpanOfRun("", s, IsSpace);
    SpanOfRun(w, rest, IsWord);
    assert TrimLeft(s) == s && s[..|w|] == w && s[|w|..] == rest;
  }

  lemma TrimLeftOf(blanks: string, s: string)
    requires All(blanks, IsSpace) && s != "" && !IsSpace(s[0])
    ensures TrimLeft(blanks + s) == s
  {
    SpanOfRun(blanks, s, IsSpace);
    assert (blanks + s)[|blanks|..] == s;
  }

  lemma FieldsOfTrimmed(s: string, t: string)
    requires TrimLeft(s) == TrimLeft(t)
    ensures Fields(s) == Fields(t)
  {
    hide TrimLeft, SpanLen;
  }

  /** A word with any white space before it and after it is one of the fields. */
  lemma FieldsSpaced(blanks: string, w: string, rest: string)
    requires All(blanks, IsSpace) && IsWordText(w) && (rest != "" ==> IsSpace(rest[0]))
    ensures Fields(blanks + w + rest) == [w] + Fields(rest)
  {
    hide TrimLeft, SpanLen, Fields;
    var s := w + rest;
    assert IsWord(w[0]) && s[0] == w[0];
    TrimLeftOf(blanks, s);
    TrimLeftOf("", s);
    assert "" + s == s && blanks + w + rest == blanks + s;
    FieldsOfTrimmed(blanks + s, s);
    FieldsStep(w, rest);
  }

  lemma LeadingSpace(s: string)
    ensures Fields(" " + s) == Fields(s)
  {
    assert (" " + s)[1..] == s;
    assert TrimLeft(" " + s) == TrimLeft(s);
  }

  lemma NoFields()
    ensures Fields("") == []
  {
  }

  /** Words joined by single spaces are split back into the same words. */
  lemma {:induction false} FieldsOfJoin(words: seq<string>)
    requires forall i :: 0 <= i < |words| ==> IsWordText(words[i])
    ensures Fields(Join(words, " ")) == words
  {
    hide Fields, IsWordText;
    NoFields();
    if |words| == 1 {
      FieldsStep(words[0], "");
      assert words[0] + "" == words[0];
    } else if |words| > 1 {
      var rest := Join(words[1..], " ");
      FieldsOfJoin(words[1..]);
      assert words[0] + " " + rest == words[0] + (" " + rest);
      FieldsStep(words[0], " " + rest);
      LeadingSpace(rest);
    }
  }

  predicate At(s: string, i: nat, t: string)
    requires i <= |s|
  {
    t <= s[i..]
  }

  predicate Contains(s: string, t: string) {
    exists i: nat :: i <= |s| && At(s, i, t)
  }

  /** To contain a text is to be that text with something before it and something after it. */
  lemma ContainsMeans(s: string, t: string)
    ensures Contains(s, t) <==> exists u: string, v: string :: s == u + t + v
  {
    if Contains(s, t) {
      var i: nat :| i <= |s| && At(s, i, t);
      assert s == s[..i] + t + s[i + |t|..];
    }
    forall u: string, v: string | s == u + t + v
      ensures Contains(s, t)
    {
      assert s[|u|..] == t + v;
      assert At(s, |u|, t);
    }
  }

  /** The position of the first `c`, or the length of `s` when there is none. */
  function IndexOf(s: string, c: char): (k: nat)
    ensures k <= |s|
    ensures forall i :: 0 <= i < k ==> s[i] != c
    ensures k < |s| ==> s[k] == c
  {
    if s == "" || s[0] == c then 0 else 1 + IndexOf(s[1..], c)
  }

  lemma {:induction false} IndexAfter(u: string, c: char, v: string)
    requires c !in u
    ensures IndexOf(u + [c] + v, c) == |u|
  {
    if u != "" {
      assert (u + [c] + v)[1..] == u[1..] + [c] + v;
      IndexAfter(u[1..], c, v);
    }
  }

  function SplitOn(s: string, c: char): (parts: seq<string>)
    decreases |s|
    ensures |parts| >= 1
    ensures forall i :: 0 <= i < |parts| ==> c !in parts[i]
  {
    var k := IndexOf(s, c);
    if k == |s| then [s] else [s[..k]] + SplitOn(s[k + 1..], c)
  }

  function Join(parts: seq<string>, sep: string): string {
    if parts == [] then ""
    else if |parts| == 1 then parts[0]
    else parts[0] + sep + Join(parts[1..], sep)
  }

  lemma JoinCons(head: string, tail: seq<string>, sep: string)
    requires tail != []
    ensures Join([head] + tail, sep) == head + sep + Join(tail, sep)
  {
    assert ([head] + tail)[1..] == tail;
  }

  /** Splitting at a character undoes joining with it. */
  lemma {:induction false} SplitJoin(parts: seq<string>, c: char)
    requires parts != []
    requires forall i :: 0 <= i < |parts| ==> c !in parts[i]
    ensures SplitOn(Join(parts, [c]), c) == parts
  {
    var s := Join(parts, [c]);
    if |parts| == 1 {
      assert s == parts[0];
      assert IndexOf(s, c) == |s|;
    } else {
      var rest := Join(parts[1..], [c]);
      IndexAfter(parts[0], c, rest);
      assert s[..|parts[0]|] == parts[0] && s[|parts[0]| + 1..] == rest;
      SplitJoin(parts[1..], c);
    }
  }

  /** Joining undoes splitting. */
  lemma {:induction false} JoinSplit(s: string, c: char)
    ensures Join(SplitOn(s, c), [c]) == s
    decreases |s|
  {
    var k := IndexOf(s, c);
    if k < |s| {
      hide Join, IndexOf;
      var head, tail := s[..k], s[k + 1..];
      JoinSplit(tail, c);
      JoinCons(head, SplitOn(tail, c), [c]);
      assert s == head + [c] + tail;
    }
  }

  // ---------- Letter case ----------

  function LowerChar(c: char): char {
    if 'A' <= c <= 'Z' then c - 'A' + 'a' else c
  }

  function UpperChar(c: char): char {
    if 'a' <= c <= 'z' then c - 'a' + 'A' else c
  }

  function Lower(s: string): (t: string)
    ensures |t| == |s|
  {
    seq(|s|, i requires 0 <= i < |s| => LowerChar(s[i]))
  }

  function Upper(s: string): (t: string)
    ensures |t| == |s|
  {
    seq(|s|, i requires 0 <= i < |s| => UpperChar(s[i]))
  }

  predicate EqualFold(s: string, t: string) {
    Lower(s) == Lower(t)
  }

  /** The same character, or the capital and the small form of one letter. */
  predicate SameLetter(c: char, d: char) {
    c == d
    || ('A' <= c <= 'Z' && 'a' <= d <= 'z' && c as int + 32 == d as int)
    || ('a' <= c <= 'z' && 'A' <= d <= 'Z' && d as int + 32 == c as int)
  }

  /** Two texts that differ in nothing but letter case. */
  predicate SameButCase(s: string, t: string) {
    |s| == |t| && forall i :: 0 <= i < |s| ==> SameLetter(s[i], t[i])
  }

  lemma SameLetterFolds(c: char, d: char)
    ensures SameLetter(c, d) <==> LowerChar(c) == LowerChar(d)
    ensures SameLetter(c, d) <==> UpperChar(c) == UpperChar(d)
    ensures SameLetter(c, LowerChar(c)) && !('A' <= LowerChar(c) <= 'Z')
    ensures SameLetter(c, UpperChar(c)) && !('a' <= UpperChar(c) <= 'z')
  {
  }

  /** Folding compares up to letter case. */
  lemma FoldCompares(s: string, t: string)
    ensures EqualFold(s, t) <==> SameButCase(s, t)
  {
    hide SameLetter;
    if |s| == |t| {
      forall i | 0 <= i < |s|
        ensures SameLetter(s[i], t[i]) <==> Lower(s)[i] == Lower(t)[i]
      {
        SameLetterFolds(s[i], t[i]);
      }
    }
  }

  lemma UpperCompares(s: string, t: string)
    ensures Upper(s) == Upper(t) <==> SameButCase(s, t)
  {
    hide SameLetter;
    if |s| == |t| {
      forall i | 0 <= i < |s|
        ensures SameLetter(s[i], t[i]) <==> Upper(s)[i] == Upper(t)[i]
      {
        SameLetterFolds(s[i], t[i]);
      }
    }
  }

  /** The mappings change nothing but letter case, and leave no letter of the other case. */
  lemma CaseMaps(s: string)
    ensures SameButCase(s, Lower(s)) && forall c :: c in Lower(s) ==> !('A' <= c <= 'Z')
    ensures SameButCase(s, Upper(s)) && forall c :: c in Upper(s) ==> !('a' <= c <= 'z')
  {
    hide SameLetter;
    forall i | 0 <= i < |s|
      ensures SameLetter(s[i], Lower(s)[i]) && SameLetter(s[i], Upper(s)[i])
    {
      SameLetterFolds(s[i], s[i]);
    }
  }

  /** A text without capitals is its own lower case, one without small letters its own upper case. */
  lemma CaseFixed(s: string)
    ensures (forall c :: c in s ==> !('A' <= c <= 'Z')) ==> Lower(s) == s
    ensures (forall c :: c in s ==> !('a' <= c <= 'z')) ==> Upper(s) == s
  {
    assert forall i :: 0 <= i < |s| ==> s[i] in s;
  }

  predicate StartsInAnyCase(s: string, p: string) {
    |p| <= |s| && SameButCase(s[..|p|], p)
  }

  /** A text starts so in some letter case exactly if it does when mapped to the case of the prefix. */
  lemma PrefixInAnyCase(p: string, s: string)
    ensures Lower(p) == p ==> (p <= Lower(s) <==> StartsInAnyCase(s, p))
    ensures Upper(p) == p ==> (p <= Upper(s) <==> StartsInAnyCase(s, p))
  {
    hide LowerChar, UpperChar, SameButCase;
    if |p| <= |s| {
      FoldCompares(s[..|p|], p);
      UpperCompares(s[..|p|], p);
      assert Lower(s)[..|p|] == Lower(s[..|p|]);
      assert Upper(s)[..|p|] == Upper(s[..|p|]);
    }
  }

  // ---------- Decimal numbers ----------

  function Digit(n: nat): (c: char)
    requires n < 10
    ensures IsDigit(c)
  {
    '0' + n as char
  }

  /** The number a digit string denotes; the empty string denotes zero. */
  function Value(s: string): (v: nat)
    requires All(s, IsDigit)
  {
    if s == "" then 0
    else
      assert All(s[..|s| - 1], IsDigit);
      10 * Value(s[..|s| - 1]) + (s[|s| - 1] - '0') as nat
  }

  function FormatNat(n: nat): (s: string)
    ensures s != "" && All(s, IsDigit)
  {
    if n < 10 then [Digit(n)] else FormatNat(n / 10) + [Digit(n % 10)]
  }

  function FormatInt(n: int): (s: string)
    ensures s != ""
  {
    if n < 0 then "-" + FormatNat(-n) else FormatNat(n)
  }

  /** Nothing but digits in a printed number. */
  lemma NotInDigits(c: char, n: nat)
    requires !IsDigit(c)
    ensures c !in FormatNat(n)
  {
    var s := FormatNat(n);
    assert forall i :: 0 <= i < |s| ==> IsDigit(s[i]);
  }

  lemma {:induction false} ValueOfFormat(n: nat)
    ensures Value(FormatNat(n)) == n
  {
    if n < 10 {
      assert [Digit(n)][..0] == "";
    } else {
      ValueOfFormat(n / 10);
      var s := FormatNat(n / 10) + [Digit(n % 10)];
      assert s[..|s| - 1] == FormatNat(n / 10);
    }
  }

  function PowerOfTen(k: nat): nat {
    if k == 0 then 1 else 10 * PowerOfTen(k - 1)
  }

  /** A number below the k-th power of ten is printed in at most k digits. */
  lemma {:induction false} FormatLength(n: nat, k: nat)
    requires 0 < k && n < PowerOfTen(k)
    ensures |FormatNat(n)| <= k
  {
    if n >= 10 {
      FormatLength(n / 10, k - 1);
    }
  }

  predicate HasDigitsOnly(s: string)
    ensures HasDigitsOnly(s) ==> All(s, IsDigit)
  {
    forall i :: 0 <= i < |s| ==> IsDigit(s[i])
  }

  /** Decimal conversion to a 64-bit integer: an optional sign, at least one digit, nothing else, no overflow. */
  function Atoi(s: string): (r: Option<int>)
    ensures r.Some? ==> INT_MIN <= r.value <= INT_MAX
  {
    var signed := s != "" && (s[0] == '-' || s[0] == '+');
    var digits := if signed then s[1..] else s;
    if digits == "" || !HasDigitsOnly(digits) then None
    else
      var n: int := Value(digits);
      var v := if signed && s[0] == '-' then -n else n;
      if INT_MIN <= v <= INT_MAX then Some(v) else None
  }

  /** Every machine integer is printed so that it reads back as itself. */
  lemma AtoiOfFormat(n: nat)
    requires n <= INT_MAX
    ensures Atoi(FormatNat(n)) == Some(n)
  {
    ValueOfFormat(n);
    assert IsDigit(FormatNat(n)[0]);
  }

  /** A three-digit text has the value its digits spell. */
  lemma ValueOfThree(s: string)
    requires |s| == 3 && All(s, IsDigit)
    ensures Value(s) == 100 * (s[0] - '0') as nat + 10 * (s[1] - '0') as nat + (s[2] - '0') as nat
  {
    var two, one := s[..2], s[..1];
    assert All(two, IsDigit) && All(one, IsDigit);
    assert two[..1] == one && one[..0] == "";
    assert Value(one) == (s[0] - '0') as nat;
    assert Value(two) == 10 * Value(one) + (s[1] - '0') as nat;
  }

  /** A number below 1000 is printed in at most three digits, in exactly three from 100 on. */
  lemma FormatWidth(n: nat)
    requires n < 1000
    ensures |FormatNat(n)| == (if n < 10 then 1 else if n < 100 then 2 else 3)
  {
    if n >= 10 {
      assert FormatNat(n) == FormatNat(n / 10) + [Digit(n % 10)];
      if n >= 100 {
        assert FormatNat(n / 10) == FormatNat(n / 100) + [Digit((n / 10) % 10)];
      }
    }
  }
}
