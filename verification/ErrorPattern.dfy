/**
  The error language of addresses: `<verb><ddd>@...` and `<verb><ddd>_<x>.<y>.<z>@...` request a simulated
  error for the command `verb`, and `helo<ddd>.` / `ehlo<ddd>.` for a greeting.
*/
module ErrorPattern {
  import opened Strings

  datatype ErrorResult = ErrorResult(code: nat, enhanced: string)

  // ---------- Scanning ----------

  datatype Head = Head(word: string, ddd: string, rest: string)

  predicate ThreeDigits(s: string)
    ensures ThreeDigits(s) ==> All(s, IsDigit)
  {
    |s| == 3 && HasDigitsOnly(s)
  }

  /** `^([a-z]+)(\d{3})stop`: the letters, the digits and what follows. */
  function FindHead(s: string, stop: char): (r: Option<Head>)
    ensures r.Some? ==> Word(r.value.word) && ThreeDigits(r.value.ddd)
    ensures r.Some? ==> s == r.value.word + r.value.ddd + [stop] + r.value.rest
  {
    var w := SpanLen(s, IsLower);
    if w >= 1 && w + 3 < |s| && ThreeDigits(s[w..w + 3]) && s[w + 3] == stop
    then Some(Head(s[..w], s[w..w + 3], s[w + 4..]))
    else None
  }

  /** `(\d+)stop`: the digits and what follows. */
  function FindNumber(s: string, stop: char): (r: Option<(string, string)>)
    ensures r.Some? ==> Numeral(r.value.0) && s == r.value.0 + [stop] + r.value.1
  {
    var n := SpanLen(s, IsDigit);
    if n >= 1 && n < |s| && s[n] == stop then Some((s[..n], s[n + 1..])) else None
  }

  datatype Enhanced = Enhanced(x: string, y: string, z: string)

  /** `(\d+)\.(\d+)\.(\d+)@` */
  function FindEnhanced(s: string): Option<Enhanced> {
    match FindNumber(s, '.')
    case None => None
    case Some((x, s1)) =>
      match FindNumber(s1, '.')
      case None => None
      case Some((y, s2)) =>
        match FindNumber(s2, '@')
        case None => None
        case Some((z, _)) => Some(Enhanced(x, y, z))
  }

  function Dots(e: Enhanced): string {
    e.x + "." + e.y + "." + e.z
  }

  function ParsePrefixed(prefix: string, email: string): Option<ErrorResult> {
    var low := Lower(email);
    var ext := FindHead(low, '_');
    var enh := if ext.Some? then FindEnhanced(ext.value.rest) else None;
    if enh.Some? && EqualFold(ext.value.word, prefix)
    then Some(ErrorResult(Value(ext.value.ddd), Dots(enh.value)))
    else
      var basic := FindHead(low, '@');
      if basic.Some? && EqualFold(basic.value.word, prefix)
      then Some(ErrorResult(Value(basic.value.ddd), ""))
      else None
  }

  /** The error a HELO or EHLO name requests. */
  function ParseHelo(hostname: string): Option<ErrorResult> {
    var low := Lower(hostname);
    if ("helo" <= low || "ehlo" <= low) && |low| > 7 && ThreeDigits(low[4..7]) && low[7] == '.'
    then Some(ErrorResult(Value(low[4..7]), ""))
    else None
  }

  // ---------- The language, by what its sentences look like ----------

  predicate Word(w: string)
    ensures Word(w) ==> All(w, IsLower)
  {
    w != "" && forall i :: 0 <= i < |w| ==> IsLower(w[i])
  }

  predicate Numeral(d: string)
    ensures Numeral(d) ==> All(d, IsDigit)
  {
    d != "" && HasDigitsOnly(d)
  }

  /** A request: which verb, which three digits, and optionally an enhanced code of any size. */
  datatype Request = Request(verb: string, ddd: string, enh: Option<Enhanced>)

  predicate WellFormed(q: Request) {
    Word(q.verb) && ThreeDigits(q.ddd)
    && (q.enh.Some? ==> Numeral(q.enh.value.x) && Numeral(q.enh.value.y) && Numeral(q.enh.value.z))
  }

  function Print(q: Request): string {
    q.verb + q.ddd + (if q.enh.Some? then "_" + Dots(q.enh.value) else "")
  }

  function Meaning(q: Request): (r: ErrorResult)
    requires WellFormed(q)
  {
    ErrorResult(Value(q.ddd), if q.enh.Some? then Dots(q.enh.value) else "")
  }

  /** The request an address makes, if any: read off the scanners, in either form. */
  function RequestOf(low: string): Option<Request> {
    var ext, basic := FindHead(low, '_'), FindHead(low, '@');
    if ext.Some? && FindEnhanced(ext.value.rest).Some?
    then Some(Request(ext.value.word, ext.value.ddd, FindEnhanced(ext.value.rest)))
    else if basic.Some? then Some(Request(basic.value.word, basic.value.ddd, None))
    else None
  }

  // ---------- Scanners against sentences ----------

  lemma HeadFound(word: string, ddd: string, stop: char, rest: string)
    requires Word(word) && ThreeDigits(ddd)
    ensures FindHead(word + ddd + [stop] + rest, stop) == Some(Head(word, ddd, rest))
    ensures forall other :: other != stop ==> FindHead(word + ddd + [stop] + rest, other) == None
  {
    var s := word + ddd + [stop] + rest;
    assert s == word + (ddd + [stop] + rest);
    SpanOfRun(word, ddd + [stop] + rest, IsLower);
    assert s[..|word|] == word && s[|word|..|word| + 3] == ddd && s[|word| + 4..] == rest;
    assert s[|word| + 3] == stop;
  }

  lemma NumberFound(d: string, stop: char, rest: string)
    requires Numeral(d) && !IsDigit(stop)
    ensures FindNumber(d + [stop] + rest, stop) == Some((d, rest))
  {
    var s := d + [stop] + rest;
    assert s == d + ([stop] + rest);
    SpanOfRun(d, [stop] + rest, IsDigit);
    assert s[..|d|] == d && s[|d| + 1..] == rest;
  }

  /** An enhanced code, bracketed the way the scanner consumes it. */
  lemma DotsBracketed(x: string, y: string, z: string, text: string)
    ensures Dots(Enhanced(x, y, z)) + "@" + text == x + "." + (y + "." + (z + "@" + text))
  {
    var s2 := z + "@" + text;
    assert x + "." + y + "." + z + "@" + text == (x + "." + y + ".") + s2;
    assert (x + "." + y + ".") + s2 == x + "." + (y + "." + s2);
  }

  lemma EnhancedFound(e: Enhanced, text: string)
    requires Numeral(e.x) && Numeral(e.y) && Numeral(e.z)
    ensures FindEnhanced(Dots(e) + "@" + text) == Some(e)
  {
    var s2 := e.z + "@" + text;
    var s1 := e.y + "." + s2;
    DotsBracketed(e.x, e.y, e.z, text);
    NumberFound(e.x, '.', s1);
    NumberFound(e.y, '.', s2);
    NumberFound(e.z, '@', text);
  }

  lemma EnhancedShape(s: string) returns (text: string)
    requires FindEnhanced(s).Some?
    ensures var e := FindEnhanced(s).value;
      Numeral(e.x) && Numeral(e.y) && Numeral(e.z) && s == Dots(e) + "@" + text
  {
    var (x, s1) := FindNumber(s, '.').value;
    var (y, s2) := FindNumber(s1, '.').value;
    var (z, s3) := FindNumber(s2, '@').value;
    text := s3;
    DotsBracketed(x, y, z, s3);
  }

  /** A printed request, bracketed the way the scanners consume it. */
  lemma PrintBracketed(q: Request, text: string)
    ensures q.enh.Some? ==> Print(q) + "@" + text == q.verb + q.ddd + "_" + (Dots(q.enh.value) + "@" + text)
    ensures q.enh.None? ==> Print(q) + "@" + text == q.verb + q.ddd + "@" + text
  {
    if q.enh.Some? {
      var head, dots := q.verb + q.ddd, Dots(q.enh.value);
      assert head + ("_" + dots) + "@" + text == head + "_" + (dots + "@" + text);
    } else {
      assert Print(q) == q.verb + q.ddd;
    }
  }

  lemma RequestFound(q: Request, text: string)
    requires WellFormed(q)
    ensures RequestOf(Print(q) + "@" + text) == Some(q)
  {
    PrintBracketed(q, text);
    if q.enh.Some? {
      HeadFound(q.verb, q.ddd, '_', Dots(q.enh.value) + "@" + text);
      EnhancedFound(q.enh.value, text);
    } else {
      HeadFound(q.verb, q.ddd, '@', text);
    }
  }

  lemma RequestShape(low: string) returns (text: string)
    requires RequestOf(low).Some?
    ensures WellFormed(RequestOf(low).value)
    ensures low == Print(RequestOf(low).value) + "@" + text
  {
    var q := RequestOf(low).value;
    var ext, basic := FindHead(low, '_'), FindHead(low, '@');
    if q.enh.Some? {
      text := EnhancedShape(ext.value.rest);
    } else {
      text := basic.value.rest;
    }
    PrintBracketed(q, text);
  }

  lemma LowerOfWord(w: string)
    requires Word(w)
    ensures Lower(w) == w
  {
  }

  lemma OneFormOnly(low: string)
    ensures FindHead(low, '_').None? || FindHead(low, '@').None?
  {
    var ext := FindHead(low, '_');
    if ext.Some? {
      HeadFound(ext.value.word, ext.value.ddd, '_', ext.value.rest);
    }
  }

  lemma SameVerb(word: string, prefix: string)
    requires Word(word) && Word(prefix)
    ensures EqualFold(word, prefix) <==> word == prefix
  {
    LowerOfWord(word);
    LowerOfWord(prefix);
  }

  lemma ParseByRequest(prefix: string, email: string)
    requires Word(prefix)
    ensures var q := RequestOf(Lower(email));
      (q.Some? ==> WellFormed(q.value))
      && ParsePrefixed(prefix, email) ==
         if q.Some? && q.value.verb == prefix then Some(Meaning(q.value)) else None
  {
    var low := Lower(email);
    OneFormOnly(low);
    if RequestOf(low).Some? {
      var text := RequestShape(low);
      SameVerb(RequestOf(low).value.verb, prefix);
    }
  }

  lemma FoundInLower(q: Request, text: string, email: string, prefix: string)
    requires WellFormed(q) && Word(prefix)
    requires Lower(email) == Print(q) + "@" + text
    ensures ParsePrefixed(prefix, email) == if prefix == q.verb then Some(Meaning(q)) else None
  {
    RequestFound(q, text);
    ParseByRequest(prefix, email);
  }

  lemma SentenceInLower(prefix: string, email: string) returns (q: Request, text: string)
    requires Word(prefix) && ParsePrefixed(prefix, email).Some?
    ensures WellFormed(q) && q.verb == prefix && Lower(email) == Print(q) + "@" + text
    ensures ParsePrefixed(prefix, email) == Some(Meaning(q))
  {
    ParseByRequest(prefix, email);
    q := RequestOf(Lower(email)).value;
    text := RequestShape(Lower(email));
  }

  lemma PrintIsLower(q: Request)
    requires WellFormed(q)
    ensures Lower(Print(q)) == Print(q)
  {
    hide Lower;
    CaseFixed(Print(q));
  }

  // ---------- Theorems ----------

  /** Whatever is printed is parsed back, for its own verb and for no other, however its letters are capitalised. */
  lemma ParsesBack(q: Request, text: string, email: string, prefix: string)
    requires WellFormed(q) && Word(prefix)
    requires SameButCase(email, Print(q) + "@" + text)
    ensures ParsePrefixed(prefix, email) == if prefix == q.verb then Some(Meaning(q)) else None
  {
    hide ParsePrefixed, Print, Lower, SameButCase, Meaning, WellFormed, Word;
    FoldCompares(email, Print(q) + "@" + text);
    LowerAt(Print(q), text);
    PrintIsLower(q);
    FoundInLower(q, Lower(text), email, prefix);
  }

  /** An error is found only where a sentence of the language was written, in some letter case, and it is that one. */
  lemma OnlySentences(prefix: string, email: string) returns (q: Request, text: string)
    requires Word(prefix)
    requires ParsePrefixed(prefix, email).Some?
    ensures WellFormed(q) && q.verb == prefix
    ensures SameButCase(email, Print(q) + "@" + text)
    ensures ParsePrefixed(prefix, email) == Some(Meaning(q))
  {
    q, text := SentenceInLower(prefix, email);
    CaseMaps(email);
  }

  /** No address reads as two requests: the basic and the enhanced form are disjoint, and so are the verbs. */
  lemma UniqueReading(q1: Request, t1: string, q2: Request, t2: string)
    requires WellFormed(q1) && WellFormed(q2)
    requires Print(q1) + "@" + t1 == Print(q2) + "@" + t2
    ensures q1 == q2 && t1 == t2
  {
    RequestFound(q1, t1);
    RequestFound(q2, t2);
    var p := Print(q1) + "@";
    assert (p + t1)[|p|..] == t1 && (p + t2)[|p|..] == t2;
  }

  lemma {:induction false} NoAtInLower(s: string)
    requires '@' !in s
    ensures '@' !in Lower(s)
  {
    forall i | 0 <= i < |s|
      ensures Lower(s)[i] != '@'
    {
      assert s[i] in s;
    }
  }

  lemma NoAtInPrint(q: Request)
    requires WellFormed(q)
    ensures '@' !in Print(q)
  {
  }

  lemma SameHead(u: string, v: string, u': string, v': string)
    requires '@' !in u && '@' !in u'
    requires u + "@" + v == u' + "@" + v'
    ensures u == u'
  {
    IndexAfter(u, '@', v);
    IndexAfter(u', '@', v');
    assert (u + "@" + v)[..|u|] == u && (u' + "@" + v')[..|u'|] == u';
  }

  /** Nothing after the first '@' matters. */
  lemma OnlyLocalPartMatters(prefix: string, local: string, d1: string, d2: string)
    requires Word(prefix) && '@' !in local
    ensures ParsePrefixed(prefix, local + "@" + d1) == ParsePrefixed(prefix, local + "@" + d2)
  {
    if ParsePrefixed(prefix, local + "@" + d1).Some? {
      TailIgnored(prefix, local, d1, d2);
    } else if ParsePrefixed(prefix, local + "@" + d2).Some? {
      TailIgnored(prefix, local, d2, d1);
    }
  }

  lemma LowerAt(local: string, d: string)
    ensures Lower(local + "@" + d) == Lower(local) + "@" + Lower(d)
  {
  }

  lemma TailIgnored(prefix: string, local: string, d1: string, d2: string)
    requires Word(prefix) && '@' !in local
    requires ParsePrefixed(prefix, local + "@" + d1).Some?
    ensures ParsePrefixed(prefix, local + "@" + d1) == ParsePrefixed(prefix, local + "@" + d2)
  {
    var q, text := SentenceInLower(prefix, local + "@" + d1);
    LowerAt(local, d1);
    LowerAt(local, d2);
    NoAtInLower(local);
    NoAtInPrint(q);
    SameHead(Lower(local), Lower(d1), Print(q), text);
    FoundInLower(q, Lower(d2), local + "@" + d2, prefix);
  }

  /** Two different verbs never both find an error in one address. */
  lemma AtMostOneVerb(v1: string, v2: string, email: string)
    requires Word(v1) && Word(v2) && v1 != v2
    ensures ParsePrefixed(v1, email).None? || ParsePrefixed(v2, email).None?
  {
    ParseByRequest(v1, email);
    ParseByRequest(v2, email);
  }

  /** A code always has three digits, so it lies in 0..999. */
  lemma CodeRange(prefix: string, email: string)
    ensures ParsePrefixed(prefix, email).Some? ==> ParsePrefixed(prefix, email).value.code <= 999
    ensures ParseHelo(email).Some? ==> ParseHelo(email).value.code <= 999
  {
    var low := Lower(email);
    var ext, basic := FindHead(low, '_'), FindHead(low, '@');
    if ext.Some? { ValueOfThree(ext.value.ddd); }
    if basic.Some? { ValueOfThree(basic.value.ddd); }
    if ParseHelo(email).Some? { ValueOfThree(low[4..7]); }
  }

  predicate HeloSentence(hostname: string, w: string, ddd: string, text: string) {
    (w == "helo" || w == "ehlo") && ThreeDigits(ddd) && SameButCase(hostname, w + (ddd + ("." + text)))
  }

  lemma HeloSentenceAt(low: string, w: string, ddd: string, text: string)
    requires |w| == 4 && |ddd| == 3 && low == w + (ddd + ("." + text))
    ensures w <= low && |low| > 7 && low[4..7] == ddd && low[7] == '.'
  {
    var tail := ddd + ("." + text);
    assert low[..4] == w && low[4..] == tail;
    assert tail[..3] == ddd && tail[3] == '.';
    assert low[4..7] == low[4..][..3];
  }

  lemma HeloSentenceInLower(hostname: string, w: string, ddd: string, text: string)
    requires HeloSentence(hostname, w, ddd, text)
    ensures Lower(hostname) == w + (ddd + ("." + Lower(text)))
  {
    var sentence := w + (ddd + ("." + text));
    FoldCompares(hostname, sentence);
    assert Lower(sentence) == Lower(w) + (Lower(ddd) + ("." + Lower(text)));
    CaseFixed(w);
    CaseFixed(ddd);
  }

  /**
    The greeting names that request an error are exactly those that start with helo or ehlo, in any letter case, three
    digits and a dot.
  */
  lemma HeloLanguage(hostname: string, r: ErrorResult)
    ensures ParseHelo(hostname) == Some(r) <==>
      exists w, ddd, text :: HeloSentence(hostname, w, ddd, text) && r == ErrorResult(Value(ddd), "")
  {
    var low := Lower(hostname);
    if ParseHelo(hostname) == Some(r) {
      var w, ddd, text := low[..4], low[4..7], low[8..];
      assert low[7..] == "." + text && low[4..] == ddd + low[7..] && low == w + low[4..];
      assert |"helo"| == |"ehlo"| == 4;
      CaseMaps(hostname);
      assert HeloSentence(hostname, w, ddd, text);
    }
    forall w, ddd, text | HeloSentence(hostname, w, ddd, text) && r == ErrorResult(Value(ddd), "")
      ensures ParseHelo(hostname) == Some(r)
    {
      HeloSentenceInLower(hostname, w, ddd, text);
      HeloSentenceAt(low, w, ddd, Lower(text));
    }
  }
}
