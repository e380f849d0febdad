/**
  Deliveries into one maildir by several sessions at once: each delivery takes its file operations and its turn at the
  shared counter one by one, and between two of them the others may do anything.
*/
module Deliveries {
  import opened Maildir

  type Id = nat

  /** What a delivery is called with, and the clock readings it takes. */
  datatype Job = Job(message: Message, date: string, seconds: int, micros: int)

  /** The texts a delivery writes, in order. */
  function Pieces(job: Job): seq<string> {
    var m := job.message;
    [FromLine(m)] + (if m.to == [] then [] else [ToLine(m)]) + [ReceivedLine(job.date), "\r\n", m.content]
  }

  function Flat(texts: seq<string>): string {
    if texts == [] then "" else Flat(texts[..|texts| - 1]) + texts[|texts| - 1]
  }

  lemma OneMorePiece(texts: seq<string>, k: nat)
    requires k < |texts|
    ensures Flat(texts[..k + 1]) == Flat(texts[..k]) + texts[k]
    ensures Flat(texts[..0]) == ""
  {
    assert texts[..k + 1][..k] == texts[..k];
  }

  /** All of them make a complete file. */
  lemma PiecesAreTheFile(job: Job)
    ensures Flat(Pieces(job)) == Rendered(job.message, job.date) && Pieces(job) != []
  {
    hide FromLine, ToLine, ReceivedLine, Flat;
    var m, ps := job.message, Pieces(job);
    var n := |ps|;
    assert ps[..n] == ps;
    OneMorePiece(ps, 0);
    OneMorePiece(ps, 1);
    OneMorePiece(ps, 2);
    OneMorePiece(ps, 3);
    OneMorePiece(ps, n - 1);
    if m.to == [] {
      NoToLine(m);
      assert Flat(ps[..1]) == "" + FromLine(m);
      assert Flat(ps[..2]) == FromLine(m) + ToLine(m) + ReceivedLine(job.date);
      assert Flat(ps[..3]) == FromLine(m) + ToLine(m) + ReceivedLine(job.date) + "\r\n";
    } else {
      assert Flat(ps[..1]) == "" + FromLine(m);
      assert Flat(ps[..2]) == FromLine(m) + ToLine(m);
      assert Flat(ps[..3]) == FromLine(m) + ToLine(m) + ReceivedLine(job.date);
      assert Flat(ps[..4]) == FromLine(m) + ToLine(m) + ReceivedLine(job.date) + "\r\n";
    }
  }

  // ---------- The protocol ----------

  datatype Phase =
    | Started
    | Writing(path: string, written: nat)   // its temporary file exists, so many texts are in it
    | Written(path: string)                 // the file is closed
    | Named(path: string, c: nat)           // it has had its turn at the counter
    | Cleaning(path: string)                // something failed, and the temporary file is to go
    | Delivered(c: nat)                     // nil
    | Failed                                // an error

  datatype Box = Box(
    pid: nat, host: string, inherited: map<string, string>, tmpDir: map<string, string>, newDir: map<string, string>,
    counter: nat, jobs: map<Id, Job>, phases: map<Id, Phase>)

  /** The maildir as the process finds it. */
  function Opened(pid: nat, host: string, tmpDir: map<string, string>, newDir: map<string, string>): Box {
    Box(pid, host, newDir, tmpDir, newDir, 0, map[], map[])
  }

  function NameOf(b: Box, job: Job, c: nat): string {
    Filename(job.seconds, job.micros, b.pid, c, b.host)
  }

  datatype Step =
    | Begin(d: Id, job: Job)
    | GiveUp(d: Id)                   // no directory, or no temporary file
    | Create(d: Id, path: string)
    | BadPath(d: Id)
    | Write(d: Id)
    | WriteFails(d: Id, part: nat)    // some of the text may have been written
    | CloseFile(d: Id, ok: bool)
    | TakeName(d: Id)                 // the atomic increment
    | Rename(d: Id, ok: bool)
    | Remove(d: Id, ok: bool)

  predicate At(b: Box, d: Id) {
    d in b.phases && d in b.jobs
  }

  predicate Can(b: Box, a: Step) {
    match a
    case Begin(d, _) => d !in b.phases && d !in b.jobs
    case GiveUp(d) => At(b, d) && b.phases[d].Started?
    case Create(d, path) => At(b, d) && b.phases[d].Started? && path !in b.tmpDir
    case BadPath(d) => At(b, d) && b.phases[d].Writing? && b.phases[d].written == 0
    case Write(d) => At(b, d) && b.phases[d].Writing? && b.phases[d].written < |Pieces(b.jobs[d])|
        && b.phases[d].path in b.tmpDir
    case WriteFails(d, part) => At(b, d) && b.phases[d].Writing? && b.phases[d].written < |Pieces(b.jobs[d])|
        && b.phases[d].path in b.tmpDir && part <= |Pieces(b.jobs[d])[b.phases[d].written]|
    case CloseFile(d, _) => At(b, d) && b.phases[d].Writing? && b.phases[d].written == |Pieces(b.jobs[d])|
    case TakeName(d) => At(b, d) && b.phases[d].Written?
    case Rename(d, _) => At(b, d) && b.phases[d].Named? && b.phases[d].path in b.tmpDir
    case Remove(d, _) => At(b, d) && b.phases[d].Cleaning?
  }

  function Do(b: Box, a: Step): Box
    requires Can(b, a)
  {
    match a
    case Begin(d, job) => b.(jobs := b.jobs[d := job], phases := b.phases[d := Started])
    case GiveUp(d) => b.(phases := b.phases[d := Failed])
    case Create(d, path) => b.(tmpDir := b.tmpDir[path := ""], phases := b.phases[d := Writing(path, 0)])
    case BadPath(d) => b.(phases := b.phases[d := Cleaning(b.phases[d].path)])
    case Write(d) =>
      var p := b.phases[d];
      b.(tmpDir := b.tmpDir[p.path := b.tmpDir[p.path] + Pieces(b.jobs[d])[p.written]],
         phases := b.phases[d := Writing(p.path, p.written + 1)])
    case WriteFails(d, part) =>
      var p := b.phases[d];
      b.(tmpDir := b.tmpDir[p.path := b.tmpDir[p.path] + Pieces(b.jobs[d])[p.written][..part]],
         phases := b.phases[d := Cleaning(p.path)])
    case CloseFile(d, ok) =>
      b.(phases := b.phases[d := if ok then Written(b.phases[d].path) else Cleaning(b.phases[d].path)])
    case TakeName(d) =>
      b.(counter := b.counter + 1, phases := b.phases[d := Named(b.phases[d].path, b.counter + 1)])
    case Rename(d, ok) =>
      var p := b.phases[d];
      if !ok then b.(phases := b.phases[d := Cleaning(p.path)])
      else b.(newDir := b.newDir[NameOf(b, b.jobs[d], p.c) := b.tmpDir[p.path]], tmpDir := b.tmpDir - {p.path},
              phases := b.phases[d := Delivered(p.c)])
    case Remove(d, ok) =>
      b.(tmpDir := if ok then b.tmpDir - {b.phases[d].path} else b.tmpDir, phases := b.phases[d := Failed])
  }

  ghost predicate Possible(b: Box, steps: seq<Step>)
    decreases |steps|, 0
  {
    steps == [] || (Possible(b, steps[..|steps| - 1]) && Can(After(b, steps[..|steps| - 1]), steps[|steps| - 1]))
  }

  ghost function After(b: Box, steps: seq<Step>): Box
    requires Possible(b, steps)
    decreases |steps|, 1
  {
    if steps == [] then b else Do(After(b, steps[..|steps| - 1]), steps[|steps| - 1])
  }

  // ---------- The invariant ----------

  predicate HasPath(p: Phase) {
    p.Writing? || p.Written? || p.Named? || p.Cleaning?
  }

  predicate HasCounter(p: Phase) {
    p.Named? || p.Delivered?
  }

  /** Two deliveries share neither a temporary file nor a counter. */
  predicate Apart(p: Phase, q: Phase) {
    && (HasPath(p) && HasPath(q) ==> p.path != q.path)
    && (HasCounter(p) && HasCounter(q) ==> p.c != q.c)
  }

  function Complete(job: Job): string {
    Rendered(job.message, job.date)
  }

  predicate Holds(dir: map<string, string>, name: string, text: string) {
    name in dir && dir[name] == text
  }

  /** Where the files of a delivery stand. */
  predicate Fits(b: Box, job: Job, p: Phase) {
    && (HasPath(p) ==> p.path in b.tmpDir)
    && (HasCounter(p) ==> p.c <= b.counter)
    && (p.Writing? ==> p.written <= |Pieces(job)| && Holds(b.tmpDir, p.path, Flat(Pieces(job)[..p.written])))
    && (p.Written? || p.Named? ==> Holds(b.tmpDir, p.path, Complete(job)))
    && (p.Delivered? ==> Holds(b.newDir, NameOf(b, job, p.c), Complete(job)))
  }

  ghost predicate AllFit(b: Box) {
    && b.jobs.Keys == b.phases.Keys
    && (forall d :: d in b.phases ==> Fits(b, b.jobs[d], b.phases[d]))
    && (forall d, e :: d in b.phases && e in b.phases && d != e ==> Apart(b.phases[d], b.phases[e]))
  }

  /** The name under which a delivery has put its file into new/. */
  predicate HasDelivered(b: Box, d: Id, name: string) {
    At(b, d) && b.phases[d].Delivered? && name == NameOf(b, b.jobs[d], b.phases[d].c)
  }

  ghost predicate NewOk(b: Box) {
    && b.inherited.Keys <= b.newDir.Keys
    && forall name :: name in b.newDir ==>
         Holds(b.inherited, name, b.newDir[name]) || exists d :: HasDelivered(b, d, name)
  }

  // ---------- Every step keeps it ----------

  /** One delivery moves on; the files of the others stay as they are. */
  lemma OneMoves(b: Box, t: Box, d: Id, q: Phase)
    requires AllFit(b) && At(t, d) && t.phases == b.phases[d := q] && t.jobs == b.jobs[d := t.jobs[d]]
    requires t.pid == b.pid && t.host == b.host && b.counter <= t.counter
    requires Fits(t, t.jobs[d], q)
    requires forall e :: e in b.phases && e != d ==> Apart(q, b.phases[e])
    requires forall e :: e in b.phases && e != d && HasPath(b.phases[e]) && b.phases[e].path in b.tmpDir ==>
      Holds(t.tmpDir, b.phases[e].path, b.tmpDir[b.phases[e].path])
    requires forall e, text :: e in b.phases && e != d && b.phases[e].Delivered? ==>
      var name := NameOf(b, b.jobs[e], b.phases[e].c);
      Holds(b.newDir, name, text) ==> Holds(t.newDir, name, text)
    ensures AllFit(t)
  {
    hide Pieces, Flat, Complete, Filename;
    assert t.jobs.Keys == t.phases.Keys;
    forall e | e in t.phases
      ensures Fits(t, t.jobs[e], t.phases[e])
    {
      if e != d {
        assert Fits(b, b.jobs[e], b.phases[e]);
        assert t.phases[e] == b.phases[e] && t.jobs[e] == b.jobs[e];
      }
    }
    forall e, f | e in t.phases && f in t.phases && e != f
      ensures Apart(t.phases[e], t.phases[f])
    {
      if e != d && f != d {
        assert Apart(b.phases[e], b.phases[f]);
      }
    }
  }

  /** A step that only moves a delivery within what it has. */
  predicate IsQuiet(a: Step) {
    a.GiveUp? || a.BadPath? || a.CloseFile? || (a.Rename? && !a.ok)
  }

  lemma QuietFits(b: Box, a: Step)
    requires AllFit(b) && Can(b, a) && IsQuiet(a)
    ensures AllFit(Do(b, a))
  {
    hide Pieces, Flat, Filename, Complete;
    var d := a.d;
    var t := Do(b, a);
    PiecesAreTheFile(b.jobs[d]);
    assert Pieces(b.jobs[d])[..|Pieces(b.jobs[d])|] == Pieces(b.jobs[d]);
    assert Complete(b.jobs[d]) == Flat(Pieces(b.jobs[d])) by { CompleteIsRendered(b.jobs[d]); }
    assert Fits(b, b.jobs[d], b.phases[d]);
    OneMoves(b, t, d, t.phases[d]);
  }

  lemma CompleteIsRendered(job: Job)
    ensures Complete(job) == Rendered(job.message, job.date)
  {
  }

  lemma BeginFits(b: Box, d: Id, job: Job)
    requires AllFit(b) && Can(b, Begin(d, job))
    ensures AllFit(Do(b, Begin(d, job)))
  {
    hide Pieces, Flat, Filename, Complete;
    OneMoves(b, Do(b, Begin(d, job)), d, Started);
  }

  lemma CreateFits(b: Box, d: Id, path: string)
    requires AllFit(b) && Can(b, Create(d, path))
    ensures AllFit(Do(b, Create(d, path)))
  {
    hide Pieces, Flat, Filename, Complete;
    var job := b.jobs[d];
    PiecesAreTheFile(job);
    OneMorePiece(Pieces(job), 0);
    assert forall e :: e in b.phases ==> Fits(b, b.jobs[e], b.phases[e]);
    OneMoves(b, Do(b, Create(d, path)), d, Writing(path, 0));
  }

  lemma WriteFits(b: Box, a: Step)
    requires AllFit(b) && Can(b, a) && (a.Write? || a.WriteFails?)
    ensures AllFit(Do(b, a))
  {
    hide Pieces, Flat, Filename, Complete;
    var d := a.d;
    var t := Do(b, a);
    OneMorePiece(Pieces(b.jobs[d]), b.phases[d].written);
    assert Fits(b, b.jobs[d], b.phases[d]);
    OneMoves(b, t, d, t.phases[d]);
  }

  lemma TakeNameFits(b: Box, d: Id)
    requires AllFit(b) && Can(b, TakeName(d))
    ensures AllFit(Do(b, TakeName(d)))
  {
    hide Pieces, Flat, Filename, Complete;
    var t := Do(b, TakeName(d));
    assert forall e :: e in b.phases ==> Fits(b, b.jobs[e], b.phases[e]);
    OneMoves(b, t, d, t.phases[d]);
  }

  lemma RemoveFits(b: Box, d: Id, ok: bool)
    requires AllFit(b) && Can(b, Remove(d, ok))
    ensures AllFit(Do(b, Remove(d, ok)))
  {
    hide Pieces, Flat, Filename, Complete;
    OneMoves(b, Do(b, Remove(d, ok)), d, Failed);
  }

  lemma NamesApart(b: Box, d: Id, e: Id)
    requires AllFit(b) && At(b, d) && At(b, e) && d != e && HasCounter(b.phases[d]) && HasCounter(b.phases[e])
    ensures NameOf(b, b.jobs[d], b.phases[d].c) != NameOf(b, b.jobs[e], b.phases[e].c)
  {
    hide Filename, Fits;
    var j, k := b.jobs[d], b.jobs[e];
    assert Apart(b.phases[d], b.phases[e]);
    if NameOf(b, j, b.phases[d].c) == NameOf(b, k, b.phases[e].c) {
      NamesNeverCollide(j.seconds, j.micros, b.pid, b.phases[d].c, b.host,
                        k.seconds, k.micros, b.pid, b.phases[e].c, b.host);
    }
  }

  lemma RenameFits(b: Box, d: Id)
    requires AllFit(b) && Can(b, Rename(d, true))
    ensures AllFit(Do(b, Rename(d, true)))
  {
    hide Pieces, Flat, Complete, NameOf;
    var t := Do(b, Rename(d, true));
    assert forall job, c :: NameOf(t, job, c) == NameOf(b, job, c) by { SameNames(b, t); }
    assert Fits(b, b.jobs[d], b.phases[d]);
    forall e, text | e in b.phases && e != d && b.phases[e].Delivered?
      ensures var name := NameOf(b, b.jobs[e], b.phases[e].c);
        Holds(b.newDir, name, text) ==> Holds(t.newDir, name, text)
    {
      NamesApart(b, d, e);
    }
    OneMoves(b, t, d, t.phases[d]);
  }

  lemma SameNames(b: Box, t: Box)
    requires t.pid == b.pid && t.host == b.host
    ensures forall job, c :: NameOf(t, job, c) == NameOf(b, job, c)
  {
  }

  lemma FitsStep(b: Box, a: Step)
    requires AllFit(b) && Can(b, a)
    ensures AllFit(Do(b, a))
  {
    hide AllFit, Can, Do;
    match a
    case Begin(d, job) => BeginFits(b, d, job);
    case Create(d, path) => CreateFits(b, d, path);
    case Write(d) => WriteFits(b, a);
    case WriteFails(d, part) => WriteFits(b, a);
    case TakeName(d) => TakeNameFits(b, d);
    case Rename(d, ok) => if ok { RenameFits(b, d); } else { QuietFits(b, a); }
    case Remove(d, ok) => RemoveFits(b, d, ok);
    case _ => QuietFits(b, a);
  }

  lemma DeliveredStays(b: Box, a: Step, d: Id, name: string)
    requires Can(b, a) && HasDelivered(b, d, name)
    ensures HasDelivered(Do(b, a), d, name)
  {
    hide Filename, Pieces;
  }

  lemma NewStep(b: Box, a: Step)
    requires NewOk(b) && Can(b, a)
    ensures NewOk(Do(b, a))
  {
    hide Filename, Pieces, HasDelivered;
    var t := Do(b, a);
    forall name | name in t.newDir
      ensures Holds(t.inherited, name, t.newDir[name]) || exists d :: HasDelivered(t, d, name)
    {
      if name in b.newDir && t.newDir[name] == b.newDir[name] {
        if !Holds(b.inherited, name, b.newDir[name]) {
          var d :| HasDelivered(b, d, name);
          DeliveredStays(b, a, d, name);
        }
      } else {
        JustDelivered(b, a, name);
        assert HasDelivered(t, a.d, name);
      }
    }
  }

  lemma JustDelivered(b: Box, a: Step, name: string)
    requires Can(b, a) && name in Do(b, a).newDir && !(name in b.newDir && Do(b, a).newDir[name] == b.newDir[name])
    ensures a.Rename? && HasDelivered(Do(b, a), a.d, name)
  {
    hide Filename, Pieces;
  }

  lemma {:induction false} AlwaysOk(pid: nat, host: string, tmpDir: map<string, string>, newDir: map<string, string>,
                                    steps: seq<Step>)
    requires Possible(Opened(pid, host, tmpDir, newDir), steps)
    ensures var t := After(Opened(pid, host, tmpDir, newDir), steps);
      AllFit(t) && NewOk(t) && t.inherited == newDir && t.pid == pid && t.host == host
  {
    hide AllFit, NewOk, Can, Do;
    var b := Opened(pid, host, tmpDir, newDir);
    if steps == [] {
      OpenedOk(pid, host, tmpDir, newDir);
    } else {
      AlwaysOk(pid, host, tmpDir, newDir, steps[..|steps| - 1]);
      var s, a := After(b, steps[..|steps| - 1]), steps[|steps| - 1];
      FitsStep(s, a);
      NewStep(s, a);
      SameProcess(s, a);
    }
  }

  lemma OpenedOk(pid: nat, host: string, tmpDir: map<string, string>, newDir: map<string, string>)
    ensures AllFit(Opened(pid, host, tmpDir, newDir)) && NewOk(Opened(pid, host, tmpDir, newDir))
  {
  }

  lemma SameProcess(b: Box, a: Step)
    requires Can(b, a)
    ensures var t := Do(b, a); t.inherited == b.inherited && t.pid == b.pid && t.host == b.host
  {
    hide Filename, Pieces;
  }

  // ---------- Theorems ----------

  /**
    In every interleaving, at every moment: each delivery that has returned nil has its complete message in new/; no two
    have the same name; and every other file in new/ is as the process found it. So no file in new/ is ever seen in
    part, and a delivery that has failed or is under way has left nothing there.
  */
  lemma NewHoldsExactlyTheDelivered(pid: nat, host: string, tmpDir: map<string, string>, newDir: map<string, string>,
                                    steps: seq<Step>, d: Id, e: Id, name: string)
    requires Possible(Opened(pid, host, tmpDir, newDir), steps)
    ensures var t := After(Opened(pid, host, tmpDir, newDir), steps);
      && (HasDelivered(t, d, name) ==> Holds(t.newDir, name, Complete(t.jobs[d])))
      && (HasDelivered(t, d, name) && HasDelivered(t, e, name) ==> d == e)
      && (name in t.newDir ==> Holds(newDir, name, t.newDir[name]) || exists f :: HasDelivered(t, f, name))
      && newDir.Keys <= t.newDir.Keys
  {
    hide Possible, After, Complete, Pieces, Flat, Filename;
    AlwaysOk(pid, host, tmpDir, newDir, steps);
    var t := After(Opened(pid, host, tmpDir, newDir), steps);
    if HasDelivered(t, d, name) {
      assert Fits(t, t.jobs[d], t.phases[d]);
      if HasDelivered(t, e, name) && d != e {
        NamesApart(t, d, e);
      }
    }
  }

  /** Every delivery's clock has passed every file that an earlier process with this pid and host has left. */
  ghost predicate ClockMovedOn(b: Box) {
    forall d, s, m, c: nat :: d in b.jobs && Filename(s, m, b.pid, c, b.host) in b.inherited ==> m < b.jobs[d].micros
  }

  function DeliveredSet(b: Box): set<Id> {
    set d | d in b.phases && b.phases[d].Delivered?
  }

  ghost predicate Grown(b: Box) {
    && |b.newDir| == |b.inherited| + |DeliveredSet(b)|
    && forall name :: name in b.inherited ==> Holds(b.newDir, name, b.inherited[name])
  }

  lemma FreshName(b: Box, d: Id)
    requires AllFit(b) && NewOk(b) && ClockMovedOn(b) && At(b, d) && b.phases[d].Named?
    ensures NameOf(b, b.jobs[d], b.phases[d].c) !in b.newDir
  {
    hide Pieces, Flat, Complete, Filename;
    var name := NameOf(b, b.jobs[d], b.phases[d].c);
    if name in b.newDir && !Holds(b.inherited, name, b.newDir[name]) {
      var e :| HasDelivered(b, e, name);
      NamesApart(b, d, e);
    }
  }

  lemma OneMoreDelivered(b: Box, t: Box, d: Id, c: nat)
    requires d in b.phases && !b.phases[d].Delivered? && t.phases == b.phases[d := Delivered(c)]
    ensures |DeliveredSet(t)| == |DeliveredSet(b)| + 1
  {
    assert DeliveredSet(t) == DeliveredSet(b) + {d};
  }

  lemma GrownByOne(b: Box, d: Id)
    requires Can(b, Rename(d, true)) && NameOf(b, b.jobs[d], b.phases[d].c) !in b.newDir && Grown(b)
    ensures Grown(Do(b, Rename(d, true)))
  {
    hide NameOf, Pieces, DeliveredSet;
    var t, name := Do(b, Rename(d, true)), NameOf(b, b.jobs[d], b.phases[d].c);
    OneMoreDelivered(b, t, d, b.phases[d].c);
    assert t.newDir.Keys == b.newDir.Keys + {name};
    assert |t.newDir| == |t.newDir.Keys| == |b.newDir.Keys| + 1;
  }

  lemma OthersDeliverNothing(b: Box, a: Step)
    requires Can(b, a) && !(a.Rename? && a.ok)
    ensures Do(b, a).newDir == b.newDir && DeliveredSet(Do(b, a)) == DeliveredSet(b)
  {
    hide NameOf, Pieces;
  }

  lemma GrownStep(b: Box, a: Step)
    requires AllFit(b) && NewOk(b) && Can(b, a) && ClockMovedOn(Do(b, a)) && (ClockMovedOn(b) ==> Grown(b))
    ensures Grown(Do(b, a))
  {
    hide AllFit, NewOk, ClockMovedOn, NameOf, Pieces, DeliveredSet;
    ClockBefore(b, a);
    if a.Rename? && a.ok {
      FreshName(b, a.d);
      GrownByOne(b, a.d);
    } else {
      OthersDeliverNothing(b, a);
      SameProcess(b, a);
    }
  }

  lemma ClockBefore(b: Box, a: Step)
    requires Can(b, a) && ClockMovedOn(Do(b, a))
    ensures ClockMovedOn(b)
  {
    hide Filename, Pieces;
    var t := Do(b, a);
    assert forall d :: d in b.jobs ==> d in t.jobs && t.jobs[d] == b.jobs[d];
  }

  /**
    In every interleaving, if the clock has moved on since an earlier process, nothing found in new/ is overwritten and
    new/ has grown by exactly the number of deliveries that returned nil.
  */
  lemma {:induction false} NewGrowsByTheDelivered(pid: nat, host: string, tmpDir: map<string, string>,
                                                  newDir: map<string, string>, steps: seq<Step>)
    requires Possible(Opened(pid, host, tmpDir, newDir), steps)
    ensures var t := After(Opened(pid, host, tmpDir, newDir), steps); ClockMovedOn(t) ==> Grown(t)
  {
    hide AllFit, NewOk, Can, Do, ClockMovedOn, Grown;
    var b := Opened(pid, host, tmpDir, newDir);
    if steps == [] {
      OpenedGrown(pid, host, tmpDir, newDir);
    } else {
      var s, a := After(b, steps[..|steps| - 1]), steps[|steps| - 1];
      NewGrowsByTheDelivered(pid, host, tmpDir, newDir, steps[..|steps| - 1]);
      AlwaysOk(pid, host, tmpDir, newDir, steps[..|steps| - 1]);
      if ClockMovedOn(Do(s, a)) {
        GrownStep(s, a);
      }
    }
  }

  lemma OpenedGrown(pid: nat, host: string, tmpDir: map<string, string>, newDir: map<string, string>)
    ensures Grown(Opened(pid, host, tmpDir, newDir))
  {
    assert DeliveredSet(Opened(pid, host, tmpDir, newDir)) == {};
  }
}
