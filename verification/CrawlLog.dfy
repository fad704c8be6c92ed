/**
 * The crawler's output files: a serialised queue of append tasks, stopped at any point and resumed.
 */
module CrawlLog {
  import opened Common

  type Url = string

  /** A line of a `.jsonl` file as far as a reader gets: a record of a URL, or text that does not parse. */
  datatype Line = Record(url: Url) | Garbage

  /** How the last line ends: with its newline, in the middle of a record, or after a record but without a newline. */
  datatype Tail = Ended | Cut | Unended

  datatype File = File(lines: seq<Line>, tail: Tail)

  const EmptyFile := File([], Ended)

  /** Text added to a record without a newline spoils it. */
  function Glued(lines: seq<Line>): seq<Line> {
    if lines == [] then [] else lines[..|lines| - 1] + [Garbage]
  }

  /** Appending a record: a last line without its newline is continued and then parses no more. */
  function Append(f: File, url: Url): File {
    match f.tail
    case Ended => File(f.lines + [Record(url)], Ended)
    case Cut => f.(tail := Ended)
    case Unended => File(Glued(f.lines), Ended)
  }

  /** An append that breaks off: before its first byte (`Ended`), inside the record, or just before the newline. */
  function Tear(f: File, url: Url, left: Tail): File {
    if left.Ended? then f else
      match f.tail
      case Ended => File(f.lines + [if left.Cut? then Garbage else Record(url)], left)
      case Cut => f
      case Unended => File(Glued(f.lines), Cut)
  }

  /** A reader finds the record. */
  predicate Holds(f: File, url: Url) {
    Record(url) in f.lines
  }

  /** The lines that no later append can spoil. */
  function Firm(f: File): seq<Line> {
    if f.tail.Unended? && f.lines != [] then f.lines[..|f.lines| - 1] else f.lines
  }

  predicate Keeps(f: File, url: Url) {
    Record(url) in Firm(f)
  }

  datatype Name = Articles | Strapi | Skipped | Completed

  datatype Files = Files(articles: File, strapi: File, skipped: File, completed: File) {
    function Get(n: Name): File {
      match n
      case Articles => articles
      case Strapi => strapi
      case Skipped => skipped
      case Completed => completed
    }

    function Put(n: Name, f: File): Files {
      match n
      case Articles => this.(articles := f)
      case Strapi => this.(strapi := f)
      case Skipped => this.(skipped := f)
      case Completed => this.(completed := f)
    }
  }

  /** `appendArticle` or `appendSkipped` of one URL. */
  datatype Task = ArticleTask(url: Url) | SkipTask(url: Url) {
    /** The appends of the task, in order. */
    function Appends(): (r: seq<Name>)
      ensures |r| > 0 && r[|r| - 1] == Completed
    {
      match this
      case ArticleTask(_) => [Articles, Strapi, Completed]
      case SkipTask(_) => [Skipped, Completed]
    }
  }

  /**
   * `queue` is the chain of tasks of the running process, `done` how many appends its head has made,
   * `completed` what `prepare` read back, `handed` the URLs given to workers in this process and
   * `settled` those whose task has ended well; `enqueued` and `ended` are the tasks of this process, in order.
   */
  datatype State = State(
    files: Files, running: bool, completed: set<Url>, handed: set<Url>, settled: set<Url>,
    queue: seq<Task>, done: nat, enqueued: seq<Task>, ended: seq<Task>)

  datatype Step =
    | Prepare                       // a process starts and reads completed.jsonl
    | HandOut(url: Url)             // a worker gets a pending URL
    | Enqueue(task: Task)           // its result is queued for writing
    | WriteNext                     // the head task makes its next append
    | FailNext(left: Tail)          // that append fails and leaves what a crash may leave; the task is rejected
    | Crash(left: Tail)             // the process stops, possibly inside that append

  /** `prepare` with resume: every parsed line counts, a broken one is ignored. */
  function ReadBack(f: File): set<Url> {
    set l | l in f.lines && l.Record? :: l.url
  }

  predicate Pending(s: State, url: Url) {
    url !in s.completed && url !in s.handed
  }

  predicate Queued(s: State, url: Url) {
    exists i :: 0 <= i < |s.queue| && s.queue[i].url == url
  }

  predicate Enabled(s: State, step: Step) {
    match step
    case Prepare => !s.running
    case HandOut(url) => s.running && Pending(s, url)
    case Enqueue(task) => s.running && task.url in s.handed && task.url !in s.settled && !Queued(s, task.url)
    case WriteNext => s.running && s.queue != []
    case FailNext(_) => s.running && s.queue != []
    case Crash(_) => s.running
  }

  /** The file the head task appends to next. */
  function NextName(s: State): Name
    requires s.queue != []
  {
    var names := s.queue[0].Appends();
    if s.done < |names| then names[s.done] else Completed
  }

  function DoWrite(s: State): State
    requires s.queue != []
  {
    var task := s.queue[0];
    var name := NextName(s);
    var s1 := s.(files := s.files.Put(name, Append(s.files.Get(name), task.url)));
    if s.done + 1 < |task.Appends()| then s1.(done := s.done + 1)
    else s1.(done := 0, queue := s.queue[1..], ended := s.ended + [task], settled := s.settled + {task.url})
  }

  /** The files once the head's next append breaks off. */
  function Broken(s: State, left: Tail): Files {
    if s.queue == [] then s.files
    else s.files.Put(NextName(s), Tear(s.files.Get(NextName(s)), s.queue[0].url, left))
  }

  function Do(s: State, step: Step): State
    requires Enabled(s, step)
  {
    match step
    case Prepare => s.(running := true, completed := ReadBack(s.files.completed), handed := {}, settled := {},
                       queue := [], done := 0, enqueued := [], ended := [])
    case HandOut(url) => s.(handed := s.handed + {url})
    case Enqueue(task) => s.(queue := s.queue + [task], enqueued := s.enqueued + [task])
    case WriteNext => DoWrite(s)
    case FailNext(left) => s.(files := Broken(s, left), done := 0, queue := s.queue[1..],
                              ended := s.ended + [s.queue[0]])
    case Crash(left) => s.(files := Broken(s, left), running := false, queue := [], done := 0)
  }

  const InitState := State(Files(EmptyFile, EmptyFile, EmptyFile, EmptyFile), false, {}, {}, {}, [], 0, [], [])

  ghost predicate Execution(states: seq<State>, steps: seq<Step>) {
    && |states| == |steps| + 1
    && states[0] == InitState
    && forall i :: 0 <= i < |steps| ==> Enabled(states[i], steps[i]) && states[i + 1] == Do(states[i], steps[i])
  }

  // ------------------------------------------------------------ what one append does

  lemma PutGet(f: Files, n: Name, g: File, m: Name)
    ensures f.Put(n, g).Get(m) == if m == n then g else f.Get(m)
  {
  }

  /** An append keeps what is firm and adds its record iff the file ended properly; a broken one adds nothing firm. */
  lemma AppendKeeps(f: File, url: Url, u: Url)
    ensures Keeps(Append(f, url), u) <==> Keeps(f, u) || (u == url && f.tail.Ended?)
  {
  }

  lemma TearKeeps(f: File, url: Url, left: Tail, u: Url)
    ensures Keeps(Tear(f, url, left), u) <==> Keeps(f, u)
  {
    if f.tail.Ended? && left.Unended? {
      assert (f.lines + [Record(url)])[..|f.lines|] == f.lines;
    }
  }

  /** A reader loses nothing but an unended record, and gains at most the record appended. */
  lemma AppendHolds(f: File, url: Url, u: Url)
    ensures Holds(Append(f, url), u) ==> Holds(f, u) || (u == url && f.tail.Ended?)
    ensures u == url && f.tail.Ended? ==> Holds(Append(f, url), u)
    ensures Keeps(f, u) ==> Holds(Append(f, url), u)
  {
  }

  lemma TearHolds(f: File, url: Url, left: Tail, u: Url)
    ensures Holds(Tear(f, url, left), u) ==> Holds(f, u) || (u == url && f.tail.Ended? && left.Unended?)
    ensures Keeps(f, u) ==> Holds(Tear(f, url, left), u)
  {
  }

  // ------------------------------------------------------------ the invariant

  /** No URL is on two lines. */
  ghost predicate Once(f: File) {
    forall i, j :: 0 <= i < j < |f.lines| && f.lines[i].Record? && f.lines[j].Record?
      ==> f.lines[i].url != f.lines[j].url
  }

  predicate HeadInv(s: State) {
    if s.queue == [] then s.done == 0 else s.running && s.done < |s.queue[0].Appends()|
  }

  /** The record is the last line and lacks its newline. */
  predicate Loose(f: File, url: Url) {
    f.tail.Unended? && f.lines != [] && f.lines[|f.lines| - 1] == Record(url)
  }

  /**
   * Who may still be written: completed lines are of URLs read back at the start or settled since, but for
   * one that a rejected task left without its newline.
   */
  ghost predicate OwnerInv(s: State) {
    && Once(s.files.completed)
    && (s.running ==>
          && s.handed !! s.completed && s.settled <= s.handed
          && (forall u :: Holds(s.files.completed, u) ==>
                u in s.completed || u in s.settled || (u in s.handed && Loose(s.files.completed, u)))
          && (forall i :: 0 <= i < |s.queue| ==> s.queue[i].url in s.handed && s.queue[i].url !in s.settled)
          && (forall i, j :: 0 <= i < j < |s.queue| ==> s.queue[i].url != s.queue[j].url))
  }

  /** Tasks end in the order they were queued, whether or not one before them failed. */
  ghost predicate QueueInv(s: State) {
    s.running ==> s.ended + s.queue == s.enqueued
  }

  ghost predicate Inv(s: State) {
    HeadInv(s) && OwnerInv(s) && QueueInv(s)
  }

  lemma StepKeepsHead(s: State, step: Step)
    requires Enabled(s, step) && HeadInv(s)
    ensures HeadInv(Do(s, step))
  {
    hide Append, Tear;
    if step.Enqueue? && s.queue != [] { assert Do(s, step).queue[0] == s.queue[0]; }
  }

  lemma OnceAppend(f: File, url: Url)
    requires Once(f) && (Holds(f, url) ==> f.tail.Unended?)
    ensures Once(Append(f, url))
  {
    assert forall i :: 0 <= i < |f.lines| && f.lines[i].Record?
             ==> f.lines[i] == Record(f.lines[i].url) && f.lines[i] in f.lines;
  }

  lemma OnceTear(f: File, url: Url, left: Tail)
    requires Once(f) && (Holds(f, url) ==> f.tail.Unended?)
    ensures Once(Tear(f, url, left))
  {
    assert forall i :: 0 <= i < |f.lines| && f.lines[i].Record?
             ==> f.lines[i] == Record(f.lines[i].url) && f.lines[i] in f.lines;
  }

  /** The head's URL is on no completed line, but for a loose one of its own earlier attempt. */
  lemma HeadIsNew(s: State)
    requires OwnerInv(s) && s.running && s.queue != []
    ensures Holds(s.files.completed, s.queue[0].url) ==> Loose(s.files.completed, s.queue[0].url)
  {
    hide Once, Holds, Loose;
    assert s.queue[0].url in s.handed && s.queue[0].url !in s.settled;
  }

  /** An append keeps every record but a loose one, and adds its own only to a file that ended properly. */
  lemma HeldAfterAppend(f: File, v: Url, u: Url)
    requires Once(f) && Holds(Append(f, v), u)
    ensures (Holds(f, u) && !Loose(f, u)) || (u == v && f.tail.Ended?)
  {
    if f.tail.Unended? { GluedLast(f, u); }
  }

  /** A broken append keeps every record but a loose one, and adds its own only as a loose one. */
  lemma HeldAfterTear(f: File, v: Url, left: Tail, u: Url)
    requires Once(f) && Holds(Tear(f, v, left), u)
    ensures (Holds(f, u) && (Loose(f, u) ==> Tear(f, v, left) == f)) || (u == v && Loose(Tear(f, v, left), u))
  {
    if f.tail.Unended? && !left.Ended? { GluedLast(f, u); }
  }

  lemma GluedLast(f: File, u: Url)
    requires Once(f) && Record(u) in Glued(f.lines)
    ensures Holds(f, u) && f.lines[|f.lines| - 1] != Record(u)
  {
    var i :| 0 <= i < |f.lines| && Glued(f.lines)[i] == Record(u);
    assert f.lines[i] == Record(u) && i < |f.lines| - 1;
  }

  lemma WriteKeepsOwner(s: State)
    requires s.running && s.queue != [] && HeadInv(s) && OwnerInv(s)
    ensures OwnerInv(DoWrite(s))
  {
    hide Holds, Once, Append, Loose;
    var s' := DoWrite(s);
    var task, f := s.queue[0], s.files.completed;
    HeadIsNew(s);
    PutGet(s.files, NextName(s), Append(s.files.Get(NextName(s)), task.url), Completed);
    if NextName(s) == Completed {
      LooseUnended(f, task.url);
      OnceAppend(f, task.url);
      forall u | Holds(Append(f, task.url), u) ensures (Holds(f, u) && !Loose(f, u)) || u == task.url {
        HeldAfterAppend(f, task.url, u);
      }
    }
    LastIsCompleted(s);
    assert s'.queue == s.queue || s'.queue == s.queue[1..];
  }

  /** The completed line is a task's last append. */
  lemma LastIsCompleted(s: State)
    requires s.queue != [] && HeadInv(s)
    ensures NextName(s) == Completed <==> s.done + 1 == |s.queue[0].Appends()|
  {
  }

  lemma BrokenKeepsOwner(s: State, left: Tail)
    requires s.running && OwnerInv(s)
    ensures var f, f' := s.files.completed, Broken(s, left).completed;
            && Once(f')
            && forall u :: Holds(f', u) ==>
                 || (Holds(f, u) && (Loose(f, u) ==> f' == f))
                 || (s.queue != [] && u == s.queue[0].url && Loose(f', u))
  {
    hide Holds, Once, Tear, Loose;
    if s.queue != [] {
      var f, url := s.files.completed, s.queue[0].url;
      HeadIsNew(s);
      PutGet(s.files, NextName(s), Tear(s.files.Get(NextName(s)), url, left), Completed);
      assert Once(Tear(f, url, left)) by { LooseUnended(f, url); OnceTear(f, url, left); }
      forall u | Holds(Tear(f, url, left), u)
        ensures || (Holds(f, u) && (Loose(f, u) ==> Tear(f, url, left) == f))
                || (u == url && Loose(Tear(f, url, left), u)) {
        HeldAfterTear(f, url, left, u);
      }
    }
  }

  lemma LooseUnended(f: File, u: Url)
    ensures Loose(f, u) ==> f.tail.Unended? && Holds(f, u)
  {
  }

  lemma ReadBackAll(f: File)
    ensures forall u :: Holds(f, u) <==> u in ReadBack(f)
  {
  }

  lemma StepKeepsOwner(s: State, step: Step)
    requires Enabled(s, step) && HeadInv(s) && OwnerInv(s)
    ensures OwnerInv(Do(s, step))
  {
    hide Holds, Once, HeadInv, Broken, DoWrite, ReadBack, Loose;
    match step
    case WriteNext => WriteKeepsOwner(s);
    case Crash(left) => BrokenKeepsOwner(s, left);
    case FailNext(left) => BrokenKeepsOwner(s, left);
    case Prepare => ReadBackAll(s.files.completed);
    case HandOut(_) =>
    case Enqueue(task) =>
  }

  lemma StepKeepsQueue(s: State, step: Step)
    requires Enabled(s, step) && QueueInv(s)
    ensures QueueInv(Do(s, step))
  {
    var s' := Do(s, step);
    if step.WriteNext? || step.FailNext? {
      assert s.ended + s.queue == (s.ended + [s.queue[0]]) + s.queue[1..];
    }
    if step.Enqueue? {
      assert s.ended + (s.queue + [step.task]) == (s.ended + s.queue) + [step.task];
    }
  }

  lemma StepKeepsInv(s: State, step: Step)
    requires Enabled(s, step) && Inv(s)
    ensures Inv(Do(s, step))
  {
    hide HeadInv, OwnerInv, QueueInv, Do, Enabled;
    StepKeepsHead(s, step);
    StepKeepsOwner(s, step);
    StepKeepsQueue(s, step);
  }

  lemma {:induction false} RunKeepsInv(states: seq<State>, steps: seq<Step>, n: nat)
    requires Execution(states, steps) && n < |states|
    ensures Inv(states[n])
  {
    if n > 0 {
      hide Inv, Do;
      RunKeepsInv(states, steps, n - 1);
      StepKeepsInv(states[n - 1], steps[n - 1]);
    }
  }

  // ------------------------------------------------------------ what a task leaves

  /** The records a completed URL must have. */
  predicate Recorded(f: Files, url: Url) {
    (Keeps(f.articles, url) && Keeps(f.strapi, url)) || Keeps(f.skipped, url)
  }

  /** A file takes a record that is appended to it now, or has it already. */
  predicate Takes(f: File, url: Url) {
    f.tail.Ended? || Keeps(f, url)
  }

  /** Seen before the task starts: its URL will have the records a completed URL must have. */
  predicate WillRecord(task: Task, f: Files) {
    match task
    case ArticleTask(url) => (Takes(f.articles, url) && Takes(f.strapi, url)) || Keeps(f.skipped, url)
    case SkipTask(url) => (Keeps(f.articles, url) && Keeps(f.strapi, url)) || Takes(f.skipped, url)
  }

  /** The files after the first `n` appends of a task. */
  function Applied(f: Files, task: Task, n: nat): Files
    requires n <= |task.Appends()|
  {
    if n == 0 then f else
      var before := Applied(f, task, n - 1);
      var name := task.Appends()[n - 1];
      before.Put(name, Append(before.Get(name), task.url))
  }

  lemma TwoApplied(f: Files, task: Task)
    ensures task.ArticleTask? ==>
              Applied(f, task, 2) == f.(articles := Append(f.articles, task.url), strapi := Append(f.strapi, task.url))
    ensures task.SkipTask? ==> Applied(f, task, 1) == f.(skipped := Append(f.skipped, task.url))
  {
    hide Append;
    if task.ArticleTask? {
      assert Applied(f, task, 1) == f.(articles := Append(f.articles, task.url));
    }
  }

  /**
   * Once a task is done, its URL is read back iff the completed file ended properly, and has its records iff
   * `WillRecord`.
   */
  lemma TaskOutcome(f: Files, task: Task)
    requires Holds(f.completed, task.url) ==> Once(f.completed) && Loose(f.completed, task.url)
    ensures var last := |task.Appends()|;
            && (task.url in ReadBack(Applied(f, task, last).completed) <==> f.completed.tail.Ended?)
            && (Recorded(Applied(f, task, last), task.url) <==> WillRecord(task, f))
            && (Recorded(Applied(f, task, last - 1), task.url) <==> WillRecord(task, f))
            && Applied(f, task, last - 1).completed == f.completed
  {
    hide Append, Keeps, Holds, ReadBack, Once, Loose;
    var url, last := task.url, |task.Appends()|;
    if Holds(f.completed, url) && Holds(Append(f.completed, url), url) { HeldAfterAppend(f.completed, url, url); }
    TwoApplied(f, task);
    assert Applied(f, task, last) == Applied(f, task, last - 1).(completed := Append(f.completed, url));
    AppendHolds(f.completed, url, url);
    ReadBackAll(Append(f.completed, url));
    AppendKeeps(f.articles, url, url);
    AppendKeeps(f.strapi, url, url);
    AppendKeeps(f.skipped, url, url);
  }

  function WriteTimes(s: State, n: nat): State
    requires n > 0 ==> s.queue != []
    decreases n
  {
    if n == 0 then s else
      var before := WriteTimes(s, n - 1);
      if before.queue == [] then before else DoWrite(before)
  }

  /** The queue's head, written without interruption, leaves what `Applied` says. */
  lemma {:induction false} WritesApply(s: State, n: nat)
    requires s.queue != [] && s.done == 0 && n <= |s.queue[0].Appends()|
    ensures WriteTimes(s, n).files == Applied(s.files, s.queue[0], n)
    ensures n < |s.queue[0].Appends()| ==> WriteTimes(s, n).queue == s.queue && WriteTimes(s, n).done == n
    ensures n == |s.queue[0].Appends()| ==>
              WriteTimes(s, n).queue == s.queue[1..] && s.queue[0].url in WriteTimes(s, n).settled
  {
    hide Append;
    if n > 0 { WritesApply(s, n - 1); }
  }

  // ------------------------------------------------------------ tasks in a history

  /** Where the head task of a state started: the files since are what its appends made of them. */
  lemma {:induction false} HeadStart(states: seq<State>, steps: seq<Step>, n: nat) returns (m: nat)
    requires Execution(states, steps) && n < |states| && states[n].queue != []
    ensures m <= n && states[m].queue != [] && states[m].queue[0] == states[n].queue[0] && states[m].done == 0
    ensures states[n].done <= |states[n].queue[0].Appends()|
    ensures states[n].files == Applied(states[m].files, states[n].queue[0], states[n].done)
  {
    hide Inv, Do, Applied;
    RunKeepsInv(states, steps, n);
    HeadBound(states[n]);
    if states[n].done == 0 {
      m := n;
      AppliedNone(states[n].files, states[n].queue[0]);
    } else {
      var s := states[n - 1];
      RunKeepsInv(states, steps, n - 1);
      HeadGoesOn(s, steps[n - 1]);
      m := HeadStart(states, steps, n - 1);
    }
  }

  lemma HeadBound(s: State)
    requires Inv(s) && s.queue != []
    ensures s.running && s.done < |s.queue[0].Appends()|
  {
    hide OwnerInv, QueueInv;
  }

  lemma AppliedNone(f: Files, task: Task)
    ensures Applied(f, task, 0) == f
  {
  }

  /** A head in the middle of its appends was the head before. */
  lemma HeadGoesOn(s: State, step: Step)
    requires Enabled(s, step) && Inv(s) && Do(s, step).queue != [] && Do(s, step).done > 0
    ensures s.queue != [] && s.queue[0] == Do(s, step).queue[0] && Do(s, step).done <= |s.queue[0].Appends()|
    ensures forall f :: s.done <= |s.queue[0].Appends()| && s.files == Applied(f, s.queue[0], s.done) ==>
              Do(s, step).files == Applied(f, s.queue[0], Do(s, step).done)
  {
    hide OwnerInv, QueueInv, Append, Broken;
    if step.WriteNext? {
      assert Do(s, step).done == s.done + 1 && NextName(s) == s.queue[0].Appends()[s.done];
    }
  }

  /** Steps keep the records a URL has, and write new ones only for the head's URL. */
  lemma StepKeepsRecords(s: State, step: Step, url: Url)
    requires Enabled(s, step) && Inv(s)
    ensures Recorded(s.files, url) ==> Recorded(Do(s, step).files, url)
    ensures !Queued(s, url) ==> (Recorded(Do(s, step).files, url) <==> Recorded(s.files, url))
  {
    hide OwnerInv, QueueInv, HeadInv, Append, Tear, Keeps;
    if s.queue != [] {
      var name, v := NextName(s), s.queue[0].url;
      AppendKeeps(s.files.Get(name), v, url);
      forall left ensures Keeps(Tear(s.files.Get(name), v, left), url) <==> Keeps(s.files.Get(name), url) {
        TearKeeps(s.files.Get(name), v, left, url);
      }
    }
  }

  /** A completed line comes from the last append of a task, or from a crash just before its newline. */
  lemma CompletedByHead(s: State, step: Step, url: Url)
    requires Enabled(s, step) && Inv(s) && !Holds(s.files.completed, url) && Holds(Do(s, step).files.completed, url)
    ensures s.queue != [] && s.queue[0].url == url && s.done + 1 == |s.queue[0].Appends()|
    ensures forall u :: Recorded(Do(s, step).files, u) <==> Recorded(s.files, u)
  {
    hide OwnerInv, QueueInv, Append, Tear, Keeps, Holds;
    if s.queue != [] {
      var f, v := s.files.completed, s.queue[0].url;
      AppendHolds(f, v, url);
      forall left ensures Holds(Tear(f, v, left), url) ==> Holds(f, url) || url == v { TearHolds(f, v, left, url); }
      LastIsCompleted(s);
      PutGet(s.files, NextName(s), Append(s.files.Get(NextName(s)), v), Completed);
    }
  }

  /** The task that wrote the line has left the queue; only a failed one may come again. */
  lemma HeadHasLeft(s: State, step: Step, url: Url)
    requires Enabled(s, step) && Inv(s) && !Holds(s.files.completed, url) && Holds(Do(s, step).files.completed, url)
    ensures !Queued(Do(s, step), url) && (step.FailNext? || Tied(Do(s, step), url))
  {
    CompletedByHead(s, step, url);
    hide HeadInv, QueueInv, Append, Tear, Once, Loose, Holds, Broken;
    if step.WriteNext? || step.FailNext? {
      assert forall i :: 0 <= i < |s.queue| - 1 ==> s.queue[1..][i] == s.queue[i + 1];
    }
  }

  // ------------------------------------------------------------ what every history keeps

  /** The step from state `k` puts the URL on a completed line, and from then to state `n` a reader finds it there. */
  ghost predicate CompletedAt(states: seq<State>, k: nat, n: nat, url: Url) {
    && k < n < |states|
    && !Holds(states[k].files.completed, url)
    && forall j :: k < j <= n ==> Holds(states[j].files.completed, url)
  }

  /** In state `k` the head task, which started in state `m`, has only its completed line left to write. */
  ghost predicate LastAppend(states: seq<State>, m: nat, k: nat, url: Url) {
    && m <= k < |states|
    && states[m].queue != [] && states[m].done == 0 && states[m].queue[0].url == url
    && states[k].queue != [] && states[k].queue[0] == states[m].queue[0]
    && states[k].done + 1 == |states[m].queue[0].Appends()|
    && states[k].files == Applied(states[m].files, states[m].queue[0], |states[m].queue[0].Appends()| - 1)
  }

  /** After step `k` and before state `n` a task of the URL is queued once more. */
  ghost predicate Retried(steps: seq<Step>, k: nat, n: nat, url: Url) {
    exists j :: k < j < n <= |steps| && steps[j].Enqueue? && steps[j].task.url == url
  }

  /** No task of the URL can be queued in this process. */
  predicate Tied(s: State, url: Url) {
    s.running ==> url in s.completed || url in s.settled
  }

  /**
   * Over any history of runs, stopped anywhere: the task that completed a URL, from its start in state
   * `m` to its completed line after state `k`, left the URL its records if, and before any retry only if, it
   * found at its start a file ready to take each record it lacked. A retry there is only after a completed
   * line that failed at its newline.
   */
  lemma {:induction false} CompletedHasRecordsIff(states: seq<State>, steps: seq<Step>, n: nat, url: Url)
    returns (m: nat, k: nat)
    requires Execution(states, steps) && n < |states| && url in ReadBack(states[n].files.completed)
    ensures CompletedAt(states, k, n, url) && LastAppend(states, m, k, url)
    ensures WillRecord(states[m].queue[0], states[m].files) ==> Recorded(states[n].files, url)
    ensures Recorded(states[n].files, url) && !Retried(steps, k, n, url) ==>
              WillRecord(states[m].queue[0], states[m].files)
    ensures Queued(states[n], url) ==> Retried(steps, k, n, url)
    ensures !steps[k].FailNext? ==> !Retried(steps, k, n, url) && Tied(states[n], url)
  {
    hide Inv, Do, Enabled, Recorded, WillRecord, Applied, ReadBack, Holds, Queued, Retried, Tied;
    ReadBackAll(states[n].files.completed);
    if n == 0 {
      NothingCompleted(url);
    } else {
      var s := states[n - 1];
      RunKeepsInv(states, steps, n - 1);
      if Holds(s.files.completed, url) {
        ReadBackAll(s.files.completed);
        m, k := CompletedHasRecordsIff(states, steps, n - 1, url);
        StepKeepsRecords(s, steps[n - 1], url);
        RetriedStep(steps, k, n, url);
        StaysTied(s, steps[n - 1], url);
      } else {
        k := n - 1;
        CompletedByHead(s, steps[n - 1], url);
        HeadHasLeft(s, steps[n - 1], url);
        m := HeadStart(states, steps, n - 1);
        NotYetCompleted(states[m].files, s.queue[0], s.files);
        TaskOutcome(states[m].files, s.queue[0]);
        NoRetryYet(steps, n, url);
      }
    }
  }

  lemma RetriedStep(steps: seq<Step>, k: nat, n: nat, url: Url)
    requires k + 1 < n <= |steps|
    ensures Retried(steps, k, n, url) <==>
            Retried(steps, k, n - 1, url) || (steps[n - 1].Enqueue? && steps[n - 1].task.url == url)
  {
  }

  lemma NoRetryYet(steps: seq<Step>, n: nat, url: Url)
    requires n > 0
    ensures !Retried(steps, n - 1, n, url)
  {
  }

  /** A completed URL gets into the queue only by being queued again, which a tied one never is. */
  lemma StaysTied(s: State, step: Step, url: Url)
    requires Enabled(s, step) && Inv(s) && Holds(s.files.completed, url)
    ensures Queued(Do(s, step), url) ==> Queued(s, url) || (step.Enqueue? && step.task.url == url)
    ensures Tied(s, url) ==> Tied(Do(s, step), url) && !(step.Enqueue? && step.task.url == url)
  {
    hide HeadInv, QueueInv, Append, Tear, Once, Loose, Holds, Broken;
    ReadBackAll(s.files.completed);
  }

  lemma NothingCompleted(url: Url)
    ensures !Holds(InitState.files.completed, url)
  {
  }

  lemma NotYetCompleted(f: Files, task: Task, now: Files)
    requires now == Applied(f, task, |task.Appends()| - 1) && !Holds(now.completed, task.url)
    ensures !Holds(f.completed, task.url)
  {
    hide Append, Holds;
    TwoApplied(f, task);
  }

  predicate NoTears(steps: seq<Step>) {
    forall i :: 0 <= i < |steps| ==>
      && (steps[i].Crash? ==> steps[i].left.Ended?)
      && (steps[i].FailNext? ==> steps[i].left.Ended?)
  }

  lemma {:induction false} NothingTorn(states: seq<State>, steps: seq<Step>, n: nat)
    requires Execution(states, steps) && n < |states| && NoTears(steps)
    ensures forall name :: states[n].files.Get(name).tail.Ended?
  {
    if n > 0 {
      NothingTorn(states, steps, n - 1);
      TearlessStep(states[n - 1], steps[n - 1]);
    }
  }

  lemma TearlessStep(s: State, step: Step)
    requires Enabled(s, step) && forall name :: s.files.Get(name).tail.Ended?
    requires (step.Crash? ==> step.left.Ended?) && (step.FailNext? ==> step.left.Ended?)
    ensures forall name :: Do(s, step).files.Get(name).tail.Ended?
  {
    if s.queue != [] {
      var name := NextName(s);
      forall m { PutGet(s.files, name, Append(s.files.Get(name), s.queue[0].url), m); }
      forall m, left { PutGet(s.files, name, Tear(s.files.Get(name), s.queue[0].url, left), m); }
    }
  }

  /** Over any number of runs stopped between appends, every URL read back as completed has its records. */
  lemma CompletedHasRecords(states: seq<State>, steps: seq<Step>, n: nat, url: Url)
    requires Execution(states, steps) && n < |states| && NoTears(steps)
    requires url in ReadBack(states[n].files.completed)
    ensures Recorded(states[n].files, url)
  {
    hide Recorded, Execution, NoTears, ReadBack, Keeps;
    var m, k := CompletedHasRecordsIff(states, steps, n, url);
    NothingTorn(states, steps, m);
    var f := states[m].files;
    assert f.Get(Articles).tail.Ended? && f.Get(Strapi).tail.Ended? && f.Get(Skipped).tail.Ended?;
  }

  /** The article's own file is written first: at any moment it has the URL whenever the second file does. */
  ghost predicate ArticlesFirst(s: State, url: Url) {
    && (Keeps(s.files.strapi, url) ==> Keeps(s.files.articles, url))
    && (s.queue != [] && s.queue[0] == ArticleTask(url) && s.done >= 1 ==> Keeps(s.files.articles, url))
  }

  /** Over any number of runs stopped between appends, no URL is in `strapi-ready.jsonl` alone. */
  lemma {:induction false} StrapiFollowsArticles(states: seq<State>, steps: seq<Step>, n: nat, url: Url)
    requires Execution(states, steps) && n < |states| && NoTears(steps)
    ensures ArticlesFirst(states[n], url)
  {
    hide Inv, Do, Enabled, ArticlesFirst;
    if n == 0 {
      NothingWritten(url);
    } else {
      StrapiFollowsArticles(states, steps, n - 1, url);
      NothingTorn(states, steps, n - 1);
      RunKeepsInv(states, steps, n - 1);
      StepArticlesFirst(states[n - 1], steps[n - 1], url);
    }
  }

  lemma NothingWritten(url: Url)
    ensures ArticlesFirst(InitState, url)
  {
  }

  lemma StepArticlesFirst(s: State, step: Step, url: Url)
    requires Enabled(s, step) && Inv(s) && ArticlesFirst(s, url)
    requires forall name :: s.files.Get(name).tail.Ended?
    requires (step.Crash? ==> step.left.Ended?) && (step.FailNext? ==> step.left.Ended?)
    ensures ArticlesFirst(Do(s, step), url)
  {
    hide OwnerInv, QueueInv, Append, Keeps;
    if step.WriteNext? {
      assert s.files.Get(NextName(s)).tail.Ended?;
      AppendKeeps(s.files.Get(NextName(s)), s.queue[0].url, url);
    }
  }

  /** In every run: a URL read back as completed is not handed out, and no URL is on two completed lines. */
  lemma CompletedNotHandedOut(states: seq<State>, steps: seq<Step>, n: nat)
    requires Execution(states, steps) && n < |states|
    ensures Once(states[n].files.completed)
    ensures states[n].running ==> states[n].handed !! states[n].completed
    ensures states[n].running ==> forall url :: Holds(states[n].files.completed, url) ==>
              && !Enabled(states[n], HandOut(url))
              && (Queued(states[n], url) ==> Loose(states[n].files.completed, url))
  {
    hide Holds, Once, Execution, Loose;
    RunKeepsInv(states, steps, n);
  }

  /** The step appends, or starts to append, to a completed file whose last record lacks its newline. */
  predicate Spoils(s: State, step: Step, url: Url) {
    && (step.WriteNext? || (step.FailNext? && !step.left.Ended?) || (step.Crash? && !step.left.Ended?))
    && s.queue != [] && NextName(s) == Completed
    && s.files.completed.tail.Unended? && s.files.completed.lines != []
    && s.files.completed.lines[|s.files.completed.lines| - 1] == Record(url)
  }

  /** A completed URL is forgotten exactly when its line lacked the newline and the next append continues it. */
  lemma ForgottenIff(s: State, step: Step, url: Url)
    requires Enabled(s, step) && Inv(s) && url in ReadBack(s.files.completed)
    ensures url !in ReadBack(Do(s, step).files.completed) <==> Spoils(s, step, url)
  {
    hide OwnerInv, HeadInv, QueueInv, ReadBack, Append, Tear;
    ReadBackAll(s.files.completed);
    ReadBackAll(Do(s, step).files.completed);
    if s.queue != [] {
      var f, v := s.files.completed, s.queue[0].url;
      PutGet(s.files, NextName(s), Append(s.files.Get(NextName(s)), v), Completed);
      forall left { PutGet(s.files, NextName(s), Tear(s.files.Get(NextName(s)), v, left), Completed); }
      assert Once(f) by { OwnerOnce(s); }
      SpoiledIff(f, v, url);
    }
  }

  lemma OwnerOnce(s: State)
    requires Inv(s)
    ensures Once(s.files.completed)
  {
    hide HeadInv, QueueInv, Holds, Once;
  }

  lemma SpoiledIff(f: File, v: Url, url: Url)
    requires Once(f) && Holds(f, url)
    ensures !Holds(Append(f, v), url) <==> f.tail.Unended? && f.lines != [] && f.lines[|f.lines| - 1] == Record(url)
    ensures forall left ::
              !Holds(Tear(f, v, left), url) <==>
              !left.Ended? && f.tail.Unended? && f.lines != [] && f.lines[|f.lines| - 1] == Record(url)
  {
    var i :| 0 <= i < |f.lines| && f.lines[i] == Record(url);
    if f.tail.Unended? {
      GluedHolds(f, i, url);
    } else {
      assert (f.lines + [Record(v)])[i] == Record(url) && (f.lines + [Garbage])[i] == Record(url);
    }
  }

  lemma GluedHolds(f: File, i: nat, url: Url)
    requires Once(f) && i < |f.lines| && f.lines[i] == Record(url)
    ensures Record(url) in Glued(f.lines) <==> i < |f.lines| - 1
  {
    if i < |f.lines| - 1 { assert Glued(f.lines)[i] == Record(url); }
  }

  predicate NoUnended(steps: seq<Step>) {
    forall i :: 0 <= i < |steps| && (steps[i].Crash? || steps[i].FailNext?) ==> !steps[i].left.Unended?
  }

  /**
   * Unless an append breaks off between a completed record and its newline, a completed URL is never handed out
   * again, in any later run.
   */
  lemma {:induction false} CompletedNeverAgain(states: seq<State>, steps: seq<Step>, m: nat, n: nat, url: Url)
    requires Execution(states, steps) && m <= n < |states| && NoUnended(steps)
    requires url in ReadBack(states[m].files.completed)
    ensures url in ReadBack(states[n].files.completed)
    ensures !states[n].files.completed.tail.Unended?
    ensures states[n].running ==> !Enabled(states[n], HandOut(url))
    decreases n
  {
    hide ReadBack, Do, Holds, Inv, Enabled;
    if m < n {
      CompletedNeverAgain(states, steps, m, n - 1, url);
      RunKeepsInv(states, steps, n - 1);
      ForgottenIff(states[n - 1], steps[n - 1], url);
    }
    AlwaysProper(states, steps, n);
    ReadBackAll(states[n].files.completed);
    CompletedNotHandedOut(states, steps, n);
  }

  lemma {:induction false} AlwaysProper(states: seq<State>, steps: seq<Step>, n: nat)
    requires Execution(states, steps) && n < |states| && NoUnended(steps)
    ensures !states[n].files.completed.tail.Unended?
  {
    hide Do, Enabled;
    if n > 0 {
      AlwaysProper(states, steps, n - 1);
      ProperStep(states[n - 1], steps[n - 1]);
    }
  }

  lemma ProperStep(s: State, step: Step)
    requires Enabled(s, step) && !s.files.completed.tail.Unended?
    requires step.Crash? || step.FailNext? ==> !step.left.Unended?
    ensures !Do(s, step).files.completed.tail.Unended?
  {
  }

  /** Queued tasks end in the order they were queued, including after a failed one. */
  lemma TasksEndInOrder(states: seq<State>, steps: seq<Step>, n: nat)
    requires Execution(states, steps) && n < |states| && states[n].running
    ensures states[n].ended <= states[n].enqueued && states[n].enqueued == states[n].ended + states[n].queue
  {
    RunKeepsInv(states, steps, n);
  }

  // ------------------------------------------------------------ two histories

  lemma Extend(states: seq<State>, steps: seq<Step>, step: Step) returns (states': seq<State>, steps': seq<Step>)
    requires Execution(states, steps) && Enabled(states[|states| - 1], step)
    ensures Execution(states', steps') && states' == states + [Do(states[|states| - 1], step)]
  {
    hide Do, Enabled;
    states', steps' := states + [Do(states[|states| - 1], step)], steps + [step];
    forall i | 0 <= i < |steps'| ensures Enabled(states'[i], steps'[i]) && states'[i + 1] == Do(states'[i], steps'[i]) {
      if i < |steps| { assert states'[i] == states[i] && states'[i + 1] == states[i + 1] && steps'[i] == steps[i]; }
    }
  }

  /** A process starts and a worker's result is queued. */
  lemma Queues(states: seq<State>, steps: seq<Step>, task: Task) returns (states': seq<State>, steps': seq<Step>)
    requires Execution(states, steps)
    requires var s := states[|states| - 1]; !s.running && task.url !in ReadBack(s.files.completed)
    ensures Execution(states', steps') && |states'| == |states| + 3 && states <= states'
    ensures var s, s' := states[|states| - 1], states'[|states| + 2];
            && s'.queue == [task] && s'.done == 0 && s'.running && s'.files == s.files
            && task.url in s'.handed && s'.settled == {}
            && states'[|states|].running && states'[|states|].completed == ReadBack(s.files.completed)
  {
    hide Execution, ReadBack;
    states', steps' := Extend(states, steps, Prepare);
    states', steps' := Extend(states', steps', HandOut(task.url));
    states', steps' := Extend(states', steps', Enqueue(task));
  }

  lemma NothingYet() returns (states: seq<State>, steps: seq<Step>)
    ensures states == [InitState] && Execution(states, steps) && ReadBack(InitState.files.completed) == {}
  {
    states, steps := [InitState], [];
    ReadBackAll(InitState.files.completed);
  }

  /**
   * A torn line does break the promise: after a crash in the middle of an article's first append, the
   * next run's article is completed although `articles.jsonl` keeps no record of it.
   */
  lemma TornAppendLosesARecord(a: Url, b: Url) returns (states: seq<State>, steps: seq<Step>)
    requires a != b
    ensures Execution(states, steps)
    ensures var last := states[|states| - 1]; b in ReadBack(last.files.completed) && !Recorded(last.files, b)
  {
    hide Execution, ReadBack, Do, Enabled;
    states, steps := NothingYet();
    states, steps := Queues(states, steps, ArticleTask(a));
    states, steps := CutsArticle(states, steps, a);
    states, steps := Queues(states, steps, ArticleTask(b));
    states, steps := WritesArticle(states, steps, b);
  }

  lemma CutsArticle(states: seq<State>, steps: seq<Step>, a: Url) returns (states': seq<State>, steps': seq<Step>)
    requires Execution(states, steps)
    requires var s := states[|states| - 1];
             s.running && s.queue == [ArticleTask(a)] && s.done == 0 && s.files == InitState.files
    ensures Execution(states', steps') && !states'[|states'| - 1].running
    ensures states'[|states'| - 1].files == InitState.files.(articles := File([Garbage], Cut))
    ensures ReadBack(states'[|states'| - 1].files.completed) == {}
  {
    hide Execution;
    states', steps' := Extend(states, steps, Crash(Cut));
    ReadBackAll(InitState.files.completed);
  }

  lemma WritesArticle(states: seq<State>, steps: seq<Step>, b: Url) returns (states': seq<State>, steps': seq<Step>)
    requires Execution(states, steps)
    requires var s := states[|states| - 1]; s.running && s.queue == [ArticleTask(b)] && s.done == 0
    requires states[|states| - 1].files == InitState.files.(articles := File([Garbage], Cut))
    ensures Execution(states', steps')
    ensures var last := states'[|states'| - 1]; b in ReadBack(last.files.completed) && !Recorded(last.files, b)
  {
    hide Execution;
    states', steps' := Extend(states, steps, WriteNext);
    states', steps' := Extend(states', steps', WriteNext);
    states', steps' := Extend(states', steps', WriteNext);
    var f := states'[|states'| - 1].files;
    assert f.completed.lines == [Record(b)] && f.articles.lines == [Garbage];
    ReadBackAll(f.completed);
  }

  /** A crash just before a newline: the second run reads the URL back as completed, the third hands it out again. */
  lemma UnendedLineIsForgotten(a: Url, b: Url) returns (states: seq<State>, steps: seq<Step>)
    requires a != b
    ensures Execution(states, steps) && |states| > 6
    ensures states[6].running && a in states[6].completed
    ensures a in states[|states| - 1].handed
  {
    hide Execution, ReadBack, Do, Enabled;
    states, steps := NothingYet();
    states, steps := Queues(states, steps, SkipTask(a));
    states, steps := StopsBeforeNewline(states, steps, a);
    states, steps := Queues(states, steps, SkipTask(b));
    var second := states;
    states, steps := SpoilsTheLine(states, steps, a, b);
    states, steps := Queues(states, steps, SkipTask(a));
    assert states[6] == second[6];
  }

  lemma StopsBeforeNewline(states: seq<State>, steps: seq<Step>, a: Url)
    returns (states': seq<State>, steps': seq<Step>)
    requires Execution(states, steps)
    requires var s := states[|states| - 1];
             s.running && s.queue == [SkipTask(a)] && s.done == 0 && s.files == InitState.files
    ensures Execution(states', steps') && |states'| == |states| + 2 && !states'[|states'| - 1].running
    ensures states'[|states'| - 1].files.completed == File([Record(a)], Unended)
    ensures ReadBack(states'[|states'| - 1].files.completed) == {a}
  {
    hide Execution;
    states', steps' := Extend(states, steps, WriteNext);
    states', steps' := Extend(states', steps', Crash(Unended));
    ReadBackAll(File([Record(a)], Unended));
  }

  lemma SpoilsTheLine(states: seq<State>, steps: seq<Step>, a: Url, b: Url)
    returns (states': seq<State>, steps': seq<Step>)
    requires Execution(states, steps)
    requires var s := states[|states| - 1]; s.running && s.queue == [SkipTask(b)] && s.done == 0
    requires states[|states| - 1].files.completed == File([Record(a)], Unended)
    ensures Execution(states', steps') && states <= states' && !states'[|states'| - 1].running
    ensures ReadBack(states'[|states'| - 1].files.completed) == {}
  {
    hide Execution;
    states', steps' := Extend(states, steps, WriteNext);
    states', steps' := Extend(states', steps', WriteNext);
    states', steps' := Extend(states', steps', Crash(Ended));
    assert states'[|states'| - 1].files.completed.lines == [Garbage];
    ReadBackAll(states'[|states'| - 1].files.completed);
  }

  /**
   * A completed line that fails at its newline, then the same task again: the retry's line continues the first
   * one, so the task ends well and its URL is on no completed line.
   */
  lemma RetryForgetsItself(a: Url) returns (states: seq<State>, steps: seq<Step>)
    ensures Execution(states, steps)
    ensures var last := states[|states| - 1];
            last.running && a in last.settled && a !in ReadBack(last.files.completed)
  {
    hide Execution, ReadBack, Do, Enabled;
    states, steps := NothingYet();
    states, steps := Queues(states, steps, SkipTask(a));
    states, steps := FailsAtNewline(states, steps, a);
    states, steps := WritesAgain(states, steps, a);
  }

  lemma FailsAtNewline(states: seq<State>, steps: seq<Step>, a: Url) returns (states': seq<State>, steps': seq<Step>)
    requires Execution(states, steps)
    requires var s := states[|states| - 1];
             && s.running && s.queue == [SkipTask(a)] && s.done == 0 && s.files == InitState.files
             && a in s.handed
    ensures Execution(states', steps')
    ensures var s, s' := states[|states| - 1], states'[|states'| - 1];
            && s'.running && s'.queue == [] && s'.done == 0 && s'.handed == s.handed && s'.settled == s.settled
            && s'.files.completed == File([Record(a)], Unended)
  {
    hide Execution;
    states', steps' := Extend(states, steps, WriteNext);
    states', steps' := Extend(states', steps', FailNext(Unended));
  }

  lemma WritesAgain(states: seq<State>, steps: seq<Step>, a: Url) returns (states': seq<State>, steps': seq<Step>)
    requires Execution(states, steps)
    requires var s := states[|states| - 1];
             && s.running && s.queue == [] && s.done == 0 && a in s.handed && a !in s.settled
             && s.files.completed == File([Record(a)], Unended)
    ensures Execution(states', steps')
    ensures var s' := states'[|states'| - 1];
            s'.running && a in s'.settled && a !in ReadBack(s'.files.completed)
  {
    hide Execution;
    states', steps' := Extend(states, steps, Enqueue(SkipTask(a)));
    states', steps' := Extend(states', steps', WriteNext);
    states', steps' := Extend(states', steps', WriteNext);
    assert states'[|states'| - 1].files.completed.lines == [Garbage];
    ReadBackAll(states'[|states'| - 1].files.completed);
  }

  // ------------------------------------------------------------ the output object

  class MonaOutput {
    var files: Files
    var running: bool
    var completed: set<Url>
    var chain: seq<Task>
    var done: nat
    ghost var handed: set<Url>
    ghost var settled: set<Url>
    ghost var enqueued: seq<Task>
    ghost var ended: seq<Task>

    ghost function Snapshot(): State
      reads this
    {
      State(files, running, completed, handed, settled, chain, done, enqueued, ended)
    }

    constructor ()
      ensures Snapshot() == InitState && Inv(Snapshot())
    {
      files := Files(EmptyFile, EmptyFile, EmptyFile, EmptyFile);
      running, completed, chain, done := false, {}, [], 0;
      handed, settled, enqueued, ended := {}, {}, [], [];
    }

    /** The loop over the lines of `completed.jsonl`. */
    method ReadCompleted(lines: seq<Line>) returns (urls: set<Url>)
      ensures forall tail :: urls == ReadBack(File(lines, tail))
    {
      urls := {};
      var i := 0;
      while i < |lines|
        invariant 0 <= i <= |lines|
        invariant urls == ReadBack(File(lines[..i], Ended))
      {
        assert lines[..i + 1] == lines[..i] + [lines[i]];
        match lines[i] {
          case Record(url) => urls := urls + {url};
          case Garbage =>
        }
        i := i + 1;
      }
      assert lines[..i] == lines;
    }

    /** `prepare` when resuming. */
    method Prepare()
      requires Inv(Snapshot()) && !running
      modifies this
      ensures Snapshot() == Do(old(Snapshot()), Step.Prepare) && Inv(Snapshot())
    {
      StepKeepsInv(Snapshot(), Step.Prepare);
      var urls := ReadCompleted(files.completed.lines);
      running, completed, chain, done := true, urls, [], 0;
      handed, settled, enqueued, ended := {}, {}, [], [];
    }

    /** `enqueue`: the task waits for all before it, whether they succeed or fail. */
    method Enqueue(task: Task)
      requires Inv(Snapshot()) && Enabled(Snapshot(), Step.Enqueue(task))
      modifies this
      ensures Snapshot() == Do(old(Snapshot()), Step.Enqueue(task)) && Inv(Snapshot())
    {
      StepKeepsInv(Snapshot(), Step.Enqueue(task));
      chain := chain + [task];
      enqueued := enqueued + [task];
    }

    /** The head task's next append; the task ends well with its last one. */
    method WriteNext()
      requires Inv(Snapshot()) && Enabled(Snapshot(), Step.WriteNext)
      modifies this
      ensures Snapshot() == Do(old(Snapshot()), Step.WriteNext) && Inv(Snapshot())
    {
      StepKeepsInv(Snapshot(), Step.WriteNext);
      var task := chain[0];
      var names := task.Appends();
      var name := if done < |names| then names[done] else Completed;
      var file := files.Get(name);
      files := files.Put(name, Append(file, task.url));
      done := done + 1;
      if done >= |names| {
        done, chain := 0, chain[1..];
        ended, settled := ended + [task], settled + {task.url};
      }
    }

    /** That append fails, `left` of its record written: the task is rejected and the next one starts. */
    method FailNext(left: Tail)
      requires Inv(Snapshot()) && Enabled(Snapshot(), Step.FailNext(left))
      modifies this
      ensures Snapshot() == Do(old(Snapshot()), Step.FailNext(left)) && Inv(Snapshot())
    {
      StepKeepsInv(Snapshot(), Step.FailNext(left));
      var names := chain[0].Appends();
      var name := if done < |names| then names[done] else Completed;
      files := files.Put(name, Tear(files.Get(name), chain[0].url, left));
      ended := ended + [chain[0]];
      done, chain := 0, chain[1..];
    }
  }
}
