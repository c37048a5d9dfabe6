/** The folder watcher: a monitor that, when started, queues every
    matching file already in the folder as a `startup` event, waits until
    the consumer has handed all of them to the file processor, and only
    then starts watching for live `created`/`modified`/`deleted` events,
    which pass an extension filter of their own. The consumer task is
    modelled as steps the caller takes (`ProcessNext`, `Drain`); the
    folder's contents, the observer and the processor's replies are
    inputs. */
module FileMonitor {
  import opened Wrappers
  import opened Text
  import opened Seqs

  const DefaultExtensions: set<string> := {".pdf", ".docx", ".txt"}

  /** `allowed_extensions or {'.pdf', '.docx', '.txt'}`: an absent or empty
      set falls back to the three defaults, so the monitor never filters
      against an empty set. */
  function AllowedExtensions(given: Option<set<string>>): (r: set<string>)
    ensures r != {}
    ensures r == DefaultExtensions || (given.Some? && r == given.value)
    ensures given.Some? && given.value != {} ==> r == given.value
  {
    if given.Some? && given.value != {} then given.value else DefaultExtensions
  }

  /** A queued event: its kind tag and the path as a string. */
  datatype Event = Event(kind: string, path: string)

  /** The kinds of event the observer reports for a file. */
  datatype LiveKind = Created | Modified | Deleted

  function KindName(k: LiveKind): string {
    match k
    case Created => "created"
    case Modified => "modified"
    case Deleted => "deleted"
  }

  /** The last component of a path inside the folder. */
  function Name(parts: seq<string>): string {
    if |parts| == 0 then "" else parts[|parts| - 1]
  }

  /** `str(folder / rel)` for a path inside the folder given by its
      components. The folder is taken as `str(Path(folder))` gives it, with
      no trailing slash, `.` component or doubled slash. */
  function FullPath(folder: string, parts: seq<string>): string {
    folder + "/" + Join(parts, "/")
  }

  /** Python's `<` on two paths under the same folder: the component lists
      compared lexicographically, each component as a string. */
  predicate PartsLt(a: seq<string>, b: seq<string>) {
    if |a| == 0 then |b| > 0
    else if |b| == 0 then false
    else if StrLt(a[0], b[0]) then true
    else if a[0] == b[0] then PartsLt(a[1..], b[1..])
    else false
  }

  lemma {:induction false} PartsLtIrreflexive(a: seq<string>)
    ensures !PartsLt(a, a)
  {
    if |a| > 0 {
      StrLtIrreflexive(a[0]);
      PartsLtIrreflexive(a[1..]);
    }
  }

  lemma {:induction false} PartsLtTransitive(a: seq<string>, b: seq<string>, c: seq<string>)
    requires PartsLt(a, b) && PartsLt(b, c)
    ensures PartsLt(a, c)
  {
    if |a| > 0 && |b| > 0 && |c| > 0 {
      if StrLt(a[0], b[0]) && StrLt(b[0], c[0]) {
        StrLtTransitive(a[0], b[0], c[0]);
      } else if a[0] == b[0] == c[0] {
        PartsLtTransitive(a[1..], b[1..], c[1..]);
      }
    }
  }

  lemma {:induction false} PartsLtTrichotomy(a: seq<string>, b: seq<string>)
    ensures PartsLt(a, b) || a == b || PartsLt(b, a)
  {
    if |a| > 0 && |b| > 0 {
      StrLtTrichotomy(a[0], b[0]);
      if a[0] == b[0] {
        PartsLtTrichotomy(a[1..], b[1..]);
        if a[1..] == b[1..] {
          assert a == [a[0]] + a[1..] && b == [b[0]] + b[1..];
        }
      }
    }
  }

  predicate PartsLe(a: seq<string>, b: seq<string>) {
    a == b || PartsLt(a, b)
  }

  /** Path order is a total order, so `sorted` orders the backlog fully. */
  lemma PartsLeTotalOrder()
    ensures Total(PartsLe) && Transitive(PartsLe)
  {
    forall a, b ensures PartsLe(a, b) || PartsLe(b, a) {
      PartsLtTrichotomy(a, b);
    }
    forall a, b, c | PartsLe(a, b) && PartsLe(b, c) ensures PartsLe(a, c) {
      if PartsLt(a, b) && PartsLt(b, c) {
        PartsLtTransitive(a, b, c);
      }
    }
  }

  /** The pattern `*` + `ext` under `rglob` (recursive) or `glob` keeps an
      entry whose name ends with `ext`, with case, at any depth or only
      directly in the folder. Directories match like files. */
  predicate GlobMatches(parts: seq<string>, ext: string, recursive: bool) {
    |parts| >= 1 && (recursive || |parts| == 1) && EndsWith(Name(parts), ext)
  }

  /** Some allowed extension's glob finds the entry. */
  predicate Wanted(parts: seq<string>, allowed: set<string>, recursive: bool) {
    exists ext :: ext in allowed && GlobMatches(parts, ext, recursive)
  }

  /** `sorted(set(existing_files))`: the entries some extension's glob
      finds, each once, in path order. `entries` is everything under the
      folder, as component lists. */
  function Backlog(entries: seq<seq<string>>, allowed: set<string>, recursive: bool): seq<seq<string>> {
    SortBy(Dedup(Filter(entries, (e: seq<string>) => Wanted(e, allowed, recursive))), PartsLe)
  }

  /** The backlog holds exactly the entries some allowed extension finds. */
  lemma BacklogMembers(entries: seq<seq<string>>, allowed: set<string>, recursive: bool)
    ensures forall e :: e in Backlog(entries, allowed, recursive) <==> e in entries && Wanted(e, allowed, recursive)
  {
    var found := Filter(entries, (e: seq<string>) => Wanted(e, allowed, recursive));
    FilterMembers(entries, (e: seq<string>) => Wanted(e, allowed, recursive));
    SortByMembers(Dedup(found), PartsLe);
  }

  /** The backlog is in strictly increasing path order, so no path comes
      twice and the order is the same on every start. */
  lemma BacklogStrictlySorted(entries: seq<seq<string>>, allowed: set<string>, recursive: bool)
    ensures forall i, j :: 0 <= i < j < |Backlog(entries, allowed, recursive)| ==>
      PartsLt(Backlog(entries, allowed, recursive)[i], Backlog(entries, allowed, recursive)[j])
  {
    var unique := Dedup(Filter(entries, (e: seq<string>) => Wanted(e, allowed, recursive)));
    var b := Backlog(entries, allowed, recursive);
    PartsLeTotalOrder();
    SortBySorted(unique, PartsLe);
    DistinctPermutation(unique, b);
    forall i, j | 0 <= i < j < |b| ensures PartsLt(b[i], b[j]) {
      assert PartsLe(b[i], b[j]);
    }
  }

  /** The collection step of a scan: the backlog of the folder's entries,
      or `None` when listing the folder fails. */
  function Scan(entries: Option<seq<seq<string>>>, allowed: set<string>, recursive: bool): Option<seq<seq<string>>> {
    if entries.Some? then Some(Backlog(entries.value, allowed, recursive)) else None
  }

  /** The startup events for a backlog, in backlog order. */
  function StartupEvents(folder: string, backlog: seq<seq<string>>): seq<Event> {
    seq(|backlog|, k requires 0 <= k < |backlog| => Event("startup", FullPath(folder, backlog[k])))
  }

  /** `_should_process_file`: the lower-cased suffix of the path is an
      allowed extension. */
  predicate ShouldProcess(path: string, allowed: set<string>) {
    Lower(Suffix(path)) in allowed
  }

  /** A string ending with `ext` ends with the last character of `ext`. */
  lemma EndsWithLast(s: string, ext: string)
    ensures EndsWith(s, ext) && |ext| > 0 ==> s[|s| - 1] == ext[|ext| - 1]
  {
    if EndsWith(s, ext) && |ext| > 0 {
      assert s[|s| - |ext|..][|ext| - 1] == s[|s| - 1];
    }
  }

  /** The startup scan matches extensions with case, the live filter
      after lower-casing: `X.PDF` is missed at startup and queued live. */
  lemma UpperCaseOnlyLive()
    ensures !Wanted(["X.PDF"], DefaultExtensions, true)
    ensures ShouldProcess("X.PDF", DefaultExtensions)
  {
    var name := "X.PDF";
    assert name[0] == 'X' && name[1] == '.' && name[2] == 'P' && name[3] == 'D' && name[4] == 'F';
    assert Name([name]) == name;
    forall ext | ext in DefaultExtensions ensures !GlobMatches([name], ext, true) {
      EndsWithLast(name, ext);
    }
    assert LastIndexOf(name, '/') == -1;
    assert LastIndexOf(name, '.') == 1;
    assert Suffix(name) == name[1..];
    assert Lower(name[1..]) == ".pdf";
  }

  /** A file named just `.pdf` is found by the startup glob, but its
      suffix is empty, so the live filter ignores it. */
  lemma DotFileOnlyAtStartup()
    ensures Wanted([".pdf"], DefaultExtensions, true)
    ensures !ShouldProcess(".pdf", DefaultExtensions)
  {
    var name := ".pdf";
    assert GlobMatches([name], ".pdf", true);
    assert LastIndexOf(name, '/') == -1;
    assert name[0] == '.' && name[1] == 'p' && name[2] == 'd' && name[3] == 'f';
    assert LastIndexOf(name, '.') == 0;
    assert Suffix(name) == "";
    assert Lower("") == "";
  }

  class Monitor {
    const folder: string
    const allowedExtensions: set<string>
    const recursive: bool
    /** A file processor is registered. */
    var hasProcessor: bool
    var isRunning: bool
    /** The observer has been started and not stopped. */
    var observing: bool
    /** `processing_task` is set. */
    var hasTask: bool
    /** Consumer tasks alive, including any no one holds any more. */
    var consumers: nat
    /** The pending events of the current queue. */
    var queue: seq<Event>
    /** Every event taken off a queue, in order; each gets one `task_done`. */
    var taken: seq<Event>
    /** The events handed to the file processor, in order. */
    var calls: seq<Event>

    ghost predicate Valid()
      reads this
    {
      (hasTask ==> consumers >= 1) && observing == isRunning && (isRunning ==> hasTask)
    }

    /** The flags no queue step touches. */
    ghost function Control(): (bool, bool, bool, bool, nat)
      reads this
    {
      (hasProcessor, isRunning, observing, hasTask, consumers)
    }

    /** The processor calls a run of taken events produces. */
    function Handled(events: seq<Event>): seq<Event>
      reads this
    {
      if hasProcessor then events else []
    }

    /** The `startup` events for the backlog of a scan; none when the
        scan failed. */
    function Startup(backlog: Option<seq<seq<string>>>): seq<Event> {
      if backlog.Some? then StartupEvents(folder, backlog.value) else []
    }

    /** `__init__`. */
    constructor (folder: string, given: Option<set<string>>, recursive: bool, hasProcessor: bool)
      ensures Valid()
      ensures this.folder == folder && this.recursive == recursive && this.hasProcessor == hasProcessor
      ensures allowedExtensions == AllowedExtensions(given)
      ensures !isRunning && !observing && !hasTask && consumers == 0
      ensures queue == [] && taken == [] && calls == []
    {
      this.folder := folder;
      allowedExtensions := AllowedExtensions(given);
      this.recursive := recursive;
      this.hasProcessor := hasProcessor;
      isRunning := false;
      observing := false;
      hasTask := false;
      consumers := 0;
      queue := [];
      taken := [];
      calls := [];
    }

    /** `set_file_processor`. */
    method SetFileProcessor()
      modifies this
      ensures hasProcessor
      ensures isRunning == old(isRunning) && observing == old(observing) && hasTask == old(hasTask)
      ensures consumers == old(consumers) && queue == old(queue) && taken == old(taken) && calls == old(calls)
    {
      hasProcessor := true;
    }

    /** One turn of `_process_file_queue`: take the oldest event and hand it
        to the processor, if one is registered. The handler catches every
        error, so the event is always marked done. */
    method ProcessNext()
      requires hasTask && |queue| > 0
      modifies this
      ensures queue == old(queue)[1..]
      ensures taken == old(taken) + [old(queue)[0]]
      ensures calls == old(calls) + Handled([old(queue)[0]])
      ensures Control() == old(Control())
    {
      var event := queue[0];
      queue := queue[1..];
      if hasProcessor {
        calls := calls + [event];
      }
      taken := taken + [event];
    }

    /** `file_queue.join()`: the consumer takes every pending event, in
        order, until none is left. */
    method Drain()
      requires hasTask
      modifies this
      ensures queue == []
      ensures taken == old(taken) + old(queue)
      ensures calls == old(calls) + Handled(old(queue))
      ensures Control() == old(Control())
    {
      ghost var pending := queue;
      while |queue| > 0
        invariant hasTask && Control() == old(Control())
        invariant |queue| <= |pending| && queue == pending[|pending| - |queue|..]
        invariant taken == old(taken) + pending[..|pending| - |queue|]
        invariant calls == old(calls) + Handled(pending[..|pending| - |queue|])
        decreases |queue|
      {
        ghost var done := |pending| - |queue|;
        assert queue[0] == pending[done];
        assert pending[..done + 1] == pending[..done] + [pending[done]];
        ProcessNext();
      }
      assert pending[..|pending|] == pending;
    }

    /** `start`. A running monitor or a missing folder: `False`, nothing
        changes. Otherwise a fresh queue and a consumer task, the backlog
        queued and drained, and then the observer. `entries` is the
        folder's content, or `None` when scanning it fails. A failed scan
        or observer ends in `stop`, which does nothing since the monitor is
        not yet running: the consumer task stays alive. */
    method Start(folderExists: bool, entries: Option<seq<seq<string>>>, observerFails: bool) returns (ok: bool)
      requires Valid()
      modifies this
      ensures Valid()
      ensures old(isRunning) || !folderExists ==> !ok && unchanged(this)
      ensures !old(isRunning) && folderExists ==>
        var started := Startup(Scan(entries, allowedExtensions, recursive));
        && ok == (entries.Some? && !observerFails)
        && isRunning == ok && hasTask && consumers == old(consumers) + 1
        && hasProcessor == old(hasProcessor)
        && queue == [] && taken == old(taken) + started && calls == old(calls) + Handled(started)
    {
      if isRunning || !folderExists {
        return false;
      }
      ok := Launch(Scan(entries, allowedExtensions, recursive), observerFails);
    }

    /** `start` past its two guards: the queue, the consumer, the backlog,
        then the observer, with `stop` on failure. */
    method Launch(backlog: Option<seq<seq<string>>>, observerFails: bool) returns (ok: bool)
      requires Valid() && !isRunning
      modifies this
      ensures Valid()
      ensures ok == (backlog.Some? && !observerFails)
      ensures isRunning == ok && hasTask && consumers == old(consumers) + 1 && hasProcessor == old(hasProcessor)
      ensures queue == [] && taken == old(taken) + Startup(backlog) && calls == old(calls) + Handled(Startup(backlog))
    {
      queue := [];
      hasTask := true;
      consumers := consumers + 1;
      var scanned := ProcessExistingFiles(backlog);
      if !scanned || observerFails {
        Stop();
        return false;
      }
      observing := true;
      isRunning := true;
      ok := true;
    }

    /** `_process_existing_files` once the folder is scanned (`Scan`): every
        backlog entry is queued once, in backlog order, as a `startup`
        event, and the queue is drained before it returns. A failed scan
        queues nothing and raises. */
    method ProcessExistingFiles(scanned: Option<seq<seq<string>>>) returns (ok: bool)
      requires hasTask && queue == []
      modifies this
      ensures ok == scanned.Some?
      ensures queue == [] && taken == old(taken) + Startup(scanned) && calls == old(calls) + Handled(Startup(scanned))
      ensures Control() == old(Control())
    {
      if scanned.None? {
        assert taken + [] == taken && calls + [] == calls;
        return false;
      }
      var backlog := scanned.value;
      var i := 0;
      while i < |backlog|
        invariant 0 <= i <= |backlog|
        invariant Control() == old(Control()) && taken == old(taken) && calls == old(calls)
        invariant |queue| == i && forall k :: 0 <= k < i ==> queue[k] == Event("startup", FullPath(folder, backlog[k]))
      {
        queue := queue + [Event("startup", FullPath(folder, backlog[i]))];
        i := i + 1;
      }
      assert queue == StartupEvents(folder, backlog);
      Drain();
      ok := true;
    }

    /** `stop`: nothing when not running; otherwise the observer stops, the
        consumer task is cancelled and dropped, and the monitor is no longer
        running. Pending events stay in the queue. */
    method Stop()
      requires Valid()
      modifies this
      ensures Valid()
      ensures !old(isRunning) ==> unchanged(this)
      ensures old(isRunning) ==>
        !isRunning && !observing && !hasTask && consumers == old(consumers) - 1
        && hasProcessor == old(hasProcessor) && queue == old(queue) && taken == old(taken) && calls == old(calls)
    {
      if !isRunning {
        return;
      }
      observing := false;
      consumers := consumers - 1;
      hasTask := false;
      isRunning := false;
    }

    /** `on_created`/`on_modified`/`on_deleted`: an event for a file (not
        a directory) goes to `_queue_file_event` with its kind. */
    method OnEvent(kind: LiveKind, path: string, isDirectory: bool)
      requires observing
      modifies this
      ensures queue == old(queue) + if !isDirectory && ShouldProcess(path, allowedExtensions) then [Event(KindName(kind), path)] else []
      ensures Control() == old(Control()) && taken == old(taken) && calls == old(calls)
    {
      if isDirectory {
        assert queue + [] == queue;
      } else {
        QueueFileEvent(KindName(kind), path);
      }
    }

    /** `_queue_file_event`: the event is queued exactly when the
        lower-cased suffix of its path is allowed. */
    method QueueFileEvent(kind: string, path: string)
      requires observing
      modifies this
      ensures queue == old(queue) + if ShouldProcess(path, allowedExtensions) then [Event(kind, path)] else []
      ensures Control() == old(Control()) && taken == old(taken) && calls == old(calls)
    {
      var wanted := ShouldProcess(path, allowedExtensions);
      if wanted {
        queue := queue + [Event(kind, path)];
      } else {
        assert queue + [] == queue;
      }
    }
  }
}
