/** Batched commits: writes collect in memory and are swapped out into one commit at a time. */
module GitBatcher {
  import opened Wrappers

  type Path = string
  type Files = map<Path, string>

  datatype Snapshot = Snapshot(files: Files, messages: set<string>)

  /** A coroutine step of the batcher or of one of its callers. */
  datatype Event =
    | Write(files: Files, message: string, now: real)
    | Flush
    | CommitSucceeds(sha: string, time: real)
      /** The commit raised, whether or not it reached the branch, and the branch was looked up or not. */
    | CommitFails(landedAnyway: bool, refreshed: Option<string>)

  // ---------------------------------------------------------------- what was written

  /** The newest content written to each path. */
  function Newest(events: seq<Event>): Files {
    if events == [] then map[]
    else
      var earlier, e := Newest(events[..|events| - 1]), events[|events| - 1];
      if e.Write? then earlier + e.files else earlier
  }

  function Messages(events: seq<Event>): set<string> {
    if events == [] then {}
    else
      var earlier, e := Messages(events[..|events| - 1]), events[|events| - 1];
      if e.Write? then earlier + {e.message} else earlier
  }

  /** Content that is put back only where nothing newer has been written. */
  function Restored(pending: Files, files: Files): Files {
    files + pending
  }

  lemma NewestOf(events: seq<Event>, e: Event)
    ensures Newest(events + [e]) == if e.Write? then Newest(events) + e.files else Newest(events)
    ensures Messages(events + [e]) == if e.Write? then Messages(events) + {e.message} else Messages(events)
  {
    assert (events + [e])[..|events|] == events;
  }

  /** A commit of these files on top of what landed before. */
  function Onto(landed: Files, files: Files): Files {
    landed + files
  }

  function Both(some: set<string>, more: set<string>): set<string> {
    some + more
  }

  /** The content of every path: the newest of what landed, what is in flight and what is pending. */
  function Merged(landed: Files, inFlight: Files, pending: Files): Files {
    landed + inFlight + pending
  }

  function AllMessages(landed: set<string>, inFlight: set<string>, pending: set<string>): set<string> {
    landed + inFlight + pending
  }

  lemma WritingAddsNewest(landed: Files, inFlight: Files, pending: Files, files: Files)
    ensures Merged(landed, inFlight, pending + files) == Merged(landed, inFlight, pending) + files
  {
  }

  lemma SwappingKeepsAll(landed: Files, pending: Files, messages: set<string>, more: set<string>)
    ensures Merged(landed, pending, map[]) == Merged(landed, map[], pending)
    ensures AllMessages(messages, more, {}) == AllMessages(messages, {}, more)
  {
  }

  lemma LandingKeepsAll(landed: Files, inFlight: Files, pending: Files)
    ensures Merged(Onto(landed, inFlight), map[], pending) == Merged(landed, inFlight, pending)
  {
  }

  lemma NothingLeft(landed: Files)
    ensures Merged(landed, map[], map[]) == landed
  {
  }

  lemma RestoredNotEmpty(pending: Files, files: Files)
    requires files != map[]
    ensures Restored(pending, files) != map[]
  {
    assert exists k :: k in files by {
      if forall k :: k !in files { assert false; }
    }
    var k :| k in files;
    assert k in Restored(pending, files);
  }

  lemma MessagesKept(landed: set<string>, inFlight: set<string>, pending: set<string>)
    ensures AllMessages(Both(landed, inFlight), {}, pending) == AllMessages(landed, inFlight, pending)
    ensures AllMessages(landed, {}, Both(pending, inFlight)) == AllMessages(landed, inFlight, pending)
    ensures AllMessages(Both(landed, inFlight), {}, Both(pending, inFlight)) == AllMessages(landed, inFlight, pending)
  {
  }

  /** Putting a snapshot back below newer writes changes nothing, whether or not the snapshot has also landed. */
  lemma RestoringKeepsAll(landed: Files, inFlight: Files, pending: Files)
    ensures Merged(landed, map[], Restored(pending, inFlight)) == Merged(landed, inFlight, pending)
    ensures Merged(Onto(landed, inFlight), map[], Restored(pending, inFlight)) == Merged(landed, inFlight, pending)
  {
  }

  class GitBatcher {
    const interval: real
    const conflictInterval: real
    var baseSha: string
    var pendingFiles: Files
    var pendingMessages: set<string>
    var lastCommitTime: real
    var currentInterval: real
    var commitInProgress: bool

    /** The snapshot that the commit in progress holds. */
    var inFlight: Snapshot

    /** What commits have put on the branch, and everything that has happened. */
    ghost var landed: Files
    ghost var landedMessages: set<string>
    ghost var history: seq<Event>

    /** Nothing written is lost or undone: the newest content of a path is pending, or else in the snapshot in
      * flight, or else the last one that landed.
      */
    ghost predicate Valid()
      reads this
    {
      && (if commitInProgress then inFlight.files != map[] else inFlight == Snapshot(map[], {}))
      && Newest(history) == Merged(landed, inFlight.files, pendingFiles)
      && Messages(history) == AllMessages(landedMessages, inFlight.messages, pendingMessages)
    }

    ghost predicate AllLanded()
      reads this
    {
      Newest(history) == landed
    }

    /** The first interval is the default one, whatever interval was asked for. */
    constructor (interval: real, conflictInterval: real, baseSha: string)
      ensures Valid() && history == [] && AllLanded() && currentInterval == 600.0 && lastCommitTime == 0.0
      ensures pendingFiles == landed == map[] && !commitInProgress
      ensures this.interval == interval && this.conflictInterval == conflictInterval
    {
      this.interval, this.conflictInterval, this.baseSha := interval, conflictInterval, baseSha;
      pendingFiles, pendingMessages, lastCommitTime, currentInterval := map[], {}, 0.0, 600.0;
      commitInProgress, inFlight := false, Snapshot(map[], {});
      landed, landedMessages, history := map[], {}, [];
    }

    /** Queues files, and starts a commit when none is in progress and enough time has passed. */
    method Write(files: Files, message: string, now: real) returns (started: bool)
      requires Valid()
      modifies this
      ensures Valid() && history == old(history) + [Event.Write(files, message, now)]
      ensures landed == old(landed) && baseSha == old(baseSha)
      ensures started <==>
                && old(pendingFiles) + files != map[] && !old(commitInProgress)
                && now - old(lastCommitTime) >= old(currentInterval)
      ensures if started then pendingFiles == map[] && inFlight.files == old(pendingFiles) + files
              else pendingFiles == old(pendingFiles) + files && inFlight == old(inFlight)
    {
      hide Newest, Messages, Merged;
      history := history + [Event.Write(files, message, now)];
      NewestOf(old(history), Event.Write(files, message, now));
      WritingAddsNewest(landed, inFlight.files, pendingFiles, files);
      pendingFiles := pendingFiles + files;
      pendingMessages := pendingMessages + {message};
      started := false;
      if pendingFiles != map[] && !commitInProgress && now - lastCommitTime >= currentInterval {
        BeginCommit();
        started := true;
      }
    }

    /** Swaps what is pending for fresh containers, in one step. */
    method BeginCommit()
      requires Valid() && !commitInProgress && pendingFiles != map[]
      modifies this`commitInProgress, this`pendingFiles, this`pendingMessages, this`inFlight
      ensures Valid() && commitInProgress
      ensures inFlight == Snapshot(old(pendingFiles), old(pendingMessages))
      ensures pendingFiles == map[] && pendingMessages == {}
    {
      SwappingKeepsAll(landed, pendingFiles, landedMessages, pendingMessages);
      inFlight := Snapshot(pendingFiles, pendingMessages);
      commitInProgress := true;
      pendingFiles, pendingMessages := map[], {};
    }

    /** The commit in progress landed; a flush that waits for it is answered. */
    method CommitSucceeds(sha: string, time: real) returns (flushed: bool)
      requires Valid() && commitInProgress
      modifies this
      ensures Valid() && history == old(history) + [Event.CommitSucceeds(sha, time)] && !commitInProgress
      ensures landed == Onto(old(landed), old(inFlight.files)) && pendingFiles == old(pendingFiles)
      ensures baseSha == sha && lastCommitTime == time && currentInterval == interval
      ensures flushed ==> AllLanded()
    {
      hide Newest, Messages, Merged, AllMessages, Onto, Both;
      history := history + [Event.CommitSucceeds(sha, time)];
      NewestOf(old(history), Event.CommitSucceeds(sha, time));
      LandingKeepsAll(landed, inFlight.files, pendingFiles);
      MessagesKept(landedMessages, inFlight.messages, pendingMessages);
      NothingLeft(Onto(landed, inFlight.files));
      landed, landedMessages := Onto(landed, inFlight.files), Both(landedMessages, inFlight.messages);
      baseSha, lastCommitTime, currentInterval := sha, time, interval;
      inFlight := Snapshot(map[], {});
      commitInProgress := false;
      flushed := pendingFiles == map[];
    }

    /** Puts the snapshot back without overwriting what was written meanwhile. */
    method RestorePendingWithoutOverwrite(files: Files, messages: set<string>)
      modifies this`pendingFiles, this`pendingMessages
      ensures pendingFiles == Restored(old(pendingFiles), files)
      ensures pendingMessages == Both(old(pendingMessages), messages)
    {
      var keys := files.Keys;
      while keys != {}
        invariant keys <= files.Keys
        invariant pendingFiles == Restored(old(pendingFiles), files - keys) && pendingMessages == old(pendingMessages)
        decreases keys
      {
        var k :| k in keys;
        if k !in pendingFiles {
          pendingFiles := pendingFiles[k := files[k]];
        }
        keys := keys - {k};
      }
      assert files - {} == files;
      pendingMessages := Both(pendingMessages, messages);
    }

    /** The commit in progress raised. It may have reached the branch all the same. */
    method CommitFails(landedAnyway: bool, refreshed: Option<string>) returns (flushed: bool)
      requires Valid() && commitInProgress
      modifies this
      ensures Valid() && history == old(history) + [Event.CommitFails(landedAnyway, refreshed)] && !commitInProgress
      ensures pendingFiles == Restored(old(pendingFiles), old(inFlight.files)) && pendingFiles != map[]
      ensures landed == if landedAnyway then Onto(old(landed), old(inFlight.files)) else old(landed)
      ensures baseSha == (if refreshed.Some? then refreshed.value else old(baseSha)) && currentInterval == conflictInterval
      ensures lastCommitTime == old(lastCommitTime) && !flushed
    {
      hide Newest, Messages, Merged, AllMessages, Onto, Both, Restored;
      history := history + [Event.CommitFails(landedAnyway, refreshed)];
      NewestOf(old(history), Event.CommitFails(landedAnyway, refreshed));
      RestoringKeepsAll(landed, inFlight.files, pendingFiles);
      MessagesKept(landedMessages, inFlight.messages, pendingMessages);
      RestoredNotEmpty(pendingFiles, inFlight.files);
      if landedAnyway {
        landed, landedMessages := Onto(landed, inFlight.files), Both(landedMessages, inFlight.messages);
      }
      if refreshed.Some? {
        baseSha := refreshed.value;
      }
      RestorePendingWithoutOverwrite(inFlight.files, inFlight.messages);
      inFlight := Snapshot(map[], {});
      currentInterval := conflictInterval;
      commitInProgress := false;
      flushed := false;
    }

    /** Answers at once, or starts a commit whose end answers. True is an answer about the commit in flight only if
      * there is none.
      */
    method Flush() returns (answer: Option<bool>)
      requires Valid()
      modifies this
      ensures Valid() && history == old(history) + [Event.Flush] && landed == old(landed)
      ensures answer == Some(true) <==> old(pendingFiles) == map[]
      ensures answer.None? <==> old(pendingFiles) != map[] && !old(commitInProgress)
      ensures answer.None? ==> commitInProgress && inFlight.files == old(pendingFiles) && pendingFiles == map[]
      ensures answer.Some? ==> unchanged(`pendingFiles, `inFlight, `commitInProgress)
      ensures answer == Some(true) ==> (AllLanded() <==> Onto(landed, inFlight.files) == landed)
      ensures answer == Some(true) && !commitInProgress ==> AllLanded()
    {
      hide Newest, Messages;
      history := history + [Event.Flush];
      NewestOf(old(history), Event.Flush);
      if pendingFiles == map[] {
        return Some(true);
      }
      if commitInProgress {
        return Some(false);
      }
      BeginCommit();
      answer := None;
    }

    /** A newest write is never replaced by an older one, wherever it is. */
    lemma NewestIsKept(path: Path)
      requires Valid() && path in Newest(history)
      ensures path in pendingFiles ==> pendingFiles[path] == Newest(history)[path]
      ensures path !in pendingFiles && path in inFlight.files ==> inFlight.files[path] == Newest(history)[path]
      ensures path !in pendingFiles && path !in inFlight.files ==>
                path in landed && landed[path] == Newest(history)[path]
    {
    }
  }

  /** Asked while the first commit is still in flight, a flush answers true although nothing has landed. */
  method FlushMayAnswerEarly() returns (b: GitBatcher, answer: Option<bool>)
    ensures fresh(b) && b.Valid() && b.commitInProgress
    ensures answer == Some(true) && Newest(b.history) == map["a" := "x"] && b.landed == map[] && !b.AllLanded()
  {
    b := new GitBatcher(600.0, 60.0, "sha");
    assert "a" in b.pendingFiles + map["a" := "x"];
    var started := b.Write(map["a" := "x"], "write a", 1000.0);
    assert started;
    answer := b.Flush();
    assert "a" in Newest(b.history);
    assert Newest(b.history) == map["a" := "x"];
  }

  /** A step that can be taken: only a commit in progress ends. */
  method Step(b: GitBatcher, e: Event) returns (taken: bool)
    requires b.Valid()
    modifies b
    ensures b.Valid() && b.history == old(b.history) + if taken then [e] else []
    ensures taken <==> (e.CommitSucceeds? || e.CommitFails? ==> old(b.commitInProgress))
  {
    taken := true;
    match e
    case Write(files, message, now) => var started := b.Write(files, message, now);
    case Flush => var answer := b.Flush();
    case CommitSucceeds(sha, time) =>
      if b.commitInProgress {
        var flushed := b.CommitSucceeds(sha, time);
      } else {
        taken := false;
      }
    case CommitFails(landedAnyway, refreshed) =>
      if b.commitInProgress {
        var flushed := b.CommitFails(landedAnyway, refreshed);
      } else {
        taken := false;
      }
  }

  /** Every interleaving of writes, flushes and ends of commits keeps the newest content of every path. */
  method Run(b: GitBatcher, events: seq<Event>)
    requires b.Valid() && b.history == []
    modifies b
    ensures b.Valid()
    ensures Newest(events) == Merged(b.landed, b.inFlight.files, b.pendingFiles)
    ensures Messages(events) == AllMessages(b.landedMessages, b.inFlight.messages, b.pendingMessages)
  {
    for i := 0 to |events|
      invariant b.Valid() && Newest(b.history) == Newest(events[..i]) && Messages(b.history) == Messages(events[..i])
    {
      assert events[..i + 1] == events[..i] + [events[i]];
      NewestOf(events[..i], events[i]);
      NewestOf(b.history, events[i]);
      ghost var before := b.history;
      var taken := Step(b, events[i]);
      assert b.history == if taken then before + [events[i]] else before;
    }
    assert events[..|events|] == events;
  }
}
