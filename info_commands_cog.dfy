/** The info-command cog of `cogs/info_commands_cog.py`. Its file names are
    the configured save directory, the name and `.txt` run together with no
    separator. Only `learn` lower-cases the name: `whatis` and `rm` use it as
    typed. `rm` shows the text one last time, and `backup` sends every file of
    the directory. */
module InfoCog {
  import opened InfoFiles
  import InfoCommands

  /** `f"{save_directory}{name}.txt"`. */
  function SavePath(saveDirectory: string, name: string): string
  {
    saveDirectory + name + ".txt"
  }

  /** Distinct names give distinct files. */
  lemma SavePathInjective(saveDirectory: string, a: string, b: string)
    ensures SavePath(saveDirectory, a) == SavePath(saveDirectory, b) <==> a == b
  {
    ConcatInjective(saveDirectory, a, b, ".txt");
  }

  /** The file `learn` writes. */
  function LearnPath(saveDirectory: string, command: string): string
  {
    SavePath(saveDirectory, Lower(command))
  }

  function NotFoundReply(command: string): string
  {
    "No command named '" + command + "' found."
  }

  /** What `whatis` sends: the text of the file named exactly as typed. */
  function WhatisReply(files: Files, saveDirectory: string, command: string): (reply: string)
    ensures SavePath(saveDirectory, command) in files ==> reply == files[SavePath(saveDirectory, command)]
    ensures SavePath(saveDirectory, command) !in files ==> reply == NotFoundReply(command)
  {
    var path := SavePath(saveDirectory, command);
    if path in files then files[path] else NotFoundReply(command)
  }

  /** After `learn c m`, `whatis` answers `m` for the lower-cased `c` only,
      and what it answered before for every other name. */
  lemma LearnThenWhatis(files: Files, saveDirectory: string, command: string, message: string, asked: string)
    ensures var learned := files[LearnPath(saveDirectory, command) := message];
      WhatisReply(learned, saveDirectory, asked)
        == if asked == Lower(command) then message else WhatisReply(files, saveDirectory, asked)
  {
    SavePathInjective(saveDirectory, asked, Lower(command));
  }

  /** `learn Carbs m` then `whatis Carbs` on a directory without either file:
      the capitalised name is not found, though the other cog finds it; and
      `rm Carbs` reports it missing and leaves the learned file in place. */
  lemma CapitalisedNameNotFound(files: Files, saveDirectory: string, message: string)
    requires SavePath(saveDirectory, "Carbs") !in files
    ensures WhatisReply(files[LearnPath(saveDirectory, "Carbs") := message], saveDirectory, "Carbs")
      == NotFoundReply("Carbs")
    ensures InfoCommands.WhatisReply(files[InfoCommands.InfoFilename(saveDirectory, "Carbs") := message], saveDirectory, "Carbs")
      == message
    ensures var learned := files[LearnPath(saveDirectory, "Carbs") := message];
      RmOutcome(learned, saveDirectory, "Carbs") == (learned, [NotFoundReply("Carbs")])
      && learned[LearnPath(saveDirectory, "Carbs")] == message
  {
    assert Lower("Carbs")[0] == 'c';
    SavePathInjective(saveDirectory, "Carbs", Lower("Carbs"));
    LearnThenWhatis(files, saveDirectory, "Carbs", message, "Carbs");
    InfoCommands.LearnThenWhatis(files, saveDirectory, "Carbs", message, "Carbs");
  }

  /** `whatis` as `learn` evidently expects it: the name lower-cased before
      it becomes a file name, as `learn` does. */
  function LoweredWhatisReply(files: Files, saveDirectory: string, command: string): (reply: string)
    ensures SavePath(saveDirectory, Lower(command)) in files ==> reply == files[SavePath(saveDirectory, Lower(command))]
    ensures SavePath(saveDirectory, Lower(command)) !in files ==> reply == NotFoundReply(command)
  {
    var path := SavePath(saveDirectory, Lower(command));
    if path in files then files[path] else NotFoundReply(command)
  }

  /** With the lower-cased lookup, `learn c m` is found by `c` in any letter
      case, and every other name answers as before. */
  lemma LoweredLearnThenWhatis(files: Files, saveDirectory: string, command: string, message: string, asked: string)
    ensures var learned := files[LearnPath(saveDirectory, command) := message];
      LoweredWhatisReply(learned, saveDirectory, asked)
        == if Lower(asked) == Lower(command) then message else LoweredWhatisReply(files, saveDirectory, asked)
  {
    SavePathInjective(saveDirectory, Lower(asked), Lower(command));
  }

  /** The two replies `rm` sends for a command it finds. */
  function RemovedReplies(command: string, content: string): seq<string>
  {
    ["Showing the command one last time\n " + content, "Command '" + command + "' removed."]
  }

  /** `rm` on the file at `path`, named `command` in its replies: a present
      file is shown one last time and deleted, a missing one is reported and
      the store is left alone. */
  function RmAt(files: Files, path: string, command: string): (r: (Files, seq<string>))
    ensures path in files ==> r.0 == files - {path} && r.1 == RemovedReplies(command, files[path])
    ensures path !in files ==> r.0 == files && r.1 == [NotFoundReply(command)]
    ensures r.0.Keys == files.Keys - {path}
  {
    if path in files then (files - {path}, RemovedReplies(command, files[path]))
    else (files, [NotFoundReply(command)])
  }

  /** `rm` as written: the file named exactly as typed. */
  function RmOutcome(files: Files, saveDirectory: string, command: string): (Files, seq<string>)
  {
    RmAt(files, SavePath(saveDirectory, command), command)
  }

  /** `rm` as `learn` evidently expects it: the name lower-cased before it
      becomes a file name, as `learn` does. */
  function LoweredRmOutcome(files: Files, saveDirectory: string, command: string): (Files, seq<string>)
  {
    RmAt(files, SavePath(saveDirectory, Lower(command)), command)
  }

  /** With the lower-cased `rm`, `learn c m` is removed by `c` in any letter
      case: the store is back to what it held without that file, the text is
      shown one last time, and the lower-cased `whatis` no longer finds it. */
  lemma LoweredLearnThenRm(files: Files, saveDirectory: string, command: string, message: string, asked: string)
    requires Lower(asked) == Lower(command)
    ensures var learned := files[LearnPath(saveDirectory, command) := message];
      var (after, replies) := LoweredRmOutcome(learned, saveDirectory, asked);
      after == files - {LearnPath(saveDirectory, command)}
      && replies == RemovedReplies(asked, message)
      && LoweredWhatisReply(after, saveDirectory, asked) == NotFoundReply(asked)
      && LoweredWhatisReply(after, saveDirectory, command) == NotFoundReply(command)
  {
    var learned := files[LearnPath(saveDirectory, command) := message];
    assert LearnPath(saveDirectory, asked) == LearnPath(saveDirectory, command);
    assert learned - {LearnPath(saveDirectory, command)} == files - {LearnPath(saveDirectory, command)};
  }

  /** After `rm c`, `whatis c` finds nothing, and every other name answers as
      before. */
  lemma RmThenWhatis(files: Files, saveDirectory: string, command: string, asked: string)
    ensures var removed := files - {SavePath(saveDirectory, command)};
      WhatisReply(removed, saveDirectory, asked)
        == if asked == command then NotFoundReply(asked) else WhatisReply(files, saveDirectory, asked)
  {
    SavePathInjective(saveDirectory, asked, command);
  }

  /** With a save directory ending in a separator, a learned command is
      listed and a removed one unlisted. */
  lemma LearnAndRmThenList(files: Files, saveDirectory: string, command: string, message: string)
    requires |saveDirectory| > 0 && saveDirectory[|saveDirectory| - 1] == '/'
    requires '/' !in command
    ensures Commands(files[LearnPath(saveDirectory, command) := message], saveDirectory)
      == Commands(files, saveDirectory) + {Lower(command)}
    ensures Commands(files - {SavePath(saveDirectory, command)}, saveDirectory)
      == Commands(files, saveDirectory) - {command}
  {
    LowerKeepsSlashes(command);
    assert LearnPath(saveDirectory, command) == Join(saveDirectory, Lower(command) + ".txt");
    assert SavePath(saveDirectory, command) == Join(saveDirectory, command + ".txt");
    CommandsAfterWrite(files, saveDirectory, Lower(command), message);
    CommandsAfterDelete(files, saveDirectory, command);
  }

  /** With a save directory not ending in a separator, `learn` writes its
      file beside the directory rather than into it, so `list` does not
      change. */
  lemma LearnOutsideDirectory(files: Files, saveDirectory: string, command: string, message: string)
    requires |saveDirectory| > 0 && saveDirectory[|saveDirectory| - 1] != '/'
    requires '/' !in command
    ensures Commands(files[LearnPath(saveDirectory, command) := message], saveDirectory)
      == Commands(files, saveDirectory)
  {
    var path := LearnPath(saveDirectory, command);
    var p := DirPrefix(saveDirectory);
    LowerKeepsSlashes(command);
    if |command| > 0 {
      assert path[|saveDirectory|] == Lower(command)[0];
    } else {
      assert path[|saveDirectory|] == '.';
    }
    assert |p| > |saveDirectory| && p[|saveDirectory|] == '/';
    assert !IsChild(saveDirectory, path) by {
      if |p| < |path| {
        assert path[..|p|][|saveDirectory|] != p[|saveDirectory|];
      }
    }
    ListingAfterOutsideWrite(files, saveDirectory, path, message);
  }

  /** One `backup` message: the file name without its last four characters
      in bold, a blank line, then the text. */
  function BackupMessage(filename: string, contents: string): string
  {
    "**" + DropLast4(filename) + "**\n\n" + contents
  }

  /** `messages` is what `backup` sends when it visits the directory's files
      in the order `order`: every file once, one message each. */
  ghost predicate BackupOf(messages: seq<string>, order: seq<string>, files: Files, saveDirectory: string)
  {
    && multiset(order) == multiset(Listing(files, saveDirectory))
    && Visited(messages, order, files, saveDirectory)
  }

  /** One message for each file of `order`, in that order. */
  ghost predicate Visited(messages: seq<string>, order: seq<string>, files: Files, saveDirectory: string)
  {
    && |messages| == |order|
    && forall i :: 0 <= i < |order| ==>
         Join(saveDirectory, order[i]) in files
         && messages[i] == BackupMessage(order[i], files[Join(saveDirectory, order[i])])
  }

  lemma VisitedAppend(messages: seq<string>, order: seq<string>, files: Files, saveDirectory: string, filename: string)
    requires Visited(messages, order, files, saveDirectory)
    requires Join(saveDirectory, filename) in files
    ensures Visited(messages + [BackupMessage(filename, files[Join(saveDirectory, filename)])], order + [filename], files, saveDirectory)
  {
  }

  lemma MultisetTake(remaining: set<string>, x: string)
    requires x in remaining
    ensures multiset(remaining) == multiset(remaining - {x}) + multiset{x}
  {
  }

  /** A backup has one message per file of the directory, whatever its
      suffix, and every file's message is among them. */
  lemma BackupCoversListing(messages: seq<string>, order: seq<string>, files: Files, saveDirectory: string)
    requires BackupOf(messages, order, files, saveDirectory)
    ensures |messages| == |Listing(files, saveDirectory)|
    ensures forall n :: n in Listing(files, saveDirectory) ==>
      BackupMessage(n, files[Join(saveDirectory, n)]) in messages
  {
    var listing := Listing(files, saveDirectory);
    assert |multiset(order)| == |multiset(listing)|;
    forall n | n in listing
      ensures BackupMessage(n, files[Join(saveDirectory, n)]) in messages
    {
      assert n in multiset(listing);
      assert n in multiset(order);
      var i :| 0 <= i < |order| && order[i] == n;
      assert messages[i] == BackupMessage(n, files[Join(saveDirectory, n)]);
    }
  }

  /** The cog, with its configured save directory and the file system the
      directory lives in. */
  class InfoCommandsCog {
    const saveDirectory: string
    var files: Files

    /** `os.makedirs("")` raises `FileNotFoundError`, so no cog is built on
        an empty save directory. */
    constructor(saveDirectory: string, files: Files)
      requires |saveDirectory| > 0
      ensures this.saveDirectory == saveDirectory && this.files == files
    {
      this.saveDirectory := saveDirectory;
      this.files := files;
    }

    /** `backup`: only for the `bot-input` role; whether the save directory
        exists is a fact of the file system passed in. Sends one message per
        file of the directory, in the order the directory lists them. */
    method Backup(saveDirectoryFound: bool, hasBotInputRole: bool) returns (messages: seq<string>)
      ensures !hasBotInputRole ==> messages == []
      ensures hasBotInputRole && !saveDirectoryFound ==> messages == ["Save directory not found."]
      ensures hasBotInputRole && saveDirectoryFound ==>
        exists order :: BackupOf(messages, order, files, saveDirectory)
    {
      if !hasBotInputRole {
        return [];
      }
      if !saveDirectoryFound {
        return ["Save directory not found."];
      }
      var listing := Listing(files, saveDirectory);
      var remaining := listing;
      ghost var order: seq<string> := [];
      messages := [];
      while remaining != {}
        invariant remaining <= listing
        invariant multiset(order) + multiset(remaining) == multiset(listing)
        invariant Visited(messages, order, files, saveDirectory)
        decreases |remaining|
      {
        var filename :| filename in remaining;
        var path := Join(saveDirectory, filename);
        if path in files {
          VisitedAppend(messages, order, files, saveDirectory, filename);
          messages := messages + [BackupMessage(filename, files[path])];
          order := order + [filename];
        }
        MultisetTake(remaining, filename);
        remaining := remaining - {filename};
      }
      assert BackupOf(messages, order, files, saveDirectory);
    }

    /** `learn`: only for the `bot-input` role; writes (or overwrites) the
        file of the lower-cased name and acknowledges it. */
    method Learn(command: string, message: string, hasBotInputRole: bool) returns (replies: seq<string>)
      modifies this
      ensures hasBotInputRole ==>
        files == old(files)[LearnPath(saveDirectory, command) := message]
        && replies == [InfoCommands.LearnedReply(command)]
      ensures !hasBotInputRole ==> files == old(files) && replies == []
    {
      if !hasBotInputRole {
        return [];
      }
      files := files[LearnPath(saveDirectory, command) := message];
      replies := ["Command '" + Lower(command) + "' learned and saved."];
    }

    /** `list`: the sorted command names of the save directory, or the
        no-commands message. */
    method List() returns (reply: string)
      ensures reply == ListReply(SortedNames(Commands(files, saveDirectory)))
      ensures reply == NoCommandsReply <==> Commands(files, saveDirectory) == {}
    {
      reply := ListCommandsReply(files, saveDirectory);
    }

    /** `whatis`: the text of the command named exactly as typed. */
    method Whatis(command: string) returns (reply: string)
      ensures reply == WhatisReply(files, saveDirectory, command)
    {
      var path := SavePath(saveDirectory, command);
      if path in files {
        reply := files[path];
      } else {
        reply := NotFoundReply(command);
      }
    }

    /** `rm`: open to everyone; shows the text of the command named exactly
        as typed, then deletes its file. */
    method Rm(command: string) returns (replies: seq<string>)
      modifies this
      ensures SavePath(saveDirectory, command) in old(files) ==>
        files == old(files) - {SavePath(saveDirectory, command)}
        && replies == RemovedReplies(command, old(files)[SavePath(saveDirectory, command)])
      ensures SavePath(saveDirectory, command) !in old(files) ==>
        files == old(files) && replies == [NotFoundReply(command)]
      ensures (files, replies) == RmOutcome(old(files), saveDirectory, command)
    {
      var path := SavePath(saveDirectory, command);
      if path in files {
        var content := files[path];
        replies := ["Showing the command one last time\n " + content];
        files := files - {path};
        replies := replies + ["Command '" + command + "' removed."];
      } else {
        replies := [NotFoundReply(command)];
      }
    }
  }
}
