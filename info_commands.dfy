/** The info-command cog of `cogs/info_commands.py`: every command name is
    lower-cased before it becomes a file name, so `learn`, `whatis` and `rm`
    ignore the letter case of the name they are given. */
module InfoCommands {
  import opened InfoFiles

  /** `f"{INFO_COMMANDS_PATH}/{command.lower()}.txt"`. */
  function InfoFilename(directory: string, command: string): string
  {
    TxtPath(directory, Lower(command))
  }

  /** Two names share a file exactly when they agree but for letter case. */
  lemma SameFileIffSameLower(directory: string, a: string, b: string)
    ensures InfoFilename(directory, a) == InfoFilename(directory, b) <==> Lower(a) == Lower(b)
  {
    TxtPathInjective(directory, Lower(a), Lower(b));
  }

  function LearnedReply(command: string): string
  {
    "Command '" + Lower(command) + "' learned and saved."
  }

  function NotFoundReply(command: string): string
  {
    "No info command named '" + command + "' found."
  }

  /** What `whatis` sends: the text of the command's file, or the not-found
      message naming the command as it was typed. */
  function WhatisReply(files: Files, directory: string, command: string): (reply: string)
    ensures InfoFilename(directory, command) in files ==> reply == files[InfoFilename(directory, command)]
    ensures InfoFilename(directory, command) !in files ==> reply == NotFoundReply(command)
  {
    var path := InfoFilename(directory, command);
    if path in files then files[path] else NotFoundReply(command)
  }

  /** After `learn c m`, `whatis` answers `m` for `c` in any letter case and
      what it answered before for every other name; the test's learn then
      whatis round trip is the first half. */
  lemma LearnThenWhatis(files: Files, directory: string, command: string, message: string, asked: string)
    ensures var learned := files[InfoFilename(directory, command) := message];
      WhatisReply(learned, directory, asked)
        == if Lower(asked) == Lower(command) then message else WhatisReply(files, directory, asked)
  {
    SameFileIffSameLower(directory, asked, command);
  }

  /** After `rm c`, `whatis` finds nothing under `c` in any letter case and
      answers as before for every other name. */
  lemma RmThenWhatis(files: Files, directory: string, command: string, asked: string)
    ensures var removed := files - {InfoFilename(directory, command)};
      WhatisReply(removed, directory, asked)
        == if Lower(asked) == Lower(command) then NotFoundReply(asked) else WhatisReply(files, directory, asked)
  {
    SameFileIffSameLower(directory, asked, command);
  }

  /** `learn` lists the lower-cased name from then on, and `rm` unlists it,
      as long as the name holds no path separator. */
  lemma LearnAndRmThenList(files: Files, directory: string, command: string, message: string)
    requires PlainDirectory(directory)
    requires '/' !in command
    ensures Commands(files[InfoFilename(directory, command) := message], directory)
      == Commands(files, directory) + {Lower(command)}
    ensures Commands(files - {InfoFilename(directory, command)}, directory)
      == Commands(files, directory) - {Lower(command)}
  {
    LowerKeepsSlashes(command);
    TxtPathIsJoin(directory, Lower(command));
    CommandsAfterWrite(files, directory, Lower(command), message);
    CommandsAfterDelete(files, directory, Lower(command));
  }

  /** The cog, with the directory of command files it was configured with
      and the file system that directory lives in. */
  class InfoCommandsCog {
    const directory: string
    var files: Files

    /** The directory is `str(Path(...))` of the configured path, which is
        never empty (`str(Path(""))` is `"."`). */
    constructor(directory: string, files: Files)
      requires |directory| > 0
      ensures this.directory == directory && this.files == files
    {
      this.directory := directory;
      this.files := files;
    }

    /** `learn`: only for the `bot-input` role; writes (or overwrites) the
        file of the lower-cased name and acknowledges it. */
    method Learn(command: string, message: string, hasBotInputRole: bool) returns (replies: seq<string>)
      modifies this
      ensures hasBotInputRole ==>
        files == old(files)[InfoFilename(directory, command) := message]
        && replies == [LearnedReply(command)]
      ensures !hasBotInputRole ==> files == old(files) && replies == []
    {
      if !hasBotInputRole {
        return [];
      }
      files := files[InfoFilename(directory, command) := message];
      replies := [LearnedReply(command)];
    }

    /** `list`: the sorted command names, or the no-commands message. */
    method List() returns (reply: string)
      ensures reply == ListReply(SortedNames(Commands(files, directory)))
      ensures reply == NoCommandsReply <==> Commands(files, directory) == {}
    {
      reply := ListCommandsReply(files, directory);
    }

    /** `whatis`: the text of the command in any letter case. */
    method Whatis(command: string) returns (reply: string)
      ensures reply == WhatisReply(files, directory, command)
    {
      var path := InfoFilename(directory, command);
      if path in files {
        reply := files[path];
      } else {
        reply := NotFoundReply(command);
      }
    }

    /** `rm`: open to everyone; deletes the command's file when there is one.
        Both replies name the command as it was typed. */
    method Rm(command: string) returns (reply: string)
      modifies this
      ensures InfoFilename(directory, command) in old(files) ==>
        files == old(files) - {InfoFilename(directory, command)}
        && reply == "Command '" + command + "' removed."
      ensures InfoFilename(directory, command) !in old(files) ==>
        files == old(files) && reply == "No command named '" + command + "' found."
    {
      var path := InfoFilename(directory, command);
      if path in files {
        files := files - {path};
        reply := "Command '" + command + "' removed.";
      } else {
        reply := "No command named '" + command + "' found.";
      }
    }
  }

  /** The command name the integration test uses. */
  const TestCommand: string := "test_command_for_integration"

  /** The integration test's three steps on a store without its command:
      learn, whatis and rm answer as the test expects, and the store ends as
      it began. */
  method LearnWhatisRmScenario(directory: string, files: Files)
    returns (learned: seq<string>, shown: string, removed: string, restored: bool)
    requires |directory| > 0 && InfoFilename(directory, TestCommand) !in files
    ensures learned == ["Command '" + TestCommand + "' learned and saved."]
    ensures shown == "This is the expected data I want to get returned."
    ensures removed == "Command '" + TestCommand + "' removed."
    ensures restored
  {
    var text := "This is the expected data I want to get returned.";
    LowerOfLowercase(TestCommand);
    ghost var path := InfoFilename(directory, TestCommand);
    assert files[path := text] - {path} == files;
    var cog := new InfoCommandsCog(directory, files);
    learned := cog.Learn(TestCommand, text, true);
    shown := cog.Whatis(TestCommand);
    removed := cog.Rm(TestCommand);
    restored := cog.files == files;
  }
}
