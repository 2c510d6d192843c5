/** The info-command repository of the infrastructure library: the store
    without the chat replies. Names are used exactly as given, so two names
    that differ in letter case are two commands. */
module InfoRepository {
  import opened Errors
  import opened InfoFiles

  /** The text `read_info_command` finds under `name`, if any. */
  function ReadInfo(files: Files, directory: string, name: string): (content: Option<string>)
    ensures content.Some? <==> TxtPath(directory, name) in files
    ensures content.Some? ==> content.value == files[TxtPath(directory, name)]
  {
    var path := TxtPath(directory, name);
    if path in files then Some(files[path]) else None
  }

  /** Reading after `create_info_command(name, text)` finds `text` under
      `name` and, under every other name, what was there before. */
  lemma CreateThenRead(files: Files, directory: string, name: string, text: string, asked: string)
    ensures ReadInfo(files[TxtPath(directory, name) := text], directory, asked)
      == if asked == name then Some(text) else ReadInfo(files, directory, asked)
  {
    TxtPathInjective(directory, asked, name);
  }

  /** Reading after `remove_info_command(name)` finds nothing under `name`
      and, under every other name, what was there before. */
  lemma RemoveThenRead(files: Files, directory: string, name: string, asked: string)
    ensures ReadInfo(files - {TxtPath(directory, name)}, directory, asked)
      == if asked == name then None else ReadInfo(files, directory, asked)
  {
    TxtPathInjective(directory, asked, name);
  }

  /** Names are not normalised: creating `Carbs` leaves `carbs` as it was. */
  lemma NamesAreCaseSensitive(files: Files, directory: string, text: string)
    ensures ReadInfo(files[TxtPath(directory, "Carbs") := text], directory, "carbs")
      == ReadInfo(files, directory, "carbs")
  {
    CreateThenRead(files, directory, "Carbs", text, "carbs");
  }

  /** Creating a name lists it and removing it unlists it, for a name without
      a path separator. */
  lemma CreateAndRemoveThenList(files: Files, directory: string, name: string, text: string)
    requires PlainDirectory(directory)
    requires '/' !in name
    ensures Commands(files[TxtPath(directory, name) := text], directory) == Commands(files, directory) + {name}
    ensures Commands(files - {TxtPath(directory, name)}, directory) == Commands(files, directory) - {name}
  {
    TxtPathIsJoin(directory, name);
    CommandsAfterWrite(files, directory, name, text);
    CommandsAfterDelete(files, directory, name);
  }

  /** The repository, over the configured directory of command files and the
      file system it lives in. */
  class InfoRepository {
    const directory: string
    var files: Files

    /** The directory is `str(Path(...))` of the configured path, which is
        never empty (`str(Path(""))` is `"."`). */
    constructor(directory: string, files: Files)
      requires |directory| > 0
      ensures this.directory == directory && this.files == files
    {
      this.directory := directory;
      this.files := files;
    }

    /** `read_info_command`: the text of the named command, or `None`. */
    method ReadInfoCommand(name: string) returns (content: Option<string>)
      ensures content == ReadInfo(files, directory, name)
    {
      var path := TxtPath(directory, name);
      if path in files {
        content := Some(files[path]);
      } else {
        return None;
      }
    }

    /** `remove_info_command`: deletes the named command's file and says
        whether there was one. */
    method RemoveInfoCommand(name: string) returns (found: bool)
      modifies this
      ensures found <==> TxtPath(directory, name) in old(files)
      ensures files == old(files) - {TxtPath(directory, name)}
    {
      var path := TxtPath(directory, name);
      found := path in files;
      if found {
        files := files - {path};
      }
    }

    /** `list_commands`: the command names of the directory, sorted. */
    method ListCommands() returns (names: seq<string>)
      ensures names == SortedNames(Commands(files, directory))
      ensures StrictlySorted(names)
      ensures forall n :: n in names <==> Join(directory, n + ".txt") in files && '/' !in n
    {
      names := SortNames(Commands(files, directory));
      forall n
        ensures n in names <==> Join(directory, n + ".txt") in files && '/' !in n
      {
        CommandsMembers(files, directory, n);
      }
    }

    /** `create_info_command`: writes (or overwrites) the named command's
        file. */
    method CreateInfoCommand(name: string, content: string)
      modifies this
      ensures files == old(files)[TxtPath(directory, name) := content]
    {
      files := files[TxtPath(directory, name) := content];
    }
  }
}
