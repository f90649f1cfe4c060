/** The After Effects script wrapper of automarkerQt.py (`AE_JSWrapper`):
    the list of script commands being built, the command that writes a
    value back to the return file, and the reading of that file. The file
    system is not modelled: the return file's lines are an input. */
module AfterEffects {
  import opened Text

  const ReturnFileName := "ae_temp_ret.txt"
  const ReturnFolderName := "AutoMarker"

  /** The marker that the return file's path replaces in a command. */
  const Placeholder := "[DATAFILEPATH]"

  /** The fixed text of a data-out command around the request and the
      placeholder, line by line (line breaks and indentation as the program
      writes them). */
  const CommandHead := "\n            var retVal = "
  const AskLine := "; // Ask for some " + "kind of info " + "about something. \n"
  const BlankLine := "            \n"
  const CommentLine := "            // Write to temp file. \n"
  const OpenFileStart := "            var datFile = new File(\""
  const OpenFileEnd := "\"); \n"
  const OpenLine := "            datFile.open(\"w\"); \n"
  const WriteLine := "            datFile.writeln(" + "String(retVal)); " + "// return the data " + "cast as a string.  \n"
  const CloseLine := "            datFile.close();\n"
  const Indent := "            "
  const CommandMiddle := AskLine + BlankLine + CommentLine + OpenFileStart
  const CommandTail := OpenFileEnd + OpenLine + WriteLine + CloseLine + Indent

  /** The return file's path as the script host wants it: backslashes
      turned into `/`, colons dropped, lower-cased, and a leading `/`. */
  function CleanReturnPath(path: string): (r: string)
    ensures |r| >= 1 && r[0] == '/'
  {
    "/" + Lower(Replace(Replace(path, "\\", "/"), ":", ""))
  }

  /** The cleaned path holds no backslash and no colon, and a path that is
      already lower-case with forward slashes only gains the leading `/`. */
  lemma CleanReturnPathSpec(path: string)
    ensures '\\' !in CleanReturnPath(path) && ':' !in CleanReturnPath(path)
    ensures '\\' !in path && ':' !in path && (forall i :: 0 <= i < |path| ==> !('A' <= path[i] <= 'Z'))
            ==> CleanReturnPath(path) == "/" + path
  {
    var slashed := Replace(path, "\\", "/");
    var plain := Replace(slashed, ":", "");
    ReplaceChars(path, "\\", "/", '\\');
    ReplaceChars(slashed, ":", "", '\\');
    ReplaceChars(slashed, ":", "", ':');
    LowerKeeps(plain);
    assert CleanReturnPath(path) == "/" + Lower(plain);
    if '\\' !in path && ':' !in path && (forall i :: 0 <= i < |path| ==> !('A' <= path[i] <= 'Z')) {
      ReplaceAbsent(path, "\\", "/");
      ReplaceAbsent(slashed, ":", "");
    }
  }

  /** The command `jsWriteDataOut` builds for a request: the template with
      the request formatted in, then every placeholder replaced by the
      cleaned return path. */
  function DataOutCommand(request: string, returnFile: string): string {
    Replace(CommandHead + request + CommandMiddle + Placeholder + CommandTail,
            Placeholder, CleanReturnPath(returnFile))
  }

  /** No fixed part of the template can start a placeholder. */
  lemma MiddleLacksBracket()
    ensures '[' !in CommandMiddle
  {
    AskLineLacksBracket();
    OpeningLinesLackBracket();
  }

  lemma TailLacksBracket()
    ensures '[' !in CommandTail
  {
    OpenLineLacksBracket();
    WriteLineLacksBracket();
    CloseLinesLackBracket();
  }

  lemma AskLineLacksBracket()
    ensures '[' !in AskLine
  {
    assert '[' !in "; // Ask for some ";
    assert '[' !in "kind of info ";
    assert '[' !in "about something. \n";
  }

  lemma OpeningLinesLackBracket()
    ensures '[' !in BlankLine && '[' !in CommentLine && '[' !in OpenFileStart
  {
  }

  lemma OpenLineLacksBracket()
    ensures '[' !in OpenFileEnd && '[' !in OpenLine
  {
  }

  lemma WriteLineLacksBracket()
    ensures '[' !in WriteLine
  {
    assert '[' !in "            datFile.writeln(";
    assert '[' !in "String(retVal)); ";
    assert '[' !in "// return the data ";
    assert '[' !in "cast as a string.  \n";
  }

  lemma CloseLinesLackBracket()
    ensures '[' !in CloseLine && '[' !in Indent
  {
  }

  /** For any request in which the placeholder does not occur, the command
      is the template with the request in its slot and the cleaned return
      path in the place of the placeholder; the request text itself is left
      alone. */
  lemma DataOutCommandEmbedsPath(request: string, returnFile: string)
    requires forall i :: !OccursAt(request, Placeholder, i)
    ensures DataOutCommand(request, returnFile)
            == CommandHead + request + CommandMiddle + CleanReturnPath(returnFile) + CommandTail
  {
    NoPlaceholderBefore(request);
    TailLacksBracket();
    ReplaceAround(CommandHead + request + CommandMiddle, CommandTail, Placeholder, CleanReturnPath(returnFile));
  }

  /** No placeholder starts before the template's own: not in the fixed
      text, which holds no `[`, not inside the request, and not across the
      request's end, since the text after it starts with `;`, which the
      placeholder does not hold. */
  lemma NoPlaceholderBefore(request: string)
    requires forall i :: !OccursAt(request, Placeholder, i)
    ensures var before := CommandHead + request + CommandMiddle;
            forall i :: 0 <= i < |before| ==> !OccursAt(before + Placeholder + CommandTail, Placeholder, i)
  {
    MiddleLacksBracket();
    assert Placeholder[0] == '[' && '[' !in CommandHead;
    assert ';' !in Placeholder[1..];
    assert CommandMiddle[0] == ';' by {
      assert AskLine[0] == ';';
    }
    NoOccurrenceBefore(CommandHead, request, CommandMiddle, Placeholder + CommandTail, Placeholder);
    assert CommandHead + request + CommandMiddle + (Placeholder + CommandTail)
           == CommandHead + request + CommandMiddle + Placeholder + CommandTail;
  }

  class JSWrapper {
    /** The script lines of the command group being built. */
    var commands: seq<string>
    /** Where the host writes values asked for by `WriteDataOut`. */
    const returnFile: string

    /** The wrapper as created on Windows: an empty `returnFolder` means the
        `AutoMarker` folder under the temporary directory. */
    constructor(returnFolder: string, tempDir: string)
      ensures returnFile == Join(if returnFolder == [] then Join(tempDir, ReturnFolderName) else returnFolder,
                                 ReturnFileName)
      ensures commands == []
    {
      var folder := returnFolder;
      if |folder| == 0 {
        folder := Join(tempDir, ReturnFolderName);
      }
      returnFile := Join(folder, ReturnFileName);
      commands := [];
    }

    /** `jsNewCommandGroup`: start a new, empty command group. */
    method NewCommandGroup()
      modifies this
      ensures commands == []
    {
      commands := [];
    }

    /** `jsWriteDataOut`: append exactly one command, which writes the
        requested value to the return file; earlier commands are kept. */
    method WriteDataOut(request: string)
      modifies this
      ensures commands == old(commands) + [DataOutCommand(request, returnFile)]
      ensures |commands| == |old(commands)| + 1
      ensures forall i :: 0 <= i < |old(commands)| ==> commands[i] == old(commands)[i]
    {
      var com := CommandHead + request + CommandMiddle + Placeholder + CommandTail;
      var returnFileClean := "/" + Lower(Replace(Replace(returnFile, "\\", "/"), ":", ""));
      com := Replace(com, Placeholder, returnFileClean);
      commands := commands + [com];
    }

    /** The part of `readReturn` after the file has changed: one string per
        line read, in file order, each without its trailing whitespace. */
    method ReadReturn(content: seq<string>) returns (res: seq<string>)
      ensures |res| == |content|
      ensures forall i :: 0 <= i < |content| ==> res[i] == RStrip(content[i])
    {
      res := [];
      for i := 0 to |content|
        invariant |res| == i
        invariant forall j :: 0 <= j < i ==> res[j] == RStrip(content[j])
      {
        res := res + [RStrip(content[i])];
      }
    }
  }

  /** Reading a return file back gives lines that end in no whitespace, so
      stripping them again changes nothing. */
  lemma ReadLinesAreStripped(content: seq<string>, i: nat)
    requires i < |content|
    ensures RStrip(content[i]) == [] || !IsSpace(RStrip(content[i])[|RStrip(content[i])| - 1])
    ensures RStrip(RStrip(content[i])) == RStrip(content[i])
  {
  }
}
