/**
 * `execute_download` in scripts/model_manager.py: locating the download
 * script and assembling the shell command that runs it once per argument.
 * The file system is the set of paths that exist; running the command is
 * not modelled.
 */
module Download {
  import opened Options
  import opened Strings

  const ScriptDir: string := "/opt"
  const Separator: string := " && "

  /** The script under the fixed script directory. */
  function InScriptDir(scriptName: string): string
  {
    ScriptDir + "/" + scriptName
  }

  /**
   * Where the script is taken from: the script directory if the file is
   * there, else the bare name; `None` when neither exists.
   */
  function ScriptPath(scriptName: string, existing: set<string>): (r: Option<string>)
    ensures r.Some? <==> InScriptDir(scriptName) in existing || scriptName in existing
    ensures r.Some? ==> r.value in existing
    ensures InScriptDir(scriptName) in existing ==> r == Some(InScriptDir(scriptName))
    ensures InScriptDir(scriptName) !in existing && scriptName in existing ==> r == Some(scriptName)
  {
    if InScriptDir(scriptName) in existing then Some(InScriptDir(scriptName))
    else if scriptName in existing then Some(scriptName)
    else None
  }

  /** One step of the command: run the script with one argument. */
  function Segment(path: string, arg: string): string
  {
    "bash " + path + " " + arg
  }

  function Segments(path: string, args: seq<string>): (r: seq<string>)
    ensures |r| == |args|
    ensures forall i :: 0 <= i < |args| ==> r[i] == Segment(path, args[i])
  {
    seq(|args|, i requires 0 <= i < |args| => Segment(path, args[i]))
  }

  /**
   * Builds the command segment by segment, as the source's loop does, and
   * joins with " && ". The result is the join of the segments in argument
   * order, and every segment occurs in it.
   */
  method BuildCommand(path: string, args: seq<string>) returns (cmd: string)
    ensures cmd == Join(Separator, Segments(path, args))
    ensures forall i :: 0 <= i < |args| ==> Contains(cmd, Segment(path, args[i]))
    ensures |args| == 0 <==> cmd == ""
  {
    cmd := "";
    var i := 0;
    while i < |args|
      invariant 0 <= i <= |args|
      invariant cmd == Join(Separator, Segments(path, args[..i]))
    {
      var parts := Segments(path, args[..i]);
      assert Segments(path, args[..i + 1]) == parts + [Segment(path, args[i])];
      if i == 0 {
        cmd := Segment(path, args[i]);
      } else {
        JoinSnoc(Separator, parts, Segment(path, args[i]));
        cmd := cmd + Separator + Segment(path, args[i]);
      }
      i := i + 1;
    }
    assert args[..i] == args;
    JoinContainsParts(Separator, Segments(path, args));
    if |args| > 0 {
      JoinStartsWithFirst(Separator, Segments(path, args));
    }
  }

  lemma {:induction false} JoinStartsWithFirst(sep: string, parts: seq<string>)
    requires |parts| > 0
    ensures |Join(sep, parts)| >= |parts[0]|
    ensures Join(sep, parts)[..|parts[0]|] == parts[0]
  {
    if |parts| > 1 {
      var j := Join(sep, parts);
      assert j == parts[0] + (sep + Join(sep, parts[1..]));
    }
  }

  datatype DownloadOutcome =
    | ScriptNotFound(scriptName: string)
    | Executed(command: string)

  /**
   * `execute_download`: no command is built or run when the script exists
   * in neither place; otherwise the joined command over the found path.
   */
  method ExecuteDownload(scriptName: string, args: seq<string>, existing: set<string>)
    returns (out: DownloadOutcome)
    ensures out.ScriptNotFound? <==> InScriptDir(scriptName) !in existing && scriptName !in existing
    ensures out.ScriptNotFound? ==> out.scriptName == scriptName
    ensures out.Executed? ==>
      (exists p :: p in existing && (p == InScriptDir(scriptName) || p == scriptName)
        && out.command == Join(Separator, Segments(p, args)))
    ensures out.Executed? && InScriptDir(scriptName) in existing ==>
      out.command == Join(Separator, Segments(InScriptDir(scriptName), args))
    ensures ScriptPath(scriptName, existing).Some? ==>
      out == Executed(Join(Separator, Segments(ScriptPath(scriptName, existing).value, args)))
  {
    match ScriptPath(scriptName, existing)
    case None =>
      out := ScriptNotFound(scriptName);
    case Some(p) =>
      var cmd := BuildCommand(p, args);
      out := Executed(cmd);
  }
}
