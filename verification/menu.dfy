/**
 * The selection menu of `main` in scripts/model_manager.py: the dialog menu
 * is a flat list of (tag, label) pairs, the returned tag is parsed back to
 * an index, and the chosen workflow either triggers a download or, when it
 * has no script, only a message. The dialog itself is an input: the tag it
 * returned (`None` on cancel) and the answer to the confirmation box.
 */
module Menu {
  import opened Options
  import opened Strings
  import opened Matching
  import opened Download

  /** The flat `[str(0), name_0, str(1), name_1, ...]` list passed to `dialog --menu`. */
  function MenuItems(workflows: seq<WorkflowEntry>): (items: seq<string>)
    ensures |items| == 2 * |workflows|
    ensures forall i :: 0 <= i < |workflows| ==>
      items[2 * i] == NatToString(i) && items[2 * i + 1] == workflows[i].config.Name()
  {
    if |workflows| == 0 then []
    else
      var n := |workflows| - 1;
      var prefix := MenuItems(workflows[..n]);
      assert forall i :: 0 <= i < n ==> workflows[..n][i] == workflows[i];
      prefix + [NatToString(n), workflows[n].config.Name()]
  }

  /** What one pass of the menu loop does with the dialog's answer. */
  datatype MenuAction =
    | Exit                                        // cancel or empty answer
    | Crash                                       // `int(choice)` or the index raised
    | NoScript(file: string)                      // "No download script mapped" message
    | Declined(file: string)                      // the confirmation box was answered No
    | Download(file: string, outcome: DownloadOutcome)

  /** The script to run, when the entry has a non-empty one (`if not config["script"]`). */
  function UsableScript(c: Config): (r: Option<string>)
    ensures r.Some? <==> c.Script().Some? && c.Script().value != ""
    ensures r.Some? ==> r == c.Script()
  {
    match c.Script()
    case None => None
    case Some(s) => if s == "" then None else Some(s)
  }

  /** The entry the answer selects, or `None` when the tag is not an index of the list. */
  function Selected(workflows: seq<WorkflowEntry>, tag: string): (r: Option<nat>)
    ensures r.Some? ==> r.value < |workflows|
    ensures r.Some? <==> ParseNat(tag).Some? && ParseNat(tag).value < |workflows|
  {
    match ParseNat(tag)
    case None => None
    case Some(i) => if i < |workflows| then Some(i) else None
  }

  /**
   * The download ran the entry's script over its args: not found exactly
   * when neither location exists, otherwise the joined command over the
   * location `execute_download` picks.
   */
  predicate RunsScript(outcome: DownloadOutcome, script: string, args: seq<string>, existing: set<string>)
  {
    && (outcome.ScriptNotFound? <==> ScriptPath(script, existing).None?)
    && (outcome.ScriptNotFound? ==> outcome.scriptName == script)
    && (ScriptPath(script, existing).Some? ==>
          outcome == Executed(Join(Separator, Segments(ScriptPath(script, existing).value, args))))
  }

  /**
   * One pass of the menu loop: exit on cancel, index the list by the tag,
   * show a message for entries without a script, and run the download only
   * after confirmation.
   */
  method HandleChoice(workflows: seq<WorkflowEntry>, choice: Option<string>, confirmed: bool,
                      existing: set<string>)
    returns (action: MenuAction)
    ensures choice.None? || choice == Some("") ==> action == Exit
    ensures action.Download? ==>
      choice.Some? && Selected(workflows, choice.value).Some? && confirmed
      && var w := workflows[Selected(workflows, choice.value).value];
         UsableScript(w.config).Some? && action.file == w.file
    ensures action.NoScript? ==>
      choice.Some? && Selected(workflows, choice.value).Some?
      && var w := workflows[Selected(workflows, choice.value).value];
         UsableScript(w.config).None? && action.file == w.file
    ensures action == Crash <==>
      choice.Some? && choice.value != "" && Selected(workflows, choice.value).None?
    ensures choice.Some? && choice.value != "" && Selected(workflows, choice.value).Some? ==>
      var w := workflows[Selected(workflows, choice.value).value];
      && (UsableScript(w.config).None? ==> action == NoScript(w.file))
      && (UsableScript(w.config).Some? && !confirmed ==> action == Declined(w.file))
      && (UsableScript(w.config).Some? && confirmed ==>
            action.Download? && action.file == w.file
            && RunsScript(action.outcome, UsableScript(w.config).value, w.config.Args(), existing))
  {
    if choice.None? || choice.value == "" {
      return Exit;
    }
    match Selected(workflows, choice.value)
    case None =>
      action := Crash;
    case Some(i) =>
      var w := workflows[i];
      match UsableScript(w.config)
      case None =>
        action := NoScript(w.file);
      case Some(script) =>
        if !confirmed {
          action := Declined(w.file);
        } else {
          var outcome := ExecuteDownload(script, w.config.Args(), existing);
          action := Download(w.file, outcome);
        }
  }

  /**
   * The menu round trip: answering with the tag shown for entry `i` selects
   * entry `i`, and an entry without a script never starts a download.
   */
  lemma ChoosingTagSelectsEntry(workflows: seq<WorkflowEntry>, i: nat)
    requires i < |workflows|
    ensures Selected(workflows, MenuItems(workflows)[2 * i]) == Some(i)
    ensures workflows[i].config.Script().None? ==>
      UsableScript(workflows[Selected(workflows, MenuItems(workflows)[2 * i]).value].config).None?
  {
    ParseNatToString(i);
  }
}
