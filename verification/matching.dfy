/**
 * Matching workflow files to download actions (`WORKFLOW_MAPPINGS` and
 * `find_workflows` in scripts/model_manager.py). Each `.json` file name is
 * tested against an ordered rule table; the first rule whose keywords all
 * occur in the name wins, except that a name containing "Edit" skips the
 * plain Qwen-Image rules. Unmatched files get an "Unknown" entry, and the
 * entries are sorted by display name.
 */
module Matching {
  import opened Options
  import opened Strings
  import opened Sorting

  /** One row of the rule table. */
  datatype Mapping = Mapping(keywords: seq<string>, script: string, args: seq<string>, name: string)

  /** The `config` of a found workflow: the winning rule, or the fallback for an unmatched file. */
  datatype Config = Mapped(rule: Mapping) | Unknown(file: string)
  {
    function Name(): string
    {
      match this
      case Mapped(m) => m.name
      case Unknown(f) => "Unknown: " + f
    }

    function Script(): Option<string>
    {
      match this
      case Mapped(m) => Some(m.script)
      case Unknown(_) => None
    }

    function Args(): seq<string>
    {
      match this
      case Mapped(m) => m.args
      case Unknown(_) => []
    }
  }

  datatype WorkflowEntry = WorkflowEntry(file: string, config: Config)

  const WorkflowMappings: seq<Mapping> := [
    Mapping(["Hunyuan", "i2v"], "get_hunyuan15.sh", ["common", "720p-i2v", "lora"],
            "HunyuanVideo 1.5 - Image to Video (720p)"),
    Mapping(["Hunyuan", "t2v"], "get_hunyuan15.sh", ["common", "720p-t2v", "lora"],
            "HunyuanVideo 1.5 - Text to Video (720p)"),
    Mapping(["Wan2.2", "I2V", "A14B"], "get_wan22.sh", ["common", "14b-i2v", "lora"],
            "Wan 2.2 - Image to Video (14B)"),
    Mapping(["Wan2.2", "T2V", "A14B"], "get_wan22.sh", ["common", "14b-t2v", "lora"],
            "Wan 2.2 - Text to Video (14B)"),
    Mapping(["Qwen-Image", "LoRA"], "get_qwen_image.sh", ["3"],
            "Qwen Image + Lightning LoRA (4-steps)"),
    Mapping(["Qwen-Image"], "get_qwen_image.sh", ["1"],
            "Qwen Image (Base 20B)"),
    Mapping(["Qwen-Image-Edit", "LoRA"], "get_qwen_image.sh", ["4"],
            "Qwen Image Edit + Lightning LoRA"),
    Mapping(["Qwen-Image-Edit"], "get_qwen_image.sh", ["2"],
            "Qwen Image Edit (Base)")
  ]

  /** Every keyword of the rule is a substring of the file name. */
  predicate KeywordsMatch(m: Mapping, filename: string)
  {
    forall k :: k in m.keywords ==> Contains(filename, k)
  }

  /** The rule is a plain Qwen-Image rule (it lists "Qwen-Image" but not "Edit"). */
  predicate IsBaseQwenRule(m: Mapping)
  {
    "Qwen-Image" in m.keywords && "Edit" !in m.keywords
  }

  /** The rule applies to the file: keywords match and the Edit exclusion does not skip it. */
  predicate Selects(m: Mapping, filename: string)
  {
    KeywordsMatch(m, filename) && !(IsBaseQwenRule(m) && Contains(filename, "Edit"))
  }

  /** Index of the first rule, in table order, that selects the file. */
  function FirstMatch(rules: seq<Mapping>, filename: string): (r: Option<nat>)
    ensures r.Some? ==> r.value < |rules| && Selects(rules[r.value], filename)
    ensures r.Some? ==> forall j :: 0 <= j < r.value ==> !Selects(rules[j], filename)
    ensures r.None? ==> forall j :: 0 <= j < |rules| ==> !Selects(rules[j], filename)
  {
    if |rules| == 0 then None
    else if Selects(rules[0], filename) then Some(0)
    else
      match FirstMatch(rules[1..], filename)
      case None => None
      case Some(i) => Some(i + 1)
  }

  /** The entry `find_workflows` records for one file name. */
  function Classify(filename: string): (e: WorkflowEntry)
    ensures e.file == filename
    ensures e.config.Mapped? ==>
      exists i :: 0 <= i < |WorkflowMappings| && WorkflowMappings[i] == e.config.rule
        && Selects(WorkflowMappings[i], filename)
        && forall j :: 0 <= j < i ==> !Selects(WorkflowMappings[j], filename)
    ensures e.config.Mapped? && Contains(filename, "Edit") ==> !IsBaseQwenRule(e.config.rule)
    ensures e.config.Unknown? <==>
      forall i :: 0 <= i < |WorkflowMappings| ==> !Selects(WorkflowMappings[i], filename)
    ensures e.config.Unknown? ==>
      e.config.Name() == "Unknown: " + filename && e.config.Script() == None && e.config.Args() == []
  {
    match FirstMatch(WorkflowMappings, filename)
    case Some(i) => WorkflowEntry(filename, Mapped(WorkflowMappings[i]))
    case None => WorkflowEntry(filename, Unknown(filename))
  }

  /** The names `Path.glob("*.json")` yields from a directory listing, in listing order. */
  function JsonFiles(listing: seq<string>): seq<string>
  {
    WithSuffix(listing, ".json")
  }

  function ClassifyAll(files: seq<string>): (r: seq<WorkflowEntry>)
    ensures |r| == |files|
    ensures forall i :: 0 <= i < |files| ==> r[i] == Classify(files[i])
  {
    seq(|files|, i requires 0 <= i < |files| => Classify(files[i]))
  }

  function EntryName(e: WorkflowEntry): string
  {
    e.config.Name()
  }

  /**
   * `find_workflows` over a directory listing: one classified entry per
   * `.json` name, sorted (stably) by display name.
   */
  function FindWorkflows(listing: seq<string>): (r: seq<WorkflowEntry>)
    ensures SortedBy(r, EntryName)
    ensures multiset(r) == multiset(ClassifyAll(JsonFiles(listing)))
    ensures |r| == |JsonFiles(listing)|
    ensures forall e :: e in r ==> e == Classify(e.file) && e.file in listing && EndsWith(e.file, ".json")
    ensures forall f :: EndsWith(f, ".json") ==> multiset(r)[Classify(f)] == multiset(listing)[f]
  {
    var json := JsonFiles(listing);
    var r := SortBy(ClassifyAll(json), EntryName);
    forall e | e in r
      ensures e == Classify(e.file) && e.file in listing && EndsWith(e.file, ".json")
    {
      assert e in multiset(ClassifyAll(json));
      var i :| 0 <= i < |json| && ClassifyAll(json)[i] == e;
    }
    forall f | EndsWith(f, ".json")
      ensures multiset(r)[Classify(f)] == multiset(listing)[f]
    {
      ClassifyCount(json, f);
    }
    r
  }

  /** Classified entries are counted exactly as their file names are. */
  lemma ClassifyCount(files: seq<string>, f: string)
    ensures multiset(ClassifyAll(files))[Classify(f)] == multiset(files)[f]
  {
    forall a, b | Classify(a) == Classify(b)
      ensures a == b
    {
      assert Classify(a).file == a && Classify(b).file == b;
    }
    CountUnderInjection(files, ClassifyAll(files), Classify, f);
  }

  /** Mapping a sequence through an injective function keeps every element's count. */
  lemma {:induction false} CountUnderInjection<A, B>(xs: seq<A>, ys: seq<B>, g: A -> B, x: A)
    requires |ys| == |xs| && forall i :: 0 <= i < |xs| ==> ys[i] == g(xs[i])
    requires forall a, b :: g(a) == g(b) ==> a == b
    ensures multiset(ys)[g(x)] == multiset(xs)[x]
  {
    if |xs| > 0 {
      assert xs == [xs[0]] + xs[1..];
      assert ys == [ys[0]] + ys[1..];
      CountUnderInjection(xs[1..], ys[1..], g, x);
    }
  }

  /**
   * A name holding both "Qwen-Image-Edit" and "LoRA" is always mapped to a
   * rule, and never to one of the plain Qwen-Image rules; unless it also
   * names a Hunyuan or Wan 2.2 model, the rule is Qwen Image Edit + LoRA.
   */
  lemma EditLoraNeverBaseQwen(filename: string)
    requires Contains(filename, "Qwen-Image-Edit") && Contains(filename, "LoRA")
    ensures Classify(filename).config.Mapped?
    ensures Classify(filename).config.rule != WorkflowMappings[4]
    ensures Classify(filename).config.rule != WorkflowMappings[5]
    ensures !Contains(filename, "Hunyuan") && !Contains(filename, "Wan2.2") ==>
      Classify(filename).config.rule == WorkflowMappings[6]
  {
    EditLoraRuleSelects(filename);
    BaseQwenRulesSkipped(filename);
    if !Contains(filename, "Hunyuan") && !Contains(filename, "Wan2.2") {
      VideoRulesSkipped(filename);
    }
  }

  /** The Qwen Image Edit + LoRA rule selects any name holding both of its keywords. */
  lemma EditLoraRuleSelects(filename: string)
    requires Contains(filename, "Qwen-Image-Edit") && Contains(filename, "LoRA")
    ensures Selects(WorkflowMappings[6], filename)
  {
    var edit := WorkflowMappings[6];
    assert edit.keywords == ["Qwen-Image-Edit", "LoRA"];
    assert KeywordsMatch(edit, filename);
    assert !IsBaseQwenRule(edit);
  }

  /** A name holding "Qwen-Image-Edit" holds "Edit", so both plain Qwen-Image rules skip it. */
  lemma BaseQwenRulesSkipped(filename: string)
    requires Contains(filename, "Qwen-Image-Edit")
    ensures !Selects(WorkflowMappings[4], filename) && !Selects(WorkflowMappings[5], filename)
  {
    assert Contains("Qwen-Image-Edit", "Edit") by {
      assert OccursAt("Qwen-Image-Edit", "Edit", 11);
    }
    ContainsTransitive(filename, "Qwen-Image-Edit", "Edit");
    assert IsBaseQwenRule(WorkflowMappings[4]) && IsBaseQwenRule(WorkflowMappings[5]);
  }

  /** The Hunyuan and Wan 2.2 rules need their model name in the file name. */
  lemma VideoRulesSkipped(filename: string)
    requires !Contains(filename, "Hunyuan") && !Contains(filename, "Wan2.2")
    ensures forall j :: 0 <= j < 4 ==> !Selects(WorkflowMappings[j], filename)
  {
    assert "Hunyuan" in WorkflowMappings[0].keywords && "Hunyuan" in WorkflowMappings[1].keywords;
    assert "Wan2.2" in WorkflowMappings[2].keywords && "Wan2.2" in WorkflowMappings[3].keywords;
  }
}
