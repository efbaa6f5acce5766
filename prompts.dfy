/**
 * The skill catalogue shown by the wizard and the command-line argument
 * scanner.
 */
module Prompts {
  import opened Outcomes
  import opened Text

  /** A catalogue category: its directory id, display name and advertised skill count. */
  datatype Category = Category(id: string, name: string, skills: nat)

  /** A skill offered for individual selection: "category/skill", or a standalone category id. */
  datatype SkillChoice = SkillChoice(id: string, name: string, category: string)

  const Categories: seq<Category> := [
    Category("01-model-architecture", "Model Architecture", 6),
    Category("02-tokenization", "Tokenization", 2),
    Category("03-fine-tuning", "Fine-Tuning", 5),
    Category("04-mechanistic-interpretability", "Mechanistic Interp.", 4),
    Category("05-data-processing", "Data Processing", 2),
    Category("06-post-training", "Post-Training", 8),
    Category("07-safety-alignment", "Safety & Alignment", 3),
    Category("08-distributed-training", "Distributed Training", 6),
    Category("09-infrastructure", "Infrastructure", 3),
    Category("10-optimization", "Optimization", 6),
    Category("11-evaluation", "Evaluation", 3),
    Category("12-inference-serving", "Inference Serving", 4),
    Category("13-mlops", "MLOps", 3),
    Category("14-agents", "Agents", 4),
    Category("15-rag", "RAG", 5),
    Category("16-prompt-engineering", "Prompt Engineering", 4),
    Category("17-observability", "Observability", 2),
    Category("18-multimodal", "Multimodal", 7),
    Category("19-emerging-techniques", "Emerging Techniques", 6),
    Category("20-ml-paper-writing", "ML Paper Writing", 1)
  ]

  const IndividualSkills: seq<SkillChoice> := [
    SkillChoice("06-post-training/grpo-rl-training", "GRPO Training", "Post-Training"),
    SkillChoice("06-post-training/verl", "verl", "Post-Training"),
    SkillChoice("06-post-training/slime", "slime", "Post-Training"),
    SkillChoice("06-post-training/miles", "miles", "Post-Training"),
    SkillChoice("06-post-training/torchforge", "torchforge", "Post-Training"),
    SkillChoice("06-post-training/trl-fine-tuning", "TRL", "Post-Training"),
    SkillChoice("06-post-training/openrlhf", "OpenRLHF", "Post-Training"),
    SkillChoice("06-post-training/simpo", "SimPO", "Post-Training"),
    SkillChoice("03-fine-tuning/axolotl", "Axolotl", "Fine-Tuning"),
    SkillChoice("03-fine-tuning/unsloth", "Unsloth", "Fine-Tuning"),
    SkillChoice("03-fine-tuning/torchtune", "Torchtune", "Fine-Tuning"),
    SkillChoice("12-inference-serving/vllm", "vLLM", "Inference"),
    SkillChoice("12-inference-serving/sglang", "SGLang", "Inference"),
    SkillChoice("12-inference-serving/tensorrt-llm", "TensorRT-LLM", "Inference"),
    SkillChoice("08-distributed-training/deepspeed", "DeepSpeed", "Training"),
    SkillChoice("08-distributed-training/fsdp", "FSDP", "Training"),
    SkillChoice("01-model-architecture/torchtitan", "TorchTitan", "Architecture"),
    SkillChoice("10-optimization/flash-attention", "Flash Attention", "Optimization"),
    SkillChoice("10-optimization/gptq", "GPTQ", "Optimization"),
    SkillChoice("13-mlops/wandb", "Weights & Biases", "MLOps"),
    SkillChoice("11-evaluation/lm-eval-harness", "lm-eval-harness", "Evaluation"),
    SkillChoice("16-prompt-engineering/dspy", "DSPy", "Prompting"),
    SkillChoice("15-rag/chroma", "Chroma", "RAG"),
    SkillChoice("20-ml-paper-writing", "ML Paper Writing", "Writing")
  ]

  const QuickStartSkills: seq<string> := [
    "06-post-training/grpo-rl-training",
    "06-post-training/verl",
    "06-post-training/trl-fine-tuning",
    "03-fine-tuning/axolotl",
    "03-fine-tuning/unsloth",
    "12-inference-serving/vllm",
    "12-inference-serving/sglang",
    "08-distributed-training/deepspeed",
    "10-optimization/flash-attention",
    "13-mlops/wandb",
    "11-evaluation/lm-eval-harness",
    "16-prompt-engineering/dspy",
    "15-rag/chroma",
    "20-ml-paper-writing"
  ]

  /** The sum of the advertised skill counts of `cs`. */
  function SkillSum(cs: seq<Category>): nat {
    if cs == [] then 0 else SkillSum(cs[..|cs| - 1]) + cs[|cs| - 1].skills
  }

  lemma {:induction false} SkillSumAppend(a: seq<Category>, b: seq<Category>)
    ensures SkillSum(a + b) == SkillSum(a) + SkillSum(b)
    decreases |b|
  {
    if b == [] {
      assert a + b == a;
    } else {
      assert (a + b)[..|a + b| - 1] == a + b[..|b| - 1];
      SkillSumAppend(a, b[..|b| - 1]);
    }
  }

  /** `getTotalSkillCount`: the catalogue advertises 84 skills. */
  function TotalSkillCount(): (n: nat)
    ensures n == SkillSum(Categories) == 84
  {
    SkillSumOfCatalogue();
    SkillSum(Categories)
  }

  /** The sum up to `n` is the sum up to `n - 1` and the count at `n - 1`. */
  lemma SkillSumStep(cs: seq<Category>, n: int)
    requires 0 < n <= |cs|
    ensures SkillSum(cs[..n]) == SkillSum(cs[..n - 1]) + cs[n - 1].skills
  {
    assert cs[..n][..n - 1] == cs[..n - 1];
  }

  lemma SkillSumOfCatalogue()
    ensures SkillSum(Categories) == 84
  {
    SkillSumUpTo5();
    SkillSumUpTo10();
    SkillSumUpTo15();
    SkillSumUpTo20();
    assert Categories[..20] == Categories;
  }

  lemma SkillSumUpTo5()
    ensures SkillSum(Categories[..5]) == 19
  {
    SkillSumStep(Categories, 1);
    SkillSumStep(Categories, 2);
    SkillSumStep(Categories, 3);
    SkillSumStep(Categories, 4);
    SkillSumStep(Categories, 5);
  }

  lemma SkillSumUpTo10()
    requires SkillSum(Categories[..5]) == 19
    ensures SkillSum(Categories[..10]) == 45
  {
    SkillSumStep(Categories, 6);
    SkillSumStep(Categories, 7);
    SkillSumStep(Categories, 8);
    SkillSumStep(Categories, 9);
    SkillSumStep(Categories, 10);
  }

  lemma SkillSumUpTo15()
    requires SkillSum(Categories[..10]) == 45
    ensures SkillSum(Categories[..15]) == 64
  {
    SkillSumStep(Categories, 11);
    SkillSumStep(Categories, 12);
    SkillSumStep(Categories, 13);
    SkillSumStep(Categories, 14);
    SkillSumStep(Categories, 15);
  }

  lemma SkillSumUpTo20()
    requires SkillSum(Categories[..15]) == 64
    ensures SkillSum(Categories[..20]) == 84
  {
    SkillSumStep(Categories, 16);
    SkillSumStep(Categories, 17);
    SkillSumStep(Categories, 18);
    SkillSumStep(Categories, 19);
    SkillSumStep(Categories, 20);
  }

  /** The category ids in catalogue order. */
  function CategoryIds(cs: seq<Category>): (ids: seq<string>)
    ensures |ids| == |cs| && forall i :: 0 <= i < |cs| ==> ids[i] == cs[i].id
  {
    seq(|cs|, i requires 0 <= i < |cs| => cs[i].id)
  }

  /** The ids of the individually selectable skills, in display order. */
  function IndividualIds(): (ids: seq<string>)
    ensures |ids| == |IndividualSkills| && forall i :: 0 <= i < |ids| ==> ids[i] == IndividualSkills[i].id
  {
    seq(|IndividualSkills|, i requires 0 <= i < |IndividualSkills| => IndividualSkills[i].id)
  }

  // ---------------------------------------------------------------------------
  // parseArgs

  datatype Command = Install | List | Update

  datatype Options = Options(
    command: Option<Command>,
    all: bool,
    category: Option<string>,
    skill: Option<string>,
    agent: Option<string>)

  const NoOptions := Options(None, false, None, None, None)

  /** How `parseArgs` classifies the argument at `i`, branch by branch in its order. */
  datatype ArgKind = CommandWord(command: Command) | AllFlag | AgentValue | CategoryValue | Word | Ignored

  function KindAt(args: seq<string>, i: int): ArgKind
    requires 0 <= i < |args|
  {
    var arg := args[i];
    if arg == "install" then CommandWord(Install)
    else if arg == "list" then CommandWord(List)
    else if arg == "update" then CommandWord(Update)
    else if arg == "--all" || arg == "-a" then AllFlag
    else if arg == "--agent" && i + 1 < |args| && args[i + 1] != "" then AgentValue
    else if arg == "--category" && i + 1 < |args| && args[i + 1] != "" then CategoryValue
    else if !StartsWith(arg, "-") then Word
    else Ignored
  }

  /** `args[i]` is swallowed as the value of a flag that was itself scanned. */
  predicate Consumed(args: seq<string>, i: int)
    decreases i
  {
    0 < i < |args| && !Consumed(args, i - 1) &&
    (KindAt(args, i - 1).AgentValue? || KindAt(args, i - 1).CategoryValue?)
  }

  /** `args[i]` is looked at as an argument in its own right. */
  predicate Scanned(args: seq<string>, i: int) {
    0 <= i < |args| && !Consumed(args, i)
  }

  /** What an argument position can do to the options record. */
  datatype Mark = CommandMark | AllMark | AgentMark | CategoryMark | SkillMark

  /** A command word is scanned at `i`. */
  predicate IsCommandAt(args: seq<string>, i: int) {
    Scanned(args, i) && KindAt(args, i).CommandWord?
  }

  /** Some command word is scanned before position `n`. */
  predicate CommandBefore(args: seq<string>, n: int)
    decreases n
  {
    0 < n && (IsCommandAt(args, n - 1) || CommandBefore(args, n - 1))
  }

  lemma {:induction false} CommandBeforeMeaning(args: seq<string>, n: int)
    ensures CommandBefore(args, n) <==> exists j :: 0 <= j < n && IsCommandAt(args, j)
    decreases n
  {
    if n > 0 {
      CommandBeforeMeaning(args, n - 1);
    }
  }

  /**
   * The scanned argument at `i` sets the field `m`; a plain word sets the skill
   * only while no command has been scanned before it.
   */
  predicate Marks(args: seq<string>, i: int, m: Mark) {
    Scanned(args, i) &&
    match m
    case CommandMark => KindAt(args, i).CommandWord?
    case AllMark => KindAt(args, i).AllFlag?
    case AgentMark => KindAt(args, i).AgentValue?
    case CategoryMark => KindAt(args, i).CategoryValue?
    case SkillMark => KindAt(args, i).Word? && !CommandBefore(args, i)
  }

  predicate NoMark(args: seq<string>, m: Mark) {
    forall i :: 0 <= i < |args| ==> !Marks(args, i, m)
  }

  /** `i` is the last position that sets `m`. */
  predicate LastMark(args: seq<string>, m: Mark, i: int) {
    Marks(args, i, m) && forall j :: i < j < |args| ==> !Marks(args, j, m)
  }

  /** The last position before `n` that sets `m`, or -1. */
  function Last(args: seq<string>, n: int, m: Mark): (r: int)
    requires 0 <= n <= |args|
    ensures -1 <= r < n
    ensures r >= 0 ==> Marks(args, r, m)
    decreases n
  {
    if n == 0 then -1 else if Marks(args, n - 1, m) then n - 1 else Last(args, n - 1, m)
  }

  lemma {:induction false} LastIsLast(args: seq<string>, n: int, m: Mark)
    requires 0 <= n <= |args|
    ensures forall j :: Last(args, n, m) < j < n ==> !Marks(args, j, m)
    decreases n
  {
    if n > 0 && !Marks(args, n - 1, m) {
      LastIsLast(args, n - 1, m);
    }
  }

  lemma LastMeaning(args: seq<string>, m: Mark)
    ensures Last(args, |args|, m) < 0 <==> NoMark(args, m)
    ensures Last(args, |args|, m) >= 0 ==> LastMark(args, m, Last(args, |args|, m))
  {
    LastIsLast(args, |args|, m);
  }

  /** A flag that takes a value is followed by that value. */
  lemma ValueFollows(args: seq<string>, i: int)
    requires Marks(args, i, AgentMark) || Marks(args, i, CategoryMark)
    ensures i + 1 < |args| && Consumed(args, i + 1)
  {
  }

  function CommandFrom(args: seq<string>, at: int): Option<Command>
    requires at < |args|
  {
    if at < 0 then None else if KindAt(args, at).CommandWord? then Some(KindAt(args, at).command) else None
  }

  function ValueFrom(args: seq<string>, at: int): Option<string>
    requires at < |args|
  {
    if at < 0 || at + 1 >= |args| then None else Some(args[at + 1])
  }

  function WordFrom(args: seq<string>, at: int): Option<string>
    requires at < |args|
  {
    if at < 0 then None else Some(args[at])
  }

  /** Scanning one more argument moves a last position to it exactly when it sets the field. */
  lemma LastStep(args: seq<string>, n: int, m: Mark)
    requires 0 <= n < |args|
    ensures Last(args, n + 1, m) == if Marks(args, n, m) then n else Last(args, n, m)
  {
  }

  /** `LastStep` for every field, read off the kind of the scanned argument. */
  lemma Advance(args: seq<string>, n: int)
    requires Scanned(args, n)
    ensures Last(args, n + 1, CommandMark) == if KindAt(args, n).CommandWord? then n else Last(args, n, CommandMark)
    ensures Last(args, n + 1, AllMark) == if KindAt(args, n).AllFlag? then n else Last(args, n, AllMark)
    ensures Last(args, n + 1, AgentMark) == if KindAt(args, n).AgentValue? then n else Last(args, n, AgentMark)
    ensures Last(args, n + 1, CategoryMark) == if KindAt(args, n).CategoryValue? then n else Last(args, n, CategoryMark)
    ensures Last(args, n + 1, SkillMark) ==
              if KindAt(args, n).Word? && Last(args, n, CommandMark) < 0 then n else Last(args, n, SkillMark)
  {
    LastStep(args, n, CommandMark);
    LastStep(args, n, AllMark);
    LastStep(args, n, AgentMark);
    LastStep(args, n, CategoryMark);
    LastStep(args, n, SkillMark);
    SkillNeedsNoCommand(args, n);
  }

  /** A swallowed value sets nothing. */
  lemma LastSkipsValue(args: seq<string>, n: int, m: Mark)
    requires Consumed(args, n + 1)
    ensures Last(args, n + 2, m) == Last(args, n + 1, m)
  {
    assert !Marks(args, n + 1, m);
  }

  /** Whether a plain word sets the skill depends only on whether a command was scanned before it. */
  lemma {:induction false} SkillNeedsNoCommand(args: seq<string>, n: int)
    requires 0 <= n <= |args|
    ensures CommandBefore(args, n) <==> Last(args, n, CommandMark) >= 0
    decreases n
  {
    if n > 0 {
      SkillNeedsNoCommand(args, n - 1);
    }
  }

  /** The options record as the last position setting each field leaves it. */
  function Parsed(args: seq<string>): Options {
    var n := |args|;
    Options(
      CommandFrom(args, Last(args, n, CommandMark)),
      Last(args, n, AllMark) >= 0,
      ValueFrom(args, Last(args, n, CategoryMark)),
      WordFrom(args, Last(args, n, SkillMark)),
      ValueFrom(args, Last(args, n, AgentMark)))
  }

  /**
   * What `parseArgs` promises: the last command word wins; `--all` or `-a`
   * anywhere sets `all`; `--agent` and `--category` take the next argument
   * when it is non-empty, that value is not scanned itself, and the last such
   * value wins; the last plain word scanned while no command has been seen is
   * the skill. Anything else leaves the record as it was.
   */
  lemma ParsedMeaning(args: seq<string>)
    ensures var o := Parsed(args);
      && (o.command.None? <==> NoMark(args, CommandMark))
      && (o.command.Some? ==> exists i :: LastMark(args, CommandMark, i) && KindAt(args, i) == CommandWord(o.command.value))
      && (o.all <==> !NoMark(args, AllMark))
      && (o.agent.None? <==> NoMark(args, AgentMark))
      && (o.agent.Some? ==> exists i :: LastMark(args, AgentMark, i) && Consumed(args, i + 1) && o.agent.value == args[i + 1])
      && (o.category.None? <==> NoMark(args, CategoryMark))
      && (o.category.Some? ==> exists i :: LastMark(args, CategoryMark, i) && Consumed(args, i + 1) && o.category.value == args[i + 1])
      && (o.skill.None? <==> NoMark(args, SkillMark))
      && (o.skill.Some? ==> exists i :: LastMark(args, SkillMark, i) && o.skill.value == args[i])
  {
    LastMeaning(args, CommandMark);
    LastMeaning(args, AllMark);
    LastMeaning(args, AgentMark);
    LastMeaning(args, CategoryMark);
    LastMeaning(args, SkillMark);
    var o := Parsed(args);
    if o.agent.Some? { ValueFollows(args, Last(args, |args|, AgentMark)); }
    if o.category.Some? { ValueFollows(args, Last(args, |args|, CategoryMark)); }
  }

  /**
   * `parseArgs`: scans left to right. The last command word wins; `--all` or
   * `-a` anywhere sets `all`; `--agent` and `--category` take the next argument
   * when it is non-empty, and that value is not scanned itself (the last such
   * value wins); the last plain word seen while no command has been scanned is
   * the skill. Anything else leaves the record as it was.
   */
  method ParseArgs(args: seq<string>) returns (o: Options)
    ensures o == Parsed(args)
  {
    o := NoOptions;
    var i := 0;
    while i < |args|
      invariant 0 <= i <= |args|
      invariant i < |args| ==> !Consumed(args, i)
      invariant OptionsAfter(args, i, o)
    {
      o, i := ScanArgument(args, i, o);
    }
  }

  /** The options record after scanning `args[..n]`. */
  predicate OptionsAfter(args: seq<string>, n: int, o: Options)
    requires 0 <= n <= |args|
  {
    o.command == CommandFrom(args, Last(args, n, CommandMark)) &&
    o.all == (Last(args, n, AllMark) >= 0) &&
    o.agent == ValueFrom(args, Last(args, n, AgentMark)) &&
    o.category == ValueFrom(args, Last(args, n, CategoryMark)) &&
    o.skill == WordFrom(args, Last(args, n, SkillMark))
  }

  /** One turn of the scanning loop: the argument at `i`, and the value it swallows if it is a flag that takes one. */
  method ScanArgument(args: seq<string>, i: int, o: Options) returns (o': Options, next: int)
    requires Scanned(args, i) && OptionsAfter(args, i, o)
    ensures next == if KindAt(args, i).AgentValue? || KindAt(args, i).CategoryValue? then i + 2 else i + 1
    ensures next <= |args| && (next < |args| ==> !Consumed(args, next))
    ensures OptionsAfter(args, next, o')
  {
    var arg := args[i];
    o', next := o, i + 1;
    if arg == "install" {
      CommandStep(args, i, o, Install);
      o' := o.(command := Some(Install));
    } else if arg == "list" {
      CommandStep(args, i, o, List);
      o' := o.(command := Some(List));
    } else if arg == "update" {
      CommandStep(args, i, o, Update);
      o' := o.(command := Some(Update));
    } else if arg == "--all" || arg == "-a" {
      AllStep(args, i, o);
      o' := o.(all := true);
    } else if arg == "--agent" && i + 1 < |args| && args[i + 1] != "" {
      AgentStep(args, i, o);
      o' := o.(agent := Some(args[i + 1]));
      next := i + 2;
    } else if arg == "--category" && i + 1 < |args| && args[i + 1] != "" {
      CategoryStep(args, i, o);
      o' := o.(category := Some(args[i + 1]));
      next := i + 2;
    } else if !StartsWith(arg, "-") && o.command.None? {
      WordStep(args, i, o);
      o' := o.(skill := Some(arg));
    } else {
      IgnoredStep(args, i, o);
    }
  }

  lemma CommandStep(args: seq<string>, i: int, o: Options, c: Command)
    requires Scanned(args, i) && OptionsAfter(args, i, o) && KindAt(args, i) == CommandWord(c)
    ensures OptionsAfter(args, i + 1, o.(command := Some(c)))
  {
    Advance(args, i);
  }

  lemma AllStep(args: seq<string>, i: int, o: Options)
    requires Scanned(args, i) && OptionsAfter(args, i, o) && KindAt(args, i) == AllFlag
    ensures OptionsAfter(args, i + 1, o.(all := true))
  {
    Advance(args, i);
  }

  lemma AgentStep(args: seq<string>, i: int, o: Options)
    requires Scanned(args, i) && OptionsAfter(args, i, o) && KindAt(args, i) == AgentValue
    ensures i + 1 < |args| && OptionsAfter(args, i + 2, o.(agent := Some(args[i + 1])))
    ensures i + 2 < |args| ==> !Consumed(args, i + 2)
  {
    Advance(args, i);
    SkipValue(args, i);
  }

  lemma CategoryStep(args: seq<string>, i: int, o: Options)
    requires Scanned(args, i) && OptionsAfter(args, i, o) && KindAt(args, i) == CategoryValue
    ensures i + 1 < |args| && OptionsAfter(args, i + 2, o.(category := Some(args[i + 1])))
    ensures i + 2 < |args| ==> !Consumed(args, i + 2)
  {
    Advance(args, i);
    SkipValue(args, i);
  }

  lemma WordStep(args: seq<string>, i: int, o: Options)
    requires Scanned(args, i) && OptionsAfter(args, i, o) && KindAt(args, i) == Word && o.command.None?
    ensures OptionsAfter(args, i + 1, o.(skill := Some(args[i])))
  {
    Advance(args, i);
  }

  lemma IgnoredStep(args: seq<string>, i: int, o: Options)
    requires Scanned(args, i) && OptionsAfter(args, i, o)
    requires KindAt(args, i) == Ignored || (KindAt(args, i) == Word && o.command.Some?)
    ensures OptionsAfter(args, i + 1, o)
  {
    Advance(args, i);
  }

  /** The value after a flag that takes one sets nothing, and the argument after it is scanned. */
  lemma SkipValue(args: seq<string>, n: int)
    requires Consumed(args, n + 1)
    ensures Last(args, n + 2, CommandMark) == Last(args, n + 1, CommandMark)
    ensures Last(args, n + 2, AllMark) == Last(args, n + 1, AllMark)
    ensures Last(args, n + 2, AgentMark) == Last(args, n + 1, AgentMark)
    ensures Last(args, n + 2, CategoryMark) == Last(args, n + 1, CategoryMark)
    ensures Last(args, n + 2, SkillMark) == Last(args, n + 1, SkillMark)
    ensures n + 2 < |args| ==> !Consumed(args, n + 2)
  {
    LastSkipsValue(args, n, CommandMark);
    LastSkipsValue(args, n, AllMark);
    LastSkipsValue(args, n, AgentMark);
    LastSkipsValue(args, n, CategoryMark);
    LastSkipsValue(args, n, SkillMark);
  }
}
