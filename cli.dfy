/**
 * The entry point: `main` chooses between the direct command mode and the
 * guided wizard, `commandMode` turns the parsed options into one call of the
 * installer, and `interactiveFlow` walks the wizard's screens, driven by the
 * answers given to its prompts.
 *
 * Neither mode is run against the file system here: each produces the
 * sequence of installer calls it makes, as `Effect`s, and how it ends.
 */
module Cli {
  import opened Outcomes
  import opened Text
  import opened Prompts
  import opened Agents
  import opened Installer
  import opened Catalogue

  /** One call into the installer. */
  datatype Effect =
    | ViewInstalled                                          // listInstalledSkills()
    | UpdateAll(agents: seq<Agent>)                          // installSkills(getAllCategoryIds(), agents), for "update"
    | InstallCategories(categories: seq<string>, agents: seq<Agent>)  // installSkills(categories, agents)
    | InstallSpecific(skills: seq<string>, agents: seq<Agent>)        // installSpecificSkills(skills, agents)

  /** How a session ends. */
  datatype End =
    | Finished            // the mode ran to its end
    | Exited              // "Exit" was chosen
    | NoAgents            // no coding agent was detected
    | NotFound(term: string)  // `commandMode`: no category matches the skill term
    | AwaitingAnswer      // the wizard still waits for an answer

  datatype Session = Session(effects: seq<Effect>, end: End)

  // ---------------------------------------------------------------------------
  // main

  /** JavaScript truthiness of an optional string: present and non-empty. */
  predicate Truthy(v: Option<string>) {
    v.Some? && v.value != ""
  }

  datatype Mode = CommandMode | Wizard

  /** `main`: the command mode when a command, `--all`, a category or a skill term was given. */
  function ModeFor(o: Options): Mode {
    if o.command.Some? || o.all || Truthy(o.category) || Truthy(o.skill) then CommandMode else Wizard
  }

  /** `main(args)`: the session the chosen mode produces. */
  function Main(args: seq<string>, detected: seq<Agent>, answers: seq<Answer>): Session {
    var o := Parsed(args);
    if ModeFor(o) == CommandMode then RunCommand(o, Offered(), detected) else Flow(detected, answers)
  }

  /** The wizard runs exactly when no argument names a command, `--all`, a category or a non-empty skill term. */
  lemma ModeOfArguments(args: seq<string>)
    ensures ModeFor(Parsed(args)) == Wizard <==>
      NoMark(args, CommandMark) && NoMark(args, AllMark) && NoMark(args, CategoryMark) &&
      (NoMark(args, SkillMark) || Parsed(args).skill == Some(""))
  {
    ParsedMeaning(args);
    var o := Parsed(args);
    if o.category.Some? {
      var i :| LastMark(args, CategoryMark, i) && Consumed(args, i + 1) && o.category.value == args[i + 1];
      assert KindAt(args, i).CategoryValue?;
    }
  }

  /** No arguments start the wizard. */
  lemma NoArgumentsStartWizard(detected: seq<Agent>, answers: seq<Answer>)
    ensures Main([], detected, answers) == Flow(detected, answers)
  {
    ModeOfArguments([]);
  }

  /** `--agent` is parsed but read by neither mode: it changes neither which mode runs nor what the command mode does. */
  lemma AgentIgnored(o: Options, agent: Option<string>, offer: Offer, detected: seq<Agent>)
    ensures ModeFor(o.(agent := agent)) == ModeFor(o)
    ensures RunCommand(o.(agent := agent), offer, detected) == RunCommand(o, offer, detected)
  {
    assert CommandCategories(o.(agent := agent), offer) == CommandCategories(o, offer);
  }

  // ---------------------------------------------------------------------------
  // commandMode

  /** The skill term's match: the id contains it, or the lower-cased name contains it lower-cased. */
  predicate Matches(c: Category, term: string) {
    Contains(c.id, term) || Contains(ToLower(c.name), ToLower(term))
  }

  /** `CATEGORIES.find(...)`: the index of the first category the term matches. */
  function FindCategory(cs: seq<Category>, term: string): (r: Option<nat>)
    ensures r.None? <==> forall k :: 0 <= k < |cs| ==> !Matches(cs[k], term)
    ensures r.Some? ==> r.value < |cs| && Matches(cs[r.value], term)
    ensures r.Some? ==> forall k :: 0 <= k < r.value ==> !Matches(cs[k], term)
    decreases |cs|
  {
    if cs == [] then None
    else if Matches(cs[0], term) then Some(0)
    else
      match FindCategory(cs[1..], term)
      case None => None
      case Some(k) => Some(k + 1)
  }

  /** The categories the command mode installs, or `None` when the skill term matches nothing. */
  function CommandCategories(o: Options, offer: Offer): Option<seq<string>> {
    if o.all then Some(offer.everything)
    else if Truthy(o.category) then Some([o.category.value])
    else if Truthy(o.skill) then
      match FindCategory(offer.catalogue, o.skill.value)
      case Some(k) => Some([offer.catalogue[k].id])
      case None => None
    else Some(offer.everything)
  }

  /** `commandMode(options)`, with the agents `detectAgents` would find. */
  function RunCommand(o: Options, offer: Offer, detected: seq<Agent>): Session {
    if o.command == Some(List) then Session([ViewInstalled], Finished)
    else if o.command == Some(Update) then
      if detected == [] then Session([], NoAgents) else Session([UpdateAll(detected)], Finished)
    else if o.command == Some(Install) || o.all || Truthy(o.category) || Truthy(o.skill) then
      if detected == [] then Session([], NoAgents)
      else match CommandCategories(o, offer)
        case None => Session([], NotFound(o.skill.value))
        case Some(cs) => Session([InstallCategories(cs, detected)], Finished)
    else Session([], Finished)
  }

  /**
   * What the command mode does: `list` wins over every other option; without
   * agents nothing is installed; otherwise exactly one installation of the
   * resolved categories with every detected agent, unless the skill term
   * matches no category.
   */
  lemma CommandOutcome(o: Options, offer: Offer, detected: seq<Agent>)
    requires ModeFor(o) == CommandMode
    ensures o.command == Some(List) ==> RunCommand(o, offer, detected) == Session([ViewInstalled], Finished)
    ensures o.command != Some(List) && detected == [] ==> RunCommand(o, offer, detected) == Session([], NoAgents)
    ensures o.command == Some(Update) && detected != [] ==> RunCommand(o, offer, detected) == Session([UpdateAll(detected)], Finished)
    ensures o.command != Some(List) && o.command != Some(Update) && detected != [] && CommandCategories(o, offer).None? ==>
      Truthy(o.skill) && RunCommand(o, offer, detected) == Session([], NotFound(o.skill.value))
    ensures o.command != Some(List) && o.command != Some(Update) && detected != [] && CommandCategories(o, offer).Some? ==>
      RunCommand(o, offer, detected) == Session([InstallCategories(CommandCategories(o, offer).value, detected)], Finished)
  {
    if o.command != Some(List) && o.command != Some(Update) {
      assert o.command.Some? || o.all || Truthy(o.category) || Truthy(o.skill);
      assert o.command.Some? ==> o.command.value == Install;
    }
  }

  /**
   * How the categories are resolved: `--all` gives every id, else the
   * category given, else the first catalogue category the skill term
   * matches, and nothing when it matches none; with none of these, every id.
   */
  lemma CommandCategoriesMeaning(o: Options, offer: Offer)
    ensures o.all ==> CommandCategories(o, offer) == Some(offer.everything)
    ensures !o.all && Truthy(o.category) ==> CommandCategories(o, offer) == Some([o.category.value])
    ensures !o.all && !Truthy(o.category) && Truthy(o.skill) ==>
      (CommandCategories(o, offer).None? <==> forall k :: 0 <= k < |offer.catalogue| ==> !Matches(offer.catalogue[k], o.skill.value))
    ensures !o.all && !Truthy(o.category) && Truthy(o.skill) && CommandCategories(o, offer).Some? ==>
      exists k :: 0 <= k < |offer.catalogue| && CommandCategories(o, offer) == Some([offer.catalogue[k].id]) &&
        Matches(offer.catalogue[k], o.skill.value) && forall j :: 0 <= j < k ==> !Matches(offer.catalogue[j], o.skill.value)
    ensures !o.all && !Truthy(o.category) && !Truthy(o.skill) ==> CommandCategories(o, offer) == Some(offer.everything)
  {
    if !o.all && !Truthy(o.category) && Truthy(o.skill) {
      var r := FindCategory(offer.catalogue, o.skill.value);
      if r.Some? {
        assert CommandCategories(o, offer) == Some([offer.catalogue[r.value].id]);
      }
    }
  }

  /** A matching term is found somewhere in the category's id or lower-cased name. */
  lemma MatchMeansOccurrence(c: Category, term: string)
    ensures Matches(c, term) <==>
      (exists i :: OccursAt(c.id, term, i)) || (exists i :: OccursAt(ToLower(c.name), ToLower(term), i))
  {
    ContainsIffOccurs(c.id, term);
    ContainsIffOccurs(ToLower(c.name), ToLower(term));
  }

  // ---------------------------------------------------------------------------
  // The wizard's selections

  /** `[...new Set(QUICK_START_SKILLS.map(s => s.split('/')[0]))]` */
  function QuickStartCategories(): (cs: seq<string>)
    ensures Distinct(cs)
    ensures forall c :: c in cs <==> exists q :: 0 <= q < |QuickStartSkills| && c == FirstSegment(QuickStartSkills[q])
  {
    Dedup(FirstSegments(QuickStartSkills))
  }

  /** The quick-start categories come in the order of their first appearance among the quick-start skills. */
  lemma QuickStartOrder()
    ensures var segs, cs := FirstSegments(QuickStartSkills), QuickStartCategories();
      forall i, j :: 0 <= i < j < |cs| ==> IndexOf(segs, cs[i]) < IndexOf(segs, cs[j])
  {
    DedupOrder(FirstSegments(QuickStartSkills));
  }

  function FirstSegments(ids: seq<string>): (fs: seq<string>)
    ensures |fs| == |ids| && forall q :: 0 <= q < |ids| ==> fs[q] == FirstSegment(ids[q])
  {
    seq(|ids|, q requires 0 <= q < |ids| => FirstSegment(ids[q]))
  }

  /** Skills offered under categories of `cats` lead, by their first segment, to categories of `cats`. */
  lemma SegmentsCarryOver(qs: seq<string>, ids: seq<string>, skills: seq<SkillChoice>, cats: seq<string>)
    requires |ids| == |skills| && forall k :: 0 <= k < |ids| ==> ids[k] == skills[k].id
    requires forall q :: 0 <= q < |qs| ==> qs[q] in ids
    requires forall k :: 0 <= k < |skills| ==> FirstSegment(skills[k].id) in cats
    ensures forall c :: c in Dedup(FirstSegments(qs)) ==> c in cats
  {
    forall c | c in Dedup(FirstSegments(qs))
      ensures c in cats
    {
      var fs := FirstSegments(qs);
      var q :| 0 <= q < |fs| && fs[q] == c;
      var k :| 0 <= k < |ids| && ids[k] == qs[q];
      assert FirstSegment(skills[k].id) == c;
    }
  }

  /** The quick start installs whole catalogue categories, each once. */
  lemma QuickStartCategoriesInCatalogue()
    ensures forall c :: c in QuickStartCategories() ==> c in CategoryIds(Categories)
  {
    QuickStartOffered();
    IndividualsUnderCategories();
    SegmentsCarryOver(QuickStartSkills, IndividualIds(), IndividualSkills, CategoryIds(Categories));
  }

  /** The catalogue entries whose id is selected, in catalogue order. */
  function SelectedCategories(cs: seq<Category>, selected: seq<string>): (r: seq<Category>)
    ensures forall c :: c in r <==> c in cs && c.id in selected
    decreases |cs|
  {
    if cs == [] then []
    else
      var rest := SelectedCategories(cs[..|cs| - 1], selected);
      var last := cs[|cs| - 1];
      assert cs == cs[..|cs| - 1] + [last];
      if last.id in selected then rest + [last] else rest
  }

  /** The skill count shown for a category selection: the counts of the selected catalogue entries. */
  function CategorySkillCount(cs: seq<Category>, selected: seq<string>): nat {
    SkillSum(SelectedCategories(cs, selected))
  }

  /** Only which ids are selected matters: an id selected twice is counted once. */
  lemma {:induction false} SelectionCountsOnce(cs: seq<Category>, a: seq<string>, b: seq<string>)
    requires forall x :: x in a <==> x in b
    ensures SelectedCategories(cs, a) == SelectedCategories(cs, b)
    ensures CategorySkillCount(cs, a) == CategorySkillCount(cs, b)
    decreases |cs|
  {
    if cs != [] {
      SelectionCountsOnce(cs[..|cs| - 1], a, b);
    }
  }

  /** Selecting every id of the catalogue selects all of it. */
  lemma {:induction false} SelectAllOf(cs: seq<Category>, selected: seq<string>)
    requires forall c :: c in cs ==> c.id in selected
    ensures SelectedCategories(cs, selected) == cs
    decreases |cs|
  {
    if cs != [] {
      var init := cs[..|cs| - 1];
      assert forall c :: c in init ==> c in cs;
      SelectAllOf(init, selected);
      assert cs[|cs| - 1] in cs;
      assert init + [cs[|cs| - 1]] == cs;
    }
  }

  /** Selecting every category counts every skill of the catalogue. */
  lemma SelectingAllCountsAll(cs: seq<Category>)
    ensures CategorySkillCount(cs, CategoryIds(cs)) == SkillSum(cs)
  {
    forall c | c in cs
      ensures c.id in CategoryIds(cs)
    {
      var k :| 0 <= k < |cs| && cs[k] == c;
      assert CategoryIds(cs)[k] == c.id;
    }
    SelectAllOf(cs, CategoryIds(cs));
  }

  // ---------------------------------------------------------------------------
  // The wizard

  /**
   * What a prompt returns. A list prompt gives a `value`; the category and
   * skill pickers give `{categories | skills, action}` as `picked` and
   * `value`; the agent picker gives `{agents, action}` as `agents` and `value`.
   */
  datatype Answer = Answer(value: string, picked: seq<string>, agents: seq<Agent>)

  /** What the second prompt after an empty checkbox offers. */
  datatype FollowUp = TryAgain | GoBack

  /** `askCategories` / `askIndividualSkills`: an empty selection asks whether to try again or go back. */
  function PickerAnswer(picked: seq<string>, followUp: FollowUp): (a: Answer)
    ensures a.value == "confirm" <==> picked != []
    ensures a.picked == picked && a.agents == []
    ensures picked == [] ==> a.value == (if followUp == TryAgain then "retry" else "back")
  {
    if picked == [] then Answer(if followUp == TryAgain then "retry" else "back", [], [])
    else Answer("confirm", picked, [])
  }

  /** `askSelectAgents(agents)`: all detected agents, a chosen non-empty subset, or back / try again. */
  function AgentAnswer(detected: seq<Agent>, selection: string, picked: seq<Agent>, followUp: FollowUp): (a: Answer)
    ensures a.value == "confirm" <==> selection != "back" && (selection == "all" || picked != [])
    ensures a.value == "confirm" && selection == "all" ==> a.agents == detected
    ensures a.value == "confirm" && selection != "all" ==> a.agents == picked
    ensures a.value != "confirm" ==> a.agents == [] && (a.value == "back" || a.value == "retry")
    ensures a.picked == []
  {
    if selection == "back" then Answer("back", [], [])
    else if selection == "all" then Answer("confirm", [], detected)
    else if picked == [] then Answer(if followUp == TryAgain then "retry" else "back", [], [])
    else Answer("confirm", [], picked)
  }

  /**
   * What the install choice offers: the catalogue the category picker shows,
   * every category with its skill count, and the quick-start categories with
   * theirs.
   */
  datatype Offer = Offer(
    catalogue: seq<Category>,
    everything: seq<string>, everythingCount: nat,
    quickStart: seq<string>, quickStartCount: nat)

  /** The offer `interactiveFlow` makes. */
  function Offered(): Offer {
    Offer(Categories, AllCategoryIds, TotalSkillCount(), QuickStartCategories(), |QuickStartSkills|)
  }

  /** "Everything" is every catalogue category, and its count is all their skills. */
  lemma OfferedEverything()
    ensures Offered().everything == CategoryIds(Offered().catalogue)
    ensures Offered().everythingCount == CategorySkillCount(Offered().catalogue, Offered().everything) == 84
  {
    AllCategoryIdsMatchCatalogue();
    SelectingAllCountsAll(Categories);
  }

  /** The quick start is distinct catalogue categories, counted as its 14 listed skills. */
  lemma OfferedQuickStart()
    ensures Distinct(Offered().quickStart)
    ensures forall c :: c in Offered().quickStart ==> c in CategoryIds(Offered().catalogue)
    ensures Offered().quickStartCount == 14
  {
    QuickStartCategoriesInCatalogue();
  }

  /** `installType`, `categories`, `selectedSkills` and `skillCount`. */
  datatype Selection = Selection(kind: string, categories: seq<string>, skills: seq<string>, count: nat)

  /** The screens, one per labelled loop of `interactiveFlow`, and the end. */
  datatype Screen =
    | MainMenu | AfterAction | InstallChoice | CategoryPicker | SkillPicker | AgentPicker | Confirmation
    | Closed(end: End)

  /** The wizard's state: the screen shown, the selection so far and `targetAgents`. */
  datatype WizardState = WizardState(screen: Screen, sel: Selection, targets: seq<Agent>)

  datatype Move = Move(next: WizardState, effects: seq<Effect>)

  const NoSelection := Selection("", [], [], 0)

  /** The selection an install choice starts from; the pickers fill in theirs. */
  function Chosen(offer: Offer, choice: string): Selection {
    if choice == "everything" then Selection(choice, offer.everything, [], offer.everythingCount)
    else if choice == "quickstart" then Selection(choice, offer.quickStart, [], offer.quickStartCount)
    else Selection(choice, [], [], 0)
  }

  /** One answer on one screen; `agents` are the detected agents. */
  function Step(agents: seq<Agent>, offer: Offer, w: WizardState, a: Answer): Move {
    match w.screen
    case MainMenu =>
      if a.value == "exit" then Move(w.(screen := Closed(Exited)), [])
      else if a.value == "view" then Move(w.(screen := AfterAction), [ViewInstalled])
      else if a.value == "update" then Move(w.(screen := AfterAction), [UpdateAll(agents)])
      else Move(w.(screen := InstallChoice), [])
    case AfterAction =>
      if a.value == "exit" then Move(w.(screen := Closed(Exited)), []) else Move(w.(screen := MainMenu), [])
    case InstallChoice =>
      if a.value == "back" then Move(w.(screen := MainMenu), [])
      else if a.value == "categories" then Move(WizardState(CategoryPicker, Chosen(offer, a.value), w.targets), [])
      else if a.value == "individual" then Move(WizardState(SkillPicker, Chosen(offer, a.value), w.targets), [])
      else Move(WizardState(AgentPicker, Chosen(offer, a.value), agents), [])
    case CategoryPicker =>
      if a.value == "back" then Move(w.(screen := InstallChoice), [])
      else if a.value == "retry" then Move(w, [])
      else Move(WizardState(AgentPicker, w.sel.(categories := a.picked, count := CategorySkillCount(offer.catalogue, a.picked)), agents), [])
    case SkillPicker =>
      if a.value == "back" then Move(w.(screen := InstallChoice), [])
      else if a.value == "retry" then Move(w, [])
      else Move(WizardState(AgentPicker, w.sel.(skills := a.picked, count := |a.picked|), agents), [])
    case AgentPicker =>
      if a.value == "back" then Move(w.(screen := InstallChoice), [])
      else if a.value == "retry" then Move(w, [])
      else Move(w.(screen := Confirmation, targets := a.agents), [])
    case Confirmation =>
      if a.value == "exit" then Move(w.(screen := Closed(Exited)), [])
      else if a.value == "back" then Move(w.(screen := AgentPicker), [])
      else Move(w.(screen := Closed(Finished)), [Installation(w.sel, w.targets)])
    case Closed(_) => Move(w, [])
  }

  /** Steps 7 and 8: specific skills when some were selected, else the categories. */
  function Installation(sel: Selection, targets: seq<Agent>): Effect {
    if |sel.skills| > 0 then InstallSpecific(sel.skills, targets) else InstallCategories(sel.categories, targets)
  }

  /** The screens visited from `w`, one answer each, until the wizard closes or the answers run out. */
  function Walk(agents: seq<Agent>, offer: Offer, w: WizardState, answers: seq<Answer>): Session
    decreases |answers|
  {
    if w.screen.Closed? then Session([], w.screen.end)
    else if answers == [] then Session([], AwaitingAnswer)
    else
      var m := Step(agents, offer, w, answers[0]);
      After(m.effects, Walk(agents, offer, m.next, answers[1..]))
  }

  /** The effects already made, followed by the rest of the run. */
  function After(done: seq<Effect>, rest: Session): Session {
    Session(done + rest.effects, rest.end)
  }

  /** `interactiveFlow()` with the detected agents and the answers to its prompts, in order. */
  function Flow(agents: seq<Agent>, answers: seq<Answer>): Session {
    if agents == [] then Session([], NoAgents)
    else Walk(agents, Offered(), WizardState(MainMenu, NoSelection, agents), answers)
  }

  /** An effect the main menu may cause: viewing, or updating everything with the detected agents. */
  predicate MenuEffect(agents: seq<Agent>, e: Effect) {
    e == ViewInstalled || e == UpdateAll(agents)
  }

  /** An installation of steps 7 and 8. */
  predicate InstallEffect(e: Effect) {
    e.InstallCategories? || e.InstallSpecific?
  }

  /**
   * An answer installs exactly when it confirms the summary, that is, is
   * neither "exit" nor "back" on the confirmation screen; it then installs the
   * selection with the chosen agents and the wizard closes.
   */
  lemma InstallOnlyWhenConfirmed(agents: seq<Agent>, offer: Offer, w: WizardState, a: Answer)
    ensures (exists k :: 0 <= k < |Step(agents, offer, w, a).effects| && InstallEffect(Step(agents, offer, w, a).effects[k])) <==>
      w.screen == Confirmation && a.value != "exit" && a.value != "back"
    ensures w.screen == Confirmation && a.value != "exit" && a.value != "back" ==>
      Step(agents, offer, w, a) == Move(w.(screen := Closed(Finished)), [Installation(w.sel, w.targets)])
  {
    var m := Step(agents, offer, w, a);
    if w.screen == Confirmation && a.value != "exit" && a.value != "back" {
      assert InstallEffect(m.effects[0]);
    }
  }

  /** `installSpecificSkills` is called exactly when skills were selected, `installSkills` otherwise. */
  lemma InstallationChoice(sel: Selection, targets: seq<Agent>)
    ensures Installation(sel, targets).InstallSpecific? <==> sel.skills != []
    ensures sel.skills != [] ==> Installation(sel, targets) == InstallSpecific(sel.skills, targets)
    ensures sel.skills == [] ==> Installation(sel, targets) == InstallCategories(sel.categories, targets)
  {
  }

  /**
   * The main-menu answers: "exit" closes, "view" lists, "update" installs
   * every category with the detected agents; any other answer, "uninstall"
   * among them, goes on to the install choice.
   */
  lemma MainMenuAnswers(agents: seq<Agent>, offer: Offer, w: WizardState, a: Answer)
    requires w.screen == MainMenu
    ensures a.value == "exit" ==> Step(agents, offer, w, a) == Move(w.(screen := Closed(Exited)), [])
    ensures a.value == "view" ==> Step(agents, offer, w, a) == Move(w.(screen := AfterAction), [ViewInstalled])
    ensures a.value == "update" ==> Step(agents, offer, w, a) == Move(w.(screen := AfterAction), [UpdateAll(agents)])
    ensures a.value != "exit" && a.value != "view" && a.value != "update" ==>
      Step(agents, offer, w, a) == Move(w.(screen := InstallChoice), [])
  {
  }

  /**
   * Going back and trying again: back from a picker returns to the install
   * choice, back from the confirmation to the agent picker with the same
   * selection, back from the install choice to the menu, and "retry" shows
   * the same picker again.
   */
  lemma Navigation(agents: seq<Agent>, offer: Offer, w: WizardState, a: Answer)
    requires w.screen == CategoryPicker || w.screen == SkillPicker || w.screen == AgentPicker
    ensures a.value == "back" ==> Step(agents, offer, w, a) == Move(w.(screen := InstallChoice), [])
    ensures a.value == "retry" ==> Step(agents, offer, w, a) == Move(w, [])
  {
  }

  lemma BackFromConfirmation(agents: seq<Agent>, offer: Offer, w: WizardState, a: Answer)
    requires w.screen == Confirmation && a.value == "back"
    ensures Step(agents, offer, w, a) == Move(w.(screen := AgentPicker), [])
  {
  }

  lemma BackFromInstallChoice(agents: seq<Agent>, offer: Offer, w: WizardState, a: Answer)
    requires w.screen == InstallChoice && a.value == "back"
    ensures Step(agents, offer, w, a) == Move(w.(screen := MainMenu), [])
  {
  }

  /**
   * The install choice: "everything" and "quickstart" go straight to the
   * agent picker with their categories, which step 7 installs whole; the
   * pickers start from an empty selection.
   */
  lemma PresetChoices(agents: seq<Agent>, offer: Offer, w: WizardState, a: Answer)
    requires w.screen == InstallChoice
    ensures a.value == "everything" ==>
      Step(agents, offer, w, a).next == WizardState(AgentPicker, Selection("everything", offer.everything, [], offer.everythingCount), agents)
    ensures a.value == "quickstart" ==>
      Step(agents, offer, w, a).next == WizardState(AgentPicker, Selection("quickstart", offer.quickStart, [], offer.quickStartCount), agents)
    ensures a.value == "categories" ==> Step(agents, offer, w, a).next.screen == CategoryPicker && Step(agents, offer, w, a).next.sel.categories == []
    ensures a.value == "individual" ==> Step(agents, offer, w, a).next.screen == SkillPicker && Step(agents, offer, w, a).next.sel.skills == []
    ensures Step(agents, offer, w, a).effects == []
  {
  }

  /** A category selection is counted by the catalogue's counts; a skill selection by its size. */
  lemma PickedSelections(agents: seq<Agent>, offer: Offer, w: WizardState, a: Answer)
    requires a.value != "back" && a.value != "retry"
    ensures w.screen == CategoryPicker ==>
      Step(agents, offer, w, a).next == WizardState(AgentPicker, w.sel.(categories := a.picked, count := CategorySkillCount(offer.catalogue, a.picked)), agents)
    ensures w.screen == SkillPicker ==>
      Step(agents, offer, w, a).next == WizardState(AgentPicker, w.sel.(skills := a.picked, count := |a.picked|), agents)
    ensures w.screen == AgentPicker ==>
      Step(agents, offer, w, a).next == w.(screen := Confirmation, targets := a.agents)
  {
  }

  /** Without detected agents the wizard ends before its first prompt. */
  lemma NoAgentsNoPrompt(answers: seq<Answer>)
    ensures Flow([], answers) == Session([], NoAgents)
  {
  }

  /** What one step can do to the shape of a run. */
  lemma StepShape(agents: seq<Agent>, offer: Offer, w: WizardState, a: Answer)
    requires !w.screen.Closed?
    ensures var m := Step(agents, offer, w, a);
      && |m.effects| <= 1
      && (m.next.screen == Closed(Finished) <==> m.effects != [] && InstallEffect(m.effects[0]))
      && (m.effects != [] && !InstallEffect(m.effects[0]) ==> MenuEffect(agents, m.effects[0]))
  {
  }

  /**
   * The shape of a run: every effect is caused by the main menu except an
   * installation, which is the last effect and happens exactly when the
   * wizard finishes.
   */
  predicate Shaped(agents: seq<Agent>, s: Session) {
    && (s.end == Finished <==> s.effects != [] && InstallEffect(s.effects[|s.effects| - 1]))
    && (forall k :: 0 <= k < |s.effects| - 1 ==> MenuEffect(agents, s.effects[k]))
    && (s.end != Finished ==> forall k :: 0 <= k < |s.effects| ==> MenuEffect(agents, s.effects[k]))
  }

  lemma PrependMenu(agents: seq<Agent>, done: seq<Effect>, rest: Session)
    requires |done| <= 1 && (done != [] ==> MenuEffect(agents, done[0]))
    requires Shaped(agents, rest)
    ensures Shaped(agents, After(done, rest))
  {
    if done != [] {
      var s := After(done, rest);
      assert forall k :: 1 <= k < |s.effects| ==> s.effects[k] == rest.effects[k - 1];
    }
  }

  lemma {:induction false} WalkShape(agents: seq<Agent>, offer: Offer, w: WizardState, answers: seq<Answer>)
    requires !w.screen.Closed?
    ensures Shaped(agents, Walk(agents, offer, w, answers))
    decreases |answers|
  {
    if answers != [] {
      var m := Step(agents, offer, w, answers[0]);
      var rest := Walk(agents, offer, m.next, answers[1..]);
      StepShape(agents, offer, w, answers[0]);
      if m.effects != [] && InstallEffect(m.effects[0]) {
        assert rest == Session([], Finished);
      } else {
        if !m.next.screen.Closed? {
          WalkShape(agents, offer, m.next, answers[1..]);
        }
        PrependMenu(agents, m.effects, rest);
      }
    }
  }

  /** The same for the whole wizard. */
  lemma FlowShape(agents: seq<Agent>, answers: seq<Answer>)
    ensures Shaped(agents, Flow(agents, answers))
  {
    if agents != [] {
      WalkShape(agents, Offered(), WizardState(MainMenu, NoSelection, agents), answers);
    }
  }

  // ---------------------------------------------------------------------------
  // interactiveFlow, as the loop the program runs

  /** `interactiveFlow()`: without detected agents it returns at once, otherwise the prompts begin. */
  method InteractiveFlow(agents: seq<Agent>, answers: seq<Answer>) returns (s: Session)
    ensures s == Flow(agents, answers)
  {
    if |agents| == 0 {
      return Session([], NoAgents);
    }
    s := Converse(agents, Offered(), answers);
  }

  /**
   * The prompts of `interactiveFlow()`: its labelled loops become one loop
   * over the screen shown; `installType`, `categories`, `selectedSkills`,
   * `skillCount` and `targetAgents` are reassigned as the answers come in.
   */
  method Converse(agents: seq<Agent>, offer: Offer, answers: seq<Answer>) returns (s: Session)
    ensures s == Walk(agents, offer, WizardState(MainMenu, NoSelection, agents), answers)
  {
    var screen := MainMenu;
    var installType: string, categories: seq<string>, selectedSkills: seq<string>, skillCount: nat := "", [], [], 0;
    var targetAgents := agents;
    var effects: seq<Effect> := [];
    var i := 0;
    while i < |answers| && !screen.Closed?
      invariant 0 <= i <= |answers|
      invariant Walk(agents, offer, WizardState(MainMenu, NoSelection, agents), answers) ==
        After(effects, Walk(agents, offer, WizardState(screen, Selection(installType, categories, selectedSkills, skillCount), targetAgents), answers[i..]))
      decreases |answers| - i
    {
      var done: seq<Effect>;
      screen, installType, categories, selectedSkills, skillCount, targetAgents, done :=
        Respond(agents, offer, screen, installType, categories, selectedSkills, skillCount, targetAgents, answers[i]);
      assert answers[i..][1..] == answers[i + 1..];
      AfterAppend(effects, done, Walk(agents, offer, WizardState(screen, Selection(installType, categories, selectedSkills, skillCount), targetAgents), answers[i + 1..]));
      effects := effects + done;
      i := i + 1;
    }
    if screen.Closed? {
      s := Session(effects, screen.end);
    } else {
      s := Session(effects, AwaitingAnswer);
    }
    assert effects + [] == effects;
  }

  /** One answer to the prompt of `screen`, on the variables of `interactiveFlow`. */
  method Respond(agents: seq<Agent>, offer: Offer, screen: Screen, installType: string, categories: seq<string>,
                 selectedSkills: seq<string>, skillCount: nat, targetAgents: seq<Agent>, a: Answer)
    returns (screen': Screen, installType': string, categories': seq<string>, selectedSkills': seq<string>,
             skillCount': nat, targetAgents': seq<Agent>, done: seq<Effect>)
    ensures Move(WizardState(screen', Selection(installType', categories', selectedSkills', skillCount'), targetAgents'), done) ==
      Step(agents, offer, WizardState(screen, Selection(installType, categories, selectedSkills, skillCount), targetAgents), a)
  {
    screen', installType', categories', selectedSkills', skillCount', targetAgents', done :=
      screen, installType, categories, selectedSkills, skillCount, targetAgents, [];
    match screen {
      case MainMenu =>
        if a.value == "exit" {
          screen' := Closed(Exited);
        } else if a.value == "view" {
          screen', done := AfterAction, [ViewInstalled];
        } else if a.value == "update" {
          screen', done := AfterAction, [UpdateAll(agents)];
        } else {
          screen' := InstallChoice;
        }
      case AfterAction =>
        screen' := if a.value == "exit" then Closed(Exited) else MainMenu;
      case InstallChoice =>
        if a.value == "back" {
          screen' := MainMenu;
        } else {
          installType', categories', selectedSkills', skillCount' := a.value, [], [], 0;
          if a.value == "everything" {
            categories', skillCount' := offer.everything, offer.everythingCount;
          } else if a.value == "quickstart" {
            categories', skillCount' := offer.quickStart, offer.quickStartCount;
          }
          if a.value == "categories" {
            screen' := CategoryPicker;
          } else if a.value == "individual" {
            screen' := SkillPicker;
          } else {
            screen', targetAgents' := AgentPicker, agents;
          }
        }
      case CategoryPicker =>
        if a.value == "back" {
          screen' := InstallChoice;
        } else if a.value != "retry" {
          categories', skillCount' := a.picked, CategorySkillCount(offer.catalogue, a.picked);
          screen', targetAgents' := AgentPicker, agents;
        }
      case SkillPicker =>
        if a.value == "back" {
          screen' := InstallChoice;
        } else if a.value != "retry" {
          selectedSkills', skillCount' := a.picked, |a.picked|;
          screen', targetAgents' := AgentPicker, agents;
        }
      case AgentPicker =>
        if a.value == "back" {
          screen' := InstallChoice;
        } else if a.value != "retry" {
          screen', targetAgents' := Confirmation, a.agents;
        }
      case Confirmation =>
        if a.value == "exit" {
          screen' := Closed(Exited);
        } else if a.value == "back" {
          screen' := AgentPicker;
        } else {
          if |selectedSkills| > 0 {
            done := [InstallSpecific(selectedSkills, targetAgents)];
          } else {
            done := [InstallCategories(categories, targetAgents)];
          }
          screen' := Closed(Finished);
        }
      case Closed(_) =>
    }
  }

  lemma AfterAppend(a: seq<Effect>, b: seq<Effect>, rest: Session)
    ensures After(a, After(b, rest)) == After(a + b, rest)
  {
    assert a + (b + rest.effects) == (a + b) + rest.effects;
  }
}
