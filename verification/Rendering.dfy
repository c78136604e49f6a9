/** The five deployment templates and what becomes of them for a shard: options are set, the
    configuration flags are appended, and then the shard key is filled in. */
module Rendering {
  import opened ShardTypes
  import opened Arguments
  import B = Bindings

  const PLACEHOLDER: string := "{{.SHARD}}"
  const SHARD_FLAG: string := "--shard-key"
  const DRIFT_FLAG: string := "--drift-detection-config"
  const SVELTOS_AGENT_FLAG: string := "--sveltos-agent-config"
  const SVELTOS_APPLIER_FLAG: string := "--sveltos-applier-config"

  /** The options of the shard controller that it passes on. */
  datatype Config = Config(
    agentInMgmtCluster: bool,
    driftDetectionConfig: string,
    sveltosAgentConfig: string,
    sveltosApplierConfig: string)

  // ---------- Templates ----------

  /** The arguments the templates are made of. */
  datatype Setting =
    | Diagnostics | ReportMode | ShardKey | Onboard | Verbosity | Version | Registry | AgentInMgmtCluster

  function SettingName(x: Setting): string {
    match x
    case Diagnostics => "--diagnostics-address"
    case ReportMode => "--report-mode"
    case ShardKey => SHARD_FLAG
    case Onboard => "--capi-onboard-annotation"
    case Verbosity => "--v"
    case Version => "--version"
    case Registry => "--registry"
    case AgentInMgmtCluster => AGENT_FLAG
  }

  function SettingValue(x: Setting): string {
    match x
    case Diagnostics => ":8443"
    case ReportMode => "0"
    case ShardKey => PLACEHOLDER
    case Onboard => ""
    case Verbosity => "5"
    case Version => "v1.17.0"
    case Registry => ""
    case AgentInMgmtCluster => "false"
  }

  function Line(x: Setting): string {
    SettingName(x) + "=" + SettingValue(x)
  }

  function Lines(settings: seq<Setting>): (r: seq<string>)
    ensures |r| == |settings|
  {
    seq(|settings|, i requires 0 <= i < |settings| => Line(settings[i]))
  }

  function NamePrefix(c: Component): string {
    match c
    case AddonController => "addon-controller"
    case Classifier => "classifier-manager"
    case SveltosClusterManager => "sc-manager"
    case EventManager => "event-manager"
    case HealthCheckManager => "hc-manager"
  }

  /** The arguments of the one regular container of a template. */
  function Settings(c: Component): seq<Setting> {
    match c
    case AddonController => [Diagnostics, ReportMode, ShardKey, Onboard, Verbosity, Version, AgentInMgmtCluster]
    case Classifier => [Diagnostics, ReportMode, ShardKey, Onboard, Verbosity, Version, Registry, AgentInMgmtCluster]
    case SveltosClusterManager => [Diagnostics, ShardKey, Verbosity]
    case EventManager => [Diagnostics, ShardKey, Onboard, Verbosity, Version, AgentInMgmtCluster]
    case HealthCheckManager => [Diagnostics, ShardKey, Onboard, Verbosity, Version, AgentInMgmtCluster]
  }

  function MainContainer(c: Component): string {
    if c == AddonController then "controller" else "manager"
  }

  /** The arguments of the init containers of a template; the classifier's has none. */
  function InitSettings(c: Component): seq<seq<Setting>> {
    match c
    case AddonController => [[ReportMode, ShardKey, AgentInMgmtCluster]]
    case Classifier => [[]]
    case _ => []
  }

  function InitContainerName(c: Component): string {
    if c == AddonController then "initialization" else "migrate"
  }

  function Template(c: Component): Manifest {
    Manifest(
      NamePrefix(c) + "-" + PLACEHOLDER,
      [Container(MainContainer(c), Lines(Settings(c)))],
      seq(|InitSettings(c)|, i requires 0 <= i < |InitSettings(c)| =>
        Container(InitContainerName(c), Lines(InitSettings(c)[i]))))
  }

  lemma LineSpelled(x: Setting)
    ensures Line(x) == match x
                       case Diagnostics => "--diagnostics-address=:8443"
                       case ReportMode => "--report-mode=0"
                       case ShardKey => "--shard-key={{.SHARD}}"
                       case Onboard => "--capi-onboard-annotation="
                       case Verbosity => "--v=5"
                       case Version => "--version=v1.17.0"
                       case Registry => "--registry="
                       case AgentInMgmtCluster => "--agent-in-mgmt-cluster=false"
  {
    hide Line;
    match x
    case Diagnostics => LongLineSpelled(Diagnostics);
    case ShardKey => LongLineSpelled(ShardKey);
    case Onboard => LongLineSpelled(Onboard);
    case AgentInMgmtCluster => AgentLineSpelled();
    case _ => ShortLineSpelled(x);
  }

  lemma ShortLineSpelled(x: Setting)
    ensures x == ReportMode ==> Line(x) == "--report-mode=0"
    ensures x == Verbosity ==> Line(x) == "--v=5"
    ensures x == Version ==> Line(x) == "--version=v1.17.0"
    ensures x == Registry ==> Line(x) == "--registry="
  {}

  lemma LongLineSpelled(x: Setting)
    ensures x == Diagnostics ==> Line(x) == "--diagnostics-address=:8443"
    ensures x == ShardKey ==> Line(x) == "--shard-key={{.SHARD}}"
    ensures x == Onboard ==> Line(x) == "--capi-onboard-annotation="
  {}

  lemma AgentLineSpelled()
    ensures Line(AgentInMgmtCluster) == "--agent-in-mgmt-cluster=false"
  {}

  /** The templates as they are shipped, line by line. */
  lemma TemplatesSpelled(c: Component)
    ensures Template(c) ==
            match c
            case AddonController => Manifest(
              "addon-controller-{{.SHARD}}",
              [Container("controller", [
                "--diagnostics-address=:8443", "--report-mode=0", "--shard-key={{.SHARD}}",
                "--capi-onboard-annotation=", "--v=5", "--version=v1.17.0", "--agent-in-mgmt-cluster=false"])],
              [Container("initialization", [
                "--report-mode=0", "--shard-key={{.SHARD}}", "--agent-in-mgmt-cluster=false"])])
            case Classifier => Manifest(
              "classifier-manager-{{.SHARD}}",
              [Container("manager", [
                "--diagnostics-address=:8443", "--report-mode=0", "--shard-key={{.SHARD}}",
                "--capi-onboard-annotation=", "--v=5", "--version=v1.17.0", "--registry=",
                "--agent-in-mgmt-cluster=false"])],
              [Container("migrate", [])])
            case SveltosClusterManager => Manifest(
              "sc-manager-{{.SHARD}}",
              [Container("manager", ["--diagnostics-address=:8443", "--shard-key={{.SHARD}}", "--v=5"])],
              [])
            case EventManager => Manifest(
              "event-manager-{{.SHARD}}",
              [Container("manager", [
                "--diagnostics-address=:8443", "--shard-key={{.SHARD}}", "--capi-onboard-annotation=",
                "--v=5", "--version=v1.17.0", "--agent-in-mgmt-cluster=false"])],
              [])
            case HealthCheckManager => Manifest(
              "hc-manager-{{.SHARD}}",
              [Container("manager", [
                "--diagnostics-address=:8443", "--shard-key={{.SHARD}}", "--capi-onboard-annotation=",
                "--v=5", "--version=v1.17.0", "--agent-in-mgmt-cluster=false"])],
              [])
  {
    hide Line, PLACEHOLDER;
    NameSpelled(c);
    MainSpelled(c);
    forall x {
      LineSpelled(x);
    }
    var init := InitSettings(c);
    assert c == AddonController ==> Lines(init[0]) == [Line(ReportMode), Line(ShardKey), Line(AgentInMgmtCluster)];
    assert c == Classifier ==> Lines(init[0]) == [];
  }

  lemma MainSpelled(c: Component)
    ensures Lines(Settings(c)) ==
            match c
            case AddonController => [
              Line(Diagnostics), Line(ReportMode), Line(ShardKey), Line(Onboard), Line(Verbosity), Line(Version),
              Line(AgentInMgmtCluster)]
            case Classifier => [
              Line(Diagnostics), Line(ReportMode), Line(ShardKey), Line(Onboard), Line(Verbosity), Line(Version),
              Line(Registry), Line(AgentInMgmtCluster)]
            case SveltosClusterManager => [Line(Diagnostics), Line(ShardKey), Line(Verbosity)]
            case _ => [
              Line(Diagnostics), Line(ShardKey), Line(Onboard), Line(Verbosity), Line(Version),
              Line(AgentInMgmtCluster)]
  {
    hide Line;
  }

  lemma NameSpelled(c: Component)
    ensures Template(c).name == match c
                                case AddonController => "addon-controller-{{.SHARD}}"
                                case Classifier => "classifier-manager-{{.SHARD}}"
                                case SveltosClusterManager => "sc-manager-{{.SHARD}}"
                                case EventManager => "event-manager-{{.SHARD}}"
                                case HealthCheckManager => "hc-manager-{{.SHARD}}"
  {
    hide Template;
    if c == AddonController || c == Classifier {
      LongNameSpelled(c);
    } else {
      ShortNameSpelled(c);
    }
  }

  lemma LongNameSpelled(c: Component)
    ensures c == AddonController ==> Template(c).name == "addon-controller-{{.SHARD}}"
    ensures c == Classifier ==> Template(c).name == "classifier-manager-{{.SHARD}}"
  {}

  lemma ShortNameSpelled(c: Component)
    ensures c == SveltosClusterManager ==> Template(c).name == "sc-manager-{{.SHARD}}"
    ensures c == EventManager ==> Template(c).name == "event-manager-{{.SHARD}}"
    ensures c == HealthCheckManager ==> Template(c).name == "hc-manager-{{.SHARD}}"
  {}

  // ---------- Filling in the shard key ----------

  /** Replaces every placeholder by the shard key, as instantiateTemplate does. */
  function Subst(text: string, s: Shard): string {
    if text == "" then ""
    else if |PLACEHOLDER| <= |text| && text[..|PLACEHOLDER|] == PLACEHOLDER then s + Subst(text[|PLACEHOLDER|..], s)
    else [text[0]] + Subst(text[1..], s)
  }

  lemma {:induction false} SubstPlain(plain: string, rest: string, s: Shard)
    requires '{' !in plain
    ensures Subst(plain + rest, s) == plain + Subst(rest, s)
  {
    var text := plain + rest;
    if plain == "" {
      assert text == rest;
    } else {
      assert text[0] == plain[0] != '{' == PLACEHOLDER[0];
      assert |PLACEHOLDER| <= |text| ==> text[..|PLACEHOLDER|][0] == text[0];
      assert text[1..] == plain[1..] + rest;
      SubstPlain(plain[1..], rest, s);
    }
  }

  lemma SubstPlaceholder(s: Shard)
    ensures Subst(PLACEHOLDER, s) == s
  {
    assert PLACEHOLDER[..|PLACEHOLDER|] == PLACEHOLDER;
    assert PLACEHOLDER[|PLACEHOLDER|..] == "";
  }

  /** The pieces of a text with something between every two of them. */
  function Join(pieces: seq<string>, between: string): string
    requires pieces != []
  {
    if |pieces| == 1 then pieces[0] else pieces[0] + (between + Join(pieces[1..], between))
  }

  /** Every placeholder is replaced and nothing else is, wherever they stand. */
  lemma {:induction false} SubstEverywhere(pieces: seq<string>, s: Shard)
    requires pieces != [] && forall i :: 0 <= i < |pieces| ==> '{' !in pieces[i]
    ensures Subst(Join(pieces, PLACEHOLDER), s) == Join(pieces, s)
  {
    if |pieces| == 1 {
      assert pieces[0] + "" == pieces[0];
      SubstPlain(pieces[0], "", s);
    } else {
      var rest := Join(pieces[1..], PLACEHOLDER);
      SubstEverywhere(pieces[1..], s);
      SubstPlain(pieces[0], PLACEHOLDER + rest, s);
      assert (PLACEHOLDER + rest)[..|PLACEHOLDER|] == PLACEHOLDER && (PLACEHOLDER + rest)[|PLACEHOLDER|..] == rest;
    }
  }

  function SubstArgs(args: seq<string>, s: Shard): (r: seq<string>)
    ensures |r| == |args|
  {
    seq(|args|, i requires 0 <= i < |args| => Subst(args[i], s))
  }

  function SubstContainers(containers: seq<Container>, s: Shard): (r: seq<Container>)
    ensures |r| == |containers|
  {
    seq(|containers|, i requires 0 <= i < |containers| =>
      Container(containers[i].name, SubstArgs(containers[i].args, s)))
  }

  function Instantiate(m: Manifest, s: Shard): Manifest {
    Manifest(Subst(m.name, s), SubstContainers(m.containers, s), SubstContainers(m.initContainers, s))
  }

  function SubstValue(v: Option<string>, s: Shard): Option<string> {
    if v.Some? then Some(Subst(v.value, s)) else None
  }

  function SubstValues(flags: map<string, Option<string>>, s: Shard): map<string, Option<string>> {
    map f | f in flags :: SubstValue(flags[f], s)
  }

  ghost predicate PlainNames(args: seq<string>) {
    forall i :: 0 <= i < |args| ==> '{' !in FlagName(args[i])
  }

  lemma SubstFlag(arg: string, s: Shard)
    requires '{' !in FlagName(arg)
    ensures FlagName(Subst(arg, s)) == FlagName(arg)
    ensures FlagValue(Subst(arg, s)) == SubstValue(FlagValue(arg), s)
  {
    var name, i := FlagName(arg), EqualsAt(arg);
    if i < |arg| {
      assert arg == (name + "=") + arg[i + 1..];
      SubstPlain(name + "=", arg[i + 1..], s);
      assert Subst(arg, s) == name + "=" + Subst(arg[i + 1..], s);
      ParseFlag(name, Subst(arg[i + 1..], s));
    } else {
      assert arg == name && arg + "" == arg;
      SubstPlain(arg, "", s);
    }
  }

  /** Filling in the key changes values only: every flag keeps its name and its place. */
  lemma {:induction false} SubstMeaning(args: seq<string>, s: Shard)
    requires PlainNames(args)
    ensures Parse(SubstArgs(args, s)) == SubstValues(Parse(args), s)
  {
    if args == [] {
    } else {
      var last := |args| - 1;
      SubstMeaning(args[..last], s);
      SubstFlag(args[last], s);
      AppendFlag(args[..last], args[last]);
      AppendFlag(SubstArgs(args[..last], s), Subst(args[last], s));
      assert args == args[..last] + [args[last]];
      assert SubstArgs(args, s) == SubstArgs(args[..last], s) + [Subst(args[last], s)];
    }
  }

  // ---------- The pipeline ----------

  predicate TakesAgentFlag(c: Component) {
    c != SveltosClusterManager
  }

  /** The configuration flags appended to the template of a component. */
  function ConfigFlags(c: Component, cfg: Config): map<string, string> {
    if c == AddonController then DriftFlags(cfg.driftDetectionConfig)
    else if c == Classifier then ClassifierFlags(cfg.sveltosAgentConfig, cfg.sveltosApplierConfig)
    else map[]
  }

  function DriftFlags(driftDetectionConfig: string): map<string, string> {
    if driftDetectionConfig == "" then map[] else map[DRIFT_FLAG := driftDetectionConfig]
  }

  function ClassifierFlags(sveltosAgentConfig: string, sveltosApplierConfig: string): map<string, string> {
    (if sveltosAgentConfig == "" then map[] else map[SVELTOS_AGENT_FLAG := sveltosAgentConfig]) +
    (if sveltosApplierConfig == "" then map[] else map[SVELTOS_APPLIER_FLAG := sveltosApplierConfig])
  }

  function WithOptions(m: Manifest): Manifest {
    Manifest(m.name, AllWithAgent(m.containers), AllWithAgent(m.initContainers))
  }

  function Prepared(c: Component, cfg: Config, order: seq<string>): Manifest
    requires IsOrder(order, ConfigFlags(c, cfg))
  {
    var m := if cfg.agentInMgmtCluster && TakesAgentFlag(c) then WithOptions(Template(c)) else Template(c);
    m.(containers := AppendTo(m.containers, MainContainer(c), Assignments(order, ConfigFlags(c, cfg))))
  }

  /** What is applied to the cluster: an instantiated manifest and the patches put on top of it. */
  datatype Content = Content(manifest: Manifest, patches: seq<string>)

  /** The content is one the controller can produce. The order in which it meets the
      configuration flags, and that in which it lists the patches, are not determined. */
  ghost predicate IsRendering(c: Component, cfg: Config, s: Shard, patches: multiset<string>, content: Content) {
    && multiset(content.patches) == patches
    && exists order :: IsOrder(order, ConfigFlags(c, cfg)) &&
         content.manifest == Instantiate(Prepared(c, cfg, order), s)
  }

  /** Contents for the first components of a shard, in their order. */
  ghost predicate AllRendered(cfg: Config, s: Shard, patches: multiset<string>, contents: seq<Content>) {
    |contents| <= COMPONENT_COUNT &&
    forall i :: 0 <= i < |contents| ==> IsRendering(At(i), cfg, s, patches, contents[i])
  }

  lemma AppendNothing(m: Manifest, name: string)
    ensures m.(containers := AppendTo(m.containers, name, [])) == m
  {
    assert forall c: Container :: c.args + [] == c.args;
  }

  /** addDriftDetectionConfig */
  method AddDriftDetectionConfig(m: Manifest, driftDetectionConfig: string) returns (r: Manifest)
    ensures exists order :: IsOrder(order, DriftFlags(driftDetectionConfig)) &&
              r == m.(containers :=
                AppendTo(m.containers, "controller", Assignments(order, DriftFlags(driftDetectionConfig))))
  {
    if driftDetectionConfig == "" {
      AppendNothing(m, "controller");
      assert IsOrder([], DriftFlags(driftDetectionConfig));
      return m;
    }
    var flags := map[DRIFT_FLAG := driftDetectionConfig];
    assert flags == DriftFlags(driftDetectionConfig);
    r := AppendArgsToContainer(m, "controller", flags);
  }

  /** addClassifierConfigs */
  method AddClassifierConfigs(m: Manifest, sveltosAgentConfig: string, sveltosApplierConfig: string)
    returns (r: Manifest)
    ensures var flags := ClassifierFlags(sveltosAgentConfig, sveltosApplierConfig);
            exists order :: IsOrder(order, flags) &&
              r == m.(containers := AppendTo(m.containers, "manager", Assignments(order, flags)))
  {
    if sveltosAgentConfig == "" && sveltosApplierConfig == "" {
      AppendNothing(m, "manager");
      assert IsOrder([], ClassifierFlags(sveltosAgentConfig, sveltosApplierConfig));
      return m;
    }
    var flags: map<string, string> := map[];
    if sveltosAgentConfig != "" {
      flags := flags[SVELTOS_AGENT_FLAG := sveltosAgentConfig];
    }
    if sveltosApplierConfig != "" {
      flags := flags[SVELTOS_APPLIER_FLAG := sveltosApplierConfig];
    }
    assert flags == ClassifierFlags(sveltosAgentConfig, sveltosApplierConfig);
    r := AppendArgsToContainer(m, "manager", flags);
  }

  // ---------- What the shipped templates satisfy ----------

  /** Every line of a template names its flag plainly, and only the agent flag's own line
      mentions the agent. */
  lemma LineSound(x: Setting)
    ensures FlagName(Line(x)) == SettingName(x) && FlagValue(Line(x)) == Some(SettingValue(x))
    ensures '{' !in FlagName(Line(x))
    ensures MentionsAgent(Line(x)) ==> x == AgentInMgmtCluster
  {
    NamePlain(x);
    ParseFlag(SettingName(x), SettingValue(x));
    if x != AgentInMgmtCluster {
      LineSilent(x);
      NoMention(Line(x));
    }
  }

  lemma NamePlain(x: Setting)
    ensures '=' !in SettingName(x) && '{' !in SettingName(x)
  {
    NameNoBrace(x);
  }

  lemma NameNoBrace(x: Setting)
    ensures '{' !in SettingName(x)
  {}

  lemma ValueNoBrace(x: Setting)
    requires x != ShardKey
    ensures '{' !in SettingValue(x)
  {}

  predicate TooShortOrNoM(line: string) {
    |line| < |AGENT| || 'm' !in line
  }

  lemma LineSilent(x: Setting)
    requires x != AgentInMgmtCluster
    ensures TooShortOrNoM(Line(x))
  {}

  lemma NoMention(line: string)
    requires TooShortOrNoM(line)
    ensures !MentionsAgent(line)
  {
    forall i: nat
      ensures !OccursAt(line, AGENT, i)
    {
      NoOccurrence(line, i);
    }
  }

  lemma NoOccurrence(line: string, i: nat)
    requires TooShortOrNoM(line)
    ensures !OccursAt(line, AGENT, i)
  {
    if i + |AGENT| <= |line| {
      assert AGENT[9] == 'm';
      assert line[i..i + |AGENT|][9] == line[i + 9];
    }
  }

  lemma NamesDiffer(x: Setting, y: Setting)
    requires x != y
    ensures SettingName(x) != SettingName(y)
  {
    assert |SettingName(x)| != |SettingName(y)|;
  }

  ghost predicate NoRepeats(settings: seq<Setting>) {
    forall i, j :: 0 <= i < j < |settings| ==> settings[i] != settings[j]
  }

  lemma LinesSound(settings: seq<Setting>)
    requires NoRepeats(settings)
    ensures var args := Lines(settings);
            && DistinctNames(args)
            && PlainNames(args)
            && (FirstMention(args) < |args| ==> FlagName(args[FirstMention(args)]) == AGENT_FLAG)
  {
    var args := Lines(settings);
    forall i | 0 <= i < |args|
      ensures '{' !in FlagName(args[i])
      ensures FlagName(args[i]) == SettingName(settings[i])
      ensures MentionsAgent(args[i]) ==> FlagName(args[i]) == AGENT_FLAG
    {
      LineSound(settings[i]);
    }
    forall i, j | 0 <= i < j < |args|
      ensures FlagName(args[i]) != FlagName(args[j])
    {
      NamesDiffer(settings[i], settings[j]);
    }
  }

  lemma TemplatesNoRepeats(c: Component)
    ensures NoRepeats(Settings(c))
    ensures forall i :: 0 <= i < |InitSettings(c)| ==> NoRepeats(InitSettings(c)[i])
  {}

  // ---------- The meaning of what is deployed ----------

  /** The flags of a template container, overridden by agent-in-mgmt-cluster=true when that
      option is on and by the configuration flags that have a value. */
  function IntendedFlags(c: Component, cfg: Config, settings: seq<Setting>, extra: map<string, string>)
    : map<string, Option<string>>
  {
    var base := Parse(Lines(settings));
    (if cfg.agentInMgmtCluster && TakesAgentFlag(c) then base[AGENT_FLAG := Some("true")] else base) + Overrides(extra)
  }

  lemma ConfigNames(c: Component, cfg: Config, f: string)
    requires f in ConfigFlags(c, cfg)
    ensures '=' !in f && '{' !in f && |f| >= 22
  {
    DriftFlagPlain();
    SveltosFlagsPlain();
  }

  lemma DriftFlagPlain()
    ensures '=' !in DRIFT_FLAG && '{' !in DRIFT_FLAG && |DRIFT_FLAG| >= 22
  {}

  lemma SveltosFlagsPlain()
    ensures '=' !in SVELTOS_AGENT_FLAG && '{' !in SVELTOS_AGENT_FLAG && |SVELTOS_AGENT_FLAG| >= 22
    ensures '=' !in SVELTOS_APPLIER_FLAG && '{' !in SVELTOS_APPLIER_FLAG && |SVELTOS_APPLIER_FLAG| >= 22
  {}

  lemma {:induction false} AssignmentsPlain(order: seq<string>, flags: map<string, string>)
    requires forall f :: f in order ==> f in flags && '=' !in f && '{' !in f
    ensures PlainNames(Assignments(order, flags))
  {
    if order != [] {
      var f := order[|order| - 1];
      AssignmentsPlain(order[..|order| - 1], flags);
      ParseFlag(f, flags[f]);
    }
  }

  lemma WithAgentPlain(args: seq<string>)
    requires PlainNames(args)
    ensures PlainNames(WithAgent(args))
  {
    AgentTrueMentionsAgent();
    NamePlain(AgentInMgmtCluster);
    var i, r := FirstMention(args), WithAgent(args);
    forall j | 0 <= j < |r|
      ensures '{' !in FlagName(r[j])
    {
      assert r[j] == AGENT_TRUE || r[j] == args[j] || r[j] == args[|args| - 1];
    }
  }

  /** One container through the whole pipeline. */
  lemma ContainerMeaning(c: Component, cfg: Config, s: Shard, settings: seq<Setting>, order: seq<string>,
                         extra: map<string, string>)
    requires NoRepeats(settings) && IsOrder(order, extra)
    requires forall f :: f in extra ==> '=' !in f && '{' !in f
    ensures var args := Lines(settings);
            var set1 := if cfg.agentInMgmtCluster && TakesAgentFlag(c) then WithAgent(args) else args;
            Parse(SubstArgs(set1 + Assignments(order, extra), s)) ==
              SubstValues(IntendedFlags(c, cfg, settings, extra), s)
  {
    var args := Lines(settings);
    LinesSound(settings);
    AssignmentsPlain(order, extra);
    if cfg.agentInMgmtCluster && TakesAgentFlag(c) {
      WithAgentPlain(args);
      RewriteMeaning(args, order, extra);
      SubstMeaning(WithAgent(args) + Assignments(order, extra), s);
    } else {
      AppendMeaning(args, order, extra);
      SubstMeaning(args + Assignments(order, extra), s);
    }
  }

  /** Whatever the options, the patches and the iteration order, the container deployed for a
      shard reads the intended flags with the shard key filled in. */
  lemma RenderedMeaning(c: Component, cfg: Config, s: Shard, patches: multiset<string>, content: Content)
    requires IsRendering(c, cfg, s, patches, content)
    ensures |content.manifest.containers| == 1
    ensures Parse(content.manifest.containers[0].args) ==
            SubstValues(IntendedFlags(c, cfg, Settings(c), ConfigFlags(c, cfg)), s)
    ensures |content.manifest.initContainers| == |InitSettings(c)|
    ensures forall i :: 0 <= i < |InitSettings(c)| ==>
              Parse(content.manifest.initContainers[i].args) ==
                SubstValues(IntendedFlags(c, cfg, InitSettings(c)[i], map[]), s)
  {
    var order :| IsOrder(order, ConfigFlags(c, cfg)) &&
      content.manifest == Instantiate(Prepared(c, cfg, order), s);
    TemplatesNoRepeats(c);
    forall f | f in ConfigFlags(c, cfg)
      ensures '=' !in f && '{' !in f
    {
      ConfigNames(c, cfg, f);
    }
    ContainerMeaning(c, cfg, s, Settings(c), order, ConfigFlags(c, cfg));
    forall i | 0 <= i < |InitSettings(c)|
      ensures Parse(content.manifest.initContainers[i].args) ==
              SubstValues(IntendedFlags(c, cfg, InitSettings(c)[i], map[]), s)
    {
      InitMeaning(c, cfg, s, order, i);
    }
  }

  lemma InitMeaning(c: Component, cfg: Config, s: Shard, order: seq<string>, i: nat)
    requires IsOrder(order, ConfigFlags(c, cfg)) && i < |InitSettings(c)|
    ensures Parse(Instantiate(Prepared(c, cfg, order), s).initContainers[i].args) ==
            SubstValues(IntendedFlags(c, cfg, InitSettings(c)[i], map[]), s)
  {
    TemplatesNoRepeats(c);
    ContainerMeaning(c, cfg, s, InitSettings(c)[i], [], map[]);
    var args := Lines(InitSettings(c)[i]);
    assert args + [] == args && WithAgent(args) + [] == WithAgent(args);
  }

  /** Two contents with the same name, the same patches, and containers that read the same flags. */
  ghost predicate SameMeaning(a: Content, b: Content) {
    && a.manifest.name == b.manifest.name
    && multiset(a.patches) == multiset(b.patches)
    && a.manifest.initContainers == b.manifest.initContainers
    && |a.manifest.containers| == |b.manifest.containers|
    && forall i :: 0 <= i < |a.manifest.containers| ==>
         && a.manifest.containers[i].name == b.manifest.containers[i].name
         && Parse(a.manifest.containers[i].args) == Parse(b.manifest.containers[i].args)
  }

  /** The order of the configuration flags shows in the arguments of the main container only. */
  lemma OrderShowsInArguments(c: Component, cfg: Config, s: Shard, order: seq<string>, other: seq<string>)
    requires IsOrder(order, ConfigFlags(c, cfg)) && IsOrder(other, ConfigFlags(c, cfg))
    ensures var m, n := Instantiate(Prepared(c, cfg, order), s), Instantiate(Prepared(c, cfg, other), s);
            && m.name == n.name && m.initContainers == n.initContainers
            && |m.containers| == |n.containers| == 1 && m.containers[0].name == n.containers[0].name
  {
    hide ConfigFlags, Lines, Settings, InitSettings, Subst, SubstArgs;
  }

  /** The order in which the configuration flags were met does not change the meaning. */
  lemma RenderingsAgree(c: Component, cfg: Config, s: Shard, patches: multiset<string>, a: Content, b: Content)
    requires IsRendering(c, cfg, s, patches, a) && IsRendering(c, cfg, s, patches, b)
    ensures SameMeaning(a, b)
  {
    hide Instantiate, Prepared, ConfigFlags, IsOrder, Parse, IntendedFlags, SubstValues;
    RenderedMeaning(c, cfg, s, patches, a);
    RenderedMeaning(c, cfg, s, patches, b);
    var order :| IsOrder(order, ConfigFlags(c, cfg)) &&
      a.manifest == Instantiate(Prepared(c, cfg, order), s);
    var other :| IsOrder(other, ConfigFlags(c, cfg)) &&
      b.manifest == Instantiate(Prepared(c, cfg, other), s);
    OrderShowsInArguments(c, cfg, s, order, other);
  }

  /** The rendered --shard-key is the shard key itself, in the container of every component and
      in every init container that has the flag: also for a key that contains the name of the
      agent flag. The key is filled in as it is, so this is about keys that html/template's
      escaping leaves unchanged. */
  lemma ShardKeySurvives(c: Component, cfg: Config, s: Shard, patches: multiset<string>, content: Content)
    requires IsRendering(c, cfg, s, patches, content)
    ensures |content.manifest.containers| == 1 && |content.manifest.initContainers| == |InitSettings(c)|
    ensures var flags := Parse(content.manifest.containers[0].args);
            SHARD_FLAG in flags && flags[SHARD_FLAG] == Some(s)
    ensures forall i :: 0 <= i < |InitSettings(c)| && ShardKey in InitSettings(c)[i] ==>
              var flags := Parse(content.manifest.initContainers[i].args);
              SHARD_FLAG in flags && flags[SHARD_FLAG] == Some(s)
  {
    RenderedMeaning(c, cfg, s, patches, content);
    TemplatesNoRepeats(c);
    forall f | f in ConfigFlags(c, cfg)
      ensures f != SHARD_FLAG
    {
      ConfigNames(c, cfg, f);
    }
    IntendedShardKey(c, cfg, s, Settings(c), ConfigFlags(c, cfg));
    forall i | 0 <= i < |InitSettings(c)| && ShardKey in InitSettings(c)[i]
      ensures var flags := Parse(content.manifest.initContainers[i].args);
              SHARD_FLAG in flags && flags[SHARD_FLAG] == Some(s)
    {
      IntendedShardKey(c, cfg, s, InitSettings(c)[i], map[]);
    }
  }

  lemma IntendedShardKey(c: Component, cfg: Config, s: Shard, settings: seq<Setting>, extra: map<string, string>)
    requires NoRepeats(settings) && ShardKey in settings && SHARD_FLAG !in extra
    ensures var flags := SubstValues(IntendedFlags(c, cfg, settings, extra), s);
            SHARD_FLAG in flags && flags[SHARD_FLAG] == Some(s)
  {
    var i :| 0 <= i < |settings| && settings[i] == ShardKey;
    LinesSound(settings);
    LineSound(ShardKey);
    B.Distinct(Flags(Lines(settings)), i);
    NamesDiffer(ShardKey, AgentInMgmtCluster);
    SubstPlaceholder(s);
  }

  // ---------- Which option reaches which container ----------

  ghost predicate Reads(container: Container, flag: string, value: string) {
    flag in Parse(container.args) && Parse(container.args)[flag] == Some(value)
  }

  ghost predicate Lacks(container: Container, flag: string) {
    flag !in Parse(container.args)
  }

  /** The flag carries the option, with the shard key filled in, and is absent without it. */
  ghost predicate Passes(container: Container, flag: string, option: string, s: Shard) {
    if option == "" then Lacks(container, flag) else Reads(container, flag, Subst(option, s))
  }

  ghost predicate LacksConfigs(container: Container) {
    && Lacks(container, "--drift-detection-config")
    && Lacks(container, "--sveltos-agent-config") && Lacks(container, "--sveltos-applier-config")
  }

  function TrueFalse(b: bool): string {
    if b then "true" else "false"
  }

  /** Component by component, in the words of the command line: which options of the shard
      controller its container reads, and under which flag. */
  lemma OptionsReach(c: Component, cfg: Config, s: Shard, patches: multiset<string>, content: Content)
    requires IsRendering(c, cfg, s, patches, content)
    ensures |content.manifest.containers| == 1
    ensures var main := content.manifest.containers[0];
            Reads(main, "--shard-key", s) &&
            match c
            case AddonController =>
              && Passes(main, "--drift-detection-config", cfg.driftDetectionConfig, s)
              && Lacks(main, "--sveltos-agent-config") && Lacks(main, "--sveltos-applier-config")
              && Reads(main, "--agent-in-mgmt-cluster", TrueFalse(cfg.agentInMgmtCluster))
            case Classifier =>
              && Passes(main, "--sveltos-agent-config", cfg.sveltosAgentConfig, s)
              && Passes(main, "--sveltos-applier-config", cfg.sveltosApplierConfig, s)
              && Lacks(main, "--drift-detection-config")
              && Reads(main, "--agent-in-mgmt-cluster", TrueFalse(cfg.agentInMgmtCluster))
            case SveltosClusterManager => LacksConfigs(main) && Lacks(main, "--agent-in-mgmt-cluster")
            case EventManager =>
              LacksConfigs(main) && Reads(main, "--agent-in-mgmt-cluster", TrueFalse(cfg.agentInMgmtCluster))
            case HealthCheckManager =>
              LacksConfigs(main) && Reads(main, "--agent-in-mgmt-cluster", TrueFalse(cfg.agentInMgmtCluster))
  {
    hide Reads, Lacks, Subst, TrueFalse, IsRendering;
    hide AGENT_FLAG, SHARD_FLAG, DRIFT_FLAG, SVELTOS_AGENT_FLAG, SVELTOS_APPLIER_FLAG;
    MainSees(c, cfg, s, patches, content);
    NamesSpelled();
  }

  /** The same for the init containers, of which only two templates have one. The classifier's has
      no arguments of its own. */
  lemma OptionsReachInit(c: Component, cfg: Config, s: Shard, patches: multiset<string>, content: Content)
    requires IsRendering(c, cfg, s, patches, content)
    ensures var init := content.manifest.initContainers;
            match c
            case AddonController =>
              && |init| == 1 && LacksConfigs(init[0]) && Reads(init[0], "--shard-key", s)
              && Reads(init[0], "--agent-in-mgmt-cluster", TrueFalse(cfg.agentInMgmtCluster))
            case Classifier =>
              && |init| == 1 && LacksConfigs(init[0]) && Lacks(init[0], "--shard-key")
              && if cfg.agentInMgmtCluster then Reads(init[0], "--agent-in-mgmt-cluster", "true")
                 else Lacks(init[0], "--agent-in-mgmt-cluster")
            case _ => init == []
  {
    hide Reads, Lacks, Subst, IsRendering;
    hide AGENT_FLAG, SHARD_FLAG, DRIFT_FLAG, SVELTOS_AGENT_FLAG, SVELTOS_APPLIER_FLAG;
    InitSees(c, cfg, s, patches, content);
    NamesSpelled();
  }

  lemma NamesSpelled()
    ensures AGENT_FLAG == "--agent-in-mgmt-cluster" && SHARD_FLAG == "--shard-key"
    ensures DRIFT_FLAG == "--drift-detection-config"
    ensures SVELTOS_AGENT_FLAG == "--sveltos-agent-config" && SVELTOS_APPLIER_FLAG == "--sveltos-applier-config"
  {}

  lemma AgentSettings(c: Component)
    ensures AgentInMgmtCluster in Settings(c) <==> c != SveltosClusterManager
    ensures InitSettings(c) == match c
                               case AddonController => [[ReportMode, ShardKey, AgentInMgmtCluster]]
                               case Classifier => [[]]
                               case _ => []
  {}

  predicate IsConfigFlag(f: string) {
    f == DRIFT_FLAG || f == SVELTOS_AGENT_FLAG || f == SVELTOS_APPLIER_FLAG
  }

  lemma ConfigFlagIsNoSetting(f: string, x: Setting)
    requires IsConfigFlag(f)
    ensures f != SettingName(x)
  {
    assert |f| == 22 || |f| == 24;
    assert |SettingName(x)| != 22 && |SettingName(x)| != 24;
  }

  lemma TemplateHas(settings: seq<Setting>, x: Setting)
    requires NoRepeats(settings) && x in settings
    ensures var flags := Parse(Lines(settings));
            SettingName(x) in flags && flags[SettingName(x)] == Some(SettingValue(x))
  {
    var i :| 0 <= i < |settings| && settings[i] == x;
    LinesSound(settings);
    LineSound(x);
    B.Distinct(Flags(Lines(settings)), i);
  }

  lemma TemplateLacks(settings: seq<Setting>, f: string)
    requires forall x :: x in settings ==> SettingName(x) != f
    ensures f !in Parse(Lines(settings))
  {
    forall i | 0 <= i < |settings|
      ensures Flags(Lines(settings))[i].key != f
    {
      LineSound(settings[i]);
    }
    B.Absent(Flags(Lines(settings)), f);
  }

  lemma SubstTrueFalse(s: Shard, b: bool)
    ensures Subst(TrueFalse(b), s) == TrueFalse(b)
  {
    assert TrueFalse(b) + "" == TrueFalse(b);
    SubstPlain(TrueFalse(b), "", s);
  }

  function ValueOr(flags: map<string, string>, f: string): string {
    if f in flags then flags[f] else ""
  }

  /** The flags of one container about the agent and the configurations. */
  lemma ContainerSees(container: Container, c: Component, cfg: Config, s: Shard, settings: seq<Setting>,
                      extra: map<string, string>, f: string)
    requires NoRepeats(settings) && (forall x :: x in extra ==> IsConfigFlag(x)) && IsConfigFlag(f)
    requires Parse(container.args) == SubstValues(IntendedFlags(c, cfg, settings, extra), s)
    ensures Passes(container, f, ValueOr(extra, f), s)
    ensures var isSet := cfg.agentInMgmtCluster && TakesAgentFlag(c);
            if isSet || AgentInMgmtCluster in settings then Reads(container, AGENT_FLAG, TrueFalse(isSet))
            else Lacks(container, AGENT_FLAG)
  {
    SubstTrueFalse(s, true);
    SubstTrueFalse(s, false);
    AgentSeen(settings);
    forall x | IsConfigFlag(x)
      ensures x != AGENT_FLAG && x !in Parse(Lines(settings))
    {
      forall y: Setting
        ensures SettingName(y) != x
      {
        ConfigFlagIsNoSetting(x, y);
      }
      ConfigFlagIsNoSetting(x, AgentInMgmtCluster);
      TemplateLacks(settings, x);
    }
    hide Subst, Parse, Lines, IsConfigFlag, AGENT_FLAG;
  }

  lemma ConfigFlagsDiffer()
    ensures DRIFT_FLAG != SVELTOS_AGENT_FLAG && DRIFT_FLAG != SVELTOS_APPLIER_FLAG
    ensures SVELTOS_AGENT_FLAG != SVELTOS_APPLIER_FLAG
  {
    assert DRIFT_FLAG[2] == 'd' && SVELTOS_AGENT_FLAG[2] == 's' && SVELTOS_APPLIER_FLAG[2] == 's';
    assert |SVELTOS_AGENT_FLAG| == 22 && |SVELTOS_APPLIER_FLAG| == 24;
  }

  lemma ConfigValues(c: Component, cfg: Config)
    ensures var flags := ConfigFlags(c, cfg);
            && (forall x :: x in flags ==> IsConfigFlag(x))
            && ValueOr(flags, DRIFT_FLAG) == (if c == AddonController then cfg.driftDetectionConfig else "")
            && ValueOr(flags, SVELTOS_AGENT_FLAG) == (if c == Classifier then cfg.sveltosAgentConfig else "")
            && ValueOr(flags, SVELTOS_APPLIER_FLAG) == (if c == Classifier then cfg.sveltosApplierConfig else "")
  {
    ConfigFlagsDiffer();
    hide DRIFT_FLAG, SVELTOS_AGENT_FLAG, SVELTOS_APPLIER_FLAG;
  }

  lemma MainSees(c: Component, cfg: Config, s: Shard, patches: multiset<string>, content: Content)
    requires IsRendering(c, cfg, s, patches, content)
    ensures |content.manifest.containers| == 1
    ensures var main := content.manifest.containers[0];
            && Reads(main, SHARD_FLAG, s)
            && Passes(main, DRIFT_FLAG, if c == AddonController then cfg.driftDetectionConfig else "", s)
            && Passes(main, SVELTOS_AGENT_FLAG, if c == Classifier then cfg.sveltosAgentConfig else "", s)
            && Passes(main, SVELTOS_APPLIER_FLAG, if c == Classifier then cfg.sveltosApplierConfig else "", s)
            && if c == SveltosClusterManager then Lacks(main, AGENT_FLAG)
               else Reads(main, AGENT_FLAG, TrueFalse(cfg.agentInMgmtCluster))
  {
    RenderedMeaning(c, cfg, s, patches, content);
    ShardKeySurvives(c, cfg, s, patches, content);
    hide IsRendering, Parse, Subst, SubstValues, IntendedFlags, ConfigFlags, Passes, IsConfigFlag;
    TemplatesNoRepeats(c);
    AgentSettings(c);
    hide Settings;
    ConfigValues(c, cfg);
    forall f | IsConfigFlag(f) {
      ContainerSees(content.manifest.containers[0], c, cfg, s, Settings(c), ConfigFlags(c, cfg), f);
    }
    ConfigFlagsAre();
  }

  lemma ConfigFlagsAre()
    ensures IsConfigFlag(DRIFT_FLAG) && IsConfigFlag(SVELTOS_AGENT_FLAG) && IsConfigFlag(SVELTOS_APPLIER_FLAG)
  {}

  lemma InitSees(c: Component, cfg: Config, s: Shard, patches: multiset<string>, content: Content)
    requires IsRendering(c, cfg, s, patches, content)
    ensures var init := content.manifest.initContainers;
            && |init| == (if c == AddonController || c == Classifier then 1 else 0)
            && (init != [] ==>
                  && Lacks(init[0], DRIFT_FLAG) && Lacks(init[0], SVELTOS_AGENT_FLAG)
                  && Lacks(init[0], SVELTOS_APPLIER_FLAG)
                  && (if c == AddonController then Reads(init[0], SHARD_FLAG, s) else Lacks(init[0], SHARD_FLAG))
                  && if cfg.agentInMgmtCluster || c == AddonController
                     then Reads(init[0], AGENT_FLAG, TrueFalse(cfg.agentInMgmtCluster))
                     else Lacks(init[0], AGENT_FLAG))
  {
    RenderedMeaning(c, cfg, s, patches, content);
    ShardKeySurvives(c, cfg, s, patches, content);
    TemplatesNoRepeats(c);
    AgentSettings(c);
    NoShardKey(c, cfg, s);
    ConfigFlagsAre();
    hide IsRendering, Parse, Subst, SubstValues, IntendedFlags, IsConfigFlag, AGENT_FLAG, SHARD_FLAG;
    hide DRIFT_FLAG, SVELTOS_AGENT_FLAG, SVELTOS_APPLIER_FLAG, InitSettings;
    if c == AddonController || c == Classifier {
      var init := content.manifest.initContainers[0];
      ContainerSees(init, c, cfg, s, InitSettings(c)[0], map[], DRIFT_FLAG);
      ContainerSees(init, c, cfg, s, InitSettings(c)[0], map[], SVELTOS_AGENT_FLAG);
      ContainerSees(init, c, cfg, s, InitSettings(c)[0], map[], SVELTOS_APPLIER_FLAG);
    }
  }

  /** Without the flag in its template the classifier's init container is not told the shard. */
  lemma NoShardKey(c: Component, cfg: Config, s: Shard)
    ensures SHARD_FLAG !in SubstValues(IntendedFlags(c, cfg, [], map[]), s)
  {
    NamesDiffer(ShardKey, AgentInMgmtCluster);
    TemplateLacks([], SHARD_FLAG);
  }

  lemma AgentSeen(settings: seq<Setting>)
    requires NoRepeats(settings)
    ensures var flags := Parse(Lines(settings));
            && (AGENT_FLAG in flags <==> AgentInMgmtCluster in settings)
            && (AGENT_FLAG in flags ==> flags[AGENT_FLAG] == Some("false"))
  {
    assert AGENT_FLAG == SettingName(AgentInMgmtCluster) && "false" == SettingValue(AgentInMgmtCluster);
    hide Parse, Lines, SettingName, SettingValue, AGENT_FLAG, NoRepeats;
    if AgentInMgmtCluster in settings {
      TemplateHas(settings, AgentInMgmtCluster);
    } else {
      forall x | x in settings
        ensures SettingName(x) != AGENT_FLAG
      {
        NamesDiffer(x, AgentInMgmtCluster);
      }
      TemplateLacks(settings, AGENT_FLAG);
    }
  }

  /** Why the order of the steps matters: had the key been filled in before the agent flag was
      set, --shard-key would have survived exactly for the keys that do not mention the agent. */
  lemma FillingInFirst(c: Component, s: Shard)
    requires TakesAgentFlag(c)
    ensures SHARD_FLAG in Parse(WithAgent(SubstArgs(Lines(Settings(c)), s))) <==> !MentionsAgent(s)
  {
    var args := SubstArgs(Lines(Settings(c)), s);
    TemplatesNoRepeats(c);
    FilledInNames(Settings(c), s);
    var p, q := KeyBeforeAgent(c);
    FirstFilledInMention(Settings(c), p, q, s);
    RemovedFlag(args, p, FirstMention(args), AGENT_TRUE);
  }

  /** Every template that takes the agent flag has its own line after the shard key's. */
  lemma KeyBeforeAgent(c: Component) returns (p: nat, q: nat)
    requires TakesAgentFlag(c)
    ensures p < q < |Settings(c)| && Settings(c)[p] == ShardKey && Settings(c)[q] == AgentInMgmtCluster
  {
    p := if c == AddonController || c == Classifier then 2 else 1;
    q := |Settings(c)| - 1;
  }

  lemma FirstFilledInMention(settings: seq<Setting>, p: nat, q: nat, s: Shard)
    requires NoRepeats(settings) && p < q < |settings|
    requires settings[p] == ShardKey && settings[q] == AgentInMgmtCluster
    ensures FirstMention(SubstArgs(Lines(settings), s)) == if MentionsAgent(s) then p else q
  {
    var args := SubstArgs(Lines(settings), s);
    assert forall i :: 0 <= i < |settings| && settings[i] == settings[p] ==> i == p;
    assert forall i :: 0 <= i < |settings| && settings[i] == settings[q] ==> i == q;
    forall i | 0 <= i < |settings|
      ensures MentionsAgent(args[i]) <==> i == q || (i == p && MentionsAgent(s))
    {
      FilledInMention(settings[i], s);
    }
    var first := FirstMention(args);
    assert MentionsAgent(args[q]) && (MentionsAgent(s) ==> MentionsAgent(args[p]));
    assert MentionsAgent(args[first]);
  }

  lemma RemovedFlag(args: seq<string>, p: nat, i: nat, arg: string)
    requires DistinctNames(args) && p < |args| && i < |args| && FlagName(args[p]) == SHARD_FLAG && arg == AGENT_TRUE
    ensures SHARD_FLAG in Parse(B.SwapRemove(args, i) + [arg]) <==> i != p
  {
    B.Distinct(Flags(args), p);
    RemoveFlag(args, i);
    AppendFlag(B.SwapRemove(args, i), arg);
    AgentTrueMentionsAgent();
    NamesDiffer(ShardKey, AgentInMgmtCluster);
    assert i < p ==> FlagName(args[i]) != FlagName(args[p]) by {
      assert i < p ==> Flags(args)[i].key != Flags(args)[p].key;
    }
    assert p < i ==> FlagName(args[p]) != FlagName(args[i]) by {
      assert p < i ==> Flags(args)[p].key != Flags(args)[i].key;
    }
  }

  lemma FilledInNames(settings: seq<Setting>, s: Shard)
    requires NoRepeats(settings)
    ensures DistinctNames(SubstArgs(Lines(settings), s))
    ensures forall i :: 0 <= i < |settings| ==> FlagName(SubstArgs(Lines(settings), s)[i]) == SettingName(settings[i])
  {
    forall i | 0 <= i < |settings|
      ensures FlagName(Subst(Line(settings[i]), s)) == SettingName(settings[i])
    {
      LineSound(settings[i]);
      SubstFlag(Line(settings[i]), s);
    }
    forall i, j | 0 <= i < j < |settings|
      ensures SettingName(settings[i]) != SettingName(settings[j])
    {
      NamesDiffer(settings[i], settings[j]);
    }
  }

  lemma FilledInMention(x: Setting, s: Shard)
    ensures MentionsAgent(Subst(Line(x), s)) <==> x == AgentInMgmtCluster || (x == ShardKey && MentionsAgent(s))
  {
    if x == ShardKey {
      KeyLine(s);
    } else if x == AgentInMgmtCluster {
      AgentLine(s);
    } else {
      PlainLine(x, s);
    }
  }

  lemma AgentLine(s: Shard)
    ensures MentionsAgent(Subst(Line(AgentInMgmtCluster), s))
  {
    var line := Line(AgentInMgmtCluster);
    assert line + "" == line;
    LineHasNoBrace(AgentInMgmtCluster);
    SubstPlain(line, "", s);
    assert line == "--" + AGENT + "=false";
    assert line[2..2 + |AGENT|] == AGENT;
    assert OccursAt(line, AGENT, 2);
  }

  lemma PlainLine(x: Setting, s: Shard)
    requires x != ShardKey && x != AgentInMgmtCluster
    ensures Subst(Line(x), s) == Line(x) && !MentionsAgent(Line(x))
  {
    LineSilent(x);
    NoMention(Line(x));
    assert Line(x) + "" == Line(x);
    LineHasNoBrace(x);
    SubstPlain(Line(x), "", s);
  }

  lemma LineHasNoBrace(x: Setting)
    requires x != ShardKey
    ensures '{' !in Line(x)
  {
    hide SettingName, SettingValue;
    NameNoBrace(x);
    ValueNoBrace(x);
  }

  lemma KeyLine(s: Shard)
    ensures Subst(Line(ShardKey), s) == SHARD_FLAG + "=" + s
    ensures MentionsAgent(SHARD_FLAG + "=" + s) <==> MentionsAgent(s)
  {
    NamePlain(ShardKey);
    SubstPlain(SHARD_FLAG + "=", PLACEHOLDER, s);
    SubstPlaceholder(s);
    AgentHasNoEquals();
    MentionAfterEquals(SHARD_FLAG, s);
  }

  lemma AgentHasNoEquals()
    ensures '=' !in AGENT
  {}

  /** A text without '=' cannot straddle one: with a name too short to hold it, the agent is
      mentioned in "name=value" exactly when the value mentions it. */
  lemma MentionAfterEquals(name: string, value: string)
    requires |name| < |AGENT| && '=' !in AGENT
    ensures MentionsAgent(name + "=" + value) <==> MentionsAgent(value)
  {
    hide AGENT;
    var before := name + "=";
    var text := before + value;
    if MentionsAgent(value) {
      var i: nat :| i <= |value| && OccursAt(value, AGENT, i);
      assert text[|before| + i..|before| + i + |AGENT|] == value[i..i + |AGENT|];
      assert OccursAt(text, AGENT, |before| + i);
    }
    if MentionsAgent(text) {
      var i: nat :| i <= |text| && OccursAt(text, AGENT, i);
      if i <= |name| {
        NoStraddling(name, value, i);
      }
      assert text[i..i + |AGENT|] == value[i - |before|..i - |before| + |AGENT|];
      assert OccursAt(value, AGENT, i - |before|);
    }
  }

  lemma NoStraddling(name: string, value: string, i: nat)
    requires i <= |name| < |AGENT| && '=' !in AGENT
    ensures !OccursAt(name + "=" + value, AGENT, i)
  {
    hide AGENT;
    var text := name + "=" + value;
    if i + |AGENT| <= |text| {
      assert text[i..i + |AGENT|][|name| - i] == '=';
    }
  }

  // ---------- Deployment names ----------

  /** The name of a deployment in the cluster. */
  function NameOf(k: Key): string {
    NamePrefix(k.component) + "-" + k.shard
  }

  lemma InstantiatedName(c: Component, s: Shard)
    ensures Instantiate(Template(c), s).name == NameOf(Key(c, s))
  {
    assert NamePrefix(c) + "-" + PLACEHOLDER == (NamePrefix(c) + "-") + PLACEHOLDER;
    PrefixPlain(c);
    SubstPlain(NamePrefix(c) + "-", PLACEHOLDER, s);
    SubstPlaceholder(s);
  }

  lemma PrefixPlain(c: Component)
    ensures '{' !in NamePrefix(c)
  {}

  lemma RenderedName(c: Component, cfg: Config, s: Shard, patches: multiset<string>, content: Content)
    requires IsRendering(c, cfg, s, patches, content)
    ensures content.manifest.name == NameOf(Key(c, s))
  {
    InstantiatedName(c, s);
  }

  /** Distinct deployments have distinct names, and none has the name of a default one, which
      carries no suffix. */
  lemma NamesInjective(k: Key, l: Key)
    ensures NameOf(k) == NameOf(l) ==> k == l
    ensures NameOf(k) != NamePrefix(l.component)
  {
    assert NameOf(k)[0] == NamePrefix(k.component)[0] && NameOf(l)[0] == NamePrefix(l.component)[0];
    if k.component == l.component {
      assert NameOf(k)[|NamePrefix(k.component)| + 1..] == k.shard;
      assert NameOf(l)[|NamePrefix(l.component)| + 1..] == l.shard;
    } else {
      assert NamePrefix(k.component)[0] != NamePrefix(l.component)[0];
    }
  }
}
