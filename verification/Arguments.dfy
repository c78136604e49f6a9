/** Command-line arguments of the deployed containers: what they mean, and how the controller
    rewrites them. */
module Arguments {
  import opened ShardTypes
  import B = Bindings

  datatype Container = Container(name: string, args: seq<string>)

  /** The parts of a Deployment the controller reads or changes. */
  datatype Manifest = Manifest(name: string, containers: seq<Container>, initContainers: seq<Container>)

  const AGENT: string := "agent-in-mgmt-cluster"
  const AGENT_FLAG: string := "--" + AGENT
  const AGENT_TRUE: string := AGENT_FLAG + "=" + "true"

  // ---------- The meaning of an argument list ----------

  /** The position of the first '=', or the length of the text when there is none. */
  function EqualsAt(arg: string): (i: nat)
    ensures i <= |arg|
    ensures forall j :: 0 <= j < i ==> arg[j] != '='
    ensures i < |arg| ==> arg[i] == '='
  {
    if arg == "" || arg[0] == '=' then 0 else 1 + EqualsAt(arg[1..])
  }

  function FlagName(arg: string): string {
    arg[..EqualsAt(arg)]
  }

  /** The text after the first '='; None for an argument without one. */
  function FlagValue(arg: string): Option<string> {
    var i := EqualsAt(arg);
    if i < |arg| then Some(arg[i + 1..]) else None
  }

  /** An argument as a flag name bound to its value. */
  function Flag(arg: string): B.Binding<string, Option<string>> {
    B.Binding(FlagName(arg), FlagValue(arg))
  }

  function Flags(args: seq<string>): (r: seq<B.Binding<string, Option<string>>>)
    ensures |r| == |args|
  {
    seq(|args|, i requires 0 <= i < |args| => Flag(args[i]))
  }

  /** The flags a program sees: when a flag is repeated the last occurrence wins. */
  function Parse(args: seq<string>): map<string, Option<string>> {
    B.LastWins(Flags(args))
  }

  ghost predicate DistinctNames(args: seq<string>) {
    B.DistinctKeys(Flags(args))
  }

  lemma ParseFlag(name: string, value: string)
    requires '=' !in name
    ensures FlagName(name + "=" + value) == name
    ensures FlagValue(name + "=" + value) == Some(value)
  {
    var arg := name + "=" + value;
    assert arg[|name|] == '=';
    assert forall j :: 0 <= j < |name| ==> arg[j] == name[j];
    assert EqualsAt(arg) == |name|;
  }

  lemma ParseAppend(a: seq<string>, b: seq<string>)
    ensures Parse(a + b) == Parse(a) + Parse(b)
  {
    assert Flags(a + b) == Flags(a) + Flags(b);
    B.Concat(Flags(a), Flags(b));
  }

  lemma ParseOne(arg: string)
    ensures Parse([arg]) == map[FlagName(arg) := FlagValue(arg)]
  {
    assert Flags([arg]) == [Flag(arg)];
    B.One(Flag(arg));
  }

  // ---------- Setting --agent-in-mgmt-cluster=true ----------

  predicate OccursAt(s: string, sub: string, i: nat) {
    i + |sub| <= |s| && s[i..i + |sub|] == sub
  }

  /** Substring search, as strings.Contains. */
  predicate Contains(s: string, sub: string) {
    exists i: nat | i <= |s| :: OccursAt(s, sub, i)
  }

  predicate MentionsAgent(arg: string) {
    Contains(arg, AGENT)
  }

  /** The first argument that mentions the agent flag, or the length when none does. */
  function FirstMention(args: seq<string>): (i: nat)
    ensures i <= |args|
    ensures forall j :: 0 <= j < i ==> !MentionsAgent(args[j])
    ensures i < |args| ==> MentionsAgent(args[i])
  {
    if args == [] || MentionsAgent(args[0]) then 0 else 1 + FirstMention(args[1..])
  }

  function WithAgent(args: seq<string>): seq<string> {
    var i := FirstMention(args);
    (if i < |args| then B.SwapRemove(args, i) else args) + [AGENT_TRUE]
  }

  /** The number of arguments that mention the agent flag. */
  function Mentions(args: seq<string>): nat {
    if args == [] then 0
    else Mentions(args[..|args| - 1]) + if MentionsAgent(args[|args| - 1]) then 1 else 0
  }

  lemma AgentTrueMentionsAgent()
    ensures MentionsAgent(AGENT_TRUE)
    ensures FlagName(AGENT_TRUE) == AGENT_FLAG && FlagValue(AGENT_TRUE) == Some("true")
  {
    assert AGENT_TRUE == "--" + AGENT + "=true";
    assert AGENT_TRUE[2..2 + |AGENT|] == AGENT;
    assert OccursAt(AGENT_TRUE, AGENT, 2);
    assert '=' !in AGENT_FLAG;
    ParseFlag(AGENT_FLAG, "true");
  }

  lemma {:induction false} MentionsConcat(a: seq<string>, b: seq<string>)
    ensures Mentions(a + b) == Mentions(a) + Mentions(b)
  {
    if b == [] {
      assert a + b == a;
    } else {
      MentionsConcat(a, b[..|b| - 1]);
      assert (a + b)[..|a + b| - 1] == a + b[..|b| - 1];
    }
  }

  lemma {:induction false} NoMentions(args: seq<string>)
    ensures Mentions(args) == 0 <==> FirstMention(args) == |args|
  {
    if args != [] {
      NoMentions(args[1..]);
      assert args == args[..1] + args[1..];
      MentionsConcat(args[..1], args[1..]);
      assert Mentions(args[..1]) == if MentionsAgent(args[0]) then 1 else 0;
    }
  }

  lemma MentionsSwapRemove(args: seq<string>, i: nat)
    requires i < |args| && MentionsAgent(args[i])
    ensures Mentions(B.SwapRemove(args, i)) == Mentions(args) - 1
  {
    var last := |args| - 1;
    if i < last {
      var before, x, between, y := args[..i], [args[i]], args[i + 1..last], [args[last]];
      B.SwapRemovePieces(args, i);
      MentionsConcat(before, x + (between + y));
      MentionsConcat(x, between + y);
      MentionsConcat(between, y);
      MentionsConcat(before, y + between);
      MentionsConcat(y, between);
      assert Mentions(x) == 1;
    }
  }

  /** What setting the agent flag does to the elements: at most one argument, which mentions the
      agent, is taken out, and the new flag is put in. */
  lemma WithAgentElements(args: seq<string>)
    ensures var i := FirstMention(args);
            multiset(WithAgent(args)) ==
              (if i < |args| then multiset(args) - multiset{args[i]} else multiset(args)) + multiset{AGENT_TRUE}
  {
    if FirstMention(args) < |args| {
      B.SwapRemoveElements(args, FirstMention(args));
    }
  }

  /** Afterwards at least one argument mentions the agent, and never more than before. */
  lemma WithAgentMentions(args: seq<string>)
    ensures Mentions(WithAgent(args)) == if Mentions(args) <= 1 then 1 else Mentions(args)
  {
    var i := FirstMention(args);
    NoMentions(args);
    AgentTrueMentionsAgent();
    assert Mentions([AGENT_TRUE]) == 1;
    if i < |args| {
      MentionsSwapRemove(args, i);
      MentionsConcat(B.SwapRemove(args, i), [AGENT_TRUE]);
    } else {
      MentionsConcat(args, [AGENT_TRUE]);
    }
  }

  /** Setting the flag twice is the same, position by position, as setting it once. */
  lemma WithAgentIdempotent(args: seq<string>)
    requires Mentions(args) <= 1
    ensures WithAgent(WithAgent(args)) == WithAgent(args)
  {
    var i := FirstMention(args);
    var kept := if i < |args| then B.SwapRemove(args, i) else args;
    NoMentions(args);
    if i < |args| {
      MentionsSwapRemove(args, i);
    }
    NoMentions(kept);
    MentionAtEnd(kept);
    B.SwapRemoveLast(kept, AGENT_TRUE);
  }

  lemma MentionAtEnd(kept: seq<string>)
    requires FirstMention(kept) == |kept|
    ensures FirstMention(kept + [AGENT_TRUE]) == |kept|
  {
    AgentTrueMentionsAgent();
    var once := kept + [AGENT_TRUE];
    assert once[|kept|] == AGENT_TRUE;
    assert forall j :: 0 <= j < |kept| ==> once[j] == kept[j];
  }

  /** The rewriting keeps every other flag exactly when the argument it takes out is the agent
      flag itself (or nothing is taken out). */
  lemma WithAgentMeaning(args: seq<string>)
    requires DistinctNames(args)
    ensures Parse(WithAgent(args)) == Parse(args)[AGENT_FLAG := Some("true")] <==>
            (FirstMention(args) < |args| ==> FlagName(args[FirstMention(args)]) == AGENT_FLAG)
  {
    var i := FirstMention(args);
    AgentTrueMentionsAgent();
    if i < |args| {
      ReplaceMeaning(args, i, AGENT_TRUE);
    } else {
      AppendFlag(args, AGENT_TRUE);
    }
  }

  lemma AppendFlag(args: seq<string>, arg: string)
    ensures Parse(args + [arg]) == Parse(args)[FlagName(arg) := FlagValue(arg)]
  {
    ParseAppend(args, [arg]);
    ParseOne(arg);
  }

  lemma RemoveFlag(args: seq<string>, i: nat)
    requires DistinctNames(args) && i < |args|
    ensures Parse(B.SwapRemove(args, i)) == Parse(args) - {FlagName(args[i])}
    ensures FlagName(args[i]) in Parse(args)
  {
    assert Flags(B.SwapRemove(args, i)) == B.SwapRemove(Flags(args), i);
    B.SwapRemoveMeaning(Flags(args), i);
    B.Distinct(Flags(args), i);
  }

  lemma ReplaceMeaning(args: seq<string>, i: nat, arg: string)
    requires DistinctNames(args) && i < |args|
    ensures Parse(B.SwapRemove(args, i) + [arg]) == Parse(args)[FlagName(arg) := FlagValue(arg)] <==>
            FlagName(args[i]) == FlagName(arg)
  {
    RemoveFlag(args, i);
    AppendFlag(B.SwapRemove(args, i), arg);
    Override(Parse(args), FlagName(args[i]), FlagName(arg), FlagValue(arg));
  }

  lemma Override<K, V>(m: map<K, V>, removed: K, added: K, v: V)
    requires removed in m
    ensures (m - {removed})[added := v] == m[added := v] <==> removed == added
  {
    var changed := (m - {removed})[added := v];
    if removed == added {
      assert forall x :: x in changed <==> x in m[added := v];
    } else {
      assert removed !in changed;
    }
  }

  function AllWithAgent(containers: seq<Container>): (r: seq<Container>)
    ensures |r| == |containers|
  {
    seq(|containers|, i requires 0 <= i < |containers| => containers[i].(args := WithAgent(containers[i].args)))
  }

  /** The nested loops of setOptions over one container list: swap, truncate, append. */
  method SetAgentFlag(containers: seq<Container>) returns (r: seq<Container>)
    ensures r == AllWithAgent(containers)
  {
    r := containers;
    for i := 0 to |containers|
      invariant |r| == |containers|
      invariant forall j :: 0 <= j < i ==> r[j] == AllWithAgent(containers)[j]
      invariant forall j :: i <= j < |containers| ==> r[j] == containers[j]
    {
      var args := r[i].args;
      var j := 0;
      while j < |args|
        invariant j <= |args| && args == containers[i].args
        invariant forall k :: 0 <= k < j ==> !MentionsAgent(args[k])
      {
        if Contains(args[j], AGENT) {
          break;
        }
        j := j + 1;
      }
      assert j == FirstMention(args);
      if j < |args| {
        var lastIdx := |args| - 1;
        args := args[j := args[lastIdx]];
        args := args[..lastIdx];
      }
      args := args + [AGENT_TRUE];
      r := r[i := r[i].(args := args)];
    }
  }

  /** setOptions: both container lists get the agent flag. */
  method SetOptions(m: Manifest) returns (r: Manifest)
    ensures r == Manifest(m.name, AllWithAgent(m.containers), AllWithAgent(m.initContainers))
  {
    var containers := SetAgentFlag(m.containers);
    var initContainers := SetAgentFlag(m.initContainers);
    r := Manifest(m.name, containers, initContainers);
  }

  // ---------- Appending configuration flags ----------

  /** "flag=value" for each flag of the list, in its order. */
  function Assignments(order: seq<string>, flags: map<string, string>): seq<string>
    requires forall f :: f in order ==> f in flags
  {
    if order == [] then []
    else Assignments(order[..|order| - 1], flags) + [order[|order| - 1] + "=" + flags[order[|order| - 1]]]
  }

  /** An order in which a loop over the map can meet the flags that have a value. */
  ghost predicate IsOrder(order: seq<string>, flags: map<string, string>) {
    && (forall f :: f in order <==> f in flags && flags[f] != "")
    && (forall i, j :: 0 <= i < j < |order| ==> order[i] != order[j])
  }

  function Overrides(flags: map<string, string>): map<string, Option<string>> {
    map f | f in flags && flags[f] != "" :: Some(flags[f])
  }

  function AppendTo(containers: seq<Container>, name: string, extra: seq<string>): (r: seq<Container>)
    ensures |r| == |containers|
  {
    seq(|containers|, i requires 0 <= i < |containers| =>
      if containers[i].name == name then containers[i].(args := containers[i].args + extra) else containers[i])
  }

  /** appendArgsToContainer: a loop over the flags, in an order the map chooses, around a loop
      over the containers. Init containers are left alone. */
  method AppendArgsToContainer(m: Manifest, name: string, flags: map<string, string>)
    returns (r: Manifest)
    ensures r.name == m.name && r.initContainers == m.initContainers && |r.containers| == |m.containers|
    ensures exists order :: IsOrder(order, flags) &&
              r == m.(containers := AppendTo(m.containers, name, Assignments(order, flags))) &&
              forall i :: 0 <= i < |m.containers| ==>
                r.containers[i] == Container(
                  m.containers[i].name,
                  if m.containers[i].name == name then m.containers[i].args + Assignments(order, flags)
                  else m.containers[i].args)
  {
    ghost var order := [];
    var containers := m.containers;
    assert AppendTo(m.containers, name, []) == m.containers by {
      assert forall c: Container :: c.args + [] == c.args;
    }
    var pending := flags.Keys;
    while pending != {}
      invariant pending <= flags.Keys
      invariant forall f :: f in order <==> f in flags && f !in pending && flags[f] != ""
      invariant forall i, j :: 0 <= i < j < |order| ==> order[i] != order[j]
      invariant containers == AppendTo(m.containers, name, Assignments(order, flags))
      decreases |pending|
    {
      var flag :| flag in pending;
      pending := pending - {flag};
      if flags[flag] == "" {
        continue;
      }
      var arg := flag + "=" + flags[flag];
      ghost var before := containers;
      for i := 0 to |containers|
        invariant |containers| == |before|
        invariant forall j :: 0 <= j < i ==> containers[j] == AppendTo(before, name, [arg])[j]
        invariant forall j :: i <= j < |containers| ==> containers[j] == before[j]
      {
        if containers[i].name == name {
          containers := containers[i := containers[i].(args := containers[i].args + [arg])];
        }
      }
      ghost var longer := order + [flag];
      assert longer[..|longer| - 1] == order;
      AppendTwice(m.containers, name, Assignments(order, flags), [arg]);
      assert containers == AppendTo(before, name, [arg]);
      order := longer;
    }
    assert IsOrder(order, flags);
    r := m.(containers := containers);
  }

  lemma AppendTwice(containers: seq<Container>, name: string, a: seq<string>, b: seq<string>)
    ensures AppendTo(AppendTo(containers, name, a), name, b) == AppendTo(containers, name, a + b)
  {
    forall i | 0 <= i < |containers| && containers[i].name == name
      ensures containers[i].args + a + b == containers[i].args + (a + b)
    {}
  }

  lemma {:induction false} ParseAssignments(order: seq<string>, flags: map<string, string>)
    requires forall f :: f in order ==> f in flags && '=' !in f
    ensures Parse(Assignments(order, flags)) == map f | f in order :: Some(flags[f])
  {
    if order != [] {
      var init, f := order[..|order| - 1], order[|order| - 1];
      ParseAssignments(init, flags);
      ParseFlag(f, flags[f]);
      ParseAppend(Assignments(init, flags), [f + "=" + flags[f]]);
      ParseOne(f + "=" + flags[f]);
      assert order == init + [f];
    }
  }

  /** Whatever order the map yields, appending overrides exactly the flags that have a value. */
  lemma AppendMeaning(args: seq<string>, order: seq<string>, flags: map<string, string>)
    requires IsOrder(order, flags) && forall f :: f in flags ==> '=' !in f
    ensures Parse(args + Assignments(order, flags)) == Parse(args) + Overrides(flags)
  {
    ParseAppend(args, Assignments(order, flags));
    ParseAssignments(order, flags);
  }

  /** Both rewritings together, for any starting list whose agent mention is the agent flag. */
  lemma RewriteMeaning(args: seq<string>, order: seq<string>, flags: map<string, string>)
    requires DistinctNames(args)
    requires FirstMention(args) < |args| ==> FlagName(args[FirstMention(args)]) == AGENT_FLAG
    requires IsOrder(order, flags) && forall f :: f in flags ==> '=' !in f
    ensures Parse(WithAgent(args) + Assignments(order, flags)) ==
            Parse(args)[AGENT_FLAG := Some("true")] + Overrides(flags)
  {
    WithAgentMeaning(args);
    AppendMeaning(WithAgent(args), order, flags);
  }
}
