/** Turning the task list a language model proposes into a plan: keys, agents and
    dependencies are repaired, cyclic lists are refused. */
module Planner {
  import opened Text
  import opened DependencyGraph
  import opened PlannerKeys
  import opened PlannerText

  datatype Agent = Agent(id: string, providerName: string)

  datatype PlanResult = Plan(tasks: seq<TaskDraft>) | NoObject | Malformed | NoTasks | Cyclic

  /** What decoding the JSON yields. */
  datatype Decoded = Decoded(tasks: seq<PlannerTask>) | Undecodable

  const DEFAULT_AGENT_ID := "orchestrator"
  const DEFAULT_PROVIDER := "noop"

  // ----- Agents -----

  predicate InRoom(agents: seq<Agent>, id: string) {
    exists i :: 0 <= i < |agents| && agents[i].id == id
  }

  /** The provider of the last agent with that id. */
  function ProviderByID(agents: seq<Agent>, id: string): (provider: string)
    requires InRoom(agents, id)
    ensures exists i :: 0 <= i < |agents| && agents[i] == Agent(id, provider)
                        && forall l :: i < l < |agents| ==> agents[l].id != id
  {
    var last := |agents| - 1;
    if agents[last].id == id then
      assert agents[last] == Agent(id, agents[last].providerName);
      agents[last].providerName
    else
      var i :| 0 <= i < |agents| && agents[i].id == id;
      assert agents[..last][i].id == id;
      ProviderByID(agents[..last], id)
  }

  /** The agent a task is given: the one it names, if the room has it, else the default. */
  function AgentFor(agents: seq<Agent>, raw: string): Agent {
    var id := TrimSpace(raw);
    if id != "" && InRoom(agents, id) then Agent(id, ProviderByID(agents, id))
    else if |agents| > 0 then agents[0]
    else Agent(DEFAULT_AGENT_ID, DEFAULT_PROVIDER)
  }

  lemma AgentComesFromRoom(agents: seq<Agent>, raw: string)
    ensures agents != [] ==> AgentFor(agents, raw) in agents
    ensures agents == [] ==> AgentFor(agents, raw) == Agent(DEFAULT_AGENT_ID, DEFAULT_PROVIDER)
    ensures TrimSpace(raw) != "" && InRoom(agents, TrimSpace(raw)) ==> AgentFor(agents, raw).id == TrimSpace(raw)
  {
  }

  // ----- Dependencies -----

  /** The dependencies kept: trimmed, not blank, not the task itself, and naming a task. */
  function CleanDeps(raw: seq<string>, own: string, valid: set<string>): seq<string> {
    if raw == [] then []
    else
      var dep := TrimSpace(raw[|raw| - 1]);
      CleanDeps(raw[..|raw| - 1], own, valid) + if dep != "" && dep != own && dep in valid then [dep] else []
  }

  lemma {:induction false} CleanDepsKeepExactly(raw: seq<string>, own: string, valid: set<string>, dep: string)
    ensures dep in CleanDeps(raw, own, valid) <==>
            dep != "" && dep != own && dep in valid && exists r :: r in raw && TrimSpace(r) == dep
  {
    hide TrimSpace;
    if raw != [] {
      var init, last := raw[..|raw| - 1], raw[|raw| - 1];
      CleanDepsKeepExactly(init, own, valid, dep);
      assert raw == init + [last];
    }
  }

  // ----- The plan -----

  /** The draft of task i before its dependencies are checked. */
  function RawDraft(tasks: seq<PlannerTask>, agents: seq<Agent>, i: nat): TaskDraft
    requires i < |tasks|
  {
    var key, agent := GivenKey(tasks, i), AgentFor(agents, tasks[i].agentID);
    TaskDraft(key, if TrimSpace(tasks[i].title) == "" then key else TrimSpace(tasks[i].title),
              TrimSpace(tasks[i].description), agent.id, agent.providerName, 100 - i, tasks[i].dependsOn)
  }

  function RawDrafts(tasks: seq<PlannerTask>, agents: seq<Agent>, n: nat): seq<TaskDraft>
    requires n <= |tasks|
  {
    seq(n, i requires 0 <= i < n => RawDraft(tasks, agents, i))
  }

  function Cleaned(d: TaskDraft, valid: set<string>): TaskDraft {
    d.(dependsOn := CleanDeps(d.dependsOn, d.clientKey, valid))
  }

  /** The drafts of a task list, repaired. */
  function Drafts(tasks: seq<PlannerTask>, agents: seq<Agent>): seq<TaskDraft> {
    var raw := RawDrafts(tasks, agents, |tasks|);
    seq(|tasks|, i requires 0 <= i < |tasks| => Cleaned(raw[i], Keys(raw)))
  }

  /** parsePlannerOutput. `decode` is json.Unmarshal. */
  method ParsePlannerOutput(raw: string, decode: string -> Decoded, agents: seq<Agent>)
    returns (r: PlanResult, ghost order: seq<string>)
    ensures r == var json := ExtractJSONObject(raw);
                 if json == "" then NoObject
                 else match decode(json)
                   case Undecodable => Malformed
                   case Decoded(tasks) => PlanOf(tasks, agents)
    ensures r.Plan? ==> IsTopologicalOrder(r.tasks, order)
    ensures r.Plan? ==>
              && decode(ExtractJSONObject(raw)).Decoded?
              && var tasks := decode(ExtractJSONObject(raw)).tasks;
                 |r.tasks| == |tasks| && forall i :: 0 <= i < |tasks| ==> SaysWhatWasAsked(tasks, agents, r.tasks, i)
  {
    hide *;
    order := [];
    var json := ExtractJSONObject(raw);
    if json == "" {
      return NoObject, order;
    }
    match decode(json)
    case Undecodable =>
      return Malformed, order;
    case Decoded(tasks) =>
      r, order := PlanTasks(tasks, agents);
      PlanSays(tasks, agents);
  }

  lemma PlanSays(tasks: seq<PlannerTask>, agents: seq<Agent>)
    ensures var r := PlanOf(tasks, agents);
            r.Plan? ==>
              |r.tasks| == |tasks| && forall i :: 0 <= i < |tasks| ==> SaysWhatWasAsked(tasks, agents, r.tasks, i)
  {
    hide Drafts, HasCycle, SaysWhatWasAsked;
    DraftCount(tasks, agents);
    forall i | 0 <= i < |tasks|
      ensures SaysWhatWasAsked(tasks, agents, Drafts(tasks, agents), i)
    {
      DraftsSayWhatWasAsked(tasks, agents, i);
    }
  }

  /** What becomes of a task list: it is repaired, and refused if it is empty or cyclic. */
  ghost function PlanOf(tasks: seq<PlannerTask>, agents: seq<Agent>): PlanResult {
    if tasks == [] then NoTasks
    else if HasCycle(Drafts(tasks, agents)) then Cyclic
    else Plan(Drafts(tasks, agents))
  }

  method PlanTasks(tasks: seq<PlannerTask>, agents: seq<Agent>) returns (r: PlanResult, ghost order: seq<string>)
    ensures r == PlanOf(tasks, agents)
    ensures r.Plan? ==> IsTopologicalOrder(r.tasks, order)
  {
    hide HasCycle, HasDangling, Drafts, IsTopologicalOrder, Keys, Cleaned, RawDrafts, Provides;
    order := [];
    if |tasks| == 0 {
      return NoTasks, order;
    }
    var providerByID := CollectProviders(agents);
    var drafts := DraftTasks(tasks, agents, providerByID);
    var cleaned := CleanDrafts(drafts);
    CleanedAreDrafts(tasks, agents, cleaned);
    var cyclic;
    cyclic, order := HasDependencyCycle(cleaned);
    NothingDangles(tasks, agents);
    r := if cyclic then Cyclic else Plan(cleaned);
  }

  /** The map knows exactly the agents of the room. */
  ghost predicate Provides(providerByID: map<string, string>, agents: seq<Agent>) {
    forall id :: (id in providerByID <==> InRoom(agents, id))
              && (id in providerByID ==> providerByID[id] == ProviderByID(agents, id))
  }

  method CollectProviders(agents: seq<Agent>) returns (providerByID: map<string, string>)
    ensures Provides(providerByID, agents)
  {
    providerByID := map[];
    for i := 0 to |agents|
      invariant Provides(providerByID, agents[..i])
    {
      ProvidesSnoc(providerByID, agents[..i], agents[i]);
      assert agents[..i] + [agents[i]] == agents[..i + 1];
      providerByID := providerByID[agents[i].id := agents[i].providerName];
    }
    assert agents[..|agents|] == agents;
  }

  lemma ProvidesSnoc(providerByID: map<string, string>, agents: seq<Agent>, a: Agent)
    requires Provides(providerByID, agents)
    ensures Provides(providerByID[a.id := a.providerName], agents + [a])
  {
    var all := agents + [a];
    assert all[..|agents|] == agents && all[|agents|] == a;
    forall id: string
      ensures InRoom(all, id) <==> InRoom(agents, id) || id == a.id
    {
      if InRoom(agents, id) {
        var i :| 0 <= i < |agents| && agents[i].id == id;
        assert all[i].id == id;
      }
    }
  }

  method ChooseKey(tasks: seq<PlannerTask>, i: nat, seen: set<string>) returns (key: string)
    requires i < |tasks| && forall k :: k in seen <==> k in AssignedKeys(tasks, i)
    ensures key == GivenKey(tasks, i)
  {
    hide TrimSpace, AssignedKeys;
    key := TrimSpace(tasks[i].key);
    if key == "" {
      key := "task-" + Decimal(i + 1);
    }
    if key in seen {
      key := key + "-" + Decimal(i + 1);
    }
  }

  method ChooseAgent(agents: seq<Agent>, providerByID: map<string, string>, raw: string) returns (agent: Agent)
    requires Provides(providerByID, agents)
    ensures agent == AgentFor(agents, raw)
  {
    hide TrimSpace, ProviderByID, InRoom;
    var defaultAgentID, defaultProvider := DEFAULT_AGENT_ID, DEFAULT_PROVIDER;
    if |agents| > 0 {
      defaultAgentID, defaultProvider := agents[0].id, agents[0].providerName;
    }
    var agentID := TrimSpace(raw);
    if agentID in providerByID && agentID != "" {
      agent := Agent(agentID, providerByID[agentID]);
    } else {
      agent := Agent(defaultAgentID, defaultProvider);
    }
  }

  /** The drafting loop. */
  method DraftTasks(tasks: seq<PlannerTask>, agents: seq<Agent>, providerByID: map<string, string>)
    returns (drafts: seq<TaskDraft>)
    requires Provides(providerByID, agents)
    ensures drafts == RawDrafts(tasks, agents, |tasks|)
  {
    hide TrimSpace, AgentFor, GivenKey, AssignedKeys, Provides;
    drafts := [];
    var seen := {};
    AssignedKeysStart(tasks);
    for i := 0 to |tasks|
      invariant drafts == RawDrafts(tasks, agents, i)
      invariant forall k :: k in seen <==> k in AssignedKeys(tasks, i)
    {
      var key := ChooseKey(tasks, i, seen);
      AssignedKeysStep(tasks, i + 1);
      seen := seen + {key};
      var title := TrimSpace(tasks[i].title);
      if title == "" {
        title := key;
      }
      var agent := ChooseAgent(agents, providerByID, tasks[i].agentID);
      var draft := TaskDraft(key, title, TrimSpace(tasks[i].description), agent.id, agent.providerName,
                             100 - i, tasks[i].dependsOn);
      assert draft == RawDraft(tasks, agents, i);
      drafts := drafts + [draft];
    }
  }

  lemma AssignedKeysStart(tasks: seq<PlannerTask>)
    ensures AssignedKeys(tasks, 0) == []
  {
  }

  /** The loop that drops dangling and self references. */
  method CleanDrafts(drafts: seq<TaskDraft>) returns (cleaned: seq<TaskDraft>)
    ensures |cleaned| == |drafts|
    ensures forall i :: 0 <= i < |drafts| ==> cleaned[i] == Cleaned(drafts[i], Keys(drafts))
  {
    hide TrimSpace;
    var validKeys := Keys(drafts);
    cleaned := [];
    for i := 0 to |drafts|
      invariant |cleaned| == i
      invariant forall j :: 0 <= j < i ==> cleaned[j] == Cleaned(drafts[j], validKeys)
    {
      var d := drafts[i];
      var kept: seq<string> := [];
      for j := 0 to |d.dependsOn|
        invariant kept == CleanDeps(d.dependsOn[..j], d.clientKey, validKeys)
      {
        var dep := TrimSpace(d.dependsOn[j]);
        assert d.dependsOn[..j + 1][..j] == d.dependsOn[..j];
        if dep == "" || dep == d.clientKey {
          continue;
        }
        if dep in validKeys {
          kept := kept + [dep];
        }
      }
      assert d.dependsOn[..|d.dependsOn|] == d.dependsOn;
      cleaned := cleaned + [d.(dependsOn := kept)];
    }
  }

  lemma CleanedAreDrafts(tasks: seq<PlannerTask>, agents: seq<Agent>, cleaned: seq<TaskDraft>)
    requires var raw := RawDrafts(tasks, agents, |tasks|);
             |cleaned| == |raw| && forall i :: 0 <= i < |raw| ==> cleaned[i] == Cleaned(raw[i], Keys(raw))
    ensures cleaned == Drafts(tasks, agents)
  {
    hide RawDraft, Cleaned, Keys;
  }

  /** Cleaning does not touch the keys. */
  lemma DraftKeys(tasks: seq<PlannerTask>, agents: seq<Agent>)
    ensures Keys(Drafts(tasks, agents)) == Keys(RawDrafts(tasks, agents, |tasks|))
  {
    hide RawDraft, CleanDeps;
    var raw, drafts := RawDrafts(tasks, agents, |tasks|), Drafts(tasks, agents);
    assert forall i :: 0 <= i < |raw| ==> drafts[i].clientKey == raw[i].clientKey;
  }

  /** Every dependency of a plan is the trimmed name of one the task listed, names a task of
      the plan and never the task itself; nothing of that kind is dropped. */
  lemma DependenciesAreRepaired(tasks: seq<PlannerTask>, agents: seq<Agent>, i: nat, dep: string)
    requires i < |tasks|
    ensures var drafts := Drafts(tasks, agents);
            dep in drafts[i].dependsOn <==>
              && dep in Keys(drafts) && dep != drafts[i].clientKey && dep != ""
              && exists r :: r in tasks[i].dependsOn && TrimSpace(r) == dep
  {
    DraftKeys(tasks, agents);
    var raw := RawDrafts(tasks, agents, |tasks|);
    CleanDepsKeepExactly(tasks[i].dependsOn, raw[i].clientKey, Keys(raw), dep);
    hide Keys, TrimSpace, CleanDeps, GivenKey, AgentFor;
  }

  /** Every task of a plan goes to an agent of the room, or to the default one if the room is
      empty, and comes with a higher priority than the next. */
  lemma TasksAreAssigned(tasks: seq<PlannerTask>, agents: seq<Agent>)
    ensures var drafts := Drafts(tasks, agents);
            && |drafts| == |tasks|
            && (forall i :: 0 <= i < |drafts| ==>
                  var agent := Agent(drafts[i].assignedAgentID, drafts[i].providerName);
                  if agents == [] then agent == Agent(DEFAULT_AGENT_ID, DEFAULT_PROVIDER) else agent in agents)
            && (forall i, j :: 0 <= i < j < |drafts| ==> drafts[i].priority > drafts[j].priority)
  {
    hide AgentFor, GivenKey, CleanDeps, Keys, TrimSpace;
    var drafts := Drafts(tasks, agents);
    forall i | 0 <= i < |drafts|
      ensures Agent(drafts[i].assignedAgentID, drafts[i].providerName) == AgentFor(agents, tasks[i].agentID)
      ensures drafts[i].priority == 100 - i
    {
    }
    forall i | 0 <= i < |drafts|
      ensures if agents == [] then AgentFor(agents, tasks[i].agentID) == Agent(DEFAULT_AGENT_ID, DEFAULT_PROVIDER)
              else AgentFor(agents, tasks[i].agentID) in agents
    {
      AgentComesFromRoom(agents, tasks[i].agentID);
    }
  }

  lemma NothingDangles(tasks: seq<PlannerTask>, agents: seq<Agent>)
    ensures !HasDangling(Drafts(tasks, agents))
  {
    hide Keys, Drafts;
    var drafts := Drafts(tasks, agents);
    DraftCount(tasks, agents);
    forall key, dep | Needs(drafts, key, dep)
      ensures dep in Keys(drafts)
    {
      var i :| 0 <= i < |drafts| && drafts[i].clientKey == key && dep in drafts[i].dependsOn;
      DependenciesAreRepaired(tasks, agents, i, dep);
    }
  }

  lemma DraftCount(tasks: seq<PlannerTask>, agents: seq<Agent>)
    ensures |Drafts(tasks, agents)| == |tasks|
  {
  }

  // ----- What a plan says -----

  /** The agent a task names, if the room has it (of several with that id, the last), or else
      the first of the room, or the default. */
  ghost predicate RightAgent(agents: seq<Agent>, raw: string, agent: Agent) {
    if !Blank(raw) && InRoom(agents, TrimSpace(raw)) then
      && agent.id == TrimSpace(raw)
      && exists k :: 0 <= k < |agents| && agents[k] == agent
                     && forall l :: k < l < |agents| ==> agents[l].id != agent.id
    else agent == if agents == [] then Agent("orchestrator", "noop") else agents[0]
  }

  /** Draft i says what task i asks for. */
  ghost predicate SaysWhatWasAsked(tasks: seq<PlannerTask>, agents: seq<Agent>, drafts: seq<TaskDraft>, i: nat)
    requires i < |tasks| == |drafts|
  {
    var d, t := drafts[i], tasks[i];
    var own := if Blank(t.key) then "task-" + Decimal(i + 1) else TrimSpace(t.key);
    && d.clientKey == (if exists j :: 0 <= j < i && drafts[j].clientKey == own then own + "-" + Decimal(i + 1) else own)
    && d.title == (if Blank(t.title) then d.clientKey else TrimSpace(t.title))
    && d.description == TrimSpace(t.description)
    && RightAgent(agents, t.agentID, Agent(d.assignedAgentID, d.providerName))
    && d.priority == 100 - i
    && forall dep :: dep in d.dependsOn <==>
         && dep != "" && dep != d.clientKey && (exists j :: 0 <= j < |drafts| && drafts[j].clientKey == dep)
         && exists r :: r in t.dependsOn && TrimSpace(r) == dep
  }

  lemma AgentIsRight(agents: seq<Agent>, raw: string)
    ensures RightAgent(agents, raw, AgentFor(agents, raw))
  {
    hide TrimSpace, InRoom;
  }

  lemma DraftIs(tasks: seq<PlannerTask>, agents: seq<Agent>, i: nat)
    requires i < |tasks|
    ensures |Drafts(tasks, agents)| == |tasks|
    ensures Drafts(tasks, agents)[i] == RawDraft(tasks, agents, i).(dependsOn := Drafts(tasks, agents)[i].dependsOn)
  {
    hide RawDraft, CleanDeps, Keys;
  }

  lemma {:induction false} KeysOfDrafts(tasks: seq<PlannerTask>, agents: seq<Agent>, n: nat)
    requires n <= |tasks| == |Drafts(tasks, agents)|
    ensures forall j :: 0 <= j < n ==> Drafts(tasks, agents)[j].clientKey == AssignedKeys(tasks, n)[j]
  {
    hide Drafts, OwnKey, Renamed, AgentFor, TrimSpace;
    if n > 0 {
      KeysOfDrafts(tasks, agents, n - 1);
      DraftIs(tasks, agents, n - 1);
    }
  }

  /** Every task of a plan says what was asked for, except for what has to be repaired. */
  lemma DraftsSayWhatWasAsked(tasks: seq<PlannerTask>, agents: seq<Agent>, i: nat)
    requires i < |tasks| == |Drafts(tasks, agents)|
    ensures SaysWhatWasAsked(tasks, agents, Drafts(tasks, agents), i)
  {
    hide Drafts, AssignedKeys, AgentFor, RightAgent, TrimSpace, Decimal;
    var drafts, own, earlier := Drafts(tasks, agents), OwnKey(tasks, i), AssignedKeys(tasks, i);
    DraftIs(tasks, agents, i);
    AgentIsRight(agents, tasks[i].agentID);
    KeysOfDrafts(tasks, agents, i);
    assert own in earlier <==> exists j :: 0 <= j < i && drafts[j].clientKey == own by {
      if j :| 0 <= j < i && drafts[j].clientKey == own {
        assert earlier[j] == own;
      }
    }
    forall dep
      ensures dep in Keys(drafts) <==> exists j :: 0 <= j < |drafts| && drafts[j].clientKey == dep
    {
    }
    forall dep
    {
      DependenciesAreRepaired(tasks, agents, i, dep);
    }
  }

  // ----- The orchestrator's own check -----

  datatype Validation = Valid | InvalidInput | DuplicateClientKey

  /** The first loop of validatePlan, over the first n tasks: the keys seen, or the error. */
  function SeenKeys(tasks: seq<TaskDraft>, n: nat): (seen: (Validation, set<string>))
    requires n <= |tasks|
  {
    if n == 0 then (Valid, {})
    else
      var (v, seen) := SeenKeys(tasks, n - 1);
      var key := TrimSpace(tasks[n - 1].clientKey);
      if v != Valid then (v, seen)
      else if key == "" || TrimSpace(tasks[n - 1].title) == "" then (InvalidInput, seen)
      else if key in seen then (DuplicateClientKey, seen)
      else (Valid, seen + {key})
  }

  /** validatePlan of the orchestrator. */
  function ValidatePlan(tasks: seq<TaskDraft>): Validation {
    var (v, seen) := SeenKeys(tasks, |tasks|);
    if tasks == [] then InvalidInput
    else if v != Valid then v
    else if exists i, j :: 0 <= i < |tasks| && 0 <= j < |tasks[i].dependsOn|
                           && TrimSpace(tasks[i].dependsOn[j]) !in seen then InvalidInput
    else Valid
  }

  /** Neither blank at an end nor empty. */
  predicate Tidy(s: string) {
    s != "" && TrimSpace(s) == s
  }

  lemma TrimmedIsTidy(s: string)
    requires TrimSpace(s) != ""
    ensures Tidy(TrimSpace(s))
  {
    TrimSpaceIdempotent(TrimSpace(s));
  }

  lemma EndsTidy(head: string, tail: string)
    requires head != "" && !IsSpace(head[0]) && tail != "" && !IsSpace(tail[|tail| - 1])
    ensures Tidy(head + tail)
  {
    TrimSpaceIdempotent(head + tail);
  }

  lemma OwnKeyIsTidy(tasks: seq<PlannerTask>, i: nat)
    requires i < |tasks|
    ensures Tidy(OwnKey(tasks, i)) && !IsSpace(OwnKey(tasks, i)[0])
  {
    var number := Decimal(i + 1);
    assert '0' <= number[|number| - 1] <= '9';
    if TrimSpace(tasks[i].key) == "" {
      EndsTidy("task-", number);
    } else {
      TrimmedIsTidy(tasks[i].key);
    }
    hide TrimSpace, Decimal;
  }

  lemma RenamedIsTidy(tasks: seq<PlannerTask>, i: nat)
    requires i < |tasks|
    ensures Tidy(Renamed(tasks, i))
  {
    hide TrimSpace, Decimal, OwnKey, Tidy;
    OwnKeyIsTidy(tasks, i);
    var own, number := OwnKey(tasks, i), Decimal(i + 1);
    assert '0' <= number[|number| - 1] <= '9';
    TidyIsNotEmpty(own);
    var tail := "-" + number;
    assert own + "-" + number == own + tail && tail[|tail| - 1] == number[|number| - 1];
    EndsTidy(own, tail);
  }

  lemma TidyIsNotEmpty(s: string)
    requires Tidy(s)
    ensures s != ""
  {
  }

  /** Every key is tidy, whether it is the task's own, made up or renamed; so is the title. */
  lemma DraftsAreTidy(tasks: seq<PlannerTask>, agents: seq<Agent>, i: nat)
    requires i < |tasks|
    ensures var d := RawDraft(tasks, agents, i); Tidy(d.clientKey) && Tidy(d.title)
  {
    hide TrimSpace, OwnKey, Renamed, AssignedKeys, AgentFor, Tidy;
    OwnKeyIsTidy(tasks, i);
    RenamedIsTidy(tasks, i);
    if TrimSpace(tasks[i].title) != "" {
      TrimmedIsTidy(tasks[i].title);
    }
  }

  function ClientKeys(drafts: seq<TaskDraft>): (keys: seq<string>)
    ensures |keys| == |drafts| && forall i :: 0 <= i < |drafts| ==> keys[i] == drafts[i].clientKey
  {
    seq(|drafts|, i requires 0 <= i < |drafts| => drafts[i].clientKey)
  }

  lemma {:induction false} SeenKeysOfTidy(drafts: seq<TaskDraft>, n: nat)
    requires n <= |drafts|
    requires forall i :: 0 <= i < |drafts| ==> Tidy(drafts[i].clientKey) && Tidy(drafts[i].title)
    ensures SeenKeys(drafts, n).0 == if Distinct(ClientKeys(drafts)[..n]) then Valid else DuplicateClientKey
    ensures Distinct(ClientKeys(drafts)[..n]) ==>
              forall k :: k in SeenKeys(drafts, n).1 <==> k in ClientKeys(drafts)[..n]
  {
    hide TrimSpace, ClientKeys;
    var keys := ClientKeys(drafts);
    if n == 0 {
      assert keys[..0] == [];
    } else {
      hide Distinct;
      SeenKeysOfTidy(drafts, n - 1);
      assert keys[..n] == keys[..n - 1] + [drafts[n - 1].clientKey];
      DistinctSnoc(keys[..n - 1], drafts[n - 1].clientKey);
    }
  }

  lemma {:induction false} ClientKeysAreAssigned(tasks: seq<PlannerTask>, agents: seq<Agent>, n: nat)
    requires n <= |tasks|
    ensures ClientKeys(RawDrafts(tasks, agents, |tasks|))[..n] == AssignedKeys(tasks, n)
  {
    hide AssignedKeys, GivenKey, AgentFor, TrimSpace;
    AssignedKeysStep(tasks, n);
    if n == 0 {
      AssignedKeysStart(tasks);
    } else {
      ClientKeysAreAssigned(tasks, agents, n - 1);
      var keys := ClientKeys(RawDrafts(tasks, agents, |tasks|));
      assert keys[..n] == keys[..n - 1] + [keys[n - 1]];
    }
  }

  /** The orchestrator finds every dependency among the keys. */
  lemma DependenciesAreSeen(tasks: seq<PlannerTask>, agents: seq<Agent>, i: nat, j: nat)
    requires i < |tasks| == |Drafts(tasks, agents)| && j < |Drafts(tasks, agents)[i].dependsOn|
    ensures TrimSpace(Drafts(tasks, agents)[i].dependsOn[j]) in ClientKeys(Drafts(tasks, agents))
  {
    hide TrimSpace, Drafts;
    var drafts := Drafts(tasks, agents);
    var dep := drafts[i].dependsOn[j];
    DependenciesAreRepaired(tasks, agents, i, dep);
    var r :| r in tasks[i].dependsOn && TrimSpace(r) == dep;
    TrimmedIsTidy(r);
    var k :| 0 <= k < |drafts| && drafts[k].clientKey == dep;
    assert ClientKeys(drafts)[k] == dep;
  }

  /** The plan passes the orchestrator's check exactly when no renamed key is taken; the
      only other outcome is a duplicate key. */
  lemma PlanValidates(tasks: seq<PlannerTask>, agents: seq<Agent>)
    requires tasks != []
    ensures ValidatePlan(Drafts(tasks, agents)) == if RenameCollides(tasks) then DuplicateClientKey else Valid
  {
    hide TrimSpace, Keys, RawDraft, Cleaned, Tidy, Drafts, ClientKeys, Distinct, SeenKeys, AssignedKeys, OwnKey,
      Renamed, Duplicate, OwnedBefore;
    var drafts, n := Drafts(tasks, agents), |tasks|;
    DraftCount(tasks, agents);
    DraftFields(tasks, agents);
    ClientKeysAreAssigned(tasks, agents, n);
    KeysAreUnique(tasks, n);
    SeenKeysOfTidy(drafts, n);
    forall i, j | 0 <= i < n && 0 <= j < |drafts[i].dependsOn|
      ensures TrimSpace(drafts[i].dependsOn[j]) in ClientKeys(drafts)
    {
      DependenciesAreSeen(tasks, agents, i, j);
    }
  }

  lemma DraftFields(tasks: seq<PlannerTask>, agents: seq<Agent>)
    ensures |Drafts(tasks, agents)| == |tasks|
    ensures forall i :: 0 <= i < |tasks| ==>
              Tidy(Drafts(tasks, agents)[i].clientKey) && Tidy(Drafts(tasks, agents)[i].title)
    ensures var keys := ClientKeys(Drafts(tasks, agents));
            keys == ClientKeys(RawDrafts(tasks, agents, |tasks|)) == keys[..|tasks|]
  {
    hide RawDraft, CleanDeps, Tidy;
    forall i | 0 <= i < |tasks|
      ensures Tidy(RawDraft(tasks, agents, i).clientKey) && Tidy(RawDraft(tasks, agents, i).title)
    {
      DraftsAreTidy(tasks, agents, i);
    }
  }
}
