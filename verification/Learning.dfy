/** Learning from verified runs: reflections, failures, scores, skills and routing revisions. What is
    kept step by step is proved to be a function of the whole history. */
module Learning {
  import opened Schemas
  import opened Sorting
  import opened Rewards
  import opened Capabilities
  import opened Kahn
  import opened Scheduling
  import opened Policies
  import opened Memory
  import R = Routing

  /** A run as Cog reads it: its results in the order of their task ids. */
  datatype RunRecord = RunRecord(id: string, status: RunStatus, results: seq<(TaskId, TaskStatus)>)

  datatype Lesson = Lesson(run: RunRecord, evidence: Evidence, plan: Option<seq<Task>>)
  {
    /** The evidence's own verdict, else whether the run completed. */
    function Success(): bool {
      if evidence.success.Some? then evidence.success.value else run.status == RunCompleted
    }

    function Signature(): string {
      if plan.Some? then Joined(plan.value) else ""
    }

    function Binding(t: TaskId): Option<string> {
      if plan.Some? && t in TaskMap(plan.value) then TaskMap(plan.value)[t].binding else None
    }
  }

  /** The capability types of a plan, joined by arrows. */
  function Joined(tasks: seq<Task>): string {
    if tasks == [] then ""
    else if |tasks| == 1 then tasks[0].capabilityType
    else Joined(tasks[..|tasks| - 1]) + "\U{2192}" + tasks[|tasks| - 1].capabilityType
  }

  // -- what a lesson says ---------------------------------------------------------------------------

  /** Whether a lesson is a success: the evidence says so, or says nothing and the run completed. */
  lemma SuccessSays(l: Lesson)
    ensures l.Success() <==> l.evidence.success == Some(true)
                             || (l.evidence.success.None? && l.run.status == RunCompleted)
  {}

  /** A signature joins the types of the plan's tasks by arrows. */
  lemma {:induction false} SignatureJoins(a: seq<Task>, b: seq<Task>)
    requires a != [] && b != []
    ensures Joined(a + b) == Joined(a) + "\U{2192}" + Joined(b)
    decreases |b|
  {
    hide Joined;
    var last, arrow, front := b[|b| - 1], "\U{2192}", Joined(a);
    assert (a + b)[..|a + b| - 1] == a + b[..|b| - 1] && (a + b)[|a + b| - 1] == last;
    JoinedMore(a + b);
    if |b| == 1 {
      assert a + b[..0] == a && b == [last];
      JoinedOne(last);
    } else {
      SignatureJoins(a, b[..|b| - 1]);
      JoinedMore(b);
      var mid := Joined(b[..|b| - 1]);
      assert front + arrow + mid + arrow + last.capabilityType
             == front + arrow + (mid + arrow + last.capabilityType);
    }
  }

  lemma JoinedOne(task: Task)
    ensures Joined([task]) == task.capabilityType
  {}

  lemma JoinedMore(tasks: seq<Task>)
    requires |tasks| > 1
    ensures Joined(tasks) == Joined(tasks[..|tasks| - 1]) + "\U{2192}" + tasks[|tasks| - 1].capabilityType
  {}

  lemma SignatureOfOne(l: Lesson, task: Task)
    ensures l.plan.None? ==> l.Signature() == ""
    ensures l.plan == Some([task]) ==> l.Signature() == task.capabilityType
    ensures l.plan.Some? ==> l.Signature() == Joined(l.plan.value)
  {}

  /** A task's binding is the one the plan gives it; a task of no plan has none. */
  lemma BindingSays(l: Lesson, t: TaskId)
    ensures l.plan.None? ==> l.Binding(t) == None
    ensures l.plan.Some? && t !in Ids(l.plan.value) ==> l.Binding(t) == None
    ensures l.plan.Some? && NoDuplicates(Ids(l.plan.value)) ==>
              forall i :: 0 <= i < |l.plan.value| && l.plan.value[i].id == t ==> l.Binding(t) == l.plan.value[i].binding
  {
    if l.plan.Some? {
      TaskMapKeys(l.plan.value);
      if NoDuplicates(Ids(l.plan.value)) {
        forall i | 0 <= i < |l.plan.value| && l.plan.value[i].id == t
          ensures l.Binding(t) == l.plan.value[i].binding
        {
          TaskMapAt(l.plan.value, i);
        }
      }
    }
  }

  // -- the memory side of one lesson -------------------------------------------------------------

  function Reflection(l: Lesson): MemoryItem {
    MemoryItem(Episode(l.run.id, l.Signature(), l.Success(), l.evidence.confidence), false)
  }

  /** One failure item per failed task. */
  function Failures(l: Lesson, results: seq<(TaskId, TaskStatus)>): seq<MemoryItem> {
    if results == [] then []
    else
      var (t, status) := results[|results| - 1];
      Failures(l, results[..|results| - 1]) +
      (if status == FAILED then [MemoryItem(Failure(l.run.id, t, l.Binding(t), l.Signature()), false)] else [])
  }

  function Recorded(items: seq<MemoryItem>, l: Lesson): seq<MemoryItem> {
    items + [Reflection(l)] + Failures(l, l.run.results)
  }

  /** The failure items: one per failed task of the run, in order, with the run, the task, its binding and
      the plan's signature. */
  lemma {:induction false} FailuresSay(l: Lesson, results: seq<(TaskId, TaskStatus)>) returns (at: seq<nat>)
    ensures |at| == |Failures(l, results)|
    ensures forall i :: 0 <= i < |at| ==>
              && at[i] < |results|
              && Failures(l, results)[i]
                 == MemoryItem(Failure(l.run.id, results[at[i]].0, l.Binding(results[at[i]].0), l.Signature()), false)
    ensures forall i, j :: 0 <= i < j < |at| ==> at[i] < at[j]
    ensures forall k :: k in at <==> 0 <= k < |results| && results[k].1 == FAILED
    decreases |results|
  {
    hide Lesson.Binding, Lesson.Signature;
    if results == [] {
      at := [];
    } else {
      var n := |results| - 1;
      var rest := FailuresSay(l, results[..n]);
      at := rest + if results[n].1 == FAILED then [n] else [];
      forall k ensures k in at <==> 0 <= k < |results| && results[k].1 == FAILED {
        assert k in at <==> k in rest || (k == n && results[n].1 == FAILED);
      }
    }
  }

  /** What a lesson adds to memory before skills are looked at: the reflection, then the failures. */
  lemma RecordedSays(items: seq<MemoryItem>, l: Lesson)
    ensures Recorded(items, l)
            == items + [MemoryItem(Episode(l.run.id, l.Signature(), l.Success(), l.evidence.confidence), false)]
               + Failures(l, l.run.results)
  {}

  function MeanConfidence(episodes: seq<MemoryItem>): real
    requires forall i :: 0 <= i < |episodes| ==> episodes[i].content.Episode?
  {
    if episodes == [] then 0.0 else TotalConfidence(episodes) / |episodes| as real
  }

  function TotalConfidence(episodes: seq<MemoryItem>): real
    requires forall i :: 0 <= i < |episodes| ==> episodes[i].content.Episode?
  {
    if episodes == [] then 0.0
    else TotalConfidence(episodes[..|episodes| - 1]) + episodes[|episodes| - 1].content.confidence
  }

  lemma {:induction false} SuccessesAreEpisodes(items: seq<MemoryItem>, signature: string)
    ensures forall i :: 0 <= i < |Successes(items, signature)| ==> IsSuccess(Successes(items, signature)[i], signature)
    decreases |items|
  {
    if items != [] { SuccessesAreEpisodes(items[..|items| - 1], signature); }
  }

  lemma {:induction false} ConfidenceJoins(a: seq<MemoryItem>, b: seq<MemoryItem>)
    requires forall i :: 0 <= i < |a| ==> a[i].content.Episode?
    requires forall i :: 0 <= i < |b| ==> b[i].content.Episode?
    ensures TotalConfidence(a + b) == TotalConfidence(a) + TotalConfidence(b)
    decreases |b|
  {
    if b == [] {
      assert a + b == a;
    } else {
      ConfidenceJoins(a, b[..|b| - 1]);
      assert (a + b)[..|a + b| - 1] == a + b[..|b| - 1];
    }
  }

  /** The mean weighs every episode alike. */
  lemma MeanConfidenceSays(episodes: seq<MemoryItem>, e: MemoryItem)
    requires e.content.Episode? && forall i :: 0 <= i < |episodes| ==> episodes[i].content.Episode?
    ensures episodes != [] ==> MeanConfidence(episodes) * |episodes| as real == TotalConfidence(episodes)
    ensures TotalConfidence([e]) == e.content.confidence
  {
    hide TotalConfidence;
    if episodes != [] {
      var total, n := TotalConfidence(episodes), |episodes| as real;
      assert (total / n) * n == total;
    }
    assert TotalConfidence([e]) == e.content.confidence by { OneConfidence(e); }
  }

  lemma OneConfidence(e: MemoryItem)
    requires e.content.Episode?
    ensures TotalConfidence([e]) == e.content.confidence
  {
    assert [e][..0] == [];
  }

  function Chain(tasks: seq<Task>): seq<string> {
    seq(|tasks|, i requires 0 <= i < |tasks| => tasks[i].capabilityType)
  }

  function Runs(episodes: seq<MemoryItem>): seq<string>
    requires forall i :: 0 <= i < |episodes| ==> episodes[i].content.Episode?
  {
    seq(|episodes|, i requires 0 <= i < |episodes| => episodes[i].content.run)
  }

  /** The skill built from the first `threshold` successes. */
  function NewSkill(items: seq<MemoryItem>, signature: string, threshold: nat, tasks: seq<Task>): MemoryItem
    requires threshold <= |Successes(items, signature)|
  {
    SuccessesAreEpisodes(items, signature);
    var sources := Successes(items, signature)[..threshold];
    MemoryItem(Skill(signature, Chain(tasks), Runs(sources), MeanConfidence(sources)), false)
  }

  /** A new skill: the types of the plan's tasks in order, and the runs of the signature's first successes,
      as many as the threshold asks for, with their mean confidence. */
  lemma NewSkillSays(items: seq<MemoryItem>, signature: string, threshold: nat, tasks: seq<Task>)
    requires threshold <= |Successes(items, signature)|
    ensures var (skill, all) := (NewSkill(items, signature, threshold, tasks), Successes(items, signature));
            && !skill.deprecated && skill.content.Skill? && skill.content.signature == signature
            && |skill.content.chain| == |tasks| && |skill.content.sources| == threshold
            && (forall i :: 0 <= i < |tasks| ==> skill.content.chain[i] == tasks[i].capabilityType)
            && (forall i :: 0 <= i < threshold ==>
                  all[i].content.Episode? && skill.content.sources[i] == all[i].content.run)
            && (forall i :: 0 <= i < threshold ==> all[..threshold][i].content.Episode?)
            && skill.content.confidence == MeanConfidence(all[..threshold])
  {
    SuccessesAreEpisodes(items, signature);
    hide Successes, MeanConfidence;
  }

  function PromotedSkill(items: seq<MemoryItem>, signature: string, threshold: nat, tasks: seq<Task>): seq<MemoryItem> {
    if LiveSkills(items, signature) != [] || |Successes(items, signature)| < threshold then items
    else items + [NewSkill(items, signature, threshold, tasks)]
  }

  function DeprecatedSkill(items: seq<MemoryItem>, signature: string): seq<MemoryItem> {
    var ids := LiveSkills(items, signature);
    if ids == [] then items else items[ids[0] := items[ids[0]].(deprecated := true)]
  }

  /** Memory after one lesson. */
  function Learned(items: seq<MemoryItem>, threshold: nat, l: Lesson): seq<MemoryItem> {
    var recorded := Recorded(items, l);
    if l.plan.None? || l.Signature() == "" then recorded
    else if l.Success() then PromotedSkill(recorded, l.Signature(), threshold, l.plan.value)
    else DeprecatedSkill(recorded, l.Signature())
  }

  function LearnedAll(items: seq<MemoryItem>, threshold: nat, ls: seq<Lesson>): seq<MemoryItem> {
    if ls == [] then items
    else Learned(LearnedAll(items, threshold, ls[..|ls| - 1]), threshold, ls[|ls| - 1])
  }

  // -- skills as a function of history ------------------------------------------------------------

  /** Lessons of this signature that succeeded. */
  function SuccessLessons(ls: seq<Lesson>, signature: string): nat {
    if ls == [] then 0
    else SuccessLessons(ls[..|ls| - 1], signature) +
         (if ls[|ls| - 1].Signature() == signature && ls[|ls| - 1].Success() then 1 else 0)
  }

  /** The latest planned lesson of this signature, if any, succeeded. */
  predicate LatestSucceeded(ls: seq<Lesson>, signature: string) {
    ls != [] &&
    var last := ls[|ls| - 1];
    if last.plan.Some? && last.Signature() == signature then last.Success()
    else LatestSucceeded(ls[..|ls| - 1], signature)
  }

  predicate HasSkill(ls: seq<Lesson>, threshold: nat, signature: string) {
    signature != "" && LatestSucceeded(ls, signature) && SuccessLessons(ls, signature) >= threshold
  }

  lemma {:induction false} FailuresCountOnly(items: seq<MemoryItem>, l: Lesson, results: seq<(TaskId, TaskStatus)>)
    ensures forall sig :: Successes(items + Failures(l, results), sig) == Successes(items, sig)
    ensures forall sig :: LiveSkills(items + Failures(l, results), sig) == LiveSkills(items, sig)
    ensures forall b :: FailureCount(items + Failures(l, results), b)
                        == FailureCount(items, b) + FailedUnder(l, results, b)
    decreases |results|
  {
    if results == [] {
      assert items + Failures(l, results) == items;
    } else {
      var init := results[..|results| - 1];
      var (t, status) := results[|results| - 1];
      FailuresCountOnly(items, l, init);
      hide Successes, LiveSkills, FailureCount;
      if status == FAILED {
        var x := MemoryItem(Failure(l.run.id, t, l.Binding(t), l.Signature()), false);
        assert items + Failures(l, results) == (items + Failures(l, init)) + [x];
        CountsAppend(items + Failures(l, init), x);
      } else {
        assert Failures(l, results) == Failures(l, init);
      }
    }
  }

  /** Failed tasks of the lesson bound to `b`. */
  function FailedUnder(l: Lesson, results: seq<(TaskId, TaskStatus)>, b: string): nat {
    if results == [] then 0
    else
      var (t, status) := results[|results| - 1];
      FailedUnder(l, results[..|results| - 1], b) + (if status == FAILED && l.Binding(t) == Some(b) then 1 else 0)
  }

  lemma RecordedCounts(items: seq<MemoryItem>, l: Lesson)
    ensures forall sig :: Successes(Recorded(items, l), sig) ==
                          Successes(items, sig) + if l.Signature() == sig && l.Success() then [Reflection(l)] else []
    ensures forall sig :: LiveSkills(Recorded(items, l), sig) == LiveSkills(items, sig)
    ensures forall b :: FailureCount(Recorded(items, l), b) == FailureCount(items, b) + FailedUnder(l, l.run.results, b)
  {
    CountsAppend(items, Reflection(l));
    FailuresCountOnly(items + [Reflection(l)], l, l.run.results);
    hide Successes, LiveSkills, FailureCount;
  }

  /** What one lesson does to every count. */
  lemma LearnedCounts(items: seq<MemoryItem>, threshold: nat, l: Lesson, sig: string)
    requires |LiveSkills(items, sig)| <= 1
    ensures var items', planned := Learned(items, threshold, l), l.plan.Some? && sig != "" && l.Signature() == sig;
            && |Successes(items', sig)| == |Successes(items, sig)|
               + (if l.Signature() == sig && l.Success() then 1 else 0)
            && |LiveSkills(items', sig)| ==
               (if !planned then |LiveSkills(items, sig)|
                else if !l.Success() then 0
                else if |LiveSkills(items, sig)| == 1 || |Successes(items', sig)| >= threshold then 1 else 0)
  {
    var recorded := Recorded(items, l);
    RecordedCounts(items, l);
    hide Successes, LiveSkills, FailureCount, Recorded;
    if l.plan.Some? && l.Signature() != "" {
      if l.Success() {
        if LiveSkills(recorded, l.Signature()) == [] && |Successes(recorded, l.Signature())| >= threshold {
          CountsAppend(recorded, NewSkill(recorded, l.Signature(), threshold, l.plan.value));
        }
      } else if LiveSkills(recorded, l.Signature()) != [] {
        DeprecateSkill(recorded, LiveSkills(recorded, l.Signature())[0]);
      }
    }
  }

  /** After any lessons from an empty memory a signature has at most one live skill, and has one iff
      its latest planned lesson succeeded and its successes reach the threshold. */
  lemma {:induction false} SkillsFollowHistory(ls: seq<Lesson>, threshold: nat, sig: string)
    requires threshold >= 1
    ensures var items := LearnedAll([], threshold, ls);
            && |Successes(items, sig)| == SuccessLessons(ls, sig)
            && |LiveSkills(items, sig)| == if HasSkill(ls, threshold, sig) then 1 else 0
    decreases |ls|
  {
    if ls != [] {
      var init, last := ls[..|ls| - 1], ls[|ls| - 1];
      SkillsFollowHistory(init, threshold, sig);
      hide Successes, LiveSkills, Learned;
      LearnedCounts(LearnedAll([], threshold, init), threshold, last, sig);
    }
  }

  // -- routing revisions ------------------------------------------------------------------------------

  const ROUTING := "routing"

  /** The names the active routing policy denies. */
  ghost function DeniedIn(s: PolicyState): set<string> {
    var stack := s.Stack(ROUTING);
    if stack == [] || !s.Has(ROUTING, stack[|stack| - 1]) then {}
    else
      var p := s.At(ROUTING, stack[|stack| - 1]).payload;
      if p.Denied? then p.names else {}
  }

  /** A binding with enough recorded failures gets its name denied. */
  ghost function Revised(s: PolicyState, items: seq<MemoryItem>, threshold: nat, binding: string): PolicyState {
    var denied := DeniedIn(s);
    if NameOf(binding) in denied || FailureCount(items, binding) < threshold then s
    else
      Apply(Apply(s, Propose(ROUTING, Denied(denied + {NameOf(binding)}), "verified failures")),
            Activate(ROUTING, |s.Of(ROUTING)| + 1))
  }

  lemma RevisedDenies(s: PolicyState, items: seq<MemoryItem>, threshold: nat, binding: string)
    requires Valid(s)
    ensures Valid(Revised(s, items, threshold, binding))
    ensures DeniedIn(Revised(s, items, threshold, binding)) ==
            DeniedIn(s) + if FailureCount(items, binding) >= threshold then {NameOf(binding)} else {}
  {
    hide NameOf, FailureCount, Valid, DeniedIn, Apply;
    if NameOf(binding) !in DeniedIn(s) && FailureCount(items, binding) >= threshold {
      NewDenial(s, DeniedIn(s) + {NameOf(binding)});
    }
  }

  /** Proposing and activating a set of names denies exactly these. */
  lemma NewDenial(s: PolicyState, names: set<string>)
    requires Valid(s)
    ensures var s1 := Apply(s, Propose(ROUTING, Denied(names), "verified failures"));
            var s2 := Apply(s1, Activate(ROUTING, |s.Of(ROUTING)| + 1));
            Valid(s2) && DeniedIn(s2) == names
  {
    var payload, v := Denied(names), |s.Of(ROUTING)| + 1;
    var s1 := Apply(s, Propose(ROUTING, payload, "verified failures"));
    ApplyValid(s, Propose(ROUTING, payload, "verified failures"));
    assert s1.Has(ROUTING, v) && s1.At(ROUTING, v).payload == payload && s1.At(ROUTING, v).status == PROPOSED;
    hide Valid;
    ActivatedValid(s1, ROUTING, v);
    ActivatedExtends(s1, ROUTING, v);
    var s2 := Activated(s1, ROUTING, v);
    hide Activated, Proposed;
    assert s2.Stack(ROUTING)[|s2.Stack(ROUTING)| - 1] == v;
    assert s2.Has(ROUTING, v) && s2.At(ROUTING, v).payload == payload;
  }

  /** The bindings of the failed tasks, without repetition. */
  function FailedBindings(l: Lesson, results: seq<(TaskId, TaskStatus)>): (bs: seq<string>)
    ensures forall b :: b in bs <==> FailedUnder(l, results, b) > 0
  {
    if results == [] then []
    else
      var (t, status) := results[|results| - 1];
      var rest := FailedBindings(l, results[..|results| - 1]);
      if status == FAILED && l.Binding(t).Some? && l.Binding(t).value !in rest then rest + [l.Binding(t).value]
      else rest
  }

  /** In alphabetical order, as they are revised. */
  function SortedBindings(l: Lesson): (bs: seq<string>)
    ensures forall b :: b in bs <==> FailedUnder(l, l.run.results, b) > 0
  {
    var bs := FailedBindings(l, l.run.results);
    var sorted := SortBy(bs, (a, b) => StringLe(a, b));
    SameMembers(sorted, bs);
    sorted
  }

  ghost function RevisedAll(s: PolicyState, items: seq<MemoryItem>, threshold: nat,
                            bindings: seq<string>): PolicyState
  {
    if bindings == [] then s
    else Revised(RevisedAll(s, items, threshold, bindings[..|bindings| - 1]), items, threshold,
                 bindings[|bindings| - 1])
  }

  /** The policy side of one lesson; `items` is memory after the lesson's failures were recorded. */
  ghost function Routed(s: PolicyState, items: seq<MemoryItem>, threshold: nat, l: Lesson): PolicyState {
    if l.Success() then s else RevisedAll(s, items, threshold, SortedBindings(l))
  }

  /** The names denied because of this lesson. */
  ghost function Condemned(items: seq<MemoryItem>, threshold: nat, bindings: seq<string>): set<string> {
    set b | b in bindings && FailureCount(items, b) >= threshold :: NameOf(b)
  }

  lemma {:induction false} RevisedAllDenies(s: PolicyState, items: seq<MemoryItem>, threshold: nat,
                                            bindings: seq<string>)
    requires Valid(s)
    ensures Valid(RevisedAll(s, items, threshold, bindings))
    ensures DeniedIn(RevisedAll(s, items, threshold, bindings)) == DeniedIn(s) + Condemned(items, threshold, bindings)
    decreases |bindings|
  {
    hide Valid, Revised, FailureCount, NameOf, DeniedIn;
    if bindings != [] {
      var init, last := bindings[..|bindings| - 1], bindings[|bindings| - 1];
      RevisedAllDenies(s, items, threshold, init);
      RevisedDenies(RevisedAll(s, items, threshold, init), items, threshold, last);
      assert bindings == init + [last];
      assert Condemned(items, threshold, bindings) ==
             Condemned(items, threshold, init) + if FailureCount(items, last) >= threshold then {NameOf(last)} else {};
    }
  }

  // -- denials as a function of history ------------------------------------------------------------------

  /** Recorded failures of `b` after the first lessons of a history. */
  function FailuresOf(ls: seq<Lesson>, b: string): nat {
    if ls == [] then 0
    else FailuresOf(ls[..|ls| - 1], b) + FailedUnder(ls[|ls| - 1], ls[|ls| - 1].run.results, b)
  }

  /** Both sides of a history. */
  datatype Knowledge = Knowledge(items: seq<MemoryItem>, policies: PolicyState)

  datatype Thresholds = Thresholds(skills: nat, failures: nat)

  ghost function LearnedBoth(k: Knowledge, th: Thresholds, l: Lesson): Knowledge {
    Knowledge(Learned(k.items, th.skills, l), Routed(k.policies, Recorded(k.items, l), th.failures, l))
  }

  ghost function LearnedHistory(k: Knowledge, th: Thresholds, ls: seq<Lesson>): Knowledge {
    if ls == [] then k else LearnedBoth(LearnedHistory(k, th, ls[..|ls| - 1]), th, ls[|ls| - 1])
  }

  /** Skills never touch the failure layer. */
  lemma LearnedFailures(items: seq<MemoryItem>, threshold: nat, l: Lesson)
    ensures forall b :: FailureCount(Learned(items, threshold, l), b)
                        == FailureCount(items, b) + FailedUnder(l, l.run.results, b)
    ensures forall b :: FailureCount(Recorded(items, l), b) == FailureCount(items, b) + FailedUnder(l, l.run.results, b)
  {
    var recorded := Recorded(items, l);
    RecordedCounts(items, l);
    hide Successes, LiveSkills, FailureCount, Recorded;
    if l.plan.Some? && l.Signature() != "" {
      if l.Success() {
        if LiveSkills(recorded, l.Signature()) == [] && |Successes(recorded, l.Signature())| >= threshold {
          CountsAppend(recorded, NewSkill(recorded, l.Signature(), threshold, l.plan.value));
        }
      } else if LiveSkills(recorded, l.Signature()) != [] {
        DeprecateSkill(recorded, LiveSkills(recorded, l.Signature())[0]);
      }
    }
  }

  /** Lesson `i` denied the name of binding `b`: it failed, `b` was among its failed tasks, and the
      failures of `b` recorded up to then reached the threshold. */
  ghost predicate Condemns(ls: seq<Lesson>, threshold: nat, i: nat, b: string) {
    && i < |ls| && !ls[i].Success()
    && FailedUnder(ls[i], ls[i].run.results, b) > 0
    && FailuresOf(ls[..i + 1], b) >= threshold
  }

  ghost predicate CondemnedName(ls: seq<Lesson>, threshold: nat, name: string) {
    exists i: nat, b :: Condemns(ls, threshold, i, b) && NameOf(b) == name
  }

  lemma {:induction false} FailuresFollowHistory(items: seq<MemoryItem>, policies: PolicyState, th: Thresholds,
                                                 ls: seq<Lesson>, b: string)
    ensures FailureCount(LearnedHistory(Knowledge(items, policies), th, ls).items, b)
            == FailureCount(items, b) + FailuresOf(ls, b)
    decreases |ls|
  {
    if ls != [] {
      FailuresFollowHistory(items, policies, th, ls[..|ls| - 1], b);
      LearnedFailures(LearnedHistory(Knowledge(items, policies), th, ls[..|ls| - 1]).items, th.skills, ls[|ls| - 1]);
      hide FailureCount, Learned, Routed, FailedUnder;
    }
  }

  lemma CondemnsPrefix(ls: seq<Lesson>, threshold: nat, i: nat, b: string)
    requires ls != [] && i < |ls| - 1
    ensures Condemns(ls[..|ls| - 1], threshold, i, b) <==> Condemns(ls, threshold, i, b)
  {
    assert ls[..|ls| - 1][..i + 1] == ls[..i + 1];
  }

  /** With no failures on record before, exactly the condemned names are denied, on top of what was
      denied already. */
  lemma {:induction false} DenialsFollowHistory(items: seq<MemoryItem>, policies: PolicyState, th: Thresholds,
                                                ls: seq<Lesson>)
    requires Valid(policies) && forall b :: FailureCount(items, b) == 0
    ensures Valid(LearnedHistory(Knowledge(items, policies), th, ls).policies)
    ensures forall name :: name in DeniedIn(LearnedHistory(Knowledge(items, policies), th, ls).policies) <==>
                           name in DeniedIn(policies) || CondemnedName(ls, th.failures, name)
    decreases |ls|
  {
    hide Valid, DeniedIn, FailureCount, NameOf, Learned, Recorded;
    if ls != [] {
      var init, last := ls[..|ls| - 1], ls[|ls| - 1];
      var k := LearnedHistory(Knowledge(items, policies), th, init);
      DenialsFollowHistory(items, policies, th, init);
      forall b ensures FailureCount(Recorded(k.items, last), b) == FailuresOf(ls, b) {
        FailuresFollowHistory(items, policies, th, init, b);
        LearnedFailures(k.items, th.skills, last);
      }
      if !last.Success() { RevisedAllDenies(k.policies, Recorded(k.items, last), th.failures, SortedBindings(last)); }
      OneMoreLesson(ls, th.failures, Recorded(k.items, last));
    }
  }

  lemma OneMoreLesson(ls: seq<Lesson>, threshold: nat, items: seq<MemoryItem>)
    requires ls != [] && forall b :: FailureCount(items, b) == FailuresOf(ls, b)
    ensures var init, last := ls[..|ls| - 1], ls[|ls| - 1];
            forall name :: CondemnedName(ls, threshold, name) <==>
                           CondemnedName(init, threshold, name) ||
                           (!last.Success() && name in Condemned(items, threshold, SortedBindings(last)))
  {
    var init, last := ls[..|ls| - 1], ls[|ls| - 1];
    hide FailureCount, NameOf, FailuresOf, FailedUnder;
    forall name
      ensures CondemnedName(ls, threshold, name) <==>
              CondemnedName(init, threshold, name)
              || (!last.Success() && name in Condemned(items, threshold, SortedBindings(last)))
    {
      assert ls[..|ls|] == ls;
      if CondemnedName(ls, threshold, name) {
        var i: nat, b :| Condemns(ls, threshold, i, b) && NameOf(b) == name;
        if i < |ls| - 1 {
          CondemnsPrefix(ls, threshold, i, b);
          assert Condemns(init, threshold, i, b);
        } else {
          assert b in SortedBindings(last) && FailureCount(items, b) >= threshold;
          assert NameOf(b) in Condemned(items, threshold, SortedBindings(last));
        }
      }
      if CondemnedName(init, threshold, name) {
        var i: nat, b :| Condemns(init, threshold, i, b) && NameOf(b) == name;
        CondemnsPrefix(ls, threshold, i, b);
        assert Condemns(ls, threshold, i, b);
      }
      if !last.Success() && name in Condemned(items, threshold, SortedBindings(last)) {
        var b :| b in SortedBindings(last) && FailureCount(items, b) >= threshold && NameOf(b) == name;
        assert Condemns(ls, threshold, |ls| - 1, b);
      }
    }
  }

  /** Evidence that never calls a run with failed bound tasks a success. */
  ghost predicate Genuine(l: Lesson) {
    forall b :: FailedUnder(l, l.run.results, b) > 0 ==> !l.Success()
  }

  ghost predicate AllGenuine(ls: seq<Lesson>) {
    forall i :: 0 <= i < |ls| ==> Genuine(ls[i])
  }

  lemma {:induction false} FailuresGrow(ls: seq<Lesson>, i: nat, b: string)
    requires i <= |ls|
    ensures FailuresOf(ls[..i], b) <= FailuresOf(ls, b)
    decreases |ls|
  {
    hide FailedUnder;
    if i < |ls| {
      FailuresGrow(ls[..|ls| - 1], i, b);
      assert ls[..|ls| - 1][..i] == ls[..i];
    } else {
      assert ls[..i] == ls;
    }
  }

  /** The lesson in which the last recorded failure of `b` happened. */
  lemma {:induction false} LastFailure(ls: seq<Lesson>, b: string) returns (i: nat)
    requires FailuresOf(ls, b) > 0
    ensures i < |ls| && FailedUnder(ls[i], ls[i].run.results, b) > 0 && FailuresOf(ls[..i + 1], b) == FailuresOf(ls, b)
    decreases |ls|
  {
    hide FailedUnder;
    var n := |ls|;
    if FailedUnder(ls[n - 1], ls[n - 1].run.results, b) > 0 {
      i := n - 1;
      assert ls[..n] == ls;
    } else {
      i := LastFailure(ls[..n - 1], b);
      assert ls[..n - 1][..i + 1] == ls[..i + 1];
    }
  }

  /** With genuine evidence and nothing on record before, a name is denied iff some binding of it has
      at least the threshold of recorded failures. */
  lemma DeniedIffEnoughFailures(items: seq<MemoryItem>, policies: PolicyState, th: Thresholds, ls: seq<Lesson>,
                                name: string)
    requires Valid(policies) && DeniedIn(policies) == {} && (forall b :: FailureCount(items, b) == 0)
    requires th.failures >= 1 && AllGenuine(ls)
    ensures var k := LearnedHistory(Knowledge(items, policies), th, ls);
            name in DeniedIn(k.policies) <==> exists b :: NameOf(b) == name && FailureCount(k.items, b) >= th.failures
  {
    hide Valid, DeniedIn, FailureCount, NameOf, FailuresOf, FailedUnder, LearnedHistory;
    var k := LearnedHistory(Knowledge(items, policies), th, ls);
    DenialsFollowHistory(items, policies, th, ls);
    forall b ensures FailureCount(k.items, b) == FailuresOf(ls, b) {
      FailuresFollowHistory(items, policies, th, ls, b);
    }
    if CondemnedName(ls, th.failures, name) {
      var i: nat, b :| Condemns(ls, th.failures, i, b) && NameOf(b) == name;
      FailuresGrow(ls, i + 1, b);
      assert FailureCount(k.items, b) >= th.failures;
    }
    if b :| NameOf(b) == name && FailureCount(k.items, b) >= th.failures {
      var i := LastFailure(ls, b);
      assert Genuine(ls[i]);
      assert Condemns(ls, th.failures, i, b);
    }
  }

  /** Without genuine evidence the equivalence fails: failures recorded in runs that are called a
      success deny nothing. */
  lemma UngenuineEvidenceDeniesNothing(ls: seq<Lesson>, items: seq<MemoryItem>, policies: PolicyState, th: Thresholds)
    requires Valid(policies) && (forall b :: FailureCount(items, b) == 0)
    requires forall i :: 0 <= i < |ls| ==> ls[i].Success()
    ensures DeniedIn(LearnedHistory(Knowledge(items, policies), th, ls).policies) == DeniedIn(policies)
  {
    hide Valid, DeniedIn, FailureCount, NameOf, FailuresOf, FailedUnder, LearnedHistory;
    DenialsFollowHistory(items, policies, th, ls);
    forall name ensures !CondemnedName(ls, th.failures, name) {}
  }

  /** The denied set never shrinks. */
  lemma DenialsOnlyGrow(items: seq<MemoryItem>, policies: PolicyState, th: Thresholds, ls: seq<Lesson>, n: nat)
    requires Valid(policies) && (forall b :: FailureCount(items, b) == 0) && n <= |ls|
    ensures DeniedIn(LearnedHistory(Knowledge(items, policies), th, ls[..n]).policies) <=
            DeniedIn(LearnedHistory(Knowledge(items, policies), th, ls).policies)
  {
    hide Valid, DeniedIn, FailureCount, NameOf, FailuresOf, FailedUnder, LearnedHistory;
    DenialsFollowHistory(items, policies, th, ls[..n]);
    DenialsFollowHistory(items, policies, th, ls);
    forall name | CondemnedName(ls[..n], th.failures, name) ensures CondemnedName(ls, th.failures, name) {
      var i: nat, b :| Condemns(ls[..n], th.failures, i, b) && NameOf(b) == name;
      assert ls[..n][..i + 1] == ls[..i + 1];
      assert Condemns(ls, th.failures, i, b);
    }
  }

  // -- what the router makes of it ---------------------------------------------------------------------

  /** Some routing policy version is active. */
  ghost predicate RoutingActive(s: PolicyState) {
    var stack := s.Stack(ROUTING);
    stack != [] && s.Has(ROUTING, stack[|stack| - 1])
  }

  /** The router's rules under the active routing policy; without one its own rules stay as they are. */
  ghost function ToRoutingPolicy(s: PolicyState, base: R.Policy): R.Policy {
    if RoutingActive(s) then base.(denied := DeniedIn(s)) else base
  }

  /** With an active routing policy only the denied names change, to what that policy denies; without one
      nothing does. */
  lemma RulesSay(s: PolicyState, base: R.Policy)
    ensures var rules := ToRoutingPolicy(s, base);
            && rules == base.(denied := rules.denied)
            && rules.denied == if RoutingActive(s) then DeniedIn(s) else base.denied
  {}

  lemma DeniedByRules(s: PolicyState, base: R.Policy, name: string)
    requires name in DeniedIn(s)
    ensures name in ToRoutingPolicy(s, base).denied
  {}

  /** Once the bindings of a capability failed often enough, nothing is routed to that carries the name
      its binding is split into, whatever it scores; this is the capability's own name exactly if its
      version has no at-sign. */
  lemma FailingCapabilityIsNotRouted(items: seq<MemoryItem>, policies: PolicyState, th: Thresholds, ls: seq<Lesson>,
                                     candidates: seq<Record>, base: R.Policy, chosen: Record, id: CapabilityId)
    requires Valid(policies) && DeniedIn(policies) == {} && (forall b :: FailureCount(items, b) == 0)
    requires th.failures >= 1 && AllGenuine(ls)
    requires FailureCount(LearnedHistory(Knowledge(items, policies), th, ls).items, Text(id)) >= th.failures
    requires R.Optimal(candidates, ToRoutingPolicy(LearnedHistory(Knowledge(items, policies), th, ls).policies, base),
                       chosen)
    ensures chosen.manifest.id.name != NameOf(Text(id))
    ensures NameOf(Text(id)) == id.name <==> '@' !in id.version.suffix
  {
    hide Valid, DeniedIn, FailureCount, NameOf, FailuresOf, FailedUnder, LearnedHistory, R.Optimal, Text;
    hide ToRoutingPolicy;
    var after := LearnedHistory(Knowledge(items, policies), th, ls).policies;
    DeniedIffEnoughFailures(items, policies, th, ls, NameOf(Text(id)));
    DeniedByRules(after, base, NameOf(Text(id)));
    BindingKeepsItsName(id);
    R.NeverDenied(candidates, ToRoutingPolicy(after, base), chosen);
  }

  // -- a version with an at-sign escapes ----------------------------------------------------------------

  /** A run of one task, bound to the capability, that failed. */
  function FailedRun(id: CapabilityId, evidence: Evidence): Lesson {
    var task := Task(Gather, "text", "", [], 0, Some(Text(id)), PENDING);
    Lesson(RunRecord("run", RunFailed, [(Gather, FAILED)]), evidence, Some([task]))
  }

  lemma FailedRunCounts(id: CapabilityId, evidence: Evidence, b: string)
    requires evidence.success == Some(false)
    ensures var l := FailedRun(id, evidence);
            && FailedUnder(l, l.run.results, b) == (if b == Text(id) then 1 else 0)
            && Genuine(l) && !l.Success()
  {
    hide Text;
    var l := FailedRun(id, evidence);
    assert l.plan.value[..0] == [];
    assert l.Binding(Gather) == Some(Text(id));
    assert l.run.results[..0] == [];
  }

  lemma {:induction false} RepeatedFailures(l: Lesson, n: nat, b: string)
    ensures FailuresOf(seq(n, _ => l), b) == n * FailedUnder(l, l.run.results, b)
    decreases n
  {
    hide FailedUnder;
    if n > 0 {
      RepeatedFailures(l, n - 1, b);
      assert seq(n, _ => l)[..n - 1] == seq(n - 1, _ => l);
      var k := FailedUnder(l, l.run.results, b);
      assert n * k == (n - 1) * k + k;
    }
  }

  /** The whole family of failing inputs: a capability whose version has an at-sign may fail as often
      as the threshold says and is not denied. The router still chooses it if it can read a number key off
      what follows the last at-sign; otherwise the router stops wherever the capability is a candidate. */
  lemma AtSignEscapesDenial(policies: PolicyState, th: Thresholds, evidence: Evidence, base: R.Policy, r: Record)
    requires Valid(policies) && DeniedIn(policies) == {} && th.failures >= 1 && evidence.success == Some(false)
    requires '@' in r.manifest.id.version.suffix && R.Eligible(r, base)
    ensures var ls := seq(th.failures, _ => FailedRun(r.manifest.id, evidence));
            var k := LearnedHistory(Knowledge([], policies), th, ls);
            var rules := ToRoutingPolicy(k.policies, base);
            && FailureCount(k.items, Text(r.manifest.id)) >= th.failures
            && (R.Optimal([r], rules, r) <==> R.Key(r.manifest.id).Some?)
            && (R.Key(r.manifest.id).None? ==> forall candidates :: r in candidates ==> R.Unreadable(candidates, rules))
    ensures SuffixOk(r.manifest.id.version.suffix) ==>
              R.Key(r.manifest.id) == VersionKey(VersionOf(r.manifest.id.version.suffix))
  {
    hide Valid, DeniedIn, FailureCount, NameOf, FailuresOf, FailedUnder, LearnedHistory, Text, R.Optimal, R.Eligible;
    hide FailedRun, R.Key, VersionKey, VersionOf, SuffixOk;
    var id, l := r.manifest.id, FailedRun(r.manifest.id, evidence);
    var ls := seq(th.failures, _ => l);
    var k := LearnedHistory(Knowledge([], policies), th, ls);
    NoFailuresYet();
    FailuresFollowHistory([], policies, th, ls, Text(id));
    RepeatedFailures(l, th.failures, Text(id));
    FailedRunCounts(id, evidence, Text(id));
    DenialsFollowHistory([], policies, th, ls);
    BindingKeepsItsName(id);
    forall i: nat, b | i < |ls| && NameOf(b) == id.name ensures !Condemns(ls, th.failures, i, b) {
      FailedRunCounts(id, evidence, b);
    }
    StillEligible(k.policies, base, r);
    R.OnlyChoice(r, ToRoutingPolicy(k.policies, base));
    if SuffixOk(id.version.suffix) { R.KeyMeaning(id); }
  }

  lemma NoFailuresYet()
    ensures forall b :: FailureCount([], b) == 0
  {}

  lemma StillEligible(s: PolicyState, base: R.Policy, r: Record)
    requires R.Eligible(r, base) && r.manifest.id.name !in DeniedIn(s)
    ensures R.Eligible(r, ToRoutingPolicy(s, base))
  {}

  // -- Cog --------------------------------------------------------------------------------------------------

  datatype CogError = UnverifiedEvidence | NoPromotionPolicy

  class Cog {
    const memory: MemorySystem
    const policies: PolicyEngine
    const registry: Registry
    const thresholds: Thresholds
    const promotionPolicy: string
    const shaper: RewardShaper

    constructor (memory: MemorySystem, policies: PolicyEngine, registry: Registry, thresholds: Thresholds,
                 promotionPolicy: string, shaper: RewardShaper)
      requires thresholds.skills >= 1
      ensures this.memory == memory && this.policies == policies && this.registry == registry
      ensures this.thresholds == thresholds && this.promotionPolicy == promotionPolicy && this.shaper == shaper
    {
      this.memory, this.policies, this.registry := memory, policies, registry;
      this.thresholds, this.promotionPolicy, this.shaper := thresholds, promotionPolicy, shaper;
    }

    ghost function Known(): Knowledge
      reads memory, policies
    {
      Knowledge(memory.items, policies.State())
    }

    /** Learns from one verified run: memory and policies move as the history functions say, scores
        move only for verified evidence, and unverified evidence moves nothing. */
    method Learn(l: Lesson) returns (err: Option<CogError>)
      requires Valid(policies.State()) && registry.Valid()
      modifies memory, policies, registry
      ensures Valid(policies.State()) && registry.Valid()
      ensures err == if !l.evidence.verified then Some(UnverifiedEvidence)
                     else if Blank(promotionPolicy) then Some(NoPromotionPolicy) else None
      ensures err.None? ==> Known() == LearnedBoth(old(Known()), thresholds, l)
      ensures err.None? ==> registry.past == ScoredBy(old(registry.past), old(registry.keys), shaper, l, l.run.results)
      ensures err.Some? ==>
                && Known() == old(Known()) && registry.records == old(registry.records)
                && registry.past == old(registry.past)
    {
      if !l.evidence.verified { return Some(UnverifiedEvidence); }
      if Blank(promotionPolicy) { return Some(NoPromotionPolicy); }
      hide Valid, Accounted, Capabilities.Indexed;
      ghost var k := Known();
      Record(l);
      UpdateScores(l);
      if l.plan.Some? && l.Signature() != "" {
        if l.Success() { PromoteSkill(l.Signature(), l.plan.value); } else { DeprecateFirst(l.Signature()); }
      }
      assert memory.items == Learned(k.items, thresholds.skills, l);
      LearnedFailures(k.items, thresholds.skills, l);
      if !l.Success() { ReviseRouting(l, Recorded(k.items, l)); }
      err := None;
    }

    /** The reflection, then one item per failed task. */
    method Record(l: Lesson)
      requires l.evidence.verified && !Blank(promotionPolicy)
      modifies memory
      ensures memory.items == Recorded(old(memory.items), l)
    {
      ghost var items := memory.items;
      var err := memory.Promote(true, promotionPolicy, Reflection(l).content);
      for i := 0 to |l.run.results|
        invariant memory.items == items + [Reflection(l)] + Failures(l, l.run.results[..i])
      {
        assert l.run.results[..i + 1] == l.run.results[..i] + [l.run.results[i]];
        var (t, status) := l.run.results[i];
        if status == FAILED {
          err := memory.Promote(true, promotionPolicy, Failure(l.run.id, t, l.Binding(t), l.Signature()));
        }
      }
      assert l.run.results[..|l.run.results|] == l.run.results;
    }

    /** Every settled task with a binding moves the scores of the capability it names, if known. */
    method UpdateScores(l: Lesson)
      requires registry.Valid() && l.evidence.verified
      modifies registry
      ensures registry.Valid() && registry.keys == old(registry.keys)
      ensures registry.past == ScoredBy(old(registry.past), old(registry.keys), shaper, l, l.run.results)
    {
      hide Accounted, Capabilities.Indexed, Scored;
      ghost var past, keys := registry.past, registry.keys;
      for i := 0 to |l.run.results|
        invariant registry.Valid() && registry.keys == keys
        invariant registry.past == ScoredBy(past, keys, shaper, l, l.run.results[..i])
      {
        assert l.run.results[..i + 1] == l.run.results[..i] + [l.run.results[i]];
        var (t, status) := l.run.results[i];
        var binding := l.Binding(t);
        if binding.Some? && binding.value != "" && (status == COMPLETED || status == FAILED) {
          var id := Resolved(registry.keys, NameOf(binding.value), VersionOf(binding.value));
          if id.Some? {
            ResolvedIsKey(registry.keys, NameOf(binding.value), VersionOf(binding.value));
            KeysAreKnown(registry.records, registry.keys, registry.past);
            var reward := shaper.Reward(l.evidence, status == COMPLETED);
            var err := registry.RecordOutcome(id.value, l.evidence, status == COMPLETED, Some(reward));
          }
        }
      }
      assert l.run.results[..|l.run.results|] == l.run.results;
    }

    method PromoteSkill(signature: string, tasks: seq<Task>)
      requires !Blank(promotionPolicy)
      modifies memory
      ensures memory.items == PromotedSkill(old(memory.items), signature, thresholds.skills, tasks)
    {
      if LiveSkills(memory.items, signature) != [] { return; }
      var successes := Successes(memory.items, signature);
      if |successes| < thresholds.skills { return; }
      SuccessesAreEpisodes(memory.items, signature);
      var sources := successes[..thresholds.skills];
      var err := memory.Promote(true, promotionPolicy,
                                Skill(signature, Chain(tasks), Runs(sources), MeanConfidence(sources)));
    }

    method DeprecateFirst(signature: string)
      modifies memory
      ensures memory.items == DeprecatedSkill(old(memory.items), signature)
    {
      var ids := LiveSkills(memory.items, signature);
      if ids != [] { var err := memory.Deprecate(ids[0]); }
    }

    /** Denies the names of the failed bindings that failed often enough, one policy version each. */
    method ReviseRouting(l: Lesson, ghost recorded: seq<MemoryItem>)
      requires Valid(policies.State())
      requires forall b :: FailureCount(memory.items, b) == FailureCount(recorded, b)
      modifies policies
      ensures Valid(policies.State())
      ensures policies.State() == RevisedAll(old(policies.State()), recorded, thresholds.failures, SortedBindings(l))
    {
      hide Valid, FailureCount, NameOf, Revised, SortedBindings, DeniedIn, FailedBindings;
      var bindings := SortedBindings(l);
      ghost var s := policies.State();
      for i := 0 to |bindings|
        invariant Valid(policies.State())
        invariant policies.State() == RevisedAll(s, recorded, thresholds.failures, bindings[..i])
      {
        assert bindings[..i + 1] == bindings[..i] + [bindings[i]];
        ReviseOne(bindings[i], recorded);
      }
      assert bindings[..|bindings|] == bindings;
    }

    method ReviseOne(binding: string, ghost recorded: seq<MemoryItem>)
      requires Valid(policies.State()) && FailureCount(memory.items, binding) == FailureCount(recorded, binding)
      modifies policies
      ensures Valid(policies.State())
      ensures policies.State() == Revised(old(policies.State()), recorded, thresholds.failures, binding)
    {
      hide Valid, FailureCount, NameOf, Apply;
      var denied := ActiveDenials();
      if NameOf(binding) in denied { return; }
      if FailureCount(memory.items, binding) < thresholds.failures { return; }
      var proposed := policies.Proposing(ROUTING, Denied(denied + {NameOf(binding)}), "verified failures");
      var err := policies.Activating(ROUTING, proposed.version);
    }

    /** The names denied by the active routing policy, if there is one. */
    method ActiveDenials() returns (denied: set<string>)
      requires Valid(policies.State())
      ensures denied == DeniedIn(policies.State())
    {
      var active := policies.ActiveIndex(ROUTING);
      if active.None? { return {}; }
      var payload := policies.VersionsOf(ROUTING)[active.value].payload;
      denied := if payload.Denied? then payload.names else {};
    }
  }

  /** The lessons whose evidence is verified; Cog refuses the others. */
  function Verified(ls: seq<Lesson>): seq<Lesson> {
    if ls == [] then []
    else Verified(ls[..|ls| - 1]) + if ls[|ls| - 1].evidence.verified then [ls[|ls| - 1]] else []
  }

  lemma LearnedNext(items: seq<MemoryItem>, threshold: nat, ls: seq<Lesson>, i: nat)
    requires i < |ls|
    ensures var before := LearnedAll(items, threshold, Verified(ls[..i]));
            LearnedAll(items, threshold, Verified(ls[..i + 1]))
            == if ls[i].evidence.verified then Learned(before, threshold, ls[i]) else before
  {
    hide Learned;
    assert ls[..i + 1][..i] == ls[..i];
    var before, after := Verified(ls[..i]), Verified(ls[..i + 1]);
    assert after == before + if ls[i].evidence.verified then [ls[i]] else [];
    if ls[i].evidence.verified {
      assert after[..|after| - 1] == before && after[|after| - 1] == ls[i];
    } else {
      assert after == before;
    }
  }

  /** Cogs with one memory, which may have policies and registries of their own or share them. */
  ghost predicate Colleagues(cogs: seq<Cog>, memory: MemorySystem, threshold: nat) {
    forall c :: c in cogs ==> c.memory == memory && c.thresholds.skills == threshold && !Blank(c.promotionPolicy)
  }

  ghost predicate AllValid(cogs: seq<Cog>)
    reads set c | c in cogs :: c.policies
    reads set c | c in cogs :: c.registry
  {
    forall c :: c in cogs ==> Valid(c.policies.State()) && c.registry.Valid()
  }

  /** Any number of Cogs with one memory learn a history between them. Which of them learns which lesson
      leaves no mark in the memory; started empty, it has the skills that the verified history as a whole
      calls for. */
  method LearnTogether(memory: MemorySystem, threshold: nat, cogs: seq<Cog>, ls: seq<Lesson>, turns: seq<nat>)
    requires Colleagues(cogs, memory, threshold) && AllValid(cogs) && threshold >= 1
    requires |turns| == |ls| && forall i :: 0 <= i < |turns| ==> turns[i] < |cogs|
    modifies memory, (set c | c in cogs :: c.policies), (set c | c in cogs :: c.registry)
    ensures AllValid(cogs)
    ensures memory.items == LearnedAll(old(memory.items), threshold, Verified(ls))
    ensures old(memory.items) == [] ==>
              forall sig :: |LiveSkills(memory.items, sig)| == if HasSkill(Verified(ls), threshold, sig) then 1 else 0
  {
    hide Valid, Registry.Valid, Blank, Learned, HasSkill, LiveSkills;
    ghost var items := memory.items;
    for i := 0 to |ls|
      invariant AllValid(cogs)
      invariant memory.items == LearnedAll(items, threshold, Verified(ls[..i]))
    {
      LearnedNext(items, threshold, ls, i);
      var cog := cogs[turns[i]];
      assert cog in cogs;
      LearnOne(cogs, cog, ls[i]);
    }
    assert ls[..|ls|] == ls;
    if items == [] {
      forall sig
        ensures |LiveSkills(memory.items, sig)| == if HasSkill(Verified(ls), threshold, sig) then 1 else 0
      {
        SkillsFollowHistory(Verified(ls), threshold, sig);
      }
    }
  }

  /** One Cog's lesson keeps the policies and registries of all of them valid. */
  method LearnOne(ghost cogs: seq<Cog>, cog: Cog, l: Lesson)
    requires cog in cogs && AllValid(cogs) && !Blank(cog.promotionPolicy)
    modifies cog.memory, cog.policies, cog.registry
    ensures AllValid(cogs)
    ensures cog.memory.items == if l.evidence.verified then Learned(old(cog.memory.items), cog.thresholds.skills, l)
                                else old(cog.memory.items)
  {
    hide Valid, Registry.Valid, Blank, Learned;
    var err := cog.Learn(l);
    forall c | c in cogs ensures Valid(c.policies.State()) && c.registry.Valid() {
      assert c.policies != cog.policies ==> c.policies.State() == old(c.policies.State());
      assert c.registry != cog.registry ==> c.registry.Valid() == old(c.registry.Valid());
    }
  }

  /** The registered capability a binding names, if any. */
  function Resolved(keys: seq<CapabilityId>, name: string, version: string): Option<CapabilityId> {
    if keys == [] then None
    else
      var rest := Resolved(keys[..|keys| - 1], name, version);
      var last := keys[|keys| - 1];
      if rest.Some? then rest
      else if last.name == name && VersionText(last.version) == version then Some(last) else None
  }

  lemma {:induction false} ResolvedExists(keys: seq<CapabilityId>, id: CapabilityId)
    requires id in keys
    ensures Resolved(keys, id.name, VersionText(id.version)).Some?
    decreases |keys|
  {
    hide VersionText;
    var init, last := keys[..|keys| - 1], keys[|keys| - 1];
    assert keys == init + [last];
    if id in init { ResolvedExists(init, id); }
  }

  lemma {:induction false} ResolvedMatches(keys: seq<CapabilityId>, name: string, version: string)
    ensures Resolved(keys, name, version).Some? ==>
              && Resolved(keys, name, version).value in keys
              && Resolved(keys, name, version).value.name == name
              && VersionText(Resolved(keys, name, version).value.version) == version
    decreases |keys|
  {
    hide VersionText;
    if keys != [] { ResolvedMatches(keys[..|keys| - 1], name, version); }
  }

  /** In a registry a binding the router wrote for a version without an at-sign leads back to the very
      capability it was written for. */
  lemma BindingResolves(records: Records, keys: seq<CapabilityId>, past: map<CapabilityId, Past>, id: CapabilityId)
    requires Capabilities.Indexed(records, keys) && Accounted(records, past)
    requires id in records && '@' !in id.version.suffix
    ensures Resolved(keys, NameOf(Text(id)), VersionOf(Text(id))) == Some(id)
  {
    hide VersionText, Text, NameOf, VersionOf, Accounted, SuffixOk, Resolved;
    BindingKeepsItsName(id);
    assert id in keys;
    ResolvedExists(keys, id);
    ResolvedMatches(keys, id.name, VersionText(id.version));
    var found := Resolved(keys, id.name, VersionText(id.version)).value;
    SuffixesOk(records, keys, past, id);
    SuffixesOk(records, keys, past, found);
    VersionTextInjective(id.version, found.version);
  }

  /** The outcomes recorded per capability after a lesson's settled tasks were scored. */
  ghost function ScoredBy(past: map<CapabilityId, Past>, keys: seq<CapabilityId>, shaper: RewardShaper, l: Lesson,
                          results: seq<(TaskId, TaskStatus)>): map<CapabilityId, Past>
  {
    if results == [] then past
    else
      var before := ScoredBy(past, keys, shaper, l, results[..|results| - 1]);
      var (t, status) := results[|results| - 1];
      var binding := l.Binding(t);
      if binding.Some? && binding.value != "" && (status == COMPLETED || status == FAILED) then
        var id := Resolved(keys, NameOf(binding.value), VersionOf(binding.value));
        if id.Some? && id.value in before then
          var o := ShapedOutcome(shaper, l.evidence, status == COMPLETED);
          before[id.value := before[id.value].(outcomes := before[id.value].outcomes + [o])]
        else before
      else before
  }

  /** The result of a task counts for a capability if the task settled and its binding names it. */
  predicate CountsFor(keys: seq<CapabilityId>, l: Lesson, result: (TaskId, TaskStatus), id: CapabilityId) {
    && (result.1 == COMPLETED || result.1 == FAILED)
    && l.Binding(result.0).Some? && l.Binding(result.0).value != ""
    && Resolved(keys, NameOf(l.Binding(result.0).value), VersionOf(l.Binding(result.0).value)) == Some(id)
  }

  /** What a lesson records about a capability: one outcome for every settled task bound to it, in order,
      a success exactly if the task completed, with the evidence's confidence and reward. */
  lemma {:induction false} OutcomesSay(past: map<CapabilityId, Past>, keys: seq<CapabilityId>, shaper: RewardShaper,
                                       l: Lesson, results: seq<(TaskId, TaskStatus)>, id: CapabilityId)
    returns (at: seq<nat>)
    requires id in past
    ensures var after := ScoredBy(past, keys, shaper, l, results);
            && after.Keys == past.Keys && after[id].registered == past[id].registered
            && |after[id].outcomes| == |past[id].outcomes| + |at|
            && after[id].outcomes[..|past[id].outcomes|] == past[id].outcomes
            && forall i :: 0 <= i < |at| ==>
                 && at[i] < |results|
                 && var success := results[at[i]].1 == COMPLETED;
                 && after[id].outcomes[|past[id].outcomes| + i]
                    == Capabilities.Outcome(success, l.evidence.confidence, Some(shaper.Reward(l.evidence, success)))
    ensures forall i, j :: 0 <= i < j < |at| ==> at[i] < at[j]
    ensures forall k :: k in at <==> 0 <= k < |results| && CountsFor(keys, l, results[k], id)
    decreases |results|
  {
    hide Lesson.Binding, NameOf, VersionOf, Resolved, RewardShaper.Reward;
    if results == [] {
      at := [];
    } else {
      var n := |results| - 1;
      var init := results[..n];
      var rest := OutcomesSay(past, keys, shaper, l, init, id);
      at := rest + if CountsFor(keys, l, results[n], id) then [n] else [];
      forall k ensures k in at <==> 0 <= k < |results| && CountsFor(keys, l, results[k], id) {
        assert k in at <==> k in rest || (k == n && CountsFor(keys, l, results[n], id));
      }
    }
  }

  lemma {:induction false} ResolvedIsKey(keys: seq<CapabilityId>, name: string, version: string)
    ensures Resolved(keys, name, version).Some? ==> Resolved(keys, name, version).value in keys
    decreases |keys|
  {
    if keys != [] { ResolvedIsKey(keys[..|keys| - 1], name, version); }
  }

  lemma KeysAreKnown(records: Records, keys: seq<CapabilityId>, past: map<CapabilityId, Past>)
    requires Capabilities.Indexed(records, keys) && Accounted(records, past)
    ensures forall k :: k in keys ==> k in records && k in past
  {
    hide AccountedAt;
  }
}
