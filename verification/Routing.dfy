/** Capability routing: exclusion rules, a weighted score and a deterministic choice, if the versions of
    all eligible candidates can be read. */
module Routing {
  import opened Schemas
  import opened Sorting
  import opened Capabilities

  datatype Policy = Policy(
    requireHealthy: bool,
    minReliability: real,
    minTrust: real,
    maxCost: Option<real>,
    maxLatency: Option<real>,
    preferred: set<string>,
    denied: set<string>,
    wReliability: real,
    wTrust: real,
    wCost: real,
    wLatency: real,
    bonus: real)
  {
    predicate NonNegative() {
      wReliability >= 0.0 && wTrust >= 0.0 && wCost >= 0.0 && wLatency >= 0.0 && bonus >= 0.0
    }
  }

  datatype Exclusion = DeniedByPolicy | Unhealthy | NotHealthyEnough | Unreliable | Untrusted | TooCostly | TooSlow

  function ExclusionReason(r: Record, p: Policy): Option<Exclusion> {
    var m := r.manifest;
    if m.id.name in p.denied then Some(DeniedByPolicy)
    else if r.health == UNHEALTHY then Some(Unhealthy)
    else if p.requireHealthy && r.health != HEALTHY then Some(NotHealthyEnough)
    else if m.reliability < p.minReliability then Some(Unreliable)
    else if m.trust < p.minTrust then Some(Untrusted)
    else if p.maxCost.Some? && m.cost > p.maxCost.value then Some(TooCostly)
    else if p.maxLatency.Some? && m.latency > p.maxLatency.value then Some(TooSlow)
    else None
  }

  predicate Eligible(r: Record, p: Policy) { ExclusionReason(r, p).None? }

  /** What the rules say of a record, over its fields. */
  lemma EligibleSays(r: Record, p: Policy)
    ensures Eligible(r, p) <==>
              && r.manifest.id.name !in p.denied
              && r.health != UNHEALTHY && (p.requireHealthy ==> r.health == HEALTHY)
              && r.manifest.reliability >= p.minReliability && r.manifest.trust >= p.minTrust
              && (p.maxCost.Some? ==> r.manifest.cost <= p.maxCost.value)
              && (p.maxLatency.Some? ==> r.manifest.latency <= p.maxLatency.value)
  {}

  /** The reason given is the first rule that is broken. */
  lemma ExclusionSays(r: Record, p: Policy)
    ensures var (reason, m) := (ExclusionReason(r, p), r.manifest);
            && (reason == Some(DeniedByPolicy) <==> m.id.name in p.denied)
            && (reason == Some(Unhealthy) ==> r.health == UNHEALTHY)
            && (reason == Some(NotHealthyEnough) ==> p.requireHealthy && r.health == UNKNOWN)
            && (reason == Some(Unreliable) ==> m.reliability < p.minReliability)
            && (reason == Some(Untrusted) ==> m.trust < p.minTrust)
            && (reason == Some(TooCostly) ==> p.maxCost.Some? && m.cost > p.maxCost.value)
            && (reason == Some(TooSlow) ==> p.maxLatency.Some? && m.latency > p.maxLatency.value)
            && (m.id.name !in p.denied && r.health == UNHEALTHY ==> reason == Some(Unhealthy))
  {}

  function EligibleOf(records: seq<Record>, p: Policy): seq<Record> {
    if records == [] then []
    else
      var rest := EligibleOf(records[..|records| - 1], p);
      var last := records[|records| - 1];
      if Eligible(last, p) then rest + [last] else rest
  }

  lemma {:induction false} EligibleMembers(records: seq<Record>, p: Policy)
    ensures forall r :: r in EligibleOf(records, p) <==> r in records && Eligible(r, p)
    decreases |records|
  {
    hide Eligible;
    if records != [] {
      EligibleMembers(records[..|records| - 1], p);
      assert records == records[..|records| - 1] + [records[|records| - 1]];
    }
  }

  // -- scores -----------------------------------------------------------------------------------

  function Costs(records: seq<Record>): (xs: seq<real>)
    ensures |xs| == |records| && forall i :: 0 <= i < |xs| ==> xs[i] == records[i].manifest.cost
  {
    seq(|records|, i requires 0 <= i < |records| => records[i].manifest.cost)
  }

  function Latencies(records: seq<Record>): (xs: seq<real>)
    ensures |xs| == |records| && forall i :: 0 <= i < |xs| ==> xs[i] == records[i].manifest.latency
  {
    seq(|records|, i requires 0 <= i < |records| => records[i].manifest.latency)
  }

  /** A field relative to the greatest among the eligible. */
  function Normalized(x: real, max: real): real {
    if max > 0.0 then x / max else 0.0
  }

  function Weighted(w: real, x: real): real { w * x }

  function Score(m: Manifest, p: Policy, maxCost: real, maxLatency: real): real {
    Weighted(p.wReliability, m.reliability) + Weighted(p.wTrust, m.trust)
    - Weighted(p.wCost, Normalized(m.cost, maxCost)) - Weighted(p.wLatency, Normalized(m.latency, maxLatency))
    + (if m.id.name in p.preferred then p.bonus else 0.0)
  }

  /** Each eligible record with its score, in order. */
  method ScoreAll(eligible: seq<Record>, p: Policy) returns (scored: seq<(Record, real)>)
    ensures |scored| == |eligible|
    ensures forall i :: 0 <= i < |eligible| ==>
              scored[i] == (eligible[i], Score(eligible[i].manifest, p, Greatest(Costs(eligible)),
                                               Greatest(Latencies(eligible))))
  {
    if eligible == [] { return []; }
    var maxCost, maxLatency := Greatest(Costs(eligible)), Greatest(Latencies(eligible));
    scored := [];
    for i := 0 to |eligible|
      invariant |scored| == i
      invariant forall j :: 0 <= j < i ==>
                  scored[j] == (eligible[j], Score(eligible[j].manifest, p, maxCost, maxLatency))
    {
      var m := eligible[i].manifest;
      var score := Weighted(p.wReliability, m.reliability) + Weighted(p.wTrust, m.trust);
      score := score - Weighted(p.wCost, Normalized(m.cost, maxCost));
      score := score - Weighted(p.wLatency, Normalized(m.latency, maxLatency));
      if m.id.name in p.preferred { score := score + p.bonus; }
      scored := scored + [(eligible[i], score)];
    }
  }

  // -- the choice ---------------------------------------------------------------------------------

  /** Higher score first, then name, then newer version. */
  predicate Prefers(a: (Record, real), b: (Record, real)) {
    || a.1 > b.1
    || (a.1 == b.1 && PrefersById(a.0.manifest.id, b.0.manifest.id))
  }

  /** The numbers the router reads off a written id: those after its last at-sign. */
  function Key(id: CapabilityId): Option<seq<nat>> { VersionKey(VersionOf(Text(id))) }

  function KeyNumbers(id: CapabilityId): seq<nat> {
    var key := Key(id);
    if key.Some? then key.value else []
  }

  /** The greater numbers first; a key comes before its extensions. */
  predicate PrefersKey(a: seq<nat>, b: seq<nat>) {
    if a == [] then true
    else if b == [] then false
    else a[0] > b[0] || (a[0] == b[0] && PrefersKey(a[1..], b[1..]))
  }

  predicate PrefersById(a: CapabilityId, b: CapabilityId) {
    if a.name == b.name then PrefersKey(KeyNumbers(a), KeyNumbers(b)) else StringLe(a.name, b.name)
  }

  lemma {:induction false} KeyTotal(a: seq<nat>, b: seq<nat>)
    ensures PrefersKey(a, b) || PrefersKey(b, a)
    ensures PrefersKey(a, b) && PrefersKey(b, a) ==> a == b
    decreases |a|
  {
    if a != [] && b != [] {
      KeyTotal(a[1..], b[1..]);
      assert a == [a[0]] + a[1..] && b == [b[0]] + b[1..];
    }
  }

  lemma {:induction false} KeyTransitive(a: seq<nat>, b: seq<nat>, c: seq<nat>)
    requires PrefersKey(a, b) && PrefersKey(b, c)
    ensures PrefersKey(a, c)
    decreases |a|
  {
    if a != [] && a[0] == b[0] && b[0] == c[0] { KeyTransitive(a[1..], b[1..], c[1..]); }
  }

  lemma {:induction false} AfterLastAt(x: string, y: string)
    requires '@' in y
    ensures VersionOf(x + y) == VersionOf(y)
    decreases |y|
  {
    var text := x + y;
    assert text[|text| - 1] == y[|y| - 1];
    if y[|y| - 1] != '@' {
      assert text[..|text| - 1] == x + y[..|y| - 1];
      AfterLastAt(x, y[..|y| - 1]);
    }
  }

  /** A valid version without an at-sign is read as its three numbers, with one as what follows the last. */
  lemma KeyMeaning(id: CapabilityId)
    requires SuffixOk(id.version.suffix)
    ensures Key(id) == if '@' !in id.version.suffix then Some([id.version.major, id.version.minor, id.version.patch])
                       else VersionKey(VersionOf(id.version.suffix))
  {
    hide VersionKey, VersionOf, SuffixOk, Decimal;
    if '@' !in id.version.suffix {
      BindingKeepsItsName(id);
      VersionKeyOfText(id.version);
    } else {
      var whole := VersionText(id.version);
      var front := id.name + "@" + whole[..|whole| - |id.version.suffix|];
      assert Text(id) == front + id.version.suffix;
      AfterLastAt(front, id.version.suffix);
    }
  }

  lemma NewerKey(a: Version, b: Version)
    ensures PrefersKey([a.major, a.minor, a.patch], [b.major, b.minor, b.patch]) <==> VersionLe(b, a)
  {
    var x, y := [a.major, a.minor, a.patch], [b.major, b.minor, b.patch];
    assert x[1..] == [a.minor, a.patch] && y[1..] == [b.minor, b.patch];
    assert x[1..][1..] == [a.patch] && y[1..][1..] == [b.patch];
    assert [a.patch][1..] == [];
    assert PrefersKey([a.patch], [b.patch]) <==> a.patch >= b.patch;
    assert PrefersKey(x[1..], y[1..]) <==> a.minor > b.minor || (a.minor == b.minor && a.patch >= b.patch);
  }

  /** Between valid versions of one name without at-signs the router prefers the newer. */
  lemma NewestFirst(a: CapabilityId, b: CapabilityId)
    requires SuffixOk(a.version.suffix) && '@' !in a.version.suffix
    requires SuffixOk(b.version.suffix) && '@' !in b.version.suffix
    requires a.name == b.name
    ensures PrefersById(a, b) <==> VersionLe(b.version, a.version)
    ensures SameRank(a, b) <==> SameNumbers(a.version, b.version)
  {
    KeyMeaning(a);
    KeyMeaning(b);
    NewerKey(a.version, b.version);
    hide Key, PrefersKey, SuffixOk;
    var x, y := a.version, b.version;
    assert [x.major, x.minor, x.patch] == [y.major, y.minor, y.patch] <==> SameNumbers(x, y) by {
      var p, q := [x.major, x.minor, x.patch], [y.major, y.minor, y.patch];
      assert p[0] == x.major && p[1] == x.minor && p[2] == x.patch;
      assert q[0] == y.major && q[1] == y.minor && q[2] == y.patch;
    }
  }

  /** The versions with an at-sign split: after "-a@1" the router reads 1, after "-a@b" it cannot read. */
  lemma KeySamples(name: string, v: Version)
    ensures Key(CapabilityId(name, v.(suffix := "-a@1"))) == Some([1])
    ensures Key(CapabilityId(name, v.(suffix := "-a@b"))) == None
  {
    hide Key;
    KeySample(CapabilityId(name, v.(suffix := "-a@1")), '1');
    KeySample(CapabilityId(name, v.(suffix := "-a@b")), 'b');
  }

  lemma KeySample(id: CapabilityId, c: char)
    requires id.version.suffix == ['-', 'a', '@', c] && c !in {'@', '-', '+', '.', '\n'} && !Whitespace(c)
    ensures Key(id) == if Digit(c) then Some([c as int - '0' as int]) else None
  {
    hide Key, VersionKey, VersionOf, Whitespace, Digit;
    var s := id.version.suffix;
    assert s[2] == '@' && s[3] == c;
    KeyMeaning(id);
    AfterAtCharacter(s[..3], c);
    assert s == s[..3] + [c];
    OneCharacterKey(c);
  }

  lemma AfterAtCharacter(front: string, c: char)
    requires front != "" && front[|front| - 1] == '@' && c != '@'
    ensures VersionOf(front + [c]) == [c]
  {
    assert (front + [c])[..|front|] == front;
  }

  lemma OneCharacterKey(c: char)
    requires c !in {'-', '+', '.'} && !Whitespace(c)
    ensures VersionKey([c]) == if Digit(c) then Some([c as int - '0' as int]) else None
  {
    assert [c][1..] == "" && Until([c], '-') == [c] && Until([c], '+') == [c];
    assert Parts([c]) == [[c]] by { OnePart([c]); }
    assert ParsedInt([c]) == Number([c]);
    assert [c][..0] == "";
    assert Number([c]) == if Digit(c) then Some(c as int - '0' as int) else None;
    OneParsed([c]);
  }

  lemma OneParsed(part: string)
    ensures ParsedAll([part]) == if ParsedInt(part).Some? then Some([ParsedInt(part).value]) else None
  {
    hide ParsedInt;
    assert [part][..0] == [] && [part][0] == part && ParsedAll([]) == Some([]);
    if ParsedInt(part).Some? {
      assert [] + [ParsedInt(part).value] == [ParsedInt(part).value];
    }
  }

  lemma IdPreference()
    ensures forall a, b :: PrefersById(a, b) || PrefersById(b, a)
    ensures forall a, b, c :: PrefersById(a, b) && PrefersById(b, c) ==> PrefersById(a, c)
    ensures forall a, b :: PrefersById(a, b) && PrefersById(b, a) ==>
              a.name == b.name && KeyNumbers(a) == KeyNumbers(b)
  {
    hide StringLe, KeyNumbers, PrefersKey;
    forall a, b
      ensures PrefersById(a, b) || PrefersById(b, a)
      ensures PrefersById(a, b) && PrefersById(b, a) ==> a.name == b.name && KeyNumbers(a) == KeyNumbers(b)
    {
      StringTotal(a.name, b.name);
      KeyTotal(KeyNumbers(a), KeyNumbers(b));
    }
    forall a, b, c | PrefersById(a, b) && PrefersById(b, c) ensures PrefersById(a, c) {
      if a.name == b.name == c.name {
        KeyTransitive(KeyNumbers(a), KeyNumbers(b), KeyNumbers(c));
      } else if a.name != b.name && b.name != c.name {
        StringTransitive(a.name, b.name, c.name);
        StringTotal(a.name, b.name);
      }
    }
  }

  lemma PreferenceOrder()
    ensures TotalPreorder((a, b) => Prefers(a, b))
  {
    IdPreference();
    hide PrefersById;
  }

  datatype Decision = Decision(task: TaskId, capabilityType: string, policy: string, chosen: Option<CapabilityId>,
                               reason: Reason)

  datatype Reason = NoneRegistered | AllExcluded | HighestScore

  /** Some eligible candidate's version cannot be read, which stops the router. */
  ghost predicate Unreadable(records: seq<Record>, p: Policy) {
    exists r :: r in records && Eligible(r, p) && Key(r.manifest.id).None?
  }

  /** Every eligible candidate's version can be read, `c` is eligible, and no eligible candidate comes
      before it. */
  ghost predicate Optimal(records: seq<Record>, p: Policy, c: Record) {
    var eligible := EligibleOf(records, p);
    && c in eligible && !Unreadable(records, p)
    && forall e :: e in eligible ==> Prefers(WithScore(eligible, p, c), WithScore(eligible, p, e))
  }

  ghost function WithScore(eligible: seq<Record>, p: Policy, r: Record): (Record, real)
    requires eligible != []
  {
    (r, Score(r.manifest, p, Greatest(Costs(eligible)), Greatest(Latencies(eligible))))
  }

  datatype Choice = Unread | Choice(chosen: Option<Record>, reason: Reason)

  /** The best candidate, unless a version that has to be compared cannot be read. */
  method Choose(records: seq<Record>, p: Policy) returns (choice: Choice)
    ensures choice.Unread? <==> Unreadable(records, p)
    ensures choice.Choice? ==>
              && (choice.chosen.None? <==> forall r :: r in records ==> !Eligible(r, p))
              && (choice.chosen.Some? ==> Optimal(records, p, choice.chosen.value))
              && choice.reason == if records == [] then NoneRegistered
                                  else if choice.chosen.None? then AllExcluded else HighestScore
  {
    EligibleMembers(records, p);
    hide Eligible, Prefers, Score, Key;
    if records == [] { return Choice(None, NoneRegistered); }
    var eligible := EligibleOf(records, p);
    if eligible == [] {
      assert forall r :: r in records && Eligible(r, p) ==> r in eligible;
      return Choice(None, AllExcluded);
    }
    var scored := ScoreAll(eligible, p);
    var readable := KeysReadable(eligible);
    if !readable { return Unread; }
    var ordered := SortBy(scored, (a, b) => Prefers(a, b));
    FirstIsBest(scored, ordered);
    var best := ordered[0];
    assert best in scored;
    forall e | e in eligible ensures WithScore(eligible, p, e) in scored {
      var i :| 0 <= i < |eligible| && eligible[i] == e;
      assert scored[i] == WithScore(eligible, p, e);
    }
    var i :| 0 <= i < |scored| && scored[i] == best;
    assert eligible[i] == best.0 && best == WithScore(eligible, p, best.0);
    assert eligible[i] in eligible;
    return Choice(Some(best.0), HighestScore);
  }

  /** Whether the sort key of every record can be computed. */
  method KeysReadable(eligible: seq<Record>) returns (readable: bool)
    ensures readable <==> forall r :: r in eligible ==> Key(r.manifest.id).Some?
  {
    hide Key;
    for i := 0 to |eligible|
      invariant forall j :: 0 <= j < i ==> Key(eligible[j].manifest.id).Some?
    {
      if Key(eligible[i].manifest.id).None? {
        assert eligible[i] in eligible;
        return false;
      }
    }
    readable := true;
  }

  lemma FirstIsBest(scored: seq<(Record, real)>, ordered: seq<(Record, real)>)
    requires scored != [] && ordered == SortBy(scored, (a, b) => Prefers(a, b))
    ensures ordered != [] && ordered[0] in scored && forall s :: s in scored ==> Prefers(ordered[0], s)
  {
    PreferenceOrder();
    SortBySorted(scored, (a, b) => Prefers(a, b));
    SameMembers(ordered, scored);
    PreferenceReflexive(ordered[0]);
    hide Prefers, SortBy, TotalPreorder;
    forall s | s in scored ensures Prefers(ordered[0], s) {
      assert s in ordered;
      var i :| 0 <= i < |ordered| && ordered[i] == s;
    }
  }

  lemma PreferenceReflexive(a: (Record, real))
    ensures Prefers(a, a)
  {
    KeyTotal(KeyNumbers(a.0.manifest.id), KeyNumbers(a.0.manifest.id));
  }

  // -- the router -----------------------------------------------------------------------------------

  datatype RoutingPolicy = RoutingPolicy(id: string, rules: Policy)

  class Router {
    const registry: Registry
    const policy: RoutingPolicy
    var decisions: seq<Decision>
    var counter: nat

    constructor (registry: Registry, policy: RoutingPolicy)
      ensures this.registry == registry && this.policy == policy && decisions == [] && counter == 0
    {
      this.registry, this.policy, decisions, counter := registry, policy, [], 0;
    }

    /** Routes one task and records the decision; an unroutable task is a decision too. A version that
        cannot be read is an error, and then nothing is recorded. */
    method Route(task: Task, active: RoutingPolicy) returns (decision: Option<Decision>)
      requires registry.Valid()
      modifies this
      ensures decision.None? <==> Stuck(registry.records, registry.keys, task, active)
      ensures if decision.None? then decisions == old(decisions) && counter == old(counter)
              else decisions == old(decisions) + [decision.value] && counter == old(counter) + 1
      ensures decision.Some? ==> Decided(registry.records, registry.keys, task, active, decision.value)
    {
      hide Eligible, Optimal, Unreadable, Found, Accounted, Indexed, Decided;
      var found := registry.Find(task.capabilityType, false, false);
      var choice := Choose(found, active.rules);
      if choice.Unread? { return None; }
      var chosen := choice.chosen;
      counter := counter + 1;
      var made := Decision(task.id, task.capabilityType, active.id,
                           if chosen.Some? then Some(chosen.value.manifest.id) else None, choice.reason);
      DecidedBy(registry.records, registry.keys, task, active, found, chosen, made);
      decisions := decisions + [made];
      decision := Some(made);
    }

    /** Routes and binds every task of a plan. Every decision is recorded before an unroutable task
        is reported; a version that cannot be read ends it at that task, with the tasks before it bound. */
    method RoutePlan(tasks: seq<Task>, override: Option<RoutingPolicy>)
      returns (err: Option<RoutingError>, bound: seq<Task>, made: seq<Decision>)
      requires registry.Valid()
      modifies this
      ensures decisions == old(decisions) + made && counter == old(counter) + |made|
      ensures |made| <= |tasks| && |bound| == |tasks|
      ensures forall i :: 0 <= i < |tasks| ==> bound[i] == if i < |made| then Bound(tasks[i], made[i]) else tasks[i]
      ensures var active := if override.Some? then override.value else policy;
              && (forall i :: 0 <= i < |made| ==>
                    Decided(registry.records, registry.keys, tasks[i], active, made[i])
                    && !Stuck(registry.records, registry.keys, tasks[i], active))
              && (|made| < |tasks| ==> Stuck(registry.records, registry.keys, tasks[|made|], active))
      ensures err == if |made| < |tasks| then Some(VersionUnreadable)
                     else if exists i :: 0 <= i < |made| && made[i].chosen.None? then Some(Unroutable) else None
    {
      hide Accounted, Indexed, Decided, Bound, Stuck;
      var active := if override.Some? then override.value else policy;
      bound, made := tasks, [];
      var unroutable := false;
      for i := 0 to |tasks|
        invariant decisions == old(decisions) + made && counter == old(counter) + i
        invariant |made| == i && |bound| == |tasks|
        invariant forall j :: 0 <= j < |tasks| ==> bound[j] == if j < i then Bound(tasks[j], made[j]) else tasks[j]
        invariant forall j :: 0 <= j < i ==>
                    && Decided(registry.records, registry.keys, tasks[j], active, made[j])
                    && !Stuck(registry.records, registry.keys, tasks[j], active)
        invariant unroutable <==> exists j :: 0 <= j < i && made[j].chosen.None?
      {
        var d := Route(tasks[i], active);
        if d.None? { return Some(VersionUnreadable), bound, made; }
        made := made + [d.value];
        bound := bound[i := Bound(tasks[i], d.value)];
        unroutable := unroutable || d.value.chosen.None?;
        assert made[i] == d.value;
      }
      err := if unroutable then Some(Unroutable) else None;
    }
  }

  datatype RoutingError = Unroutable | VersionUnreadable

  /** Some eligible candidate for the task has a version that cannot be read. */
  ghost predicate Stuck(records: Records, keys: seq<CapabilityId>, task: Task, active: RoutingPolicy) {
    Unreadable(Found(records, keys, task.capabilityType, false, false), active.rules)
  }

  function Bound(task: Task, d: Decision): Task {
    if d.chosen.Some? then task.(binding := Some(Text(d.chosen.value))) else task
  }

  /** The decision is the best one for the registry's active records of the task's type. */
  ghost predicate Decided(records: Records, keys: seq<CapabilityId>, task: Task, active: RoutingPolicy, d: Decision) {
    var found := Found(records, keys, task.capabilityType, false, false);
    && d.task == task.id && d.capabilityType == task.capabilityType && d.policy == active.id
    && (d.chosen.None? <==> forall r :: r in found ==> !Eligible(r, active.rules))
    && (d.chosen.Some? ==>
          && d.chosen.value in records && records[d.chosen.value].status == ACTIVE
          && records[d.chosen.value].manifest.capabilityType == task.capabilityType
          && Eligible(records[d.chosen.value], active.rules)
          && Optimal(found, active.rules, records[d.chosen.value]))
  }

  lemma DecidedBy(records: Records, keys: seq<CapabilityId>, task: Task, active: RoutingPolicy, found: seq<Record>,
                  chosen: Option<Record>, d: Decision)
    requires found == Found(records, keys, task.capabilityType, false, false)
    requires forall r :: r in found ==>
               r.manifest.id in records && records[r.manifest.id] == r && Matches(r, task.capabilityType, false, false)
    requires chosen.None? <==> forall r :: r in found ==> !Eligible(r, active.rules)
    requires chosen.Some? ==> Optimal(found, active.rules, chosen.value)
    requires d.task == task.id && d.capabilityType == task.capabilityType && d.policy == active.id
    requires d.chosen == if chosen.Some? then Some(chosen.value.manifest.id) else None
    ensures Decided(records, keys, task, active, d)
  {
    hide Eligible, Optimal, Found;
    if chosen.Some? { OptimalIsEligible(found, active.rules, chosen.value); }
  }

  lemma OptimalIsEligible(records: seq<Record>, p: Policy, c: Record)
    requires Optimal(records, p, c)
    ensures c in EligibleOf(records, p) && c in records && Eligible(c, p)
  {
    EligibleMembers(records, p);
  }

  /** A denied name is never chosen. */
  lemma NeverDenied(records: seq<Record>, p: Policy, c: Record)
    requires Optimal(records, p, c)
    ensures c.manifest.id.name !in p.denied
  {
    OptimalIsEligible(records, p, c);
  }

  /** An eligible capability without a rival is chosen, if its version can be read. */
  lemma OnlyChoice(r: Record, p: Policy)
    requires Eligible(r, p)
    ensures Optimal([r], p, r) <==> Key(r.manifest.id).Some?
  {
    hide Prefers, Key, Score, Eligible, EligibleOf;
    OneEligible(r, p);
    PreferenceReflexive(WithScore([r], p, r));
    assert r in [r];
    assert Unreadable([r], p) <==> Key(r.manifest.id).None?;
  }

  lemma OneEligible(r: Record, p: Policy)
    requires Eligible(r, p)
    ensures EligibleOf([r], p) == [r]
  {
    hide Eligible;
    assert [r][..0] == [] && EligibleOf([], p) == [];
  }

  /** Whatever a registry holds, a decision never names a denied capability. */
  lemma DecisionNotDenied(records: Records, keys: seq<CapabilityId>, task: Task, active: RoutingPolicy, d: Decision)
    requires Indexed(records, keys) && Decided(records, keys, task, active, d) && d.chosen.Some?
    ensures d.chosen.value.name !in active.rules.denied
  {
    hide Optimal, Found, DistinctKeys;
  }

  /** What a score adds up to: reliability and trust count for a capability, cost and latency relative to
      the greatest count against it, and the bonus goes to the preferred. */
  lemma ScoreSays(m: Manifest, p: Policy, maxCost: real, maxLatency: real)
    requires maxCost >= 0.0 && maxLatency >= 0.0
    ensures Score(m, p, maxCost, maxLatency)
            == p.wReliability * m.reliability + p.wTrust * m.trust
               - p.wCost * (if maxCost == 0.0 then 0.0 else m.cost / maxCost)
               - p.wLatency * (if maxLatency == 0.0 then 0.0 else m.latency / maxLatency)
               + (if m.id.name in p.preferred then p.bonus else 0.0)
  {}

  /** The chosen capability has the greatest score, with cost and latency measured against the greatest
      among the eligible; among equals the name and then the version decide. */
  lemma OptimalSays(records: seq<Record>, p: Policy, c: Record, e: Record) returns (maxCost: real, maxLatency: real)
    requires Optimal(records, p, c) && e in records && Eligible(e, p)
    ensures forall r :: r in records && Eligible(r, p) ==>
              r.manifest.cost <= maxCost && r.manifest.latency <= maxLatency
    ensures exists r :: r in records && Eligible(r, p) && r.manifest.cost == maxCost
    ensures exists r :: r in records && Eligible(r, p) && r.manifest.latency == maxLatency
    ensures var (ours, theirs) := (Score(c.manifest, p, maxCost, maxLatency),
                                   Score(e.manifest, p, maxCost, maxLatency));
            || ours > theirs
            || (ours == theirs
                && (if c.manifest.id.name == e.manifest.id.name
                    then PrefersKey(KeyNumbers(c.manifest.id), KeyNumbers(e.manifest.id))
                    else StringLe(c.manifest.id.name, e.manifest.id.name)))
  {
    hide Eligible, Score, Greatest, KeyNumbers, PrefersKey, StringLe;
    EligibleMembers(records, p);
    hide EligibleOf;
    var eligible := EligibleOf(records, p);
    maxCost, maxLatency := Greatest(Costs(eligible)), Greatest(Latencies(eligible));
    forall r | r in eligible ensures r.manifest.cost <= maxCost && r.manifest.latency <= maxLatency {
      InMaxima(eligible, r);
    }
    MaximaReached(eligible);
    assert Prefers(WithScore(eligible, p, c), WithScore(eligible, p, e));
  }

  /** Measuring all costs in another unit, or all latencies, changes no score. */
  lemma UnitsDoNotMatter(m: Manifest, p: Policy, maxCost: real, maxLatency: real, k: real, l: real)
    requires k > 0.0 && l > 0.0
    ensures Score(m.(cost := k * m.cost, latency := l * m.latency), p, k * maxCost, l * maxLatency)
            == Score(m, p, maxCost, maxLatency)
  {
    NormalizedScales(m.cost, maxCost, k);
    NormalizedScales(m.latency, maxLatency, l);
    hide Weighted, Normalized;
  }

  lemma NormalizedScales(x: real, max: real, k: real)
    requires k > 0.0
    ensures Normalized(k * x, k * max) == Normalized(x, max)
  {
    if max > 0.0 {
      var q := x / max;
      assert q * max == x;
      assert k * max > 0.0;
      assert q * (k * max) == k * x;
      assert k * x / (k * max) == q;
    } else {
      assert k * max <= 0.0;
    }
  }

  // -- dominance ----------------------------------------------------------------------------------------

  /** `e` is at least as good as `c` in everything routing looks at. */
  predicate AtLeastAsGood(e: Manifest, c: Manifest, p: Policy) {
    && e.reliability >= c.reliability && e.trust >= c.trust && e.cost <= c.cost && e.latency <= c.latency
    && (c.id.name in p.preferred ==> e.id.name in p.preferred)
  }

  /** Better in something that carries weight. */
  predicate BetterSomewhere(e: Manifest, c: Manifest, p: Policy) {
    || (e.reliability > c.reliability && p.wReliability > 0.0)
    || (e.trust > c.trust && p.wTrust > 0.0)
    || (e.cost < c.cost && p.wCost > 0.0)
    || (e.latency < c.latency && p.wLatency > 0.0)
    || (e.id.name in p.preferred && c.id.name !in p.preferred && p.bonus > 0.0)
  }

  lemma WeightedMonotone(w: real, x: real, y: real)
    requires w >= 0.0 && x <= y
    ensures Weighted(w, x) <= Weighted(w, y)
    ensures w > 0.0 && x < y ==> Weighted(w, x) < Weighted(w, y)
  {}

  lemma NormalizedMonotone(x: real, y: real, max: real)
    requires x <= y
    ensures Normalized(x, max) <= Normalized(y, max)
    ensures max > 0.0 && x < y ==> Normalized(x, max) < Normalized(y, max)
  {
    if max > 0.0 {
      assert (x / max) * max == x && (y / max) * max == y;
      assert (y / max - x / max) * max >= 0.0;
    }
  }

  lemma ScoreMonotone(e: Manifest, c: Manifest, p: Policy, maxCost: real, maxLatency: real)
    requires p.NonNegative() && AtLeastAsGood(e, c, p)
    requires 0.0 <= e.cost && c.cost <= maxCost && 0.0 <= e.latency && c.latency <= maxLatency
    ensures Score(c, p, maxCost, maxLatency) <= Score(e, p, maxCost, maxLatency)
    ensures BetterSomewhere(e, c, p) ==> Score(c, p, maxCost, maxLatency) < Score(e, p, maxCost, maxLatency)
  {
    WeightedMonotone(p.wReliability, c.reliability, e.reliability);
    WeightedMonotone(p.wTrust, c.trust, e.trust);
    NormalizedMonotone(e.cost, c.cost, maxCost);
    WeightedMonotone(p.wCost, Normalized(e.cost, maxCost), Normalized(c.cost, maxCost));
    NormalizedMonotone(e.latency, c.latency, maxLatency);
    WeightedMonotone(p.wLatency, Normalized(e.latency, maxLatency), Normalized(c.latency, maxLatency));
    hide Weighted, Normalized;
  }

  ghost predicate CostsValid(records: seq<Record>) {
    forall r :: r in records ==> r.manifest.cost >= 0.0 && r.manifest.latency >= 0.0
  }

  lemma InMaxima(eligible: seq<Record>, r: Record)
    requires r in eligible
    ensures r.manifest.cost <= Greatest(Costs(eligible)) && r.manifest.latency <= Greatest(Latencies(eligible))
  {
    var i :| 0 <= i < |eligible| && eligible[i] == r;
    assert Costs(eligible)[i] == r.manifest.cost && Latencies(eligible)[i] == r.manifest.latency;
  }

  /** The routed capability is never dominated: no eligible candidate is at least as good in every
      respect and better in one that carries weight. */
  lemma NeverDominated(records: seq<Record>, p: Policy, c: Record, e: Record)
    requires p.NonNegative() && CostsValid(records) && Optimal(records, p, c)
    requires e in records && Eligible(e, p) && AtLeastAsGood(e.manifest, c.manifest, p)
    ensures p.wReliability > 0.0 ==> e.manifest.reliability == c.manifest.reliability
    ensures p.wTrust > 0.0 ==> e.manifest.trust == c.manifest.trust
    ensures p.wCost > 0.0 ==> e.manifest.cost == c.manifest.cost
    ensures p.wLatency > 0.0 ==> e.manifest.latency == c.manifest.latency
    ensures p.bonus > 0.0 && e.manifest.id.name in p.preferred ==> c.manifest.id.name in p.preferred
  {
    EligibleMembers(records, p);
    OptimalIsEligible(records, p, c);
    var eligible := EligibleOf(records, p);
    InMaxima(eligible, c);
    InMaxima(eligible, e);
    ScoreMonotone(e.manifest, c.manifest, p, Greatest(Costs(eligible)), Greatest(Latencies(eligible)));
    hide Score, Eligible, EligibleOf, PrefersById;
    assert Prefers(WithScore(eligible, p, c), WithScore(eligible, p, e));
  }

  // -- independence of order -----------------------------------------------------------------------------

  predicate SameRank(a: CapabilityId, b: CapabilityId) {
    a.name == b.name && Key(a).Some? && Key(a) == Key(b)
  }

  /** No two candidates share a name and the numbers the router reads. */
  ghost predicate Distinguishable(records: seq<Record>) {
    forall a, b :: a in records && b in records && SameRank(a.manifest.id, b.manifest.id) ==> a == b
  }

  lemma SameMaxima(a: seq<Record>, b: seq<Record>)
    requires a != [] && forall r :: r in a <==> r in b
    ensures b != [] && Greatest(Costs(a)) == Greatest(Costs(b)) && Greatest(Latencies(a)) == Greatest(Latencies(b))
  {
    assert a[0] in b;
    MaximaWithin(a, b);
    assert b[0] in a;
    MaximaWithin(b, a);
  }

  lemma MaximaWithin(a: seq<Record>, b: seq<Record>)
    requires a != [] && b != [] && forall r :: r in a ==> r in b
    ensures Greatest(Costs(a)) <= Greatest(Costs(b)) && Greatest(Latencies(a)) <= Greatest(Latencies(b))
  {
    var i :| 0 <= i < |a| && Costs(a)[i] == Greatest(Costs(a));
    var j :| 0 <= j < |a| && Latencies(a)[j] == Greatest(Latencies(a));
    assert a[i] in b && a[j] in b;
    InMaxima(b, a[i]);
    InMaxima(b, a[j]);
  }

  /** Two registries holding the same candidates in any order route alike. */
  lemma OrderIsIrrelevant(records: seq<Record>, records': seq<Record>, p: Policy, c: Record, c': Record)
    requires Distinguishable(records) && forall r :: r in records <==> r in records'
    requires Optimal(records, p, c) && Optimal(records', p, c')
    ensures c == c'
  {
    EligibleMembers(records, p);
    EligibleMembers(records', p);
    OptimalIsEligible(records, p, c);
    OptimalIsEligible(records', p, c');
    var a, b := EligibleOf(records, p), EligibleOf(records', p);
    assert c in a;
    hide Eligible, EligibleOf, Score, Key;
    SameMaxima(a, b);
    assert Prefers(WithScore(a, p, c), WithScore(a, p, c'));
    assert Prefers(WithScore(b, p, c'), WithScore(b, p, c));
    IdPreference();
    hide PrefersById;
  }

  // -- rising scores ------------------------------------------------------------------------------------------

  /** `records'` holds `better` in place of `c`, which is `c` with its reliability and trust raised. */
  ghost predicate Raised(records: seq<Record>, c: Record, better: Record, records': seq<Record>) {
    && c in records && better in records'
    && (forall r :: r in records' ==> r == better || r in records)
    && (forall r :: r in records && r != c ==> r in records')
    && RaisedRecord(c, better)
  }

  predicate RaisedRecord(c: Record, better: Record) {
    var (was, now) := (c.manifest, better.manifest);
    && better == c.(manifest := was.(reliability := now.reliability, trust := now.trust))
    && now.reliability >= was.reliability && now.trust >= was.trust
  }

  lemma RaisedEligible(c: Record, better: Record, p: Policy)
    requires RaisedRecord(c, better) && Eligible(c, p)
    ensures Eligible(better, p)
  {}

  lemma EligibleRaised(records: seq<Record>, c: Record, better: Record, records': seq<Record>, p: Policy)
    requires Raised(records, c, better, records') && Eligible(c, p)
    ensures Raised(EligibleOf(records, p), c, better, EligibleOf(records', p))
  {
    RaisedEligible(c, better, p);
    EligibleMembers(records, p);
    EligibleMembers(records', p);
    hide Eligible, EligibleOf, RaisedRecord;
  }

  lemma RaisedMaxima(eligible: seq<Record>, c: Record, better: Record, eligible': seq<Record>)
    requires Raised(eligible, c, better, eligible')
    ensures Greatest(Costs(eligible)) == Greatest(Costs(eligible'))
            && Greatest(Latencies(eligible)) == Greatest(Latencies(eligible'))
  {
    forall r | r in eligible'
      ensures r.manifest.cost <= Greatest(Costs(eligible)) && r.manifest.latency <= Greatest(Latencies(eligible))
    {
      InMaxima(eligible, if r == better then c else r);
    }
    forall r | r in eligible
      ensures r.manifest.cost <= Greatest(Costs(eligible')) && r.manifest.latency <= Greatest(Latencies(eligible'))
    {
      InMaxima(eligible', if r == c then better else r);
    }
    MaximaReached(eligible);
    MaximaReached(eligible');
    hide Raised, Greatest;
  }

  lemma MaximaReached(records: seq<Record>)
    requires records != []
    ensures exists r :: r in records && r.manifest.cost == Greatest(Costs(records))
    ensures exists r :: r in records && r.manifest.latency == Greatest(Latencies(records))
  {
    var i :| 0 <= i < |records| && Costs(records)[i] == Greatest(Costs(records));
    var j :| 0 <= j < |records| && Latencies(records)[j] == Greatest(Latencies(records));
    assert records[i] in records && records[j] in records;
  }

  /** A chosen capability stays chosen when its own reliability or trust rises. */
  lemma StaysChosen(records: seq<Record>, p: Policy, c: Record, better: Record, records': seq<Record>)
    requires p.NonNegative() && CostsValid(records) && Raised(records, c, better, records') && Optimal(records, p, c)
    ensures Optimal(records', p, better)
  {
    hide Score, Eligible, EligibleOf, PrefersById, Unreadable, RaisedRecord, Costs, Latencies, Greatest;
    OptimalIsEligible(records, p, c);
    EligibleRaised(records, c, better, records', p);
    var eligible, eligible' := EligibleOf(records, p), EligibleOf(records', p);
    StaysReadable(records, c, better, records', p);
    RaisedMaxima(eligible, c, better, eligible');
    InMaxima(eligible, c);
    RaisedScore(c, better, p, Greatest(Costs(eligible)), Greatest(Latencies(eligible)));
    PreferenceReflexive(WithScore(eligible', p, better));
    forall e | e in eligible' ensures Prefers(WithScore(eligible', p, better), WithScore(eligible', p, e)) {
      if e != better {
        assert e in eligible;
        assert Prefers(WithScore(eligible, p, c), WithScore(eligible, p, e));
      }
    }
  }

  lemma RaisedScore(c: Record, better: Record, p: Policy, maxCost: real, maxLatency: real)
    requires p.NonNegative() && RaisedRecord(c, better)
    requires 0.0 <= c.manifest.cost <= maxCost && 0.0 <= c.manifest.latency <= maxLatency
    ensures Score(c.manifest, p, maxCost, maxLatency) <= Score(better.manifest, p, maxCost, maxLatency)
    ensures better.manifest.id == c.manifest.id
  {
    ScoreMonotone(better.manifest, c.manifest, p, maxCost, maxLatency);
    hide Score;
  }

  lemma StaysReadable(records: seq<Record>, c: Record, better: Record, records': seq<Record>, p: Policy)
    requires Raised(records, c, better, records') && Eligible(c, p) && !Unreadable(records, p)
    ensures !Unreadable(records', p)
  {
    hide Eligible, Key;
    assert Key(c.manifest.id).Some?;
    forall r | r in records' && Eligible(r, p) ensures Key(r.manifest.id).Some? {
      assert r == better || r in records;
    }
  }

  // -- what a registry offers -----------------------------------------------------------------------------------

  /** What a registry finds has valid costs, whatever its scores became. */
  lemma FoundIsValid(records: Records, keys: seq<CapabilityId>, past: map<CapabilityId, Past>, capabilityType: string)
    requires Indexed(records, keys) && Accounted(records, past)
    ensures CostsValid(Found(records, keys, capabilityType, false, false))
  {
    FoundIsExact(records, keys, capabilityType, false, false);
    hide Found, Matches, ScoredAll, Indexed;
    var found := Found(records, keys, capabilityType, false, false);
    forall r | r in found ensures r.manifest.cost >= 0.0 && r.manifest.latency >= 0.0 {
      var id := r.manifest.id;
      assert AccountedAt(records[id], past[id]);
      ScoringKeepsId(past[id].registered, past[id].outcomes);
    }
  }

  /** A router is never stuck on a registry whose versions have no at-signs. */
  lemma PlainVersionsAreRead(records: Records, keys: seq<CapabilityId>, past: map<CapabilityId, Past>, task: Task,
                             active: RoutingPolicy)
    requires Indexed(records, keys) && Accounted(records, past)
    requires forall id :: id in records ==> '@' !in id.version.suffix
    ensures !Stuck(records, keys, task, active)
  {
    FoundIsExact(records, keys, task.capabilityType, false, false);
    hide Found, Matches, Accounted, SuffixOk, Key, Eligible;
    forall r | r in Found(records, keys, task.capabilityType, false, false) ensures Key(r.manifest.id).Some? {
      SuffixesOk(records, keys, past, r.manifest.id);
      KeyMeaning(r.manifest.id);
    }
  }

  predicate Breaks(r: Record, p: Policy) {
    || r.manifest.id.name in p.denied
    || r.health == UNHEALTHY || (p.requireHealthy && r.health != HEALTHY)
    || r.manifest.reliability < p.minReliability || r.manifest.trust < p.minTrust
    || (p.maxCost.Some? && r.manifest.cost > p.maxCost.value)
    || (p.maxLatency.Some? && r.manifest.latency > p.maxLatency.value)
  }

  /** Every decision keeps the policy's rules: what is chosen breaks none of them, and nothing is chosen if
      and only if every active capability of the task's type breaks one. */
  lemma RoutedByTheRules(records: Records, keys: seq<CapabilityId>, task: Task, active: RoutingPolicy, d: Decision)
    requires Indexed(records, keys) && Decided(records, keys, task, active, d)
    ensures d.chosen.Some? ==>
              && d.chosen.value in records
              && var (r, p) := (records[d.chosen.value], active.rules);
              && r.status == ACTIVE && r.manifest.capabilityType == task.capabilityType
              && d.chosen.value.name !in p.denied
              && r.health != UNHEALTHY && (p.requireHealthy ==> r.health == HEALTHY)
              && r.manifest.reliability >= p.minReliability && r.manifest.trust >= p.minTrust
              && (p.maxCost.Some? ==> r.manifest.cost <= p.maxCost.value)
              && (p.maxLatency.Some? ==> r.manifest.latency <= p.maxLatency.value)
    ensures d.chosen.None? <==>
              forall id :: id in records && records[id].status == ACTIVE
                           && records[id].manifest.capabilityType == task.capabilityType ==>
                var (r, p) := (records[id], active.rules);
                || id.name in p.denied
                || r.health == UNHEALTHY || (p.requireHealthy && r.health != HEALTHY)
                || r.manifest.reliability < p.minReliability || r.manifest.trust < p.minTrust
                || (p.maxCost.Some? && r.manifest.cost > p.maxCost.value)
                || (p.maxLatency.Some? && r.manifest.latency > p.maxLatency.value)
  {
    hide Optimal, Found, DistinctKeys, Eligible;
    FoundIsExact(records, keys, task.capabilityType, false, false);
    var found := Found(records, keys, task.capabilityType, false, false);
    if d.chosen.Some? { EligibleSays(records[d.chosen.value], active.rules); }
    forall id | id in records && records[id].status == ACTIVE
                && records[id].manifest.capabilityType == task.capabilityType
      ensures records[id] in found && records[id].manifest.id == id
    {}
    forall id | id in records ensures Eligible(records[id], active.rules) <==>
                                        !Breaks(records[id], active.rules)
    {
      EligibleSays(records[id], active.rules);
    }
    forall r | r in found ensures r.manifest.id in records && records[r.manifest.id] == r && r.status == ACTIVE
                                  && r.manifest.capabilityType == task.capabilityType
    {}
  }

  /** What a router decides on a valid registry is not dominated by any active, eligible capability of the
      task's type. */
  lemma RoutedIsUndominated(records: Records, keys: seq<CapabilityId>, past: map<CapabilityId, Past>, task: Task,
                            active: RoutingPolicy, d: Decision, id: CapabilityId)
    requires Indexed(records, keys) && Accounted(records, past) && active.rules.NonNegative()
    requires Decided(records, keys, task, active, d) && d.chosen.Some?
    requires id in records && records[id].status == ACTIVE && Eligible(records[id], active.rules)
    requires records[id].manifest.capabilityType == task.capabilityType
    requires AtLeastAsGood(records[id].manifest, records[d.chosen.value].manifest, active.rules)
    ensures var (e, c, p) := (records[id].manifest, records[d.chosen.value].manifest, active.rules);
            && (p.wReliability > 0.0 ==> e.reliability == c.reliability) && (p.wTrust > 0.0 ==> e.trust == c.trust)
            && (p.wCost > 0.0 ==> e.cost == c.cost) && (p.wLatency > 0.0 ==> e.latency == c.latency)
            && (p.bonus > 0.0 && e.id.name in p.preferred ==> c.id.name in p.preferred)
  {
    FoundIsValid(records, keys, past, task.capabilityType);
    FoundIsExact(records, keys, task.capabilityType, false, false);
    hide Found, Accounted, Eligible, Optimal, AtLeastAsGood, CostsValid;
    var found := Found(records, keys, task.capabilityType, false, false);
    assert records[id] in found;
    NeverDominated(found, active.rules, records[d.chosen.value], records[id]);
  }

  /** In a registry in which only the scores of the decided capability rose, the decision is the same. */
  lemma StaysRouted(records: Records, keys: seq<CapabilityId>, past: map<CapabilityId, Past>, task: Task,
                    active: RoutingPolicy, d: Decision, better: Record)
    requires Indexed(records, keys) && Accounted(records, past) && active.rules.NonNegative()
    requires Decided(records, keys, task, active, d) && d.chosen.Some?
    requires RaisedRecord(records[d.chosen.value], better)
    ensures Decided(records[d.chosen.value := better], keys, task, active, d)
  {
    var id := d.chosen.value;
    IndexedWith(records, keys, better);
    FoundIsValid(records, keys, past, task.capabilityType);
    RaisedFound(records, keys, task.capabilityType, id, better);
    hide Found, Accounted, Eligible, Optimal, CostsValid, Indexed, RaisedRecord, Raised;
    var found := Found(records, keys, task.capabilityType, false, false);
    var found' := Found(records[id := better], keys, task.capabilityType, false, false);
    StaysChosen(found, active.rules, records[id], better, found');
    RaisedEligible(records[id], better, active.rules);
    StillThere(records[id], better);
    NowDecided(records[id := better], keys, task, active, d);
  }

  /** A verified success of the decided capability that pays at least its present trust changes no decision
      for it. */
  lemma SuccessKeepsTheRoute(records: Records, keys: seq<CapabilityId>, past: map<CapabilityId, Past>, task: Task,
                             active: RoutingPolicy, d: Decision, o: Capabilities.Outcome)
    requires Indexed(records, keys) && Accounted(records, past) && active.rules.NonNegative()
    requires Decided(records, keys, task, active, d) && d.chosen.Some?
    requires o.success && records[d.chosen.value].manifest.trust <= TrustTarget(o)
    ensures var r := records[d.chosen.value];
            Decided(records[d.chosen.value := r.(manifest := Scored(r.manifest, o))], keys, task, active, d)
  {
    hide Optimal, Found, Eligible, Indexed, Accounted, Scored, TrustTarget, Policy.NonNegative;
    var id, r := d.chosen.value, records[d.chosen.value];
    SuccessRaises(records, past, id, o);
    StaysRouted(records, keys, past, task, active, d, r.(manifest := Scored(r.manifest, o)));
  }

  lemma StillThere(c: Record, better: Record)
    requires RaisedRecord(c, better)
    ensures better.status == c.status && better.manifest.capabilityType == c.manifest.capabilityType
    ensures better.manifest.id == c.manifest.id
  {}

  lemma NowDecided(records: Records, keys: seq<CapabilityId>, task: Task, active: RoutingPolicy, d: Decision)
    requires d.task == task.id && d.capabilityType == task.capabilityType && d.policy == active.id
    requires d.chosen.Some? && d.chosen.value in records && records[d.chosen.value].status == ACTIVE
    requires records[d.chosen.value].manifest.capabilityType == task.capabilityType
    requires Eligible(records[d.chosen.value], active.rules)
    requires Optimal(Found(records, keys, task.capabilityType, false, false), active.rules, records[d.chosen.value])
    ensures Decided(records, keys, task, active, d)
  {
    hide Eligible, Found, Optimal;
    OptimalIsEligible(Found(records, keys, task.capabilityType, false, false), active.rules, records[d.chosen.value]);
  }

  lemma RaisedFound(records: Records, keys: seq<CapabilityId>, capabilityType: string, id: CapabilityId, better: Record)
    requires Indexed(records, keys) && id in records && Matches(records[id], capabilityType, false, false)
    requires RaisedRecord(records[id], better)
    ensures Indexed(records[id := better], keys)
    ensures Raised(Found(records, keys, capabilityType, false, false), records[id], better,
                   Found(records[id := better], keys, capabilityType, false, false))
  {
    var now := records[id := better];
    IndexedWith(records, keys, better);
    FoundIsExact(records, keys, capabilityType, false, false);
    FoundIsExact(now, keys, capabilityType, false, false);
    hide Found, DistinctKeys;
    var found, found' := Found(records, keys, capabilityType, false, false),
                         Found(now, keys, capabilityType, false, false);
    assert better.manifest.id == id && better in found';
    forall r | r in found' ensures r == better || r in found {
      assert now[r.manifest.id] == r;
    }
    forall r | r in found && r != records[id] ensures r in found' {
      assert records[r.manifest.id] == r && r.manifest.id != id;
    }
  }
}
