/** Versioned policies: proposed, activated, superseded and rolled back, with every transition
    journaled. */
module Policies {
  import opened Schemas

  datatype PolicyStatus = PROPOSED | ACTIVE | DEPRECATED

  datatype Reason =
    | Given(text: string)
    | SupersededBy(version: int)
    | RolledBack(text: string)
    | TrialRejected(text: string)

  /** What a policy says. Routing policies deny capability names; other content is opaque. */
  datatype Payload = Denied(names: set<string>) | Content(text: string)

  /** A version as stored, and as written to the journal at each transition. */
  datatype PolicyVersion = PolicyVersion(kind: string, version: nat, payload: Payload, status: PolicyStatus,
                                         reason: Reason)

  datatype PolicyError = UnknownPolicy | NothingToRollBackTo

  /** Everything an engine keeps. */
  datatype PolicyState = PolicyState(
    versions: map<string, seq<PolicyVersion>>,
    stacks: map<string, seq<nat>>,
    journal: seq<PolicyVersion>)
  {
    function Of(kind: string): seq<PolicyVersion> {
      if kind in versions then versions[kind] else []
    }

    function Stack(kind: string): seq<nat> {
      if kind in stacks then stacks[kind] else []
    }

    predicate Has(kind: string, version: int) { 1 <= version <= |Of(kind)| }

    function At(kind: string, version: int): PolicyVersion
      requires Has(kind, version)
    {
      Of(kind)[version - 1]
    }

    /** Stores and journals a new state of one version. */
    function Put(kind: string, version: int, p: PolicyVersion): PolicyState
      requires Has(kind, version)
    {
      this.(versions := versions[kind := Of(kind)[version - 1 := p]], journal := journal + [p])
    }

    function Push(kind: string, version: nat): PolicyState {
      this.(stacks := stacks[kind := Stack(kind) + [version]])
    }
  }

  const EMPTY := PolicyState(map[], map[], [])

  // -- the transitions ---------------------------------------------------------------------

  datatype Op =
    | Propose(kind: string, payload: Payload, text: string)
    | Activate(kind: string, version: int)
    | Rollback(kind: string, text: string)
    | Trial(kind: string, version: int, improved: bool, text: string)

  function Proposal(s: PolicyState, kind: string, payload: Payload, text: string): PolicyVersion {
    PolicyVersion(kind, |s.Of(kind)| + 1, payload, PROPOSED, Given(text))
  }

  function Proposed(s: PolicyState, kind: string, payload: Payload, text: string): PolicyState {
    var p := Proposal(s, kind, payload, text);
    s.(versions := s.versions[kind := s.Of(kind) + [p]], journal := s.journal + [p])
  }

  /** The version on top of the activation stack gives way to the new one. */
  function Superseded(s: PolicyState, kind: string, version: int): PolicyState {
    var stack := s.Stack(kind);
    if stack == [] || !s.Has(kind, stack[|stack| - 1]) then s
    else
      var top := stack[|stack| - 1];
      s.Put(kind, top, s.At(kind, top).(status := DEPRECATED, reason := SupersededBy(version)))
  }

  function Activated(s: PolicyState, kind: string, version: int): PolicyState {
    if !s.Has(kind, version) || s.At(kind, version).status == ACTIVE then s
    else
      var s1 := Superseded(s, kind, version);
      s1.Put(kind, version, s1.At(kind, version).(status := ACTIVE)).Push(kind, version)
  }

  function RolledBackTo(s: PolicyState, kind: string, text: string): PolicyState {
    var stack := s.Stack(kind);
    if |stack| < 2 || !s.Has(kind, stack[|stack| - 1]) || !s.Has(kind, stack[|stack| - 2]) then s
    else
      var top, below := stack[|stack| - 1], stack[|stack| - 2];
      var s1 := s.(stacks := s.stacks[kind := stack[..|stack| - 1]]);
      var s2 := s1.Put(kind, top, s1.At(kind, top).(status := DEPRECATED, reason := RolledBack(text)));
      s2.Put(kind, below, s2.At(kind, below).(status := ACTIVE))
  }

  function Tried(s: PolicyState, kind: string, version: int, improved: bool, text: string): PolicyState {
    if improved then Activated(s, kind, version)
    else if !s.Has(kind, version) then s
    else s.Put(kind, version, s.At(kind, version).(reason := TrialRejected(text)))
  }

  function Apply(s: PolicyState, op: Op): PolicyState {
    match op
    case Propose(kind, payload, text) => Proposed(s, kind, payload, text)
    case Activate(kind, version) => Activated(s, kind, version)
    case Rollback(kind, text) => RolledBackTo(s, kind, text)
    case Trial(kind, version, improved, text) => Tried(s, kind, version, improved, text)
  }

  function ApplyAll(s: PolicyState, ops: seq<Op>): PolicyState {
    if ops == [] then s else Apply(ApplyAll(s, ops[..|ops| - 1]), ops[|ops| - 1])
  }

  // -- what every state satisfies -------------------------------------------------------------

  predicate IsTop(stack: seq<nat>, version: int) { stack != [] && stack[|stack| - 1] == version }

  /** Versions are numbered in order, and the active one, if any, is the top of the stack. */
  ghost predicate VersionsOk(kind: string, versions: seq<PolicyVersion>, stack: seq<nat>) {
    forall i :: 0 <= i < |versions| ==>
      && versions[i].kind == kind && versions[i].version == i + 1
      && (versions[i].status == ACTIVE <==> IsTop(stack, i + 1))
  }

  /** The stack names known versions and never the same one twice in a row. */
  ghost predicate StackOk(stack: seq<nat>, count: nat) {
    && (forall i :: 0 <= i < |stack| ==> 1 <= stack[i] <= count)
    && (forall i, j :: 0 <= i && j == i + 1 && j < |stack| ==> stack[i] != stack[j])
  }

  ghost predicate KindOk(s: PolicyState, kind: string) {
    VersionsOk(kind, s.Of(kind), s.Stack(kind)) && StackOk(s.Stack(kind), |s.Of(kind)|)
  }

  /** The journal's last word on a version. */
  ghost function LastWrite(journal: seq<PolicyVersion>, kind: string, version: int): Option<PolicyVersion> {
    if journal == [] then None
    else
      var last := journal[|journal| - 1];
      if last.kind == kind && last.version == version then Some(last)
      else LastWrite(journal[..|journal| - 1], kind, version)
  }

  ghost predicate ReplayedAt(s: PolicyState, kind: string, version: int) {
    LastWrite(s.journal, kind, version) == if s.Has(kind, version) then Some(s.At(kind, version)) else None
  }

  /** Folding the journal by last write gives back every version and no other. */
  ghost predicate Replays(s: PolicyState) {
    forall kind, version :: ReplayedAt(s, kind, version)
  }

  ghost predicate Valid(s: PolicyState) {
    (forall kind :: KindOk(s, kind)) && Replays(s)
  }

  lemma LastWriteAppend(journal: seq<PolicyVersion>, p: PolicyVersion, kind: string, version: int)
    ensures LastWrite(journal + [p], kind, version) ==
            if p.kind == kind && p.version == version then Some(p) else LastWrite(journal, kind, version)
  {
    assert (journal + [p])[..|journal|] == journal;
  }

  lemma PutReplays(s: PolicyState, kind: string, version: int, p: PolicyVersion)
    requires Replays(s) && s.Has(kind, version) && p.kind == kind && p.version == version
    ensures Replays(s.Put(kind, version, p))
  {
    hide LastWrite;
    forall k, v ensures ReplayedAt(s.Put(kind, version, p), k, v) {
      assert ReplayedAt(s, k, v);
      LastWriteAppend(s.journal, p, k, v);
    }
  }

  lemma ProposedValid(s: PolicyState, kind: string, payload: Payload, text: string)
    requires Valid(s)
    ensures Valid(Proposed(s, kind, payload, text))
  {
    hide Replays;
    var s' := Proposed(s, kind, payload, text);
    ProposedReplays(s, kind, payload, text);
    assert KindOk(s, kind);
    ProposedKind(kind, s.Of(kind), s.Stack(kind), Proposal(s, kind, payload, text));
    hide VersionsOk, StackOk;
    forall k ensures KindOk(s', k) { assert KindOk(s, k); }
  }

  lemma ProposedKind(kind: string, versions: seq<PolicyVersion>, stack: seq<nat>, p: PolicyVersion)
    requires VersionsOk(kind, versions, stack) && StackOk(stack, |versions|)
    requires p.kind == kind && p.version == |versions| + 1 && p.status == PROPOSED
    ensures VersionsOk(kind, versions + [p], stack) && StackOk(stack, |versions + [p]|)
  {}

  lemma ProposedReplays(s: PolicyState, kind: string, payload: Payload, text: string)
    requires Replays(s)
    ensures Replays(Proposed(s, kind, payload, text))
  {
    hide LastWrite;
    var s', p := Proposed(s, kind, payload, text), Proposal(s, kind, payload, text);
    forall k, v ensures ReplayedAt(s', k, v) {
      assert ReplayedAt(s, k, v);
      LastWriteAppend(s.journal, p, k, v);
      if s'.Has(k, v) && (k != kind || v != |s.Of(kind)| + 1) { assert s'.At(k, v) == s.At(k, v); }
    }
  }

  lemma SupersededReplays(s: PolicyState, kind: string, version: int)
    requires Valid(s)
    ensures Replays(Superseded(s, kind, version))
    ensures |Superseded(s, kind, version).Of(kind)| == |s.Of(kind)| && Superseded(s, kind, version).stacks == s.stacks
    ensures forall k :: k != kind ==> Superseded(s, kind, version).Of(k) == s.Of(k)
    ensures forall i :: 0 <= i < |s.Of(kind)| ==>
              var p, p' := s.Of(kind)[i], Superseded(s, kind, version).Of(kind)[i];
              && p'.kind == kind && p'.version == i + 1 && p'.payload == p.payload && p'.status != ACTIVE
              && (p.status != ACTIVE ==> p' == p)
  {
    hide Replays;
    assert KindOk(s, kind);
    var stack := s.Stack(kind);
    if stack != [] {
      var top := stack[|stack| - 1];
      assert 1 <= top <= |s.Of(kind)|;
      PutReplays(s, kind, top, s.At(kind, top).(status := DEPRECATED, reason := SupersededBy(version)));
    }
  }

  /** One kind's versions and stack across an activation, its superseded version already marked. */
  lemma ActivatedKind(kind: string, marked: seq<PolicyVersion>, stack: seq<nat>, version: int, p: PolicyVersion)
    requires StackOk(stack, |marked|) && 1 <= version <= |marked| && !IsTop(stack, version)
    requires forall i :: 0 <= i < |marked| ==>
               marked[i].kind == kind && marked[i].version == i + 1 && marked[i].status != ACTIVE
    requires p == marked[version - 1].(status := ACTIVE)
    ensures VersionsOk(kind, marked[version - 1 := p], stack + [version])
    ensures StackOk(stack + [version], |marked[version - 1 := p]|)
  {}

  lemma ActivatedValid(s: PolicyState, kind: string, version: int)
    requires Valid(s)
    ensures Valid(Activated(s, kind, version))
    ensures Activated(s, kind, version).Stack(kind) ==
            if s.Has(kind, version) && s.At(kind, version).status != ACTIVE then s.Stack(kind) + [version]
            else s.Stack(kind)
  {
    hide LastWrite, Superseded, ReplayedAt;
    if s.Has(kind, version) && s.At(kind, version).status != ACTIVE {
      assert KindOk(s, kind);
      SupersededReplays(s, kind, version);
      var s1 := Superseded(s, kind, version);
      var p := s1.At(kind, version).(status := ACTIVE);
      PutReplays(s1, kind, version, p);
      var s' := Activated(s, kind, version);
      assert s' == s1.Put(kind, version, p).Push(kind, version);
      SameReplay(s1.Put(kind, version, p), s');
      assert !IsTop(s.Stack(kind), version);
      ActivatedKind(kind, s1.Of(kind), s.Stack(kind), version, p);
      hide VersionsOk, StackOk, Replays;
      forall k ensures KindOk(s', k) { assert KindOk(s, k); }
    }
  }

  /** Replaying looks only at versions and journal. */
  lemma SameReplay(s: PolicyState, s': PolicyState)
    requires Replays(s) && s'.versions == s.versions && s'.journal == s.journal
    ensures Replays(s')
  {
    hide LastWrite;
    forall kind, version ensures ReplayedAt(s', kind, version) { assert ReplayedAt(s, kind, version); }
  }

  /** One kind's versions and stack across a rollback. */
  lemma RolledKind(kind: string, versions: seq<PolicyVersion>, stack: seq<nat>, p: PolicyVersion, q: PolicyVersion)
    requires VersionsOk(kind, versions, stack) && StackOk(stack, |versions|) && |stack| >= 2
    requires p == versions[stack[|stack| - 1] - 1].(status := DEPRECATED, reason := p.reason)
    requires q == versions[stack[|stack| - 2] - 1].(status := ACTIVE)
    ensures var after := versions[stack[|stack| - 1] - 1 := p][stack[|stack| - 2] - 1 := q];
            VersionsOk(kind, after, stack[..|stack| - 1]) && StackOk(stack[..|stack| - 1], |after|)
  {}

  lemma RolledBackReplays(s: PolicyState, kind: string, text: string)
    requires KindOk(s, kind) && Replays(s)
    ensures Replays(RolledBackTo(s, kind, text))
  {
    hide LastWrite, Replays;
    var stack := s.Stack(kind);
    if |stack| >= 2 {
      var top, below := stack[|stack| - 1], stack[|stack| - 2];
      assert 1 <= top <= |s.Of(kind)| && 1 <= below <= |s.Of(kind)| && top != below;
      var s1 := s.(stacks := s.stacks[kind := stack[..|stack| - 1]]);
      SameReplay(s, s1);
      var p := s.At(kind, top).(status := DEPRECATED, reason := RolledBack(text));
      PutReplays(s1, kind, top, p);
      PutReplays(s1.Put(kind, top, p), kind, below, s.At(kind, below).(status := ACTIVE));
    }
  }

  lemma TopIsKnown(s: PolicyState, kind: string)
    requires KindOk(s, kind)
    ensures s.Stack(kind) != [] ==> s.Has(kind, s.Stack(kind)[|s.Stack(kind)| - 1])
  {}

  lemma KindOfValid(s: PolicyState, kind: string)
    requires Valid(s)
    ensures KindOk(s, kind)
  {}

  /** Only this kind's versions and stack change. */
  lemma RolledBackShape(s: PolicyState, kind: string, text: string)
    requires KindOk(s, kind)
    ensures var s', stack, versions := RolledBackTo(s, kind, text), s.Stack(kind), s.Of(kind);
            && (forall k :: k != kind ==> s'.Of(k) == s.Of(k) && s'.Stack(k) == s.Stack(k))
            && (|stack| < 2 ==> s' == s)
            && (|stack| >= 2 ==>
                  && 1 <= stack[|stack| - 1] <= |versions| && 1 <= stack[|stack| - 2] <= |versions|
                  && s'.Stack(kind) == stack[..|stack| - 1]
                  && var top, below := stack[|stack| - 1] - 1, stack[|stack| - 2] - 1;
                     s'.Of(kind) == versions[top := versions[top].(status := DEPRECATED, reason := RolledBack(text))]
                                            [below := versions[below].(status := ACTIVE)])
  {
    hide VersionsOk;
    var stack := s.Stack(kind);
    if |stack| >= 2 { assert stack[|stack| - 1] != stack[|stack| - 2]; }
  }

  lemma RolledBackValid(s: PolicyState, kind: string, text: string)
    requires Valid(s)
    ensures Valid(RolledBackTo(s, kind, text))
    ensures RolledBackTo(s, kind, text).Stack(kind) ==
            if |s.Stack(kind)| >= 2 then s.Stack(kind)[..|s.Stack(kind)| - 1] else s.Stack(kind)
  {
    hide Replays, RolledBackTo, VersionsOk, StackOk;
    assert KindOk(s, kind);
    RolledBackReplays(s, kind, text);
    RolledBackShape(s, kind, text);
    var stack, versions := s.Stack(kind), s.Of(kind);
    if |stack| >= 2 {
      RolledKind(kind, versions, stack,
                 versions[stack[|stack| - 1] - 1].(status := DEPRECATED, reason := RolledBack(text)),
                 versions[stack[|stack| - 2] - 1].(status := ACTIVE));
      forall k ensures KindOk(RolledBackTo(s, kind, text), k) { assert KindOk(s, k); }
    }
  }

  lemma TriedValid(s: PolicyState, kind: string, version: int, improved: bool, text: string)
    requires Valid(s)
    ensures Valid(Tried(s, kind, version, improved, text))
  {
    hide LastWrite, ReplayedAt;
    if improved {
      ActivatedValid(s, kind, version);
    } else if s.Has(kind, version) {
      assert KindOk(s, kind);
      var p := s.At(kind, version).(reason := TrialRejected(text));
      PutReplays(s, kind, version, p);
      forall k ensures KindOk(s.Put(kind, version, p), k) { assert KindOk(s, k); }
    }
  }

  lemma ApplyValid(s: PolicyState, op: Op)
    requires Valid(s)
    ensures Valid(Apply(s, op))
  {
    hide Valid, Proposed, Activated, RolledBackTo, Tried;
    match op
    case Propose(kind, payload, text) => ProposedValid(s, kind, payload, text);
    case Activate(kind, version) => ActivatedValid(s, kind, version);
    case Rollback(kind, text) => RolledBackValid(s, kind, text);
    case Trial(kind, version, improved, text) => TriedValid(s, kind, version, improved, text);
  }

  lemma EmptyValid()
    ensures Valid(EMPTY)
  {}

  /** In every reachable state each kind has at most one active version, the top of a stack whose
      neighbours differ, and the journal replays to exactly the versions there are. */
  lemma {:induction false} EveryStateIsValid(ops: seq<Op>)
    ensures Valid(ApplyAll(EMPTY, ops))
    decreases |ops|
  {
    hide Valid;
    if ops == [] { EmptyValid(); }
    else {
      EveryStateIsValid(ops[..|ops| - 1]);
      ApplyValid(ApplyAll(EMPTY, ops[..|ops| - 1]), ops[|ops| - 1]);
    }
  }

  ghost predicate ActiveAt(s: PolicyState, kind: string, version: int) {
    s.Has(kind, version) && s.At(kind, version).status == ACTIVE
  }

  lemma AtMostOneActive(s: PolicyState, kind: string, v: int, w: int)
    requires Valid(s) && ActiveAt(s, kind, v) && ActiveAt(s, kind, w)
    ensures v == w && IsTop(s.Stack(kind), v)
  {
    assert KindOk(s, kind);
  }

  // -- what each transition changes ------------------------------------------------------------------

  /** Nothing of any other kind changed. */
  ghost predicate OnlyKind(s: PolicyState, s': PolicyState, kind: string) {
    forall k :: k != kind ==> s'.Of(k) == s.Of(k) && s'.Stack(k) == s.Stack(k)
  }

  /** A proposal is the next version of its kind, and journaled; the stack and all others stay. */
  lemma ProposedSays(s: PolicyState, kind: string, payload: Payload, text: string)
    ensures var (s', p) := (Proposed(s, kind, payload, text),
                            PolicyVersion(kind, |s.Of(kind)| + 1, payload, PROPOSED, Given(text)));
            && OnlyKind(s, s', kind) && s'.Stack(kind) == s.Stack(kind)
            && s'.Of(kind) == s.Of(kind) + [p] && s'.journal == s.journal + [p]
  {}

  /** Activating a version that is known and not active makes it active and pushes it; the one that was
      active is deprecated as superseded by it; both are journaled, in the opposite order, and no other
      version changes. */
  lemma ActivatedSays(s: PolicyState, kind: string, version: int)
    requires Valid(s)
    ensures !s.Has(kind, version) || s.At(kind, version).status == ACTIVE ==> Activated(s, kind, version) == s
    ensures s.Has(kind, version) && s.At(kind, version).status != ACTIVE ==>
              var s' := Activated(s, kind, version);
              && OnlyKind(s, s', kind) && s'.Stack(kind) == s.Stack(kind) + [version]
              && |s'.Of(kind)| == |s.Of(kind)|
              && (forall v :: s.Has(kind, v) ==>
                    s'.At(kind, v) == if v == version then s.At(kind, v).(status := ACTIVE)
                                      else if s.At(kind, v).status == ACTIVE
                                      then s.At(kind, v).(status := DEPRECATED, reason := SupersededBy(version))
                                      else s.At(kind, v))
              && (s.Stack(kind) != [] ==> s'.Has(kind, s.Stack(kind)[|s.Stack(kind)| - 1]))
              && s'.journal == s.journal
                               + (if s.Stack(kind) == [] then []
                                  else [s'.At(kind, s.Stack(kind)[|s.Stack(kind)| - 1])])
                               + [s'.At(kind, version)]
  {
    hide Replays;
    KindOfValid(s, kind);
    TopIsKnown(s, kind);
    hide Valid;
    if s.Has(kind, version) && s.At(kind, version).status != ACTIVE {
      var stack := s.Stack(kind);
      if stack != [] { assert stack[|stack| - 1] != version; }
      assert s.journal + [] == s.journal;
    }
  }

  /** Rolling back deprecates the version on top of the stack, for the reason given, takes it off, and makes
      the one below active again; both are journaled and no other version changes. */
  lemma RolledBackSays(s: PolicyState, kind: string, text: string)
    requires Valid(s)
    ensures |s.Stack(kind)| < 2 ==> RolledBackTo(s, kind, text) == s
    ensures |s.Stack(kind)| >= 2 ==>
              var (s', n) := (RolledBackTo(s, kind, text), |s.Stack(kind)|);
              var (top, below) := (s.Stack(kind)[n - 1], s.Stack(kind)[n - 2]);
              && s.Has(kind, top) && s.Has(kind, below) && top != below
              && OnlyKind(s, s', kind) && s'.Stack(kind) == s.Stack(kind)[..n - 1]
              && |s'.Of(kind)| == |s.Of(kind)|
              && (forall v :: s.Has(kind, v) ==>
                    s'.At(kind, v) == if v == top then s.At(kind, v).(status := DEPRECATED, reason := RolledBack(text))
                                      else if v == below then s.At(kind, v).(status := ACTIVE)
                                      else s.At(kind, v))
              && s'.journal == s.journal + [s'.At(kind, top)] + [s'.At(kind, below)]
  {
    hide Replays, VersionsOk;
    KindOfValid(s, kind);
    hide Valid;
    RolledBackShape(s, kind, text);
    var stack := s.Stack(kind);
    if |stack| >= 2 { assert stack[|stack| - 1] != stack[|stack| - 2]; }
  }

  /** A trial that shows an improvement activates; any other only notes on the version that it was
      rejected, and why, and journals it. */
  lemma TriedSays(s: PolicyState, kind: string, version: int, improved: bool, text: string)
    ensures improved ==> Tried(s, kind, version, improved, text) == Activated(s, kind, version)
    ensures !improved && !s.Has(kind, version) ==> Tried(s, kind, version, improved, text) == s
    ensures !improved && s.Has(kind, version) ==>
              var (s', p) := (Tried(s, kind, version, improved, text),
                              s.At(kind, version).(reason := TrialRejected(text)));
              && OnlyKind(s, s', kind) && s'.Stack(kind) == s.Stack(kind)
              && s'.Of(kind) == s.Of(kind)[version - 1 := p] && s'.journal == s.journal + [p]
  {
    hide Activated;
  }

  // -- histories only grow -----------------------------------------------------------------------

  /** Versions keep their number and payload for ever. */
  ghost predicate Extends(s: PolicyState, s': PolicyState) {
    && s.journal <= s'.journal
    && forall kind, v :: s.Has(kind, v) ==> s'.Has(kind, v) && s'.At(kind, v).payload == s.At(kind, v).payload
  }

  lemma PutExtends(s: PolicyState, kind: string, version: int, p: PolicyVersion)
    requires s.Has(kind, version) && p.payload == s.At(kind, version).payload
    ensures Extends(s, s.Put(kind, version, p))
  {}

  lemma ExtendsTransitive(s: PolicyState, s1: PolicyState, s2: PolicyState)
    requires Extends(s, s1) && Extends(s1, s2)
    ensures Extends(s, s2)
  {}

  lemma SupersededExtends(s: PolicyState, kind: string, version: int)
    ensures Extends(s, Superseded(s, kind, version))
    ensures forall v :: s.Has(kind, v) ==> Superseded(s, kind, version).Has(kind, v)
  {
    var stack := s.Stack(kind);
    if stack != [] && s.Has(kind, stack[|stack| - 1]) {
      var top := stack[|stack| - 1];
      PutExtends(s, kind, top, s.At(kind, top).(status := DEPRECATED, reason := SupersededBy(version)));
    }
  }

  lemma ActivatedExtends(s: PolicyState, kind: string, version: int)
    ensures Extends(s, Activated(s, kind, version))
  {
    if s.Has(kind, version) && s.At(kind, version).status != ACTIVE {
      SupersededExtends(s, kind, version);
      var s1 := Superseded(s, kind, version);
      hide Superseded;
      var s2 := s1.Put(kind, version, s1.At(kind, version).(status := ACTIVE));
      PutExtends(s1, kind, version, s1.At(kind, version).(status := ACTIVE));
      ExtendsTransitive(s, s1, s2);
    }
  }

  lemma RolledBackExtends(s: PolicyState, kind: string, text: string)
    ensures Extends(s, RolledBackTo(s, kind, text))
  {
    var stack := s.Stack(kind);
    if |stack| >= 2 && s.Has(kind, stack[|stack| - 1]) && s.Has(kind, stack[|stack| - 2]) {
      var top, below := stack[|stack| - 1], stack[|stack| - 2];
      var s1 := s.(stacks := s.stacks[kind := stack[..|stack| - 1]]);
      var p := s1.At(kind, top).(status := DEPRECATED, reason := RolledBack(text));
      PutExtends(s1, kind, top, p);
      var s2 := s1.Put(kind, top, p);
      assert Extends(s, s1);
      hide Extends;
      ExtendsTransitive(s, s1, s2);
      PutExtends(s2, kind, below, s2.At(kind, below).(status := ACTIVE));
      ExtendsTransitive(s, s2, RolledBackTo(s, kind, text));
    }
  }

  lemma ApplyExtends(s: PolicyState, op: Op)
    ensures Extends(s, Apply(s, op))
  {
    hide Activated, RolledBackTo;
    match op
    case Propose(kind, payload, text) =>
    case Activate(kind, version) => ActivatedExtends(s, kind, version);
    case Rollback(kind, text) => RolledBackExtends(s, kind, text);
    case Trial(kind, version, improved, text) =>
      if improved { ActivatedExtends(s, kind, version); }
      else if s.Has(kind, version) {
        PutExtends(s, kind, version, s.At(kind, version).(reason := TrialRejected(text)));
      }
  }

  lemma {:induction false} PayloadsNeverChange(s: PolicyState, ops: seq<Op>)
    requires Valid(s)
    ensures var s' := ApplyAll(s, ops);
            && Valid(s') && s.journal <= s'.journal
            && forall kind, v :: s.Has(kind, v) ==>
                 s'.Has(kind, v) && s'.At(kind, v).payload == s.At(kind, v).payload
    decreases |ops|
  {
    if ops != [] {
      PayloadsNeverChange(s, ops[..|ops| - 1]);
      var s1 := ApplyAll(s, ops[..|ops| - 1]);
      ApplyValid(s1, ops[|ops| - 1]);
      ApplyExtends(s1, ops[|ops| - 1]);
      hide Valid;
    }
  }

  // -- rolling back ---------------------------------------------------------------------------------

  /** One operation pushes, pops or leaves each stack. */
  lemma StackStep(s: PolicyState, op: Op, kind: string)
    requires Valid(s)
    ensures var before, after := s.Stack(kind), Apply(s, op).Stack(kind);
            || after == before
            || (op.kind == kind && |after| == |before| + 1 && after[..|before|] == before)
            || (op.kind == kind && |before| >= 2 && after == before[..|before| - 1])
  {
    hide Replays;
    match op
    case Propose(k, payload, text) =>
    case Activate(k, version) => ActivatedValid(s, k, version);
    case Rollback(k, text) => RolledBackValid(s, k, text);
    case Trial(k, version, improved, text) => if improved { ActivatedValid(s, k, version); }
  }

  /** Along the way the stack never had fewer than `depth` entries. */
  ghost predicate NeverBelow(s: PolicyState, ops: seq<Op>, kind: string, depth: nat) {
    forall i :: 0 <= i <= |ops| ==> |ApplyAll(s, ops[..i]).Stack(kind)| >= depth
  }

  lemma {:induction false} FloorIsKept(s: PolicyState, ops: seq<Op>, kind: string, depth: nat)
    requires Valid(s) && NeverBelow(s, ops, kind, depth)
    ensures |s.Stack(kind)| >= depth && |ApplyAll(s, ops).Stack(kind)| >= depth
    ensures Valid(ApplyAll(s, ops)) && ApplyAll(s, ops).Stack(kind)[..depth] == s.Stack(kind)[..depth]
    decreases |ops|
  {
    hide Valid, Apply;
    assert ops[..|ops|] == ops && ops[..0] == [];
    assert |ApplyAll(s, ops[..|ops|]).Stack(kind)| >= depth && |ApplyAll(s, ops[..0]).Stack(kind)| >= depth;
    if ops != [] {
      var init := ops[..|ops| - 1];
      forall i | 0 <= i <= |init| ensures |ApplyAll(s, init[..i]).Stack(kind)| >= depth {
        assert init[..i] == ops[..i];
      }
      FloorIsKept(s, init, kind, depth);
      StackStep(ApplyAll(s, init), ops[|ops| - 1], kind);
      ApplyValid(ApplyAll(s, init), ops[|ops| - 1]);
    }
  }

  /** Whatever happened in between, a stack that never fell below where it was and is back there
      has the same version active, with the same payload. */
  lemma BalancedRestoresActive(s: PolicyState, ops: seq<Op>, kind: string, v: int)
    requires Valid(s) && NeverBelow(s, ops, kind, |s.Stack(kind)|)
    requires |ApplyAll(s, ops).Stack(kind)| == |s.Stack(kind)|
    requires ActiveAt(s, kind, v)
    ensures ActiveAt(ApplyAll(s, ops), kind, v) && ApplyAll(s, ops).At(kind, v).payload == s.At(kind, v).payload
  {
    FloorIsKept(s, ops, kind, |s.Stack(kind)|);
    PayloadsNeverChange(s, ops);
    var s' := ApplyAll(s, ops);
    assert s'.Stack(kind) == s.Stack(kind);
    hide Replays, ApplyAll;
    assert KindOk(s, kind) && KindOk(s', kind);
    assert IsTop(s.Stack(kind), v);
    assert s'.Of(kind)[v - 1].status == ACTIVE;
  }

  /** Rollbacks alone: each takes one entry off while two are left. */
  lemma {:induction false} RollbacksPop(s: PolicyState, downs: seq<Op>, kind: string)
    requires Valid(s) && forall i :: 0 <= i < |downs| ==> downs[i].Rollback? && downs[i].kind == kind
    requires |s.Stack(kind)| > |downs|
    ensures Valid(ApplyAll(s, downs))
    ensures ApplyAll(s, downs).Stack(kind) == s.Stack(kind)[..|s.Stack(kind)| - |downs|]
    decreases |downs|
  {
    hide Valid, RolledBackTo;
    if downs != [] {
      var init := downs[..|downs| - 1];
      RollbacksPop(s, init, kind);
      RolledBackValid(ApplyAll(s, init), kind, downs[|downs| - 1].text);
    }
  }

  /** k activations that each took effect, then k rollbacks: the version active before is active
      again. */
  lemma RollbacksUndoActivations(s: PolicyState, ups: seq<Op>, downs: seq<Op>, kind: string, v: int)
    requires Valid(s) && ActiveAt(s, kind, v) && |ups| == |downs|
    requires NeverBelow(s, ups, kind, |s.Stack(kind)|)
    requires |ApplyAll(s, ups).Stack(kind)| == |s.Stack(kind)| + |ups|
    requires forall i :: 0 <= i < |downs| ==> downs[i].Rollback? && downs[i].kind == kind
    ensures var s' := ApplyAll(ApplyAll(s, ups), downs);
            ActiveAt(s', kind, v) && s'.Stack(kind) == s.Stack(kind)
  {
    ActiveHasStack(s, kind, v);
    hide Valid, ApplyAll;
    FloorIsKept(s, ups, kind, |s.Stack(kind)|);
    RollbacksPop(ApplyAll(s, ups), downs, kind);
    var s' := ApplyAll(ApplyAll(s, ups), downs);
    assert s'.Stack(kind) == ApplyAll(s, ups).Stack(kind)[..|s.Stack(kind)|];
    TopIsActive(s', kind);
  }

  lemma ActiveHasStack(s: PolicyState, kind: string, v: int)
    requires Valid(s) && ActiveAt(s, kind, v)
    ensures IsTop(s.Stack(kind), v)
  {
    assert KindOk(s, kind);
  }

  lemma TopIsActive(s: PolicyState, kind: string)
    requires Valid(s)
    ensures forall v :: IsTop(s.Stack(kind), v) ==> ActiveAt(s, kind, v)
  {
    assert KindOk(s, kind);
    forall v | IsTop(s.Stack(kind), v) ensures ActiveAt(s, kind, v) {
      assert s.Stack(kind)[|s.Stack(kind)| - 1] == v;
    }
  }

  // -- the engine ------------------------------------------------------------------------------------

  class PolicyEngine {
    var versions: map<string, seq<PolicyVersion>>
    var activationStack: map<string, seq<nat>>
    var journal: seq<PolicyVersion>  // what the sink received

    ghost function State(): PolicyState
      reads this
    {
      PolicyState(versions, activationStack, journal)
    }

    constructor ()
      ensures State() == EMPTY && Valid(State())
    {
      versions, activationStack, journal := map[], map[], [];
      new;
      EmptyValid();
    }

    function VersionsOf(kind: string): seq<PolicyVersion>
      reads this
    {
      if kind in versions then versions[kind] else []
    }

    method Proposing(kind: string, payload: Payload, text: string) returns (policy: PolicyVersion)
      requires Valid(State())
      modifies this
      ensures Valid(State()) && State() == Apply(old(State()), Propose(kind, payload, text))
      ensures policy == Proposal(old(State()), kind, payload, text)
    {
      ProposedValid(State(), kind, payload, text);
      hide Valid;
      policy := PolicyVersion(kind, |VersionsOf(kind)| + 1, payload, PROPOSED, Given(text));
      versions := versions[kind := VersionsOf(kind) + [policy]];
      journal := journal + [policy];
    }

    /** The first version whose number matches. */
    method Require(kind: string, version: int) returns (found: Option<nat>)
      requires Valid(State())
      ensures found == if State().Has(kind, version) then Some((version - 1) as nat) else None
    {
      assert KindOk(State(), kind);
      var all := VersionsOf(kind);
      for i := 0 to |all|
        invariant version < 1 || version > i
      {
        if all[i].version == version { return Some(i); }
      }
      found := None;
    }

    /** The first active version, if any. */
    method ActiveIndex(kind: string) returns (found: Option<nat>)
      requires Valid(State())
      ensures found.Some? ==> found.value < |VersionsOf(kind)| && ActiveAt(State(), kind, found.value + 1)
      ensures found.None? ==> forall v :: !ActiveAt(State(), kind, v)
      ensures found.None? <==> State().Stack(kind) == []
      ensures found.Some? ==> IsTop(State().Stack(kind), found.value + 1)
    {
      assert KindOk(State(), kind);
      TopIsActive(State(), kind);
      var all := VersionsOf(kind);
      for i := 0 to |all|
        invariant forall j :: 0 <= j < i ==> all[j].status != ACTIVE
      {
        if all[i].status == ACTIVE { return Some(i); }
      }
      assert State().Stack(kind) != [] ==> IsTop(State().Stack(kind), State().Stack(kind)[|State().Stack(kind)| - 1]);
      found := None;
    }

    /** Writes one version back and journals it. */
    method Store(kind: string, i: nat, policy: PolicyVersion)
      requires i < |VersionsOf(kind)|
      modifies this`versions, this`journal
      ensures State() == old(State()).Put(kind, i + 1, policy)
    {
      versions := versions[kind := VersionsOf(kind)[i := policy]];
      journal := journal + [policy];
    }

    /** The active version, if any, gives way. */
    method Supersede(kind: string, version: int)
      requires Valid(State())
      modifies this`versions, this`journal
      ensures State() == Superseded(old(State()), kind, version)
    {
      hide Valid, KindOk, Replays;
      KindOfValid(State(), kind);
      TopIsKnown(State(), kind);
      var current := ActiveIndex(kind);
      if current.Some? {
        Store(kind, current.value,
              VersionsOf(kind)[current.value].(status := DEPRECATED, reason := SupersededBy(version)));
      }
    }

    method Activating(kind: string, version: int) returns (err: Option<PolicyError>)
      requires Valid(State())
      modifies this
      ensures Valid(State()) && State() == Apply(old(State()), Activate(kind, version))
      ensures err == if old(State()).Has(kind, version) then None else Some(UnknownPolicy)
    {
      hide Valid, KindOk, Replays, VersionsOk, StackOk;
      ghost var s := State();
      ActivatedValid(s, kind, version);
      SupersededReplays(s, kind, version);
      var i := Require(kind, version);
      if i.None? { return Some(UnknownPolicy); }
      if VersionsOf(kind)[i.value].status == ACTIVE { return None; }
      hide Superseded;
      Supersede(kind, version);
      Store(kind, i.value, VersionsOf(kind)[i.value].(status := ACTIVE));
      var stack := if kind in activationStack then activationStack[kind] else [];
      activationStack := activationStack[kind := stack + [i.value + 1]];
      err := None;
    }

    method RollingBack(kind: string, text: string) returns (err: Option<PolicyError>)
      requires Valid(State())
      modifies this
      ensures Valid(State()) && State() == Apply(old(State()), Rollback(kind, text))
      ensures err == if |old(State()).Stack(kind)| < 2 then Some(NothingToRollBackTo) else None
    {
      hide Valid, KindOk, Replays, VersionsOk, StackOk;
      ghost var s := State();
      RolledBackValid(s, kind, text);
      KindOfValid(s, kind);
      RolledBackShape(s, kind, text);
      var stack := if kind in activationStack then activationStack[kind] else [];
      if |stack| < 2 { return Some(NothingToRollBackTo); }
      var top, below := stack[|stack| - 1], stack[|stack| - 2];
      activationStack := activationStack[kind := stack[..|stack| - 1]];
      Store(kind, top - 1, VersionsOf(kind)[top - 1].(status := DEPRECATED, reason := RolledBack(text)));
      Store(kind, below - 1, VersionsOf(kind)[below - 1].(status := ACTIVE));
      err := None;
    }

    /** Activation gated by an experiment's verdict. */
    method ActivateIfImproved(kind: string, version: int, improved: bool, rationale: string)
      returns (err: Option<PolicyError>, activated: bool)
      requires Valid(State())
      modifies this
      ensures Valid(State()) && State() == Apply(old(State()), Trial(kind, version, improved, rationale))
      ensures err == if old(State()).Has(kind, version) then None else Some(UnknownPolicy)
      ensures activated <==> improved && err.None?
    {
      if improved {
        err := Activating(kind, version);
        return err, err.None?;
      }
      TriedValid(State(), kind, version, improved, rationale);
      assert KindOk(State(), kind);
      hide Valid, KindOk, Replays;
      var i := Require(kind, version);
      if i.None? { return Some(UnknownPolicy), false; }
      Store(kind, i.value, VersionsOf(kind)[i.value].(reason := TrialRejected(rationale)));
      return None, false;
    }
  }
}
