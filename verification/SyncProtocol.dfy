/** The versioned sync protocol between one proxy node and the center.

    The center is the sequence of all its versions; edits on either side may fall
    between any two steps of a sync round. One step is: an edit together with its
    mark; export, merge and apply; the check and the clearing of the dirty flag. */
module SyncProtocol {
  import opened SyncMerge

  datatype Action = Skip | Pending | Merge | Pull

  function SyncAction(remote: int, lastGood: nat, dirty: bool, manual: bool, force: bool): Action {
    if remote == lastGood then Skip
    else if !force && manual then Pending
    else if dirty then Merge
    else Pull
  }

  datatype Envelope = Envelope(version: nat, defs: Definitions)

  /** Where the round that holds the sync lock stands. */
  datatype Phase =
    | Idle
    | Versioned(remote: nat, force: bool)
    | Decided(action: Action)
    | Pulled(action: Action, env: Envelope)
    | Merging(env: Envelope, gen: nat)
    | Merged(gen: nat, prevGood: nat, adds: bool)
    | Pushing(gen: nat, prevGood: nat)
    | Pushed(gen: nat)

  datatype State = State(
    local: Definitions, center: seq<Definitions>, lastGood: nat, dirty: bool, gen: nat,
    manual: bool, applied: bool, phase: Phase)
  {
    /** The current center version. */
    function Current(): int { |center| - 1 }
  }

  datatype Step =
    | LocalEdit(defs: Definitions)
    | CenterEdit(defs: Definitions)
    | SetManual(manual: bool)
    | Restart
    | PullVersion(force: bool)
    | Decide
    | PullBundle
    | Abort
    | ApplyPull
    | BeginMerge
    | ApplyMerge(adds: bool)
    | FinishMerge(writable: bool)
    | PushOk(defs: Definitions)
    | PushFail(garbage: seq<Definitions>, rewound: bool)
    | ClearAfterPush

  predicate Init(s: State) {
    |s.center| >= 1 && s.lastGood == 0 && !s.dirty && !s.applied && s.phase == Idle
  }

  /** The check and the clearing of the flag. */
  function ClearIfUnchanged(s: State, gen: nat): State {
    if s.gen == gen then s.(dirty := false) else s
  }

  predicate Enabled(s: State, e: Step) {
    match e
    case LocalEdit(_) => true
    case CenterEdit(_) => true
    case SetManual(_) => true
    case Restart => true
    case PullVersion(_) => s.phase == Idle && |s.center| >= 1
    case Decide => s.phase.Versioned?
    case PullBundle => s.phase.Decided? && |s.center| >= 1
    case Abort => s.phase.Decided? || s.phase.Pulled? || s.phase.Merging?
    case ApplyPull => s.phase.Pulled? && s.phase.action == Pull
    case BeginMerge => s.phase.Pulled? && s.phase.action == Merge
    // adds may also be due to bindings, which this state leaves out
    case ApplyMerge(adds) => s.phase.Merging? && (Override(s.phase.env.defs, s.local) != s.phase.env.defs ==> adds)
    case FinishMerge(_) => s.phase.Merged?
    // what is pushed is read table by table; an edit meanwhile bumps the generation
    case PushOk(defs) => s.phase.Pushing? && (s.gen == s.phase.gen ==> defs == s.local)
    case PushFail(_, _) => s.phase.Pushing?
    case ClearAfterPush => s.phase.Pushed?
  }

  function After(s: State, e: Step): State
    requires Enabled(s, e)
  {
    match e
    case LocalEdit(defs) => s.(local := defs, dirty := true, gen := s.gen + 1)
    case CenterEdit(defs) => s.(center := s.center + [defs])
    case SetManual(manual) => s.(manual := manual)
    case Restart => s.(phase := Idle, gen := 0)
    case PullVersion(force) => s.(phase := Versioned(s.Current(), force))
    case Decide =>
      var action := SyncAction(s.phase.remote, s.lastGood, s.dirty, s.manual, s.phase.force);
      s.(phase := if action == Skip || action == Pending then Idle else Decided(action))
    case PullBundle =>
      s.(phase := if s.Current() == s.lastGood then Idle
                  else Pulled(s.phase.action, Envelope(s.Current(), s.center[s.Current()])))
    case Abort => s.(phase := Idle)
    case ApplyPull => s.(local := s.phase.env.defs, lastGood := s.phase.env.version, applied := true, phase := Idle)
    case BeginMerge => s.(phase := Merging(s.phase.env, s.gen))
    case ApplyMerge(adds) =>
      s.(local := Override(s.phase.env.defs, s.local), lastGood := s.phase.env.version, applied := true,
         phase := Merged(s.phase.gen, s.lastGood, adds))
    case FinishMerge(writable) =>
      if !s.phase.adds then ClearIfUnchanged(s, s.phase.gen).(phase := Idle)
      else if !writable then s.(phase := Idle)
      else s.(phase := Pushing(s.phase.gen, s.phase.prevGood))
    case PushOk(defs) => s.(center := s.center + [defs], phase := Pushed(s.phase.gen))
    case PushFail(garbage, rewound) =>
      s.(center := s.center + garbage, lastGood := if rewound then s.phase.prevGood else s.lastGood, phase := Idle)
    case ClearAfterPush =>
      if s.gen == s.phase.gen then ClearIfUnchanged(s, s.phase.gen).(phase := Decided(Pull)) else s.(phase := Idle)
  }

  ghost predicate Next(s: State, s': State) {
    exists e :: Enabled(s, e) && s' == After(s, e)
  }

  /** `run` is a finite run of the protocol. */
  ghost predicate Run(run: seq<State>) {
    && run != []
    && Init(run[0])
    && forall i :: 0 < i < |run| ==> Next(run[i - 1], run[i])
  }

  ghost predicate Reachable(s: State) {
    exists run :: Run(run) && run[|run| - 1] == s
  }

  // ---------- Invariant ----------

  /** Local definitions are some center version from `lastGood` to the current one. */
  ghost predicate AtCenterVersion(s: State) {
    exists v :: s.lastGood <= v <= s.Current() && s.center[v] == s.local
  }

  predicate Genuine(s: State, env: Envelope) {
    s.lastGood < env.version <= s.Current() && s.center[env.version] == env.defs
  }

  ghost predicate PhaseInv(s: State) {
    match s.phase
    case Idle => true
    case Versioned(remote, _) => s.lastGood <= remote <= s.Current()
    case Decided(action) => s.lastGood < s.Current() && (action == Merge ==> s.dirty)
    case Pulled(action, env) => Genuine(s, env) && (action == Merge ==> s.dirty)
    case Merging(env, gen) => Genuine(s, env) && s.dirty && gen <= s.gen
    case Merged(gen, prevGood, adds) =>
      && s.applied && s.dirty && gen <= s.gen && prevGood < s.lastGood
      && (!adds && s.gen == gen ==> AtCenterVersion(s))
    case Pushing(gen, prevGood) => s.applied && s.dirty && gen <= s.gen && prevGood < s.lastGood
    case Pushed(gen) =>
      && s.applied && s.dirty && gen <= s.gen && s.lastGood < s.Current()
      && (s.gen == gen ==> AtCenterVersion(s))
  }

  ghost predicate Inv(s: State) {
    && 0 <= s.lastGood <= s.Current()
    && (s.lastGood != 0 ==> s.applied)
    && (s.applied && !s.dirty ==> AtCenterVersion(s))
    && PhaseInv(s)
  }

  /** A longer center history keeps what was known. */
  lemma GrowCenter(s: State, more: seq<Definitions>)
    requires Inv(s)
    ensures Inv(s.(center := s.center + more))
  {
    var s' := s.(center := s.center + more);
    if AtCenterVersion(s) {
      var v :| s.lastGood <= v <= s.Current() && s.center[v] == s.local;
      assert s'.center[v] == s'.local;
    }
  }

  lemma SameLocal(s: State, s': State)
    requires AtCenterVersion(s) && s'.local == s.local && s'.lastGood <= s.lastGood && s.center <= s'.center
    ensures AtCenterVersion(s')
  {
    var v :| s.lastGood <= v <= s.Current() && s.center[v] == s.local;
    assert s'.center[v] == s'.local;
  }

  lemma ApplyPreservesInv(s: State, e: Step)
    requires Inv(s) && Enabled(s, e) && (e.ApplyPull? || e.ApplyMerge?)
    ensures Inv(After(s, e))
  {
    var s' := After(s, e);
    assert s'.center[s'.lastGood] == s.phase.env.defs;
  }

  lemma PushPreservesInv(s: State, e: Step)
    requires Inv(s) && Enabled(s, e) && (e.PushOk? || e.PushFail?)
    ensures Inv(After(s, e))
  {
    var s' := After(s, e);
    if e.PushOk? {
      GrowCenter(s, [e.defs]);
      assert s'.center[|s.center|] == e.defs;
    } else {
      GrowCenter(s, e.garbage);
    }
  }

  lemma StepPreservesInv(s: State, e: Step)
    requires Inv(s) && Enabled(s, e)
    ensures Inv(After(s, e))
  {
    if e.CenterEdit? {
      GrowCenter(s, [e.defs]);
    } else if e.ApplyPull? || e.ApplyMerge? {
      ApplyPreservesInv(s, e);
    } else if e.PushOk? || e.PushFail? {
      PushPreservesInv(s, e);
    } else if AtCenterVersion(s) && !e.LocalEdit? {
      SameLocal(s, After(s, e));
    }
  }

  lemma NextKeepsInv(s: State, s': State)
    requires Inv(s) && Next(s, s')
    ensures Inv(s')
  {
    var e :| Enabled(s, e) && s' == After(s, e);
    StepPreservesInv(s, e);
  }

  lemma RunPrefix(run: seq<State>)
    requires Run(run) && |run| > 1
    ensures Run(run[..|run| - 1])
  {
    var pre := run[..|run| - 1];
    forall i | 0 < i < |pre| ensures Next(pre[i - 1], pre[i]) {
      assert pre[i - 1] == run[i - 1] && pre[i] == run[i];
    }
  }

  lemma {:induction false} RunKeepsInv(run: seq<State>)
    requires Run(run)
    ensures Inv(run[|run| - 1])
  {
    if |run| > 1 {
      RunPrefix(run);
      RunKeepsInv(run[..|run| - 1]);
      NextKeepsInv(run[|run| - 2], run[|run| - 1]);
    }
  }

  lemma ReachableInv(s: State)
    requires Reachable(s)
    ensures Inv(s)
  {
    var run :| Run(run) && run[|run| - 1] == s;
    RunKeepsInv(run);
  }

  // ---------- Main results ----------

  function VersionsInSync(center: int, local: int): bool {
    center != 0 && center == local
  }

  function EdgeInSync(s: State): bool {
    VersionsInSync(s.Current(), s.lastGood) && !s.dirty
  }

  predicate LocalIsCurrent(s: State) {
    s.center != [] && s.local == s.center[|s.center| - 1]
  }

  /** In every reachable state: once a round has applied, a clean node holds a center
      version from `lastGood` to the current one; and whenever the node calls itself in
      sync, its definitions are those of the current center version. */
  lemma SyncSafety(s: State)
    requires Reachable(s)
    ensures s.applied && !s.dirty ==> AtCenterVersion(s)
    ensures EdgeInSync(s) ==> LocalIsCurrent(s)
  {
    ReachableInv(s);
  }

  // ---------- Rows ----------

  ghost predicate KeepsRows<K, V>(before: map<K, V>, after: map<K, V>) {
    forall k :: k in before ==> k in after && after[k] == before[k]
  }

  /** Every local row unchanged, every center row whose key no local row has, and nothing else. */
  ghost predicate JoinsRows<K, V>(local: map<K, V>, center: map<K, V>, after: map<K, V>) {
    && KeepsRows(local, after)
    && (forall k :: k in center && k !in local ==> k in after && after[k] == center[k])
    && (forall k :: k in after ==> k in local || k in center)
  }

  ghost predicate Keeps(before: Definitions, after: Definitions) {
    && KeepsRows(before.platforms, after.platforms) && KeepsRows(before.credentials, after.credentials)
    && KeepsRows(before.rapis, after.rapis) && KeepsRows(before.lapis, after.lapis)
    && KeepsRows(before.routes, after.routes)
  }

  ghost predicate Joins(local: Definitions, center: Definitions, after: Definitions) {
    && JoinsRows(local.platforms, center.platforms, after.platforms)
    && JoinsRows(local.credentials, center.credentials, after.credentials)
    && JoinsRows(local.rapis, center.rapis, after.rapis)
    && JoinsRows(local.lapis, center.lapis, after.lapis)
    && JoinsRows(local.routes, center.routes, after.routes)
  }

  lemma OverrideJoins(center: Definitions, local: Definitions)
    ensures Joins(local, center, Override(center, local))
  {
  }

  /** A merge that applies keeps every local row as it is and takes from one later center version exactly the
      rows whose keys no local row has. */
  lemma MergeKeepsRows(s: State, s': State)
    requires Reachable(s) && Next(s, s') && s.phase.Merging? && s'.phase.Merged?
    ensures s.lastGood < s'.lastGood <= s.Current() && s'.center == s.center
    ensures Joins(s.local, s.center[s'.lastGood], s'.local)
  {
    ReachableInv(s);
    OverrideJoins(s.phase.env.defs, s.local);
  }

  /** Someone has edited the local definitions. */
  predicate Edited(s: State, s': State) {
    s'.gen == s.gen + 1 && s'.dirty
  }

  /** A pull that was decided on has been applied. */
  predicate PullApplied(s: State, s': State) {
    s.phase.Pulled? && s.phase.action == Pull && s'.phase == Idle && s'.local == s.phase.env.defs
  }

  /** Apart from edits only a pull ever changes or removes a local row. */
  lemma RowsOnlyLostByPull(s: State, s': State)
    requires Next(s, s')
    ensures Keeps(s.local, s'.local) || Edited(s, s') || PullApplied(s, s')
  {
    if s.phase.Merging? {
      OverrideJoins(s.phase.env.defs, s.local);
    }
  }

  /** A run in which an edit falls between the decision to pull and the pull. */
  function LateEdit(base: Definitions, center: Definitions, mine: Definitions): seq<State> {
    var s0 := State(base, [base], 0, false, 0, false, false, Idle);
    var s1 := s0.(center := [base, center]);
    var s2 := s1.(phase := Versioned(1, false));
    var s3 := s1.(phase := Decided(Pull));
    var s4 := s1.(phase := Pulled(Pull, Envelope(1, center)));
    var s5 := s4.(local := mine, dirty := true, gen := 1);
    var s6 := s5.(local := center, lastGood := 1, applied := true, phase := Idle);
    [s0, s1, s2, s3, s4, s5, s6]
  }

  /** Such an edit is overwritten: the node stays dirty, but nothing of the edit is left, and every round
      from there on skips until the center changes. */
  lemma LateEditIsLost(base: Definitions, center: Definitions, mine: Definitions, force: bool)
    ensures Run(LateEdit(base, center, mine))
    ensures
      var run := LateEdit(base, center, mine);
      && run[5].local == mine && run[5].dirty && run[6].local == center && run[6].dirty
      && SyncAction(run[6].Current(), run[6].lastGood, run[6].dirty, run[6].manual, force) == Skip
  {
    var run := LateEdit(base, center, mine);
    assert Enabled(run[0], CenterEdit(center)) && run[1] == After(run[0], CenterEdit(center));
    assert Enabled(run[1], PullVersion(false)) && run[2] == After(run[1], PullVersion(false));
    assert Enabled(run[2], Decide) && run[3] == After(run[2], Decide);
    assert Enabled(run[3], PullBundle) && run[4] == After(run[3], PullBundle);
    assert Enabled(run[4], LocalEdit(mine)) && run[5] == After(run[4], LocalEdit(mine));
    assert Enabled(run[5], ApplyPull) && run[6] == After(run[5], ApplyPull);
    forall i | 0 < i < |run| ensures Next(run[i - 1], run[i]) {
      assert i in {1, 2, 3, 4, 5, 6};
    }
  }

  // ---------- Rounds that fail ----------

  predicate Environment(e: Step) {
    e.LocalEdit? || e.CenterEdit? || e.SetManual? || e.Restart?
  }

  /** `s'` is reached from `s` by edits, mode changes and restarts only. */
  ghost predicate Drifts(s: State, es: seq<Step>, s': State)
    decreases |es|
  {
    if es == [] then s' == s
    else Environment(es[0]) && Enabled(s, es[0]) && Drifts(After(s, es[0]), es[1..], s')
  }

  /** Dirty and behind the center, between rounds. */
  predicate Retryable(s: State) {
    s.phase == Idle && s.dirty && s.lastGood < s.Current()
  }

  lemma {:induction false} DriftKeepsRetryable(s: State, es: seq<Step>, s': State)
    requires Retryable(s) && Drifts(s, es, s')
    ensures Retryable(s')
    decreases |es|
  {
    if es != [] {
      DriftKeepsRetryable(After(s, es[0]), es[1..], s');
    }
  }

  /** After a failed push whose rewind succeeded, whatever is edited meanwhile, the next
      round that is forced or automatic merges again; only manual polling holds it back. */
  lemma FailedPushIsRetried(s: State, garbage: seq<Definitions>, es: seq<Step>, s': State, force: bool)
    requires Reachable(s) && s.phase.Pushing?
    requires Drifts(After(s, PushFail(garbage, true)), es, s')
    ensures s'.center != []
    ensures SyncAction(s'.Current(), s'.lastGood, s'.dirty, s'.manual, force) ==
      if force || !s'.manual then Merge else Pending
  {
    ReachableInv(s);
    DriftKeepsRetryable(After(s, PushFail(garbage, true)), es, s');
  }

  /** Edits, mode changes, restarts, and rounds that read the version and decide to do nothing. */
  predicate Polling(e: Step) {
    Environment(e) || e.PullVersion? || e.Decide?
  }

  /** `s'` is reached from `s` by such steps only. */
  ghost predicate Polls(s: State, es: seq<Step>, s': State)
    decreases |es|
  {
    if es == [] then s' == s
    else Polling(es[0]) && Enabled(s, es[0]) && Polls(After(s, es[0]), es[1..], s')
  }

  predicate CenterMoves(es: seq<Step>) {
    exists e :: e in es && e.CenterEdit?
  }

  lemma {:induction false} PollsKeepVersion(s: State, es: seq<Step>, s': State)
    requires Polls(s, es, s')
    ensures s'.lastGood == s.lastGood && |s'.center| >= |s.center|
    ensures |s'.center| == |s.center| <==> !CenterMoves(es)
    decreases |es|
  {
    if es != [] {
      PollsKeepVersion(After(s, es[0]), es[1..], s');
      assert forall e :: e in es <==> e == es[0] || e in es[1..];
    }
  }

  /** After a failed push every later poll skips, even a forced one, exactly when the version was not
      rewound, the push left the center as it was, and nobody has edited the center since the merge. */
  lemma UnrewoundPushIsStuck(s: State, garbage: seq<Definitions>, rewound: bool, es: seq<Step>, s': State, force: bool)
    requires Reachable(s) && s.phase.Pushing?
    requires Polls(After(s, PushFail(garbage, rewound)), es, s')
    ensures SyncAction(s'.Current(), s'.lastGood, s'.dirty, s'.manual, force) == Skip <==>
      !rewound && s.lastGood == s.Current() && garbage == [] && !CenterMoves(es)
  {
    ReachableInv(s);
    PollsKeepVersion(After(s, PushFail(garbage, rewound)), es, s');
  }
}
