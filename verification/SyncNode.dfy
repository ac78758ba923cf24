/** The sync round as the node runs it, section by section, with everybody else's edits
    falling between any two sections. */
module SyncNode {
  import opened SyncMerge
  import opened SyncProtocol

  ghost predicate Via(m: State, e: Step, s': State) {
    Enabled(m, e) && s' == After(m, e)
  }

  function LastOf(es: seq<Step>): Step
    requires es != []
  {
    es[|es| - 1]
  }

  /** `es` leads from `s` to `s'`. */
  ghost predicate Leads(s: State, es: seq<Step>, s': State) {
    if es == [] then s' == s
    else exists m :: Leads(s, es[..|es| - 1], m) && Via(m, LastOf(es), s')
  }

  lemma LeadsOn(s: State, es: seq<Step>, m: State, e: Step)
    requires Leads(s, es, m) && Enabled(m, e)
    ensures Leads(s, es + [e], After(m, e))
  {
    assert (es + [e])[..|es + [e]| - 1] == es;
    assert LastOf(es + [e]) == e && Via(m, LastOf(es + [e]), After(m, e));
  }

  lemma {:induction false} LeadsReachable(s: State, es: seq<Step>, s': State)
    requires Reachable(s) && Leads(s, es, s')
    ensures Reachable(s')
  {
    if es != [] {
      var m :| Leads(s, es[..|es| - 1], m) && Via(m, LastOf(es), s');
      LeadsReachable(s, es[..|es| - 1], m);
      var run :| Run(run) && run[|run| - 1] == m;
      assert Next(m, s');
      assert Run(run + [s']) by {
        forall i | 0 < i < |run + [s']| ensures Next((run + [s'])[i - 1], (run + [s'])[i]) {
          if i < |run| {
            assert Next(run[i - 1], run[i]);
          }
        }
      }
      assert (run + [s'])[|run + [s']| - 1] == s';
    }
  }

  // ---------- Rounds that nobody disturbs ----------

  /** How many edits a log holds. */
  ghost function Edits(es: seq<Step>): nat {
    if es == [] then 0 else Edits(es[..|es| - 1]) + if Environment(LastOf(es)) then 1 else 0
  }

  /** How many failures a log holds. */
  ghost function Faults(es: seq<Step>): nat {
    if es == [] then 0 else Faults(es[..|es| - 1]) + if LastOf(es).Abort? || LastOf(es).PushFail? then 1 else 0
  }

  ghost predicate Grown(before: seq<Step>, after: seq<Step>) {
    before <= after && Edits(before) <= Edits(after) && Faults(before) <= Faults(after)
  }

  lemma CountOne(es: seq<Step>, e: Step)
    ensures Grown(es, es + [e])
    ensures Edits(es + [e]) == Edits(es) + if Environment(e) then 1 else 0
    ensures Faults(es + [e]) == Faults(es) + if e.Abort? || e.PushFail? then 1 else 0
  {
    assert (es + [e])[..|es + [e]| - 1] == es && LastOf(es + [e]) == e;
  }

  /** No edit has been added. */
  ghost predicate Calm(before: seq<Step>, after: seq<Step>) {
    Edits(after) == Edits(before)
  }

  /** Nor a failure. */
  ghost predicate Smooth(before: seq<Step>, after: seq<Step>) {
    Edits(after) == Edits(before) && Faults(after) == Faults(before)
  }

  /** The current center version is the local one. */
  predicate Aligned(s: State) {
    s.center != [] && s.local == s.center[|s.center| - 1] && s.lastGood == |s.center| - 1
  }

  ghost predicate DirtyRoundLeaves(s: State, s': State, smooth: bool)
    requires s.center != []
  {
    var current := |s.center| - 1;
    && s.center <= s'.center
    && (s' == s || Joins(s.local, s.center[current], s'.local))
    && (smooth ==>
      && Joins(s.local, s.center[current], s'.local)
      && (s'.center == s.center || s'.center == s.center + [s'.local])
      && (s'.dirty || Aligned(s')))
  }

  /** What a round leaves that no edit disturbs. A node on the current version, or one in manual mode that is
      not forced, stays as it is. A dirty node merges: it keeps its rows and takes the center's other rows, and
      pushes the result or leaves the center alone. A clean node pulls. A round that fails early leaves
      everything as it was. */
  ghost predicate RoundLeaves(s: State, s': State, force: bool, smooth: bool)
    requires s.center != []
  {
    var current := |s.center| - 1;
    if current == s.lastGood || (s.manual && !force) then s' == s
    else if s.dirty then DirtyRoundLeaves(s, s', smooth)
    else
      && (s' == s || (Aligned(s') && s'.center == s.center && !s'.dirty))
      && (smooth ==> Aligned(s'))
  }

  /** A pull stores the current version or leaves everything as it was. */
  ghost predicate PullLeaves(s: State, s': State, smooth: bool) {
    if s'.local == s.local && s'.lastGood == s.lastGood && s'.applied == s.applied
    then s' == s.(phase := Idle) && (smooth ==> |s.center| - 1 == s.lastGood || Aligned(s'))
    else Aligned(s') && s' == s.(phase := Idle, local := s'.local, lastGood := s'.lastGood, applied := true)
  }

  ghost predicate AlignLeaves(s: State, s': State, smooth: bool) {
    s.center != [] && s.local == s.center[|s.center| - 1] ==>
      s'.local == s.local && s'.center == s.center && !s'.dirty && (smooth ==> Aligned(s'))
  }

  ghost predicate PushLeaves(s: State, s': State, smooth: bool) {
    && s'.local == s.local && s.center <= s'.center
    && (smooth ==> s'.center == s.center + [s.local] && !s'.dirty && Aligned(s'))
  }

  ghost predicate FinishLeaves(s: State, s': State, adds: bool, smooth: bool) {
    && s'.local == s.local && s.center <= s'.center
    && (!adds ==> s' == s.(phase := Idle, dirty := false))
    && (smooth && adds ==>
      || s' == s.(phase := Idle)
      || (s'.center == s.center + [s.local] && !s'.dirty && Aligned(s')))
  }

  ghost predicate MergeLeaves(s: State, s': State, env: Envelope, smooth: bool) {
    && s.center <= s'.center
    && (s' == s.(phase := Idle) || Joins(s.local, env.defs, s'.local))
    && (smooth ==>
      && Joins(s.local, env.defs, s'.local)
      && (s'.center == s.center || s'.center == s.center + [s'.local])
      && (s'.dirty == s.dirty || (s'.local == env.defs && s'.lastGood == env.version && s'.center == s.center)
          || Aligned(s')))
  }

  /** A merge and what follows it. */
  lemma MergeThenFinish(s: State, m: State, s': State, env: Envelope, adds: bool, smooth: bool)
    requires m == s.(phase := m.phase, local := m.local, lastGood := env.version, applied := true)
    requires Joins(s.local, env.defs, m.local) && (!adds ==> m.local == env.defs)
    requires FinishLeaves(m, s', adds, smooth)
    ensures MergeLeaves(s, s', env, smooth)
  {
  }

  class Node {
    var local: Definitions
    var center: seq<Definitions>
    var lastGood: nat
    var dirty: bool
    var gen: nat
    var manual: bool
    ghost var applied: bool
    ghost var phase: Phase
    ghost var first: State
    ghost var log: seq<Step>

    ghost function View(): State
      reads this
    {
      State(local, center, lastGood, dirty, gen, manual, applied, phase)
    }

    /** The node's history since `first` is a run of the protocol. */
    ghost predicate Faithful()
      reads this
    {
      center != [] && Leads(first, log, View())
    }

    constructor (defs: Definitions, remote: Definitions)
      ensures Faithful() && Init(View()) && first == View()
    {
      local, center, lastGood, dirty, gen, manual := defs, [remote], 0, false, 0, false;
      applied, phase, log := false, Idle, [];
      first := State(defs, [remote], 0, false, 0, false, false, Idle);
    }

    // ---------- What happens around a round ----------

    method MarkedEdit(defs: Definitions)
      requires Faithful()
      modifies this
      ensures Faithful() && View() == After(old(View()), LocalEdit(defs)) && log == old(log) + [LocalEdit(defs)]
      ensures Grown(old(log), log) && !Calm(old(log), log)
      ensures first == old(first)
    {
      LeadsOn(first, log, View(), LocalEdit(defs));
      CountOne(log, LocalEdit(defs));
      local, gen, dirty := defs, gen + 1, true;
      log := log + [LocalEdit(defs)];
    }

    method EditAtCenter(defs: Definitions)
      requires Faithful()
      modifies this
      ensures Faithful() && View() == After(old(View()), CenterEdit(defs)) && log == old(log) + [CenterEdit(defs)]
      ensures Grown(old(log), log) && !Calm(old(log), log)
      ensures first == old(first)
    {
      LeadsOn(first, log, View(), CenterEdit(defs));
      CountOne(log, CenterEdit(defs));
      center := center + [defs];
      log := log + [CenterEdit(defs)];
    }

    /** Any number of edits on either side. */
    method Others()
      requires Faithful()
      modifies this
      ensures Faithful() && phase == old(phase) && Grown(old(log), log) && first == old(first)
      ensures Calm(old(log), log) ==> View() == old(View())
    {
      hide Leads, Edits, Faults;
      var n: nat := *;
      while n > 0
        invariant Faithful() && phase == old(phase) && Grown(old(log), log) && first == old(first)
        invariant Calm(old(log), log) ==> View() == old(View())
      {
        var atCenter: bool := *;
        var defs: Definitions := *;
        if atCenter {
          EditAtCenter(defs);
        } else {
          MarkedEdit(defs);
        }
        n := n - 1;
      }
    }

    /** Clears the flag unless something was edited since `since`. */
    method ClearEdgeDirtyIfUnchanged(since: nat) returns (cleared: bool)
      modifies this`dirty
      ensures cleared <==> gen == since
      ensures View() == ClearIfUnchanged(old(View()), since)
    {
      if gen != since {
        return false;
      }
      dirty := false;
      return true;
    }

    ghost method Record(before: State, e: Step)
      requires Leads(first, log, before) && Enabled(before, e) && center != []
      requires View().(phase := After(before, e).phase) == After(before, e)
      modifies this`phase, this`log
      ensures Faithful() && phase == After(before, e).phase && log == old(log) + [e] && Grown(old(log), log)
      ensures !Environment(e) ==> Calm(old(log), log) && (Smooth(old(log), log) <==> !e.Abort? && !e.PushFail?)
    {
      LeadsOn(first, log, before, e);
      CountOne(log, e);
      phase := After(before, e).phase;
      log := log + [e];
    }

    // ---------- The round ----------

    /** One full round: it reads the version and follows the protocol until it is idle again. */
    method SyncOnce(force: bool)
      requires Faithful() && phase == Idle
      modifies this
      ensures Faithful() && phase == Idle && Grown(old(log), log) && first == old(first)
      ensures exists i :: |old(log)| <= i < |log| && log[i] == PullVersion(force)
      ensures Calm(old(log), log) ==> RoundLeaves(old(View()), View(), force, Smooth(old(log), log))
    {
      hide Leads, Edits, Faults;
      var action := ChooseAction(force);
      if action == Merge {
        PullMergeBundle();
      } else if action == Pull {
        PullApplyBundle();
      }
    }

    method PullMergeBundle()
      requires Faithful() && phase == Decided(Merge)
      modifies this
      ensures Faithful() && phase == Idle && Grown(old(log), log) && first == old(first)
      ensures Calm(old(log), log) && old(dirty) && |old(center)| - 1 != old(lastGood) ==>
        DirtyRoundLeaves(old(View()).(phase := Idle), View(), Smooth(old(log), log))
    {
      hide Leads, Edits, Faults;
      Others();
      var env, found := PullBundleOrNone();
      if found {
        ApplyMergeRound(env);
      }
    }

    method ChooseAction(force: bool) returns (action: Action)
      requires Faithful() && phase == Idle
      modifies this
      ensures Faithful() && Grown(old(log), log) && first == old(first)
      ensures phase == if action == Merge || action == Pull then Decided(action) else Idle
      ensures Calm(old(log), log) ==> View() == old(View()).(phase := phase)
      ensures Calm(old(log), log) ==>
        action == if |old(center)| - 1 == old(lastGood) then Skip else if old(manual) && !force then Pending
                  else if old(dirty) then Merge else Pull
      ensures exists i :: |old(log)| <= i < |log| && log[i] == PullVersion(force)
    {
      Others();
      var remote := |center| - 1;
      ghost var i := |log|;
      Record(View(), PullVersion(force));
      assert log[i] == PullVersion(force);
      Others();
      action := SyncAction(remote, lastGood, dirty, manual, force);
      Record(View(), Decide);
    }

    /** Network errors count as no change: nothing is stored. */
    method PullBundleOrNone() returns (env: Envelope, found: bool)
      requires Faithful() && phase.Decided?
      modifies this
      ensures Faithful() && Grown(old(log), log) && first == old(first)
      ensures if found then phase == Pulled(old(phase.action), env) else phase == Idle
      ensures View() == old(View()).(phase := phase) && Calm(old(log), log)
      ensures found ==> env == Envelope(|center| - 1, center[|center| - 1])
      ensures found ==> |center| - 1 != lastGood
      ensures !found && Smooth(old(log), log) ==> |center| - 1 == lastGood
    {
      env := Envelope(|center| - 1, center[|center| - 1]);
      var failed: bool := *;
      if failed {
        Record(View(), Abort);
        return env, false;
      }
      found := |center| - 1 != lastGood;
      Record(View(), PullBundle);
    }

    method PullApplyBundle()
      requires Faithful() && phase == Decided(Pull)
      modifies this
      ensures Faithful() && phase == Idle && Grown(old(log), log) && first == old(first)
      ensures Calm(old(log), log) ==> PullLeaves(old(View()), View(), Smooth(old(log), log))
    {
      hide Leads, Edits, Faults;
      Others();
      var env, found := PullBundleOrNone();
      if found {
        Others();
        StorePulled(env);
      }
    }

    method StorePulled(env: Envelope)
      requires Faithful() && phase == Pulled(Pull, env)
      modifies this
      ensures Faithful() && phase == Idle && Grown(old(log), log) && first == old(first) && Calm(old(log), log)
      ensures View() == old(View()).(phase := Idle)
        || View() == old(View()).(phase := Idle, local := env.defs, lastGood := env.version, applied := true)
      ensures Smooth(old(log), log) ==> local == env.defs && lastGood == env.version
    {
      ghost var before := View();
      var rejected: bool := *;
      if rejected {
        Record(before, Abort);
      } else {
        local, lastGood, applied := env.defs, env.version, true;
        Record(before, ApplyPull);
      }
    }

    method ApplyMergeRound(env: Envelope)
      requires Faithful() && phase == Pulled(Merge, env)
      modifies this
      ensures Faithful() && phase == Idle && Grown(old(log), log) && first == old(first)
      ensures Calm(old(log), log) ==> MergeLeaves(old(View()), View(), env, Smooth(old(log), log))
    {
      hide Leads, Edits, Faults;
      Others();
      var since := gen;
      Record(View(), BeginMerge);
      Others();
      var prevGood := lastGood;
      var applied', adds := ExportMergeApply(env, since);
      ghost var merged, before := View(), log;
      if applied' {
        FinishRound(since, prevGood, adds);
        if Calm(old(log), log) {
          assert Calm(before, log) && Calm(old(log), before);
          MergeThenFinish(old(View()), merged, View(), env, adds, Smooth(before, log));
        }
      }
    }

    /** Export, merge and apply in one go; a rejected apply leaves everything as it was. */
    method ExportMergeApply(env: Envelope, since: nat) returns (ok: bool, adds: bool)
      requires Faithful() && phase == Merging(env, since)
      modifies this
      ensures Faithful() && Grown(old(log), log) && first == old(first)
      ensures if ok then phase == Merged(since, old(lastGood), adds) else phase == Idle && local == old(local)
      ensures Calm(old(log), log) && (Smooth(old(log), log) ==> ok)
      ensures !ok ==> View() == old(View()).(phase := Idle)
      ensures ok ==> Joins(old(local), env.defs, local) && (!adds ==> local == env.defs)
      ensures ok ==>
        View() == old(View()).(phase := phase, local := local, lastGood := env.version, applied := true)
    {
      ghost var before := View();
      ok := *;
      adds := *;
      if !ok {
        Record(before, Abort);
        return;
      }
      var union := Override(env.defs, local);
      OverrideJoins(env.defs, local);
      adds := adds || union != env.defs;
      local, lastGood, applied := union, env.version, true;
      Record(before, ApplyMerge(adds));
    }

    method FinishRound(since: nat, prevGood: nat, adds: bool)
      requires Faithful() && phase == Merged(since, prevGood, adds)
      modifies this
      ensures Faithful() && phase == Idle && Grown(old(log), log) && first == old(first)
      ensures Calm(old(log), log) && since == old(gen) ==>
        FinishLeaves(old(View()), View(), adds, Smooth(old(log), log))
    {
      hide Leads, Edits, Faults;
      Others();
      ghost var before := View();
      if !adds {
        var _ := ClearEdgeDirtyIfUnchanged(since);
        Record(before, FinishMerge(false));
        return;
      }
      var writable: bool := *;
      Record(before, FinishMerge(writable));
      if writable {
        PushBack(since, prevGood);
      }
    }

    method PushBack(since: nat, prevGood: nat)
      requires Faithful() && phase == Pushing(since, prevGood)
      modifies this
      ensures Faithful() && phase == Idle && Grown(old(log), log) && first == old(first)
      ensures Calm(old(log), log) && since == old(gen) ==> PushLeaves(old(View()), View(), Smooth(old(log), log))
    {
      hide Leads, Edits, Faults;
      Others();
      var failed: bool := *;
      if failed {
        FailPush(since, prevGood);
      } else {
        Push(since, prevGood);
        ClearAndAlign(since);
      }
    }

    /** After a push the node is clean unless it was edited meanwhile, and then it pulls what it pushed. */
    method ClearAndAlign(since: nat)
      requires Faithful() && phase == Pushed(since)
      modifies this
      ensures Faithful() && phase == Idle && Grown(old(log), log) && first == old(first)
      ensures Calm(old(log), log) && since == old(gen) ==> AlignLeaves(old(View()), View(), Smooth(old(log), log))
    {
      hide Leads, Edits, Faults;
      Others();
      ghost var before := View();
      var cleared := ClearEdgeDirtyIfUnchanged(since);
      Record(before, ClearAfterPush);
      if cleared {
        PullApplyBundle();
      }
    }

    /** What is pushed was read table by table: the local definitions unless edits fell in between. */
    method Push(since: nat, prevGood: nat)
      requires Faithful() && phase == Pushing(since, prevGood)
      modifies this
      ensures Faithful() && phase == Pushed(since) && Grown(old(log), log) && first == old(first)
      ensures View() == old(View()).(phase := phase, center := center) && |center| == |old(center)| + 1
      ensures since == old(gen) ==> center == old(center) + [local]
      ensures old(center) <= center && Calm(old(log), log)
    {
      ghost var before := View();
      var torn: Definitions := *;
      var pushed := if gen == since then local else torn;
      center := center + [pushed];
      Record(before, PushOk(pushed));
    }

    method FailPush(since: nat, prevGood: nat)
      requires Faithful() && phase == Pushing(since, prevGood)
      modifies this
      ensures Faithful() && phase == Idle && Grown(old(log), log) && first == old(first)
      ensures View() == old(View()).(phase := Idle, center := center, lastGood := lastGood) && old(center) <= center
      ensures Calm(old(log), log) && !Smooth(old(log), log)
    {
      ghost var before := View();
      var garbage: seq<Definitions> := *;
      var rewound: bool := *;
      center := center + garbage;
      if rewound {
        lastGood := prevGood;
      }
      Record(before, PushFail(garbage, rewound));
    }
  }

  /** Whatever a node has gone through, it keeps its promise. */
  lemma NodeIsSafe(first: State, log: seq<Step>, s: State)
    requires Init(first) && Leads(first, log, s)
    ensures s.applied && !s.dirty ==> AtCenterVersion(s)
    ensures EdgeInSync(s) ==> LocalIsCurrent(s)
  {
    assert Run([first]) && [first][|[first]| - 1] == first;
    LeadsReachable(first, log, s);
    SyncSafety(s);
  }
}
