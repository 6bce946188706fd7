/** Log matching and monotone terms, and exactly which snapshot installs endanger them. */
module RaftLogMatching {
  import opened RaftLog
  import opened RaftNode
  import opened RaftCore
  import opened RaftCoreFacts
  import opened RaftCoreSteps
  import opened RaftSystem
  import opened RaftSystemInv
  import opened RaftSystemSteps
  import opened RaftSafety

  /** The comparison section 7 of the extended Raft paper asks for and the code leaves out: an install
      is refused, or keeps nothing above the snapshot, or finds the snapshot's term at its index. */
  predicate InstallAgrees(sys: System, a: Action) {
    a.ServiceSnapshot? && a.v < |sys.hosts| ==>
      var s, p := sys.hosts[a.v].node, a.offer;
      |p| - 1 <= s.commit || |s.log| <= |p| || s.log[|p| - 1].term == LastTerm(p)
  }

  ghost predicate SoundAt(sys: System, v: nat) {
    v < |sys.hosts| ==> Sound(sys.h, sys.hosts[v].node.log)
  }

  ghost predicate AllSound(sys: System) { forall v: nat :: SoundAt(sys, v) }

  lemma RunByIsRun(run: seq<System>, actions: seq<Action>)
    requires RunBy(run, actions)
    ensures Run(run)
  {
    forall i: nat ensures StepAt(run, i) { assert ActionAt(run, actions, i); }
  }

  // ---------- one step ----------

  lemma UntouchedStaysSound(sys: System, a: Action, v: nat)
    requires SystemInv(sys) && Enabled(sys, a) && InBounds(sys, a) && v < |sys.hosts| && SoundAt(sys, v)
    requires v < |After(sys, a).hosts| && After(sys, a).hosts[v].node.log == sys.hosts[v].node.log
    ensures SoundAt(After(sys, a), v)
  {
    StepExtends(sys, a);
    SoundGrows(sys.h, After(sys, a).h, sys.hosts[v].node.log);
  }

  /** A request leaves a sound log sound: it merges a sound leader's log into it. */
  lemma AppendStaysSound(sys: System, v: nat, r: AppendRequest)
    requires SystemInv(sys) && v < |sys.hosts| && r in sys.net.appendRequests && AppendFits(r)
    requires NodeInv(sys.h, sys.hosts[v], v) && SoundAt(sys, v)
    ensures SoundAt(AfterAppendRequest(sys, v, r), v)
  {
    var s, next := sys.hosts[v].node, AfterAppendRequest(sys, v, r);
    assert AppendRequestOk(sys.h, r);
    AppendRequestExtends(sys, v, r);
    if PassesCheck(s, r) {
      AcceptedNode(sys, v, r);
      AcceptCore(sys, v, r, next);
      assert LeaderLogOk(next.h, r.term);
      MergedNowSound(sys.h, next.h, s.log, next.hosts[v].node.log, r.term, ReachOf(r));
    } else {
      RejectedNode(sys.h, s, r, v);
      SoundGrows(sys.h, next.h, s.log);
    }
  }

  /** A leader's log is the log on record for its term. */
  lemma LeaderIsSound(sys: System, v: nat)
    requires SystemInv(sys) && v < |sys.hosts| && sys.hosts[v].node.role == Leader
    ensures SoundAt(sys, v)
  {
    assert ServerOk(CoreOf(sys), v);
    assert LeaderLogOk(sys.h, sys.hosts[v].node.term);
  }

  lemma InstallStaysSoundIff(sys: System, v: nat, p: Log)
    requires SystemInv(sys) && v < |sys.hosts| && p in sys.hosts[v].offers && SoundAt(sys, v)
    ensures Sound(sys.h, ServeSnapshot(sys.hosts[v], p).node.log) <==> InstallAgrees(sys, ServiceSnapshot(v, p))
  {
    assert ServiceAt(sys, v) && ServerOk(CoreOf(sys), v);
    if |p| - 1 > sys.hosts[v].node.commit { InstallSoundIff(CoreOf(sys), v, p); }
  }

  predicate TouchesLog(a: Action) { a.OnAppendRequest? || a.ClientStart? || a.ServiceSnapshot? }

  lemma OwnLogKept(sys: System, a: Action)
    requires Enabled(sys, a) && InBounds(sys, a) && !TouchesLog(a)
    ensures After(sys, a).hosts[a.v].node.log == sys.hosts[a.v].node.log
  {
  }

  lemma OwnLogSoundIff(sys: System, a: Action)
    requires SystemInv(sys) && Enabled(sys, a) && InBounds(sys, a) && SoundAt(sys, a.v)
    ensures SoundAt(After(sys, a), a.v) <==> InstallAgrees(sys, a)
  {
    if a.OnAppendRequest? {
      assert NodeAt(sys, a.v);
      AppendStaysSound(sys, a.v, a.appendRequest);
    } else if a.ClientStart? {
      StepKeeps(sys, a);
      LeaderIsSound(After(sys, a), a.v);
    } else if a.ServiceSnapshot? {
      InstallStaysSoundIff(sys, a.v, a.offer);
    } else {
      OwnLogKept(sys, a);
      UntouchedStaysSound(sys, a, a.v);
    }
  }

  /** From sound logs a step leads to sound logs exactly when it is not a disagreeing install. */
  lemma SoundStepIff(sys: System, a: Action)
    requires SystemInv(sys) && Enabled(sys, a) && InBounds(sys, a) && AllSound(sys)
    ensures AllSound(After(sys, a)) <==> InstallAgrees(sys, a)
  {
    var next := After(sys, a);
    assert SoundAt(sys, a.v);
    OwnLogSoundIff(sys, a);
    OtherHostsUntouched(sys, a, a.v);
    forall v: nat | v != a.v ensures SoundAt(next, v) {
      if v < |sys.hosts| {
        OtherHostsUntouched(sys, a, v);
        assert SoundAt(sys, v);
        UntouchedStaysSound(sys, a, v);
      }
    }
    if AllSound(next) { assert SoundAt(next, a.v); }
  }

  // ---------- whole runs ----------

  /** Up to its n-th state every log in the run is sound. */
  ghost predicate SoundUntil(run: seq<System>, n: nat) {
    forall i :: 0 <= i <= n && i < |run| ==> AllSound(run[i])
  }

  /** The first n steps of the run contain no disagreeing install. */
  predicate AgreesUntil(run: seq<System>, actions: seq<Action>, n: nat) {
    forall i :: 0 <= i < n && i < |actions| && i < |run| ==> InstallAgrees(run[i], actions[i])
  }

  lemma InitiallySound(sys: System)
    requires InitialSystem(sys)
    ensures AllSound(sys)
  {
    forall v: nat ensures SoundAt(sys, v) {
      if v < |sys.hosts| { assert sys.hosts[v].node.log == [DUMMY]; }
    }
  }

  /** Logs are sound throughout a run exactly when every install in it agrees. */
  lemma {:induction false} SoundIffInstallsAgree(run: seq<System>, actions: seq<Action>, n: nat)
    requires RunBy(run, actions) && n < |run|
    ensures SoundUntil(run, n) <==> AgreesUntil(run, actions, n)
  {
    if n == 0 {
      InitiallySound(run[0]);
    } else {
      SoundIffInstallsAgree(run, actions, n - 1);
      RunByIsRun(run, actions);
      RunKeeps(run, n - 1);
      assert ActionAt(run, actions, n - 1);
      if AllSound(run[n - 1]) { SoundStepIff(run[n - 1], actions[n - 1]); }
    }
  }

  lemma SoundInAgreeingRun(run: seq<System>, actions: seq<Action>, n: nat, v: nat)
    requires RunBy(run, actions) && n < |run| && AgreesUntil(run, actions, n) && v < |run[n].hosts|
    ensures Run(run) && SystemInv(run[n]) && Sound(run[n].h, run[n].hosts[v].node.log)
  {
    RunByIsRun(run, actions);
    RunKeeps(run, n);
    SoundIffInstallsAgree(run, actions, n);
    assert AllSound(run[n]) && SoundAt(run[n], v);
  }

  // ---------- the theorems ----------

  /** Log matching: in every state of a run whose installs agree, entries of equal index and term
      in any two logs have identical prefixes. */
  lemma LogMatching(run: seq<System>, actions: seq<Action>, n: nat, v: nat, w: nat, i: nat)
    requires RunBy(run, actions) && n < |run| && AgreesUntil(run, actions, n) && v < |run[n].hosts|
             && w < |run[n].hosts|
    requires i < |run[n].hosts[v].node.log| && i < |run[n].hosts[w].node.log|
    requires run[n].hosts[v].node.log[i].term == run[n].hosts[w].node.log[i].term
    ensures run[n].hosts[v].node.log[..i + 1] == run[n].hosts[w].node.log[..i + 1]
  {
    SoundInAgreeingRun(run, actions, n, v);
    SoundInAgreeingRun(run, actions, n, w);
    SoundLogsMatch(run[n].h, run[n].hosts[v].node.log, run[n].hosts[w].node.log, i);
  }

  /** In the same runs every log is index-contiguous and its terms never fall. */
  lemma LogsMonotone(run: seq<System>, actions: seq<Action>, n: nat, v: nat)
    requires RunBy(run, actions) && n < |run| && AgreesUntil(run, actions, n) && v < |run[n].hosts|
    ensures Indexed(run[n].hosts[v].node.log) && Monotone(run[n].hosts[v].node.log)
  {
    SoundInAgreeingRun(run, actions, n, v);
    SoundIsMonotone(run[n].h, run[n].hosts[v].node.log);
  }

  /** Up to the commit indices both hold in every run, whatever was installed. */
  lemma CommittedLogMatching(run: seq<System>, n: nat, v: nat, w: nat, i: nat)
    requires Run(run) && n < |run| && v < |run[n].hosts| && w < |run[n].hosts|
    requires i <= run[n].hosts[v].node.commit && i <= run[n].hosts[w].node.commit
    ensures i < |run[n].hosts[v].node.log| && i < |run[n].hosts[w].node.log|
    ensures run[n].hosts[v].node.log[..i + 1] == run[n].hosts[w].node.log[..i + 1]
            && Monotone(run[n].hosts[v].node.log[..i + 1])
  {
    RunKeeps(run, n);
    var sys := run[n];
    assert NodeAt(sys, v) && NodeAt(sys, w);
    var s, t := sys.hosts[v].node, sys.hosts[w].node;
    SoundUpTo(sys, v, i);
    SoundUpTo(sys, w, i);
    CommittedAgree(sys, v, w, i);
  }

  lemma CommittedAgree(sys: System, v: nat, w: nat, i: nat)
    requires SystemInv(sys) && v < |sys.hosts| && w < |sys.hosts|
    requires i <= sys.hosts[v].node.commit < |sys.hosts[v].node.log|
    requires i <= sys.hosts[w].node.commit < |sys.hosts[w].node.log|
    ensures sys.hosts[v].node.log[..i + 1] == sys.hosts[w].node.log[..i + 1]
  {
    var s, t := sys.hosts[v].node, sys.hosts[w].node;
    CommittedIsSafe(sys, v, i);
    CommittedIsSafe(sys, w, i);
    InvGivesCompleteness(CoreOf(sys));
    SafesAgree(CoreOf(sys), s.log[..i + 1], s.term, t.log[..i + 1], t.term);
  }

  lemma CommittedIsSafe(sys: System, v: nat, i: nat)
    requires SystemInv(sys) && v < |sys.hosts| && i <= sys.hosts[v].node.commit < |sys.hosts[v].node.log|
    ensures Safe(sys.h, sys.hosts[v].node.log[..i + 1], sys.hosts[v].node.term)
  {
    var s := sys.hosts[v].node;
    assert ServerOk(CoreOf(sys), v);
    SafePrefix(sys.h, s.log[..i + 1], s.log[..s.commit + 1], s.term);
  }
}
