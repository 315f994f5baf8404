/**
  * Failure signatures and clusters of evals/src/trial-signature.ts, and the trial loops and verdicts of
  * evals/src/batch.ts.
  */
module Triage {
  import opened Common

  /** What the loops read of a trial result. `failReason` is the reason after blindDigits. */
  datatype Trial = Trial(
    trialId: nat, success: bool, interrupted: bool,
    failureClass: Option<string>, rule: Option<string>,
    sniffKey: Option<string>, failReason: string)

  function OrElse(o: Option<string>, default: string): string {
    if o.Some? then o.value else default
  }

  /** trialSignature: None for passes and operator interrupts. */
  function Signature(t: Trial): Option<string> {
    if t.success then None
    else if t.failureClass == Some("operator") || t.interrupted then None
    else
      var cls, rule := OrElse(t.failureClass, "model"), OrElse(t.rule, "model-default");
      if rule != "model-default" then Some(cls + "/" + rule)
      else Some(cls + "/" + rule + "#" + OrElse(t.sniffKey, "no-sniff") + "#" + t.failReason)
  }

  /** A trial that may cluster. */
  predicate IsFailure(t: Trial) {
    !t.success && !t.interrupted && t.failureClass != Some("operator")
  }

  /** What a failure is triaged by: class and rule and, for the catch-all rule, the sniff key and the blinded reason. */
  datatype Identity = Identity(cls: string, rule: string, sniff: Option<(string, string)>)

  function IdentityOf(t: Trial): Identity {
    var rule := OrElse(t.rule, "model-default");
    Identity(OrElse(t.failureClass, "model"), rule,
             if rule == "model-default" then Some((OrElse(t.sniffKey, "no-sniff"), t.failReason)) else None)
  }

  function UpTo(s: string, c: char): string {
    if s == [] || s[0] == c then [] else [s[0]] + UpTo(s[1..], c)
  }

  function Behind(s: string, c: char): string {
    if s == [] then [] else if s[0] == c then s[1..] else Behind(s[1..], c)
  }

  /** Reads a signature back. */
  function ReadSignature(text: string): Identity {
    var cls, rest := UpTo(text, '/'), Behind(text, '/');
    var rule, detail := UpTo(rest, '#'), Behind(rest, '#');
    Identity(cls, rule, if '#' in rest then Some((UpTo(detail, '#'), Behind(detail, '#'))) else None)
  }

  /** The separators occur neither in class, rule nor key. */
  predicate Plain(t: Trial) {
    && '/' !in OrElse(t.failureClass, "model")
    && '#' !in OrElse(t.rule, "model-default") && '#' !in OrElse(t.sniffKey, "no-sniff")
  }

  lemma {:induction false} SplitsAt(a: string, c: char, b: string)
    requires c !in a
    ensures UpTo(a + [c] + b, c) == a && Behind(a + [c] + b, c) == b
    decreases |a|
  {
    if a == [] {
      assert ([c] + b)[1..] == b && a + [c] + b == [c] + b;
    } else {
      SplitsAt(a[1..], c, b);
      assert (a + [c] + b)[1..] == a[1..] + [c] + b;
    }
  }

  lemma {:induction false} NoSplit(a: string, c: char)
    requires c !in a
    ensures UpTo(a, c) == a && Behind(a, c) == []
    decreases |a|
  {
    if a != [] {
      NoSplit(a[1..], c);
    }
  }

  /** A failure's signature reads back to its identity, and passes and interrupts have none. */
  lemma SignatureReadsBack(t: Trial)
    ensures Signature(t).Some? <==> IsFailure(t)
    ensures IsFailure(t) && Plain(t) ==> ReadSignature(Signature(t).value) == IdentityOf(t)
  {
    if IsFailure(t) && Plain(t) {
      var cls, rule := OrElse(t.failureClass, "model"), OrElse(t.rule, "model-default");
      var key := OrElse(t.sniffKey, "no-sniff");
      if rule == "model-default" {
        var detail := key + "#" + t.failReason;
        SplitsAt(cls, '/', rule + "#" + detail);
        SplitsAt(rule, '#', detail);
        SplitsAt(key, '#', t.failReason);
        assert cls + "/" + rule + "#" + key + "#" + t.failReason == cls + ['/'] + (rule + "#" + detail);
        assert (rule + "#" + detail)[|rule|] == '#';
      } else {
        SplitsAt(cls, '/', rule);
        NoSplit(rule, '#');
      }
    }
  }

  lemma SameIdentitySameSignature(t: Trial, u: Trial)
    requires IsFailure(t) && IsFailure(u) && IdentityOf(t) == IdentityOf(u)
    ensures Signature(t) == Signature(u)
  {
  }

  /** Two failures share a signature exactly if they agree in class and rule and, under the catch-all rule, in sniff key
      and blinded reason. */
  lemma SignatureIffIdentity(t: Trial, u: Trial)
    requires IsFailure(t) && IsFailure(u) && Plain(t) && Plain(u)
    ensures Signature(t) == Signature(u) <==> IdentityOf(t) == IdentityOf(u)
  {
    SignatureReadsBack(t);
    SignatureReadsBack(u);
    if IdentityOf(t) == IdentityOf(u) {
      SameIdentitySameSignature(t, u);
    }
  }

  // ----- runs of equal signatures -----

  /** Positions s..e carry one and the same signature. */
  ghost predicate IsRun(ts: seq<Trial>, s: int, e: int) {
    && 0 <= s < e <= |ts| && Signature(ts[s]).Some?
    && forall i :: s <= i < e ==> Signature(ts[i]) == Signature(ts[s])
  }

  ghost predicate IsMaximalRun(ts: seq<Trial>, s: int, e: int) {
    && IsRun(ts, s, e)
    && (s > 0 ==> Signature(ts[s - 1]) != Signature(ts[s]))
    && (e < |ts| ==> Signature(ts[e]) != Signature(ts[s]))
  }

  ghost predicate IsFirstCluster(ts: seq<Trial>, k: int, s: int, e: int) {
    && IsMaximalRun(ts, s, e) && e - s >= k
    && forall s', e' :: IsMaximalRun(ts, s', e') && e' - s' >= k ==> s <= s'
  }

  datatype Cluster = Cluster(signature: string, start: nat, count: nat, stopped: bool, skipped: int, trialIds: seq<nat>)

  function TrialIds(ts: seq<Trial>): (ids: seq<nat>)
    ensures |ids| == |ts| && forall i :: 0 <= i < |ts| ==> ids[i] == ts[i].trialId
  {
    seq(|ts|, i requires 0 <= i < |ts| => ts[i].trialId)
  }

  /** c describes exactly the positions s..e. */
  ghost predicate Describes(c: Cluster, ts: seq<Trial>, s: int, e: int, stopped: bool, requested: int) {
    && IsRun(ts, s, e) && Signature(ts[s]) == Some(c.signature)
    && c.start == s && c.count == e - s && c.trialIds == TrialIds(ts[s..e])
    && c.stopped == stopped && c.skipped == (if stopped then Max(0, requested - |ts|) else 0)
  }

  /** c is what the trials give: the first maximal run of at least k equal signatures, described, or None. */
  ghost predicate Reports(c: Option<Cluster>, ts: seq<Trial>, k: int, stopped: bool, requested: int) {
    && (c.None? <==> k <= 0 || forall s, e :: IsMaximalRun(ts, s, e) ==> e - s < k)
    && (c.Some? ==>
          k > 0 && exists s, e :: IsFirstCluster(ts, k, s, e) && Describes(c.value, ts, s, e, stopped, requested))
  }

  ghost predicate AllPlain(ts: seq<Trial>) {
    forall i :: 0 <= i < |ts| ==> Plain(ts[i])
  }

  /** The failure at position i is the one at position j. */
  predicate SameFailure(ts: seq<Trial>, i: nat, j: nat)
    requires i < |ts| && j < |ts|
  {
    IsFailure(ts[i]) && IsFailure(ts[j]) && IdentityOf(ts[i]) == IdentityOf(ts[j])
  }

  /** Positions s..e are failures of one identity, and the trials before and after are not that failure. */
  ghost predicate IsOneFailure(ts: seq<Trial>, s: int, e: int) {
    && 0 <= s < e <= |ts|
    && (forall i :: s <= i < e ==> SameFailure(ts, i, s))
    && (s > 0 ==> !SameFailure(ts, s - 1, s)) && (e < |ts| ==> !SameFailure(ts, e, s))
  }

  /** Runs of signatures are runs of failures. */
  lemma MaximalRunIffOneFailure(ts: seq<Trial>, s: int, e: int)
    requires AllPlain(ts)
    ensures IsMaximalRun(ts, s, e) <==> IsOneFailure(ts, s, e)
  {
    hide Signature, IdentityOf, IsFailure, Plain;
    if 0 <= s < e <= |ts| {
      forall i: nat | i < |ts|
        ensures (Signature(ts[i]) == Signature(ts[s]) && Signature(ts[s]).Some?) <==> SameFailure(ts, i, s)
      {
        SignatureReadsBack(ts[i]);
        SignatureReadsBack(ts[s]);
        if IsFailure(ts[i]) && IsFailure(ts[s]) {
          SignatureIffIdentity(ts[i], ts[s]);
        }
      }
      assert SameFailure(ts, s, s) <==> Signature(ts[s]).Some?;
    }
  }

  /** What the scan finds, said of the failures themselves. */
  lemma ClusterIsOneFailure(ts: seq<Trial>, k: int, c: Option<Cluster>, stopped: bool, requested: int)
    requires AllPlain(ts) && k > 0 && Reports(c, ts, k, stopped, requested)
    ensures c.None? <==> forall s, e :: IsOneFailure(ts, s, e) ==> e - s < k
    ensures c.Some? ==> IsOneFailure(ts, c.value.start, c.value.start + c.value.count) && c.value.count >= k
  {
    hide IsMaximalRun, IsOneFailure, IsRun;
    forall s, e ensures IsMaximalRun(ts, s, e) <==> IsOneFailure(ts, s, e) {
      MaximalRunIffOneFailure(ts, s, e);
    }
  }

  /** A run that stops inside another run's positions is that run. */
  lemma RunsAreDisjoint(ts: seq<Trial>, s: int, e: int, s': int, e': int)
    requires IsMaximalRun(ts, s, e) && IsMaximalRun(ts, s', e') && s <= s' < e
    ensures s == s' && e == e'
  {
  }

  /** detectTriageCluster: the first maximal run of at least k equal non-null signatures. */
  method DetectTriageCluster(ts: seq<Trial>, k: int, stopped: bool, requested: int) returns (c: Option<Cluster>)
    ensures Reports(c, ts, k, stopped, requested)
    // said of the failures: the cluster is one failure throughout, and its neighbours are not that failure
    ensures AllPlain(ts) && k > 0 ==>
      && (c.None? <==> forall s, e :: IsOneFailure(ts, s, e) ==> e - s < k)
      && (c.Some? ==> IsOneFailure(ts, c.value.start, c.value.start + c.value.count) && c.value.count >= k)
  {
    hide Signature, AllPlain, IsOneFailure;
    if k <= 0 { return None; }
    var runSig: Option<string> := None;
    var runStart := 0;
    var runLen := 0;
    ghost var upto := 0;
    for i := 0 to |ts|
      invariant ScanState(ts, i, k, runSig, runStart, runLen)
      invariant upto == i
    {
      var sig := Signature(ts[i]);
      if sig.Some? && sig == runSig {
        runLen := runLen + 1;
      } else {
        if runSig.Some? && runLen >= k { break; }
        ScanAdvance(ts, i, k, runSig, runStart, runLen);
        runSig := sig;
        runStart := i;
        runLen := if sig.None? then 0 else 1;
      }
      upto := i + 1;
    }
    ScanEnds(ts, upto, k, runSig, runStart, runLen);
    if runSig.None? || runLen < k {
      c := None;
      if AllPlain(ts) { ClusterIsOneFailure(ts, k, c, stopped, requested); }
      return;
    }
    var members := ts[runStart..runStart + runLen];
    c := Some(Cluster(runSig.value, runStart, runLen, stopped,
                      if stopped then Max(0, requested - |ts|) else 0, TrialIds(members)));
    assert Describes(c.value, ts, runStart, runStart + runLen, stopped, requested);
    if AllPlain(ts) { ClusterIsOneFailure(ts, k, c, stopped, requested); }
  }

  /** Before position i: the open run is runStart..i, and no earlier run was long enough. */
  ghost predicate ScanState(ts: seq<Trial>, i: nat, k: int, runSig: Option<string>, runStart: nat, runLen: nat) {
    && i <= |ts| && k > 0
    && (i == 0 ==> runSig.None? && runLen == 0)
    && (i > 0 && runSig.None? ==> runLen == 0 && runStart == i - 1 && Signature(ts[i - 1]).None?)
    && (runSig.Some? ==>
          && i > 0 && runStart + runLen == i && IsRun(ts, runStart, i) && Signature(ts[runStart]) == runSig
          && (runStart > 0 ==> Signature(ts[runStart - 1]) != runSig))
    && (forall s, e :: IsMaximalRun(ts, s, e) && e - s >= k ==> (if runSig.Some? then runStart else i) <= s)
  }

  lemma ScanAdvance(ts: seq<Trial>, i: nat, k: int, runSig: Option<string>, runStart: nat, runLen: nat)
    requires ScanState(ts, i, k, runSig, runStart, runLen) && i < |ts|
    requires Signature(ts[i]).None? || Signature(ts[i]) != runSig
    requires runSig.None? || runLen < k
    ensures var sig := Signature(ts[i]);
      ScanState(ts, i + 1, k, sig, i, if sig.None? then 0 else 1)
  {
  }

  lemma ScanEnds(ts: seq<Trial>, i: nat, k: int, runSig: Option<string>, runStart: nat, runLen: nat)
    requires ScanState(ts, i, k, runSig, runStart, runLen)
    requires i < |ts| ==> Signature(ts[i]) != runSig && runSig.Some? && runLen >= k
    ensures (runSig.None? || runLen < k) <==> forall s, e :: IsMaximalRun(ts, s, e) ==> e - s < k
    ensures runSig.Some? && runLen >= k ==> IsFirstCluster(ts, k, runStart, runStart + runLen)
  {
    if runSig.Some? {
      assert IsMaximalRun(ts, runStart, i);
      if runLen < k {
        forall s, e | IsMaximalRun(ts, s, e) ensures e - s < k {
          if e - s >= k { RunsAreDisjoint(ts, runStart, i, s, e); }
        }
      }
    }
  }

  // ----- the online streak -----

  /** Length of the run of one signature at the end of ts. */
  function Streak(ts: seq<Trial>): (n: nat)
    ensures n <= |ts|
    decreases |ts|
  {
    var last := |ts| - 1;
    if ts == [] || Signature(ts[last]).None? then 0
    else if last > 0 && Signature(ts[last - 1]) == Signature(ts[last]) then 1 + Streak(ts[..last])
    else 1
  }

  lemma {:induction false} StreakIsMaximalRun(ts: seq<Trial>)
    requires Streak(ts) > 0
    ensures IsMaximalRun(ts, |ts| - Streak(ts), |ts|)
    decreases |ts|
  {
    var last := |ts| - 1;
    if last > 0 && Signature(ts[last - 1]) == Signature(ts[last]) {
      StreakIsMaximalRun(ts[..last]);
      var s := |ts| - Streak(ts);
      assert ts[..last][s] == ts[s] && ts[..last][last - 1] == ts[last - 1];
      assert s > 0 ==> ts[..last][s - 1] == ts[s - 1];
      forall i | s <= i < |ts| ensures Signature(ts[i]) == Signature(ts[s]) {
        assert i < last ==> ts[..last][i] == ts[i];
      }
    }
  }

  /** A run ending at the end of ts is part of the streak. */
  lemma {:induction false} RunAtEndIsStreak(ts: seq<Trial>, s: int)
    requires IsRun(ts, s, |ts|)
    ensures Streak(ts) >= |ts| - s
    decreases |ts|
  {
    var last := |ts| - 1;
    if s < last {
      assert Signature(ts[last - 1]) == Signature(ts[last]);
      assert IsRun(ts[..last], s, last) by {
        assert forall i :: s <= i < last ==> ts[..last][i] == ts[i];
      }
      RunAtEndIsStreak(ts[..last], s);
    }
  }

  /** No shorter list of these trials had already reached the threshold. */
  ghost predicate NotReachedBefore(ts: seq<Trial>, k: int) {
    forall m :: 0 <= m < |ts| ==> Streak(ts[..m]) < k
  }

  /** If the threshold was not reached before, a maximal run of k trials is exactly the last k. */
  lemma ClusterIsTheEnd(ts: seq<Trial>, k: int, s: int, e: int)
    requires k > 0 && NotReachedBefore(ts, k) && IsMaximalRun(ts, s, e) && e - s >= k
    ensures e == |ts| && e - s == k && Streak(ts) >= k
  {
    var m := s + k;
    assert IsRun(ts[..m], s, m) by {
      assert forall i :: s <= i < m ==> ts[..m][i] == ts[i];
    }
    RunAtEndIsStreak(ts[..m], s);
    assert m == |ts| ==> ts[..m] == ts;
  }

  /** The live streak and the offline scan agree. */
  lemma OnlineAgreesWithOffline(ts: seq<Trial>, k: int)
    requires k > 0 && NotReachedBefore(ts, k)
    ensures Streak(ts) >= k <==> exists s, e :: IsMaximalRun(ts, s, e) && e - s >= k
    ensures Streak(ts) >= k ==> Streak(ts) == k
  {
    if Streak(ts) >= k {
      StreakIsMaximalRun(ts);
      ClusterIsTheEnd(ts, k, |ts| - Streak(ts), |ts|);
    }
    if s, e :| IsMaximalRun(ts, s, e) && e - s >= k {
      ClusterIsTheEnd(ts, k, s, e);
    }
  }

  // ----- a batch -----

  /** How a trial promise settles. */
  datatype Slot = Fulfilled(t: Trial) | Rejected

  datatype Status = Complete | Incomplete | Interrupted

  datatype Batch = Batch(status: Status, requested: int, trials: nat, successes: nat, triage: Option<Cluster>)

  function Recorded(slots: seq<Slot>): (ts: seq<Trial>)
    ensures |ts| <= |slots|
    decreases |slots|
  {
    if slots == [] then []
    else
      var last := slots[|slots| - 1];
      Recorded(slots[..|slots| - 1]) + if last.Fulfilled? then [last.t] else []
  }

  function Successes(ts: seq<Trial>): (n: nat)
    ensures n <= |ts|
    decreases |ts|
  {
    if ts == [] then 0 else Successes(ts[..|ts| - 1]) + if ts[|ts| - 1].success then 1 else 0
  }

  ghost predicate AllPassed(slots: seq<Slot>) {
    forall i :: 0 <= i < |slots| ==> slots[i].Fulfilled? && slots[i].t.success
  }

  /** The abort signal as read at a moment: once raised it stays raised. */
  predicate Aborted(abortAt: Option<nat>, clock: nat) {
    abortAt.Some? && abortAt.value <= clock
  }

  lemma {:induction false} AllSuccessful(ts: seq<Trial>)
    ensures Successes(ts) == |ts| <==> forall i :: 0 <= i < |ts| ==> ts[i].success
    decreases |ts|
  {
    if ts != [] {
      var n := |ts| - 1;
      AllSuccessful(ts[..n]);
      assert forall i :: 0 <= i < n ==> ts[..n][i] == ts[i];
    }
  }

  lemma AllPassedButLast(slots: seq<Slot>)
    requires slots != []
    ensures var n := |slots| - 1;
      AllPassed(slots) <==> AllPassed(slots[..n]) && slots[n].Fulfilled? && slots[n].t.success
  {
  }

  lemma SuccessesOfPush(ts: seq<Trial>, t: Trial)
    ensures Successes(ts + [t]) == Successes(ts) + (if t.success then 1 else 0)
  {
  }

  lemma RecordedButLast(slots: seq<Slot>)
    requires slots != []
    ensures var n := |slots| - 1; var ts := Recorded(slots[..n]);
      && |Recorded(slots)| == |ts| + (if slots[n].Fulfilled? then 1 else 0)
      && Successes(Recorded(slots)) == Successes(ts) + (if slots[n].Fulfilled? && slots[n].t.success then 1 else 0)
  {
    hide Successes;
    var n := |slots| - 1;
    if slots[n].Fulfilled? {
      SuccessesOfPush(Recorded(slots[..n]), slots[n].t);
    } else {
      assert Recorded(slots[..n]) + [] == Recorded(slots[..n]);
    }
  }

  lemma {:induction false} AllRecorded(slots: seq<Slot>)
    ensures AllPassed(slots) <==> |Recorded(slots)| == |slots| && Successes(Recorded(slots)) == |slots|
    decreases |slots|
  {
    if slots != [] {
      hide AllPassed, Recorded, Successes;
      AllRecorded(slots[..|slots| - 1]);
      AllPassedButLast(slots);
      RecordedButLast(slots);
    }
  }

  /** A list with a cluster contains a failure. */
  lemma ClusterHasAFailure(ts: seq<Trial>, s: int, e: int)
    requires IsRun(ts, s, e)
    ensures Successes(ts) < |ts|
  {
  }

  /** What a run of the loop establishes, `ran` slots having been started and the last abort read being `aborted`. */
  ghost predicate RanTo(slots: seq<Slot>, ran: nat, ts: seq<Trial>, triageActive: bool, k: int, aborted: bool) {
    && ran <= |slots| && ts == Recorded(slots[..ran])
    && (triageActive ==> NotReachedBefore(ts, k))
    && (!aborted ==> ran == |slots| || (triageActive && Streak(ts) >= k))
  }

  /** Pushing one settled promise, and what it does to the streak. */
  lemma PushSettled(slots: seq<Slot>, i: nat, ts: seq<Trial>)
    requires i < |slots| && ts == Recorded(slots[..i])
    ensures slots[i].Fulfilled? ==> Recorded(slots[..i + 1]) == ts + [slots[i].t]
    ensures slots[i].Rejected? ==> Recorded(slots[..i + 1]) == ts
  {
    assert slots[..i + 1][..i] == slots[..i];
  }

  lemma PushStreak(ts: seq<Trial>, t: Trial, k: int)
    ensures Streak(ts + [t]) ==
      if Signature(t).None? then 0
      else if ts != [] && Signature(ts[|ts| - 1]) == Signature(t) then 1 + Streak(ts) else 1
    ensures NotReachedBefore(ts, k) && Streak(ts) < k ==> NotReachedBefore(ts + [t], k)
  {
    var us := ts + [t];
    assert us[..|ts|] == ts;
    forall m | 0 <= m < |us| && NotReachedBefore(ts, k) && Streak(ts) < k ensures Streak(us[..m]) < k {
      assert m < |ts| ==> us[..m] == ts[..m];
    }
  }

  lemma NothingRecorded(slots: seq<Slot>, k: int)
    ensures Recorded(slots[..0]) == [] && Streak([]) == 0 && NotReachedBefore([], k)
  {
  }

  /** streakSig and streakLen of the loop are the signature and length of the current streak. */
  ghost predicate StreakState(ts: seq<Trial>, sig: Option<string>, len: nat) {
    len == Streak(ts) && sig == (if ts == [] then None else Signature(ts[|ts| - 1])) && (sig.None? ==> len == 0)
  }

  /** The trial loop of runBatch, from trial 0 to the break or the end. */
  method RunTrials(slots: seq<Slot>, parallel: nat, k: int, abortAt: Option<nat>, start: nat)
    returns (ts: seq<Trial>, streakSig: Option<string>, streakLen: nat, clock: nat, ghost ran: nat)
    requires parallel >= 1
    ensures clock >= start && RanTo(slots, ran, ts, parallel == 1 && k > 0, k, Aborted(abortAt, clock))
    ensures parallel == 1 && k > 0 ==> StreakState(ts, streakSig, streakLen)
    ensures Aborted(abortAt, start) ==> ran == 0
  {
    hide Streak, Recorded, Signature, NotReachedBefore;
    NothingRecorded(slots, k);
    clock := start;
    ts, streakSig, streakLen := [], None, 0;
    ran := 0;
    var triageActive := parallel == 1 && k > 0;
    var i := 0;
    while i < |slots|
      invariant clock >= start && ran == Min(i, |slots|) && i >= 0
      invariant Aborted(abortAt, start) ==> ran == 0
      invariant ts == Recorded(slots[..ran])
      invariant triageActive ==> NotReachedBefore(ts, k) && Streak(ts) < k && StreakState(ts, streakSig, streakLen)
      decreases |slots| - i
    {
      var before := Aborted(abortAt, clock);
      if before { return; }
      clock := clock + 1;
      var chunk := Min(parallel, |slots| - i);
      for j := 0 to chunk
        invariant ran == i + j && ts == Recorded(slots[..ran])
        invariant triageActive ==> NotReachedBefore(ts, k) && StreakState(ts, streakSig, streakLen)
        invariant triageActive && j == 0 ==> Streak(ts) < k
      {
        PushSettled(slots, ran, ts);
        if slots[i + j].Fulfilled? {
          var t := slots[i + j].t;
          PushStreak(ts, t, k);
          ts := ts + [t];
          if triageActive {
            var sig := Signature(t);
            if sig.None? {
              streakSig, streakLen := None, 0;
            } else if sig == streakSig {
              streakLen := streakLen + 1;
            } else {
              streakSig, streakLen := sig, 1;
            }
          }
        }
        ran := ran + 1;
      }
      var after := Aborted(abortAt, clock);
      if after { return; }
      clock := clock + 1;
      if triageActive && streakSig.Some? && streakLen >= k { return; }
      i := i + parallel;
    }
  }

  /** runBatch at the level of counts, status and triage. `slots` says how each requested trial would settle. */
  method RunBatch(slots: seq<Slot>, count: int, parallel: int, k: int, abortAt: Option<nat>, start: nat)
    returns (b: Batch, ts: seq<Trial>, clock: nat, ghost ran: nat)
    requires |slots| == Max(0, count)
    ensures clock >= start
    ensures RanTo(slots, ran, ts, parallel <= 1 && k > 0, k, Aborted(abortAt, clock))
    ensures Aborted(abortAt, start) ==> ran == 0
    ensures b.requested == count && b.trials == |ts| && b.successes == Successes(ts)
    ensures Reports(b.triage, ts, k, parallel <= 1 && k > 0 && Streak(ts) >= k, count)
    // online and offline triage agree, and the cluster is then the last k recorded trials
    ensures parallel <= 1 && k > 0 ==> (b.triage.Some? <==> Streak(ts) >= k)
    ensures parallel <= 1 && k > 0 && b.triage.Some? ==> Describes(b.triage.value, ts, |ts| - k, |ts|, true, count)
    ensures b.triage.Some? ==> (b.triage.value.stopped <==> parallel <= 1) && b.successes < b.trials
    // the trials recorded and those skipped make up those requested
    ensures b.triage.Some? ==>
      if parallel <= 1 then b.trials + b.triage.value.skipped == count else b.triage.value.skipped == 0
    // a batch is triaged exactly if k trials in a row were one failure, and stopped early only by the last k being it
    ensures AllPlain(ts) && k > 0 ==> (b.triage.Some? <==> exists s, e :: IsOneFailure(ts, s, e) && e - s >= k)
    ensures AllPlain(ts) && parallel <= 1 && k > 0 && b.triage.Some? ==> IsOneFailure(ts, |ts| - k, |ts|)
    ensures b.status == Complete <==>
      !Aborted(abortAt, clock) && ts != [] && (|ts| == count || (parallel <= 1 && k > 0 && Streak(ts) >= k))
    // a green batch is a full one, and a full one is green
    ensures IsSuccessfulBatch(b) <==> !Aborted(abortAt, clock) && count > 0 && AllPassed(slots)
  {
    hide AllPlain, IsOneFailure, Reports, Describes, Streak, Successes, Recorded, NotReachedBefore;
    var par := Max(1, parallel);
    var streakSig, streakLen;
    ts, streakSig, streakLen, clock, ran := RunTrials(slots, par, k, abortAt, start);
    var triageActive := par == 1 && k > 0;
    var stopped := triageActive && streakSig.Some? && streakLen >= k;
    var triage := DetectTriageCluster(ts, k, stopped, count);
    BatchTriage(ts, k, stopped, count, triage, triageActive);
    var hasFullCoverage := |ts| == count || (triage.Some? && triage.value.stopped);
    var interrupted := Aborted(abortAt, clock);
    var status := if interrupted then Interrupted
                  else if |ts| == 0 || !hasFullCoverage then Incomplete else Complete;
    b := Batch(status, count, |ts|, Successes(ts), triage);
    BatchGreen(slots, count, ts, ran, triageActive, k, interrupted);
  }

  /** isSuccessfulBatch. */
  predicate IsSuccessfulBatch(b: Batch) {
    b.status == Complete && b.trials > 0 && b.successes == b.trials
  }

  lemma BatchTriage(ts: seq<Trial>, k: int, stopped: bool, count: int, triage: Option<Cluster>, triageActive: bool)
    requires Reports(triage, ts, k, stopped, count)
    requires triageActive ==> k > 0 && NotReachedBefore(ts, k) && (stopped <==> Streak(ts) >= k)
    requires !triageActive ==> !stopped
    ensures triageActive ==> (triage.Some? <==> stopped)
    ensures triageActive && triage.Some? ==> Describes(triage.value, ts, |ts| - k, |ts|, true, count)
    ensures triage.Some? ==> k > 0 && triage.value.stopped == stopped && Successes(ts) < |ts|
    ensures triage.Some? ==> triage.value.skipped == if stopped then Max(0, count - |ts|) else 0
  {
    if triage.Some? {
      var s, e :| IsFirstCluster(ts, k, s, e) && Describes(triage.value, ts, s, e, stopped, count);
      ClusterHasAFailure(ts, s, e);
      if triageActive { ClusterIsTheEnd(ts, k, s, e); }
    }
    if triageActive { OnlineAgreesWithOffline(ts, k); }
  }

  lemma BatchGreen(slots: seq<Slot>, count: int, ts: seq<Trial>, ran: nat, triageActive: bool, k: int, aborted: bool)
    requires |slots| == Max(0, count) && RanTo(slots, ran, ts, triageActive, k, aborted) && (triageActive ==> k > 0)
    ensures !aborted && |ts| > 0 && Successes(ts) == |ts| && |ts| == count
      <==> !aborted && count > 0 && AllPassed(slots)
  {
    assert slots[..|slots|] == slots;
    AllRecorded(slots);
    AllSuccessful(ts);
    if !aborted && AllPassed(slots) && ran < |slots| {
      StreakIsMaximalRun(ts);
    }
  }

  // ----- a matrix -----

  /** One planned scenario: how many trials it suggests, and how each would settle. */
  datatype Cell = Cell(scenarioId: string, suggested: Option<int>, slots: seq<Slot>)

  datatype Options = Options(count: int, countStrict: bool, parallel: int, k: int)

  datatype CellSummary = CellSummary(scenarioId: string, trials: nat, successes: nat, triage: Option<Cluster>)

  datatype Matrix = Matrix(status: Status, scenarios: seq<CellSummary>, totalTrials: nat, totalSuccesses: nat)

  /** capTrials. */
  function Cap(o: Options, cell: Cell): int {
    if o.countStrict || cell.suggested.None? then o.count else Min(o.count, cell.suggested.value)
  }

  /** A strict count stands; otherwise a suggestion can only lower it. */
  lemma PlannedTrials(o: Options, cell: Cell, n: int)
    ensures n <= Cap(o, cell) <==>
      n <= o.count && (o.countStrict || cell.suggested.None? || n <= cell.suggested.value)
  {
  }

  function TotalTrials(cs: seq<CellSummary>): nat {
    if cs == [] then 0 else TotalTrials(cs[..|cs| - 1]) + cs[|cs| - 1].trials
  }

  function TotalSuccesses(cs: seq<CellSummary>): nat {
    if cs == [] then 0 else TotalSuccesses(cs[..|cs| - 1]) + cs[|cs| - 1].successes
  }

  /** Totals are equal only if every cell is. */
  lemma {:induction false} EqualTotals(cs: seq<CellSummary>)
    requires forall i :: 0 <= i < |cs| ==> cs[i].successes <= cs[i].trials
    ensures TotalSuccesses(cs) <= TotalTrials(cs)
    ensures TotalSuccesses(cs) == TotalTrials(cs) <==> forall i :: 0 <= i < |cs| ==> cs[i].successes == cs[i].trials
    ensures TotalTrials(cs) > 0 <==> exists i :: 0 <= i < |cs| && cs[i].trials > 0
    decreases |cs|
  {
    if cs != [] {
      var n := |cs| - 1;
      assert forall i :: 0 <= i < n ==> cs[..n][i] == cs[i];
      EqualTotals(cs[..n]);
    }
  }

  /** The coverage test of one cell. */
  predicate Covered(o: Options, cell: Cell, c: CellSummary) {
    c.scenarioId == cell.scenarioId && (c.trials == Cap(o, cell) || (c.triage.Some? && c.triage.value.stopped))
  }

  /** The cell ran every trial asked of it and every one passed. */
  ghost predicate FullyPassed(o: Options, cell: Cell) {
    Cap(o, cell) >= 0 && AllPassed(cell.slots)
  }

  /** c sums up the trials ts that `ran` slots of the cell recorded, `aborted` being the abort signal afterwards. */
  ghost predicate SumsUp(o: Options, cell: Cell, c: CellSummary, ts: seq<Trial>, ran: nat, aborted: bool) {
    && RanTo(cell.slots, ran, ts, o.parallel <= 1 && o.k > 0, o.k, aborted)
    && c.scenarioId == cell.scenarioId && c.trials == |ts| && c.successes == Successes(ts)
    && Reports(c.triage, ts, o.k, o.parallel <= 1 && o.k > 0 && Streak(ts) >= o.k, Cap(o, cell))
  }

  /** What one batch leaves in the matrix summary. */
  ghost predicate CellDone(o: Options, cell: Cell, c: CellSummary, aborted: bool) {
    exists ts, ran :: SumsUp(o, cell, c, ts, ran, aborted)
  }

  /** Every cell run so far is done, as far as an abort seen by now allows. */
  ghost predicate CellsDone(o: Options, cells: seq<Cell>, cs: seq<CellSummary>, aborted: bool) {
    |cs| <= |cells| && forall i :: 0 <= i < |cs| ==> CellDone(o, cells[i], cs[i], aborted)
  }

  lemma CellsStayDone(o: Options, cells: seq<Cell>, cs: seq<CellSummary>, before: bool, after: bool)
    requires CellsDone(o, cells, cs, before) && (before ==> after)
    ensures CellsDone(o, cells, cs, after)
  {
    hide Cap, Reports, Streak, Recorded, Successes;
    forall i | 0 <= i < |cs| ensures CellDone(o, cells[i], cs[i], after) {
      var ts, ran :| SumsUp(o, cells[i], cs[i], ts, ran, before);
      assert SumsUp(o, cells[i], cs[i], ts, ran, after);
    }
  }

  lemma OneMoreDone(o: Options, cells: seq<Cell>, cs: seq<CellSummary>, c: CellSummary, aborted: bool)
    requires CellsDone(o, cells, cs, aborted) && |cs| < |cells| && CellDone(o, cells[|cs|], c, aborted)
    ensures CellsDone(o, cells, cs + [c], aborted)
  {
  }

  /** Left to itself the cell comes to its end: all its trials record a result, or k in a row are one failure first. */
  ghost predicate Settles(o: Options, cell: Cell) {
    || (Cap(o, cell) >= 0 && forall i :: 0 <= i < |cell.slots| ==> cell.slots[i].Fulfilled?)
    || (o.parallel <= 1 && o.k > 0
        && exists n: nat :: n <= |cell.slots| && Streak(Recorded(cell.slots[..n])) >= o.k)
  }

  ghost predicate RecordsATrial(cell: Cell) {
    exists i :: 0 <= i < |cell.slots| && cell.slots[i].Fulfilled?
  }

  lemma {:induction false} RecordedAll(slots: seq<Slot>)
    ensures |Recorded(slots)| == |slots| <==> forall i :: 0 <= i < |slots| ==> slots[i].Fulfilled?
    ensures Recorded(slots) != [] <==> exists i :: 0 <= i < |slots| && slots[i].Fulfilled?
    decreases |slots|
  {
    if slots != [] {
      var n := |slots| - 1;
      RecordedAll(slots[..n]);
      assert forall i :: 0 <= i < n ==> slots[..n][i] == slots[i];
    }
  }

  lemma {:induction false} RecordedPrefix(slots: seq<Slot>, n: nat)
    requires n <= |slots|
    ensures Recorded(slots[..n]) <= Recorded(slots)
    decreases |slots|
  {
    if n == |slots| {
      assert slots[..n] == slots;
    } else {
      RecordedPrefix(slots[..|slots| - 1], n);
      assert slots[..|slots| - 1][..n] == slots[..n];
    }
  }

  /** A cell is stopped exactly if its streak reached k. */
  lemma StoppedIff(o: Options, cell: Cell, c: CellSummary, ts: seq<Trial>, ran: nat, aborted: bool)
    requires SumsUp(o, cell, c, ts, ran, aborted)
    ensures c.triage.Some? && c.triage.value.stopped <==> o.parallel <= 1 && o.k > 0 && Streak(ts) >= o.k
    ensures c.triage.Some? ==> c.successes < c.trials
  {
    if o.parallel <= 1 && o.k > 0 && Streak(ts) >= o.k {
      StreakIsMaximalRun(ts);
    }
    if c.triage.Some? {
      var s, e :| IsFirstCluster(ts, o.k, s, e);
      ClusterHasAFailure(ts, s, e);
    }
  }

  /** Without an abort a cell is covered exactly if it settles, and only a cell without any result records nothing. */
  lemma CoveredIffSettles(o: Options, cell: Cell, c: CellSummary, ts: seq<Trial>, ran: nat)
    requires |cell.slots| == Max(0, Cap(o, cell)) && SumsUp(o, cell, c, ts, ran, false)
    ensures Covered(o, cell, c) <==> Settles(o, cell)
    ensures c.trials > 0 <==> RecordsATrial(cell)
  {
    hide Streak, Recorded, Successes, Reports;
    StoppedIff(o, cell, c, ts, ran, false);
    var slots := cell.slots;
    assert slots[..|slots|] == slots;
    RecordedAll(slots);
    RecordedAll(slots[..ran]);
    RecordedPrefix(slots, ran);
    if ran == |slots| && o.k > 0 {
      forall n: nat | n <= |slots| && Streak(Recorded(slots[..n])) >= o.k && o.parallel <= 1
        ensures Streak(ts) >= o.k
      {
        RecordedPrefix(slots, n);
        var m := |Recorded(slots[..n])|;
        assert ts[..m] == Recorded(slots[..n]);
        assert m == |ts| ==> ts[..m] == ts;
      }
    }
  }

  /** A covered cell without a failure ran and passed everything, and such a cell is covered if nothing is aborted. */
  lemma CellGreen(o: Options, cell: Cell, c: CellSummary, ts: seq<Trial>, ran: nat, aborted: bool)
    requires |cell.slots| == Max(0, Cap(o, cell)) && SumsUp(o, cell, c, ts, ran, aborted)
    ensures c.successes <= c.trials
    ensures Covered(o, cell, c) && c.successes == c.trials ==> FullyPassed(o, cell) && c.trials == Cap(o, cell)
    ensures !aborted && FullyPassed(o, cell) ==> Covered(o, cell, c) && c.trials == c.successes == Cap(o, cell)
  {
    hide Streak, Recorded, Successes, Reports;
    StoppedIff(o, cell, c, ts, ran, aborted);
    assert cell.slots[..|cell.slots|] == cell.slots;
    AllRecorded(cell.slots);
    AllRecorded(cell.slots[..ran]);
  }

  lemma CellIsDone(o: Options, cell: Cell, c: CellSummary, ts: seq<Trial>, ran: nat, aborted: bool)
    requires SumsUp(o, cell, c, ts, ran, aborted)
    ensures CellDone(o, cell, c, aborted)
  {
  }

  lemma CellFacts(o: Options, cell: Cell, c: CellSummary, aborted: bool)
    requires |cell.slots| == Max(0, Cap(o, cell)) && CellDone(o, cell, c, aborted)
    ensures c.successes <= c.trials
    ensures Covered(o, cell, c) && c.successes == c.trials ==> FullyPassed(o, cell) && c.trials == Cap(o, cell)
    ensures !aborted && FullyPassed(o, cell) ==> Covered(o, cell, c) && c.trials == c.successes == Cap(o, cell)
    ensures !aborted ==>
      (Covered(o, cell, c) <==> Settles(o, cell)) && (c.trials > 0 <==> RecordsATrial(cell))
  {
    hide Covered, FullyPassed, Settles, RecordsATrial, SumsUp;
    var ts, ran :| SumsUp(o, cell, c, ts, ran, aborted);
    CellGreen(o, cell, c, ts, ran, aborted);
    if !aborted { CoveredIffSettles(o, cell, c, ts, ran); }
  }

  /** runMatrix; None where it throws on an empty scenario list. */
  method RunMatrix(cells: seq<Cell>, o: Options, abortAt: Option<nat>, start: nat)
    returns (r: Option<Matrix>, clock: nat)
    requires forall i :: 0 <= i < |cells| ==> |cells[i].slots| == Max(0, Cap(o, cells[i]))
    ensures r.None? <==> cells == []
    ensures r.Some? ==> var m := r.value;
      && CellsDone(o, cells, m.scenarios, Aborted(abortAt, clock))
      && m.totalTrials == TotalTrials(m.scenarios) && m.totalSuccesses == TotalSuccesses(m.scenarios)
      && (m.status == Interrupted <==> Aborted(abortAt, clock))
      && (!Aborted(abortAt, clock) ==> |m.scenarios| == |cells|)
      // complete exactly when nothing was aborted, every cell came to its end, and something was recorded
      && (m.status == Complete <==>
            && !Aborted(abortAt, clock)
            && (forall i :: 0 <= i < |cells| ==> Settles(o, cells[i]))
            && (exists i :: 0 <= i < |cells| && RecordsATrial(cells[i])))
    // green exactly when nothing was aborted and every requested scenario ran and passed all its requested trials
    ensures r.Some? ==>
      (IsSuccessfulMatrix(r.value) <==>
         && !Aborted(abortAt, clock)
         && (forall i :: 0 <= i < |cells| ==> FullyPassed(o, cells[i]))
         && (exists i :: 0 <= i < |cells| && Cap(o, cells[i]) > 0))
  {
    hide AllPassed, Cap, Covered, CellDone, CellsDone, TotalTrials, TotalSuccesses, FullyPassed, Settles,
      RecordsATrial, Reports, RanTo;
    clock := start;
    if cells == [] { return None, clock; }
    var perScenario: seq<CellSummary> := [];
    NoCells(o, cells, Aborted(abortAt, clock));
    var n := 0;
    while n < |cells|
      invariant 0 <= n <= |cells| && |perScenario| == n && clock >= start
      invariant CellsDone(o, cells, perScenario, Aborted(abortAt, clock))
      decreases |cells| - n
    {
      if Aborted(abortAt, clock) { break; }
      clock := clock + 1;
      var b, ts, after, ran := RunBatch(cells[n].slots, Cap(o, cells[n]), o.parallel, o.k, abortAt, clock);
      var c := CellSummary(cells[n].scenarioId, b.trials, b.successes, b.triage);
      CellIsDone(o, cells[n], c, ts, ran, Aborted(abortAt, after));
      CellsStayDone(o, cells, perScenario, Aborted(abortAt, clock - 1), Aborted(abortAt, after));
      OneMoreDone(o, cells, perScenario, c, Aborted(abortAt, after));
      perScenario := perScenario + [c];
      clock := after;
      n := n + 1;
      if Aborted(abortAt, clock) { break; }
      clock := clock + 1;
      CellsStayDone(o, cells, perScenario, Aborted(abortAt, after), Aborted(abortAt, clock));
    }
    var hasFullCoverage :=
      |perScenario| == |cells| && forall i :: 0 <= i < |cells| ==> Covered(o, cells[i], perScenario[i]);
    var interrupted := Aborted(abortAt, clock);
    var status := if interrupted then Interrupted
                  else if TotalTrials(perScenario) == 0 || !hasFullCoverage then Incomplete else Complete;
    r := Some(Matrix(status, perScenario, TotalTrials(perScenario), TotalSuccesses(perScenario)));
    MatrixVerdict(cells, o, perScenario, interrupted);
  }

  lemma NoCells(o: Options, cells: seq<Cell>, aborted: bool)
    ensures CellsDone(o, cells, [], aborted)
  {
  }

  /** isSuccessfulMatrix. */
  predicate IsSuccessfulMatrix(m: Matrix) {
    m.status == Complete && m.totalTrials > 0 && m.totalSuccesses == m.totalTrials
  }

  lemma MatrixVerdict(cells: seq<Cell>, o: Options, cs: seq<CellSummary>, aborted: bool)
    requires forall i :: 0 <= i < |cells| ==> |cells[i].slots| == Max(0, Cap(o, cells[i]))
    requires CellsDone(o, cells, cs, aborted) && (!aborted ==> |cs| == |cells|)
    ensures !aborted ==>
      ((forall i :: 0 <= i < |cells| ==> Covered(o, cells[i], cs[i])) && TotalTrials(cs) > 0
       <==> (forall i :: 0 <= i < |cells| ==> Settles(o, cells[i]))
            && (exists i :: 0 <= i < |cells| && RecordsATrial(cells[i])))
    ensures
      (!aborted && |cs| == |cells| && (forall i :: 0 <= i < |cells| ==> Covered(o, cells[i], cs[i]))
       && TotalTrials(cs) > 0 && TotalSuccesses(cs) == TotalTrials(cs))
      <==>
      (!aborted && (forall i :: 0 <= i < |cells| ==> FullyPassed(o, cells[i]))
       && (exists i :: 0 <= i < |cells| && Cap(o, cells[i]) > 0))
  {
    hide Covered, FullyPassed, Settles, RecordsATrial, CellDone, Cap, TotalTrials, TotalSuccesses;
    forall i | 0 <= i < |cs|
      ensures cs[i].successes <= cs[i].trials
      ensures Covered(o, cells[i], cs[i]) && cs[i].successes == cs[i].trials ==>
        FullyPassed(o, cells[i]) && cs[i].trials == Cap(o, cells[i])
      ensures !aborted && FullyPassed(o, cells[i]) ==>
        Covered(o, cells[i], cs[i]) && cs[i].trials == cs[i].successes == Cap(o, cells[i])
      ensures !aborted ==> (Covered(o, cells[i], cs[i]) <==> Settles(o, cells[i]))
      ensures !aborted ==> (cs[i].trials > 0 <==> RecordsATrial(cells[i]))
    {
      CellFacts(o, cells[i], cs[i], aborted);
    }
    EqualTotals(cs);
  }
}
