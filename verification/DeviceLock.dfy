/**
  * The cross-process device lock of evals/src/eval-device-lock.ts.
  *
  * Any number of processes share one file system and take steps in any order; a process may
  * die between any two steps. Every file-system access goes through the lock PATH, as in the
  * source: a step that writes or removes acts on whatever directory is there at that moment.
  */
module DeviceLock {
  import opened Common

  type Pid = nat
  type OwnerId = nat

  /** The part of owner.json the protocol reads. */
  datatype Record = Record(pid: Pid, id: OwnerId)

  /** A lock directory; `record` is None while owner.json is missing or malformed.
      `gen` and `maker` name the mkdir that created it: no step branches on them. */
  datatype Dir = Dir(gen: OwnerId, maker: Pid, record: Option<Record>)

  /** Where a process stands in acquireEvalDeviceLock / removeIfOwned. */
  datatype Pc =
    | Idle
    | Contending(retries: nat)                // top of the retry loop, about to mkdir
    | Blocked(retries: nat)                   // mkdir failed with EEXIST
    | Inspected(seen: Record, retries: nat)   // owner read, liveness not yet tested
    | Reclaiming(victim: Record, retries: nat)// owner found dead, about to rename
    | Created(id: OwnerId)                    // mkdir done, owner.json not written
    | Holding(id: OwnerId)                    // lease returned to the caller
    | Removing(id: OwnerId)                   // about to delete owner.json
    | Emptied(id: OwnerId)                    // owner.json gone, about to rmdir
    | Dead

  /** `tombs[k]` is the directory at the quarantine path named after owner k. */
  datatype State = State(lock: Option<Dir>, tombs: map<OwnerId, Dir>, procs: map<Pid, Pc>, used: set<OwnerId>)

  datatype Event =
    | Start(p: Pid)
    | Acquire(p: Pid)
    | Mkdir(p: Pid, id: OwnerId)
    | Write(p: Pid)
    | WriteFails(p: Pid)
    | Inspect(p: Pid)       // read the owner and test its liveness in one step
    | ReadOwner(p: Pid)     // the same two, split
    | TestOwner(p: Pid)
    | Rename(p: Pid)
    | Release(p: Pid)
    | Unlink(p: Pid)
    | Rmdir(p: Pid)
    | CleanupFails(p: Pid)
    | Die(p: Pid)

  const Init := State(None, map[], map[], {})
  const MAX_RECOVERY_RETRIES: nat := 8

  predicate Alive(s: State, p: Pid) {
    p in s.procs && s.procs[p] != Dead
  }

  /** A tombstone with a record, which makes a rename onto it fail: rename replaces an empty directory. */
  predicate Sealed(s: State, k: OwnerId) {
    k in s.tombs && s.tombs[k].record.Some?
  }

  predicate LockRecords(s: State, r: Record) {
    s.lock.Some? && s.lock.value.record == Some(r)
  }

  function SetPc(s: State, p: Pid, pc: Pc): State {
    s.(procs := s.procs[p := pc])
  }

  /** After the owner `r` was read: throw EvalDeviceLockBusyError if alive, else reclaim. */
  function Judge(s: State, p: Pid, r: Record, retries: nat): State {
    SetPc(s, p, if Alive(s, r.pid) then Idle else Reclaiming(r, retries))
  }

  function RetryOrBusy(s: State, p: Pid, retries: nat): State {
    SetPc(s, p, if retries + 1 > MAX_RECOVERY_RETRIES then Idle else Contending(retries + 1))
  }

  function StepMkdir(s: State, p: Pid, id: OwnerId, retries: nat): State {
    if s.lock.Some? then SetPc(s, p, Blocked(retries))
    else SetPc(s.(lock := Some(Dir(id, p, None)), used := s.used + {id}), p, Created(id))
  }

  function StepWrite(s: State, p: Pid, id: OwnerId): State {
    if s.lock.None? then SetPc(s, p, Removing(id))
    else SetPc(s.(lock := Some(s.lock.value.(record := Some(Record(p, id))))), p, Holding(id))
  }

  function StepRename(s: State, p: Pid, v: Record, retries: nat): State {
    if s.lock.None? || Sealed(s, v.id) then RetryOrBusy(s, p, retries)
    else SetPc(s.(lock := None, tombs := s.tombs[v.id := s.lock.value]), p, Contending(retries))
  }

  function StepRelease(s: State, p: Pid, id: OwnerId): State {
    if s.lock.Some? && s.lock.value.record.Some? && s.lock.value.record.value.id == id
    then SetPc(s, p, Removing(id)) else SetPc(s, p, Idle)
  }

  function StepUnlink(s: State, p: Pid, id: OwnerId): State {
    if s.lock.None? then SetPc(s, p, Idle)
    else SetPc(s.(lock := Some(s.lock.value.(record := None))), p, Emptied(id))
  }

  function StepRmdir(s: State, p: Pid): State {
    if s.lock.Some? && s.lock.value.record.None? then SetPc(s.(lock := None), p, Idle) else SetPc(s, p, Idle)
  }

  /** One step of one process; None when the event is not enabled. */
  function Step(s: State, e: Event): Option<State> {
    if e.Start? then
      if e.p in s.procs then None else Some(SetPc(s, e.p, Idle))
    else if !Alive(s, e.p) then None
    else
      match (e, s.procs[e.p])
      case (Die(p), _) => Some(SetPc(s, p, Dead))
      case (Acquire(p), Idle) => Some(SetPc(s, p, Contending(0)))
      case (Mkdir(p, id), Contending(n)) => if id in s.used then None else Some(StepMkdir(s, p, id, n))
      case (Write(p), Created(id)) => Some(StepWrite(s, p, id))
      case (WriteFails(p), Created(id)) => Some(SetPc(s, p, Removing(id)))
      case (Inspect(p), Blocked(n)) =>
        if s.lock.None? || s.lock.value.record.None? then Some(SetPc(s, p, Idle))
        else Some(Judge(s, p, s.lock.value.record.value, n))
      case (ReadOwner(p), Blocked(n)) =>
        if s.lock.None? || s.lock.value.record.None? then Some(SetPc(s, p, Idle))
        else Some(SetPc(s, p, Inspected(s.lock.value.record.value, n)))
      case (TestOwner(p), Inspected(r, n)) => Some(Judge(s, p, r, n))
      case (Rename(p), Reclaiming(v, n)) => Some(StepRename(s, p, v, n))
      case (Release(p), Holding(id)) => Some(StepRelease(s, p, id))
      case (Unlink(p), Removing(id)) => Some(StepUnlink(s, p, id))
      case (Rmdir(p), Emptied(id)) => Some(StepRmdir(s, p))
      case (CleanupFails(p), Removing(_)) => Some(SetPc(s, p, Idle))
      case (CleanupFails(p), Emptied(_)) => Some(SetPc(s, p, Idle))
      case _ => None
  }

  function Exec(s: State, es: seq<Event>): Option<State>
    decreases |es|
  {
    if es == [] then Some(s)
    else match Step(s, es[0])
      case None => None
      case Some(t) => Exec(t, es[1..])
  }

  // ----- the property: mutual exclusion -----

  /** The process is between a successful mkdir and the end of its clean-up. */
  predicate Owns(pc: Pc) {
    pc.Created? || pc.Holding? || pc.Removing? || pc.Emptied?
  }

  ghost predicate MutualExclusion(s: State) {
    forall p, q :: p in s.procs && q in s.procs && Owns(s.procs[p]) && Owns(s.procs[q]) ==> p == q
  }

  /** The directory at the lock path really is p's, with p's record once it was written. */
  predicate OwnsPath(s: State, p: Pid)
    requires p in s.procs && Owns(s.procs[p])
  {
    && s.lock.Some? && s.lock.value.maker == p && s.lock.value.gen == s.procs[p].id
    && (s.procs[p].Holding? ==> s.lock.value.record == Some(Record(p, s.procs[p].id)))
    && (s.procs[p].Created? || s.procs[p].Emptied? ==> s.lock.value.record.None?)
  }

  /** A decision to reclaim v is good while v's directory is at the path or v's tombstone is sealed. */
  predicate Grounded(s: State, v: Record) {
    LockRecords(s, v) || Sealed(s, v.id)
  }

  /** A sealed tombstone holds the directory of its own dead owner. */
  ghost predicate TombsInv(s: State) {
    forall k :: k in s.tombs ==>
      && k in s.used
      && (Sealed(s, k) ==>
            && s.tombs[k].gen == k && s.tombs[k].record == Some(Record(s.tombs[k].maker, k))
            && s.tombs[k].maker in s.procs && !Alive(s, s.tombs[k].maker))
  }

  ghost predicate AllSealed(s: State) {
    forall k :: k in s.tombs ==> Sealed(s, k)
  }

  ghost predicate LockInv(s: State) {
    s.lock.Some? ==>
      var d := s.lock.value;
      && d.gen in s.used && !Sealed(s, d.gen) && d.maker in s.procs
      && (d.record.Some? ==> d.record.value == Record(d.maker, d.gen))
  }

  ghost predicate ProcsInv(s: State) {
    forall p :: p in s.procs ==>
      && (Owns(s.procs[p]) ==> OwnsPath(s, p))
      && (s.procs[p].Reclaiming? ==>
            && s.procs[p].victim.pid in s.procs && !Alive(s, s.procs[p].victim.pid)
            && Grounded(s, s.procs[p].victim))
      && (s.procs[p].Inspected? ==> KnownRecord(s, p, s.procs[p].seen))
  }

  /** r, read by p, was written by an existing process and still names the maker of its directory;
      no directory p made itself has come to the path since. */
  predicate KnownRecord(s: State, p: Pid, r: Record) {
    && r.pid in s.procs && r.id in s.used
    && (s.lock.Some? && s.lock.value.gen == r.id ==> s.lock.value.maker == r.pid)
    && (s.lock.Some? && s.lock.value.maker == p ==> s.lock.value.gen == r.id)
  }

  ghost predicate Core(s: State) {
    TombsInv(s) && LockInv(s) && ProcsInv(s)
  }

  ghost predicate Inv(s: State) {
    Core(s) && AllSealed(s)
  }

  /** A liveness test that finds its owner dead is grounded at that moment. A one-step Inspect always is. */
  predicate Sound(s: State, e: Event) {
    e.TestOwner? && e.p in s.procs && s.procs[e.p].Inspected? && !Alive(s, s.procs[e.p].seen.pid)
    ==> Grounded(s, s.procs[e.p].seen)
  }

  predicate SoundRun(s: State, es: seq<Event>)
    decreases |es|
  {
    es == [] || (Sound(s, es[0]) && (Step(s, es[0]).Some? ==> SoundRun(Step(s, es[0]).value, es[1..])))
  }

  predicate OneStepInspection(es: seq<Event>) {
    forall e :: e in es ==> !e.ReadOwner? && !e.TestOwner?
  }

  /** A step that changes only p's own standing. */
  lemma QuietStepKeepsCore(s: State, p: Pid, pc: Pc)
    requires Core(s) && (p in s.procs ==> Alive(s, p))
    requires Owns(pc) ==> OwnsPath(SetPc(s, p, pc), p)
    requires pc.Reclaiming? ==> pc.victim.pid in s.procs && !Alive(s, pc.victim.pid) && Grounded(s, pc.victim)
    requires pc.Inspected? ==> KnownRecord(s, p, pc.seen)
    ensures Core(SetPc(s, p, pc))
  {
  }

  lemma StepKeepsCore(s: State, e: Event)
    requires Core(s) && Sound(s, e) && Step(s, e).Some?
    ensures Core(Step(s, e).value)
    ensures AllSealed(s) ==> AllSealed(Step(s, e).value)
  {
    var t := Step(s, e).value;
    if t.lock == s.lock && t.tombs == s.tombs && t.used == s.used {
      QuietStepKeepsCore(s, e.p, t.procs[e.p]);
    } else if e.Rename? {
      RenameKeepsCore(s, e.p);
    } else if e.Mkdir? {
      assert forall q :: q in s.procs ==> !Owns(s.procs[q]);
    } else {
      assert e.Write? || e.Unlink? || e.Rmdir?;
      OwnerStepKeepsCore(s, e);
    }
  }

  /** The owner's own writes touch its own directory, and nobody else owns one. */
  lemma OwnerStepKeepsCore(s: State, e: Event)
    requires Core(s) && Step(s, e).Some? && (e.Write? || e.Unlink? || e.Rmdir?)
    ensures Core(Step(s, e).value) && Step(s, e).value.tombs == s.tombs
  {
  }

  /** A rename that succeeds moves the directory of a dead process, so no owner loses its own. */
  lemma RenameKeepsCore(s: State, p: Pid)
    requires Core(s) && Step(s, Rename(p)).Some?
    ensures Core(Step(s, Rename(p)).value)
    ensures AllSealed(s) ==> AllSealed(Step(s, Rename(p)).value)
  {
  }

  lemma StepKeepsInv(s: State, e: Event)
    requires Inv(s) && Sound(s, e) && Step(s, e).Some?
    ensures Inv(Step(s, e).value)
  {
    StepKeepsCore(s, e);
  }

  lemma {:induction false} RunKeepsCore(s: State, es: seq<Event>)
    requires Core(s) && SoundRun(s, es) && Exec(s, es).Some?
    ensures Core(Exec(s, es).value)
    ensures AllSealed(s) ==> AllSealed(Exec(s, es).value)
    decreases |es|
  {
    if es != [] {
      StepKeepsCore(s, es[0]);
      RunKeepsCore(Step(s, es[0]).value, es[1..]);
    }
  }

  /** At most one process owns the lock, and the directory at the path is that process's own. */
  lemma SoundRunsExclude(es: seq<Event>)
    requires SoundRun(Init, es) && Exec(Init, es).Some?
    ensures var t := Exec(Init, es).value;
      && MutualExclusion(t)
      && forall p :: p in t.procs && Owns(t.procs[p]) ==> OwnsPath(t, p)
  {
    RunKeepsCore(Init, es);
  }

  lemma {:induction false} OneStepRunsAreSound(s: State, es: seq<Event>)
    requires OneStepInspection(es)
    ensures SoundRun(s, es)
    decreases |es|
  {
    if es != [] {
      assert es[0] in es && OneStepInspection(es[1..]);
      if Step(s, es[0]).Some? {
        OneStepRunsAreSound(Step(s, es[0]).value, es[1..]);
      }
    }
  }

  /** Mutual exclusion in every interleaving with crashes, reading the owner and testing its liveness being one step. */
  lemma OneStepInspectionExcludes(es: seq<Event>)
    requires OneStepInspection(es) && Exec(Init, es).Some?
    ensures MutualExclusion(Exec(Init, es).value)
  {
    OneStepRunsAreSound(Init, es);
    SoundRunsExclude(es);
  }

  // ----- the soundness condition is needed: an ungrounded test can always be turned into two holders -----

  lemma {:induction false} ExecAppends(s: State, es: seq<Event>, fs: seq<Event>)
    requires Exec(s, es).Some?
    ensures Exec(s, es + fs) == Exec(Exec(s, es).value, fs)
    decreases |es|
  {
    if es == [] {
      assert es + fs == fs;
    } else {
      assert (es + fs)[1..] == es[1..] + fs;
      ExecAppends(Step(s, es[0]).value, es[1..], fs);
    }
  }

  lemma {:induction false} FreshNat(S: set<nat>) returns (n: nat)
    ensures forall x :: x in S ==> x < n
  {
    if S == {} {
      n := 0;
    } else {
      var x :| x in S;
      var m := FreshNat(S - {x});
      n := if m <= x then x + 1 else m;
      assert forall y :: y in S ==> y == x || y in S - {x};
    }
  }

  ghost predicate TwoHolders(s: State) {
    exists p, q :: p != q && p in s.procs && q in s.procs && s.procs[p].Holding? && s.procs[q].Holding?
  }

  /** Process r has condemned v, whose tombstone is not sealed. */
  predicate Condemned(s: State, r: Pid, v: Record) {
    r in s.procs && s.procs[r].Reclaiming? && s.procs[r].victim == v && !Sealed(s, v.id)
  }

  lemma ExecCons(s: State, e: Event, es: seq<Event>)
    requires Step(s, e).Some?
    ensures Exec(s, [e] + es) == Exec(Step(s, e).value, es)
  {
  }

  lemma ExecNone(s: State)
    ensures Exec(s, []) == Some(s)
  {
  }

  lemma ExecOne(s: State, e: Event)
    requires Step(s, e).Some?
    ensures Exec(s, [e]) == Step(s, e)
  {
  }

  /** p stands still throughout the run. */
  predicate Without(es: seq<Event>, p: Pid) {
    forall e :: e in es ==> e.p != p
  }

  /** Only p moves. */
  predicate By(es: seq<Event>, p: Pid) {
    forall e :: e in es ==> e.p == p
  }

  /** A fresh process enters the retry loop. */
  lemma Enter(s: State) returns (es: seq<Event>, h: Pid)
    ensures OneStepInspection(es) && By(es, h) && h !in s.procs
    ensures Exec(s, es) == Some(SetPc(s, h, Contending(0)))
  {
    h := FreshNat(s.procs.Keys);
    var s1 := SetPc(s, h, Idle);
    var s2 := SetPc(s1, h, Contending(0));
    hide Exec;
    ExecOne(s1, Acquire(h));
    ExecCons(s, Start(h), [Acquire(h)]);
    es := [Start(h)] + [Acquire(h)];
    assert s2.procs == s.procs[h := Contending(0)];
  }

  /** A fresh process takes the free lock. */
  lemma TakeFreeLock(s: State) returns (es: seq<Event>, h: Pid, g: OwnerId)
    requires s.lock.None?
    ensures OneStepInspection(es) && By(es, h) && h !in s.procs && g !in s.used
    ensures Exec(s, es) ==
      Some(State(Some(Dir(g, h, Some(Record(h, g)))), s.tombs, s.procs[h := Holding(g)], s.used + {g}))
  {
    hide Exec;
    var start;
    start, h := Enter(s);
    g := FreshNat(s.used);
    var s1 := SetPc(s, h, Contending(0));
    var s2 := StepMkdir(s1, h, g, 0);
    var s3 := StepWrite(s2, h, g);
    ExecOne(s2, Write(h));
    ExecCons(s1, Mkdir(h, g), [Write(h)]);
    var rest := [Mkdir(h, g)] + [Write(h)];
    ExecAppends(s, start, rest);
    es := start + rest;
    assert s3.procs == s.procs[h := Holding(g)];
  }

  ghost predicate OwnersAtPath(s: State) {
    forall p :: p in s.procs && Owns(s.procs[p]) ==> OwnsPath(s, p)
  }

  /** h holds the lock, the directory at the path is its own, and r is still about to rename it away. */
  predicate Exposed(s: State, h: Pid, r: Pid, v: Record) {
    h != r && h in s.procs && s.procs[h].Holding? && OwnsPath(s, h) && Condemned(s, r, v)
  }

  lemma HoldAfterFree(s: State, r: Pid, v: Record) returns (es: seq<Event>, h: Pid)
    requires s.lock.None? && Condemned(s, r, v)
    ensures OneStepInspection(es) && Exec(s, es).Some? && Exposed(Exec(s, es).value, h, r, v)
  {
    var g;
    es, h, g := TakeFreeLock(s);
  }

  /** The owner at the path is brought, one step at a time, to hold the lock or to give it up. */
  lemma HoldAfterOwner(s: State, o: Pid, r: Pid, v: Record) returns (es: seq<Event>, h: Pid)
    requires OwnersAtPath(s) && Condemned(s, r, v) && o in s.procs && Owns(s.procs[o])
    ensures OneStepInspection(es) && Exec(s, es).Some? && Exposed(Exec(s, es).value, h, r, v)
    decreases if s.procs[o].Removing? then 1 else 0
  {
    assert OwnsPath(s, o);
    if s.procs[o].Holding? {
      es, h := [], o;
    } else {
      var e := if s.procs[o].Created? then Write(o) else if s.procs[o].Removing? then Unlink(o) else Rmdir(o);
      var t := Step(s, e).value;
      if s.procs[o].Created? {
        es, h := [], o;
      } else if s.procs[o].Removing? {
        assert forall p :: p in s.procs && Owns(s.procs[p]) ==> p == o;
        es, h := HoldAfterOwner(t, o, r, v);
      } else {
        es, h := HoldAfterFree(t, r, v);
      }
      ExecCons(s, e, es);
      es := [e] + es;
    }
  }

  /** A fresh process finds the recorded owner dead and quarantines its directory. */
  lemma QuarantineTheDead(s: State) returns (es: seq<Event>, f: Pid)
    requires s.lock.Some? && s.lock.value.record.Some?
    requires var r := s.lock.value.record.value; r.pid in s.procs && !Alive(s, r.pid) && !Sealed(s, r.id)
    ensures OneStepInspection(es) && By(es, f) && f !in s.procs
    ensures Exec(s, es) == Some(State(None, s.tombs[s.lock.value.record.value.id := s.lock.value],
                                      s.procs[f := Contending(0)], s.used))
  {
    hide Exec;
    var start;
    start, f := Enter(s);
    var d := s.lock.value;
    var g := FreshNat(s.used);
    var s1 := SetPc(s, f, Contending(0));
    var s2 := SetPc(s1, f, Blocked(0));
    var s3 := SetPc(s2, f, Reclaiming(d.record.value, 0));
    var s4 := StepRename(s3, f, d.record.value, 0);
    ExecOne(s3, Rename(f));
    ExecCons(s2, Inspect(f), [Rename(f)]);
    ExecCons(s1, Mkdir(f, g), [Inspect(f)] + [Rename(f)]);
    var rest := [Mkdir(f, g)] + ([Inspect(f)] + [Rename(f)]);
    ExecAppends(s, start, rest);
    es := start + rest;
    assert s4.procs == s.procs[f := Contending(0)];
  }

  /** A directory with a record changes hands once its maker is dead. */
  lemma HoldAfterDead(s: State, r: Pid, v: Record) returns (es: seq<Event>, h: Pid)
    requires LockInv(s) && s.lock.Some? && s.lock.value.record.Some? && !Alive(s, s.lock.value.maker)
    requires Condemned(s, r, v) && s.lock.value.gen != v.id
    ensures OneStepInspection(es) && Exec(s, es).Some? && Exposed(Exec(s, es).value, h, r, v)
  {
    var first, f := QuarantineTheDead(s);
    var t := Exec(s, first).value;
    es, h := HoldAfterFree(t, r, v);
    ExecAppends(s, first, es);
    es := first + es;
  }

  /** A directory without a record and without an owner: every later inspection refuses it. */
  predicate Abandoned(s: State) {
    s.lock.Some? && s.lock.value.record.None? && forall q :: q in s.procs ==> !Owns(s.procs[q])
  }

  /** Unless the lock is abandoned, some process other than r can be brought to hold it. */
  lemma SomebodyHolds(s: State, r: Pid, v: Record) returns (es: seq<Event>, h: Pid)
    requires LockInv(s) && OwnersAtPath(s) && Condemned(s, r, v) && !Abandoned(s)
    requires s.lock.Some? && s.lock.value.record.Some? ==> s.lock.value.gen != v.id && s.lock.value.maker != r
    ensures OneStepInspection(es) && Exec(s, es).Some? && Exposed(Exec(s, es).value, h, r, v)
  {
    if s.lock.None? {
      es, h := HoldAfterFree(s, r, v);
    } else if o :| o in s.procs && Owns(s.procs[o]) {
      es, h := HoldAfterOwner(s, o, r, v);
    } else if !Alive(s, s.lock.value.maker) {
      es, h := HoldAfterDead(s, r, v);
    } else {
      var maker := s.lock.value.maker;
      es, h := HoldAfterDead(SetPc(s, maker, Dead), r, v);
      ExecCons(s, Die(maker), es);
      es := [Die(maker)] + es;
    }
  }

  /** r's rename would empty the lock path. */
  predicate Takes(s: State, r: Pid) {
    Step(s, Rename(r)).Some? && s.lock.Some? && Step(s, Rename(r)).value.lock.None?
  }

  /** r's rename would take the directory that another process holds the lock with. */
  predicate TakesFromHolder(s: State, r: Pid, h: Pid) {
    Takes(s, r) && h != r && h in s.procs && s.procs[h].Holding? && OwnsPath(s, h)
  }

  /** The condemned rename then carries the holder's directory away, and another process takes the lock. */
  lemma RenameExposed(s: State, h: Pid, r: Pid, v: Record) returns (es: seq<Event>)
    requires Exposed(s, h, r, v)
    ensures OneStepInspection(es) && TakesFromHolder(s, r, h)
    ensures Exec(s, [Rename(r)] + es).Some? && TwoHolders(Exec(s, [Rename(r)] + es).value)
  {
    var t := Step(s, Rename(r)).value;
    var q, g;
    es, q, g := TakeFreeLock(t);
    ExecCons(s, Rename(r), es);
    var u := Exec(s, [Rename(r)] + es).value;
    assert h != q && u.procs[h].Holding? && u.procs[q].Holding?;
  }

  /** An ungrounded test leads, through ordinary one-step behaviour, to two processes holding the lock. */
  lemma UngroundedTestBreaksExclusion(s: State, p: Pid) returns (es: seq<Event>)
    requires Core(s) && !Abandoned(s)
    requires Step(s, TestOwner(p)).Some? && !Sound(s, TestOwner(p))
    ensures OneStepInspection(es)
    ensures Exec(s, [TestOwner(p)] + es).Some? && TwoHolders(Exec(s, [TestOwner(p)] + es).value)
  {
    var v := s.procs[p].seen;
    var t := Step(s, TestOwner(p)).value;
    assert OwnersAtPath(s) && OwnersAtPath(t);
    assert KnownRecord(s, p, v) && !LockRecords(s, v);
    assert forall q :: q in s.procs && Owns(s.procs[q]) ==> q in t.procs && Owns(t.procs[q]);
    var first, h := SomebodyHolds(t, p, v);
    var rest := RenameExposed(Exec(t, first).value, h, p, v);
    ExecAppends(t, first, [Rename(p)] + rest);
    es := first + ([Rename(p)] + rest);
    ExecCons(s, TestOwner(p), es);
  }

  // ----- an abandoned directory is the one thing an ungrounded rename can move without harm -----

  /** p is about to rename an abandoned directory to the tombstone of another owner; all else is in order. */
  ghost predicate Stranded(s: State, p: Pid) {
    && Alive(s, p) && s.procs[p].Reclaiming? && s.procs[p].victim.id in s.used && !Sealed(s, s.procs[p].victim.id)
    && Abandoned(s) && Core(SetPc(s, p, Idle))
  }

  lemma StrandedRename(s: State, p: Pid)
    requires Stranded(s, p)
    ensures Core(StepRename(s, p, s.procs[p].victim, s.procs[p].retries))
  {
    var t, idle := StepRename(s, p, s.procs[p].victim, s.procs[p].retries), SetPc(s, p, Idle);
    assert t.tombs == idle.tombs[s.procs[p].victim.id := idle.lock.value];
    forall q | q in t.procs && q != p ensures t.procs[q] == idle.procs[q] && !Owns(t.procs[q]) {}
  }

  /** A step of one process does not look at the standing of another that stays alive. */
  lemma StepsCommute(s: State, p: Pid, e: Event)
    requires Alive(s, p) && e.p != p && Step(s, e).Some?
    ensures Step(SetPc(s, p, Idle), e) == Some(SetPc(Step(s, e).value, p, Idle))
  {
    var procs := Step(s, e).value.procs;
    assert procs == s.procs[e.p := procs[e.p]];
    assert procs[p := Idle] == s.procs[p := Idle][e.p := procs[e.p]];
  }

  ghost predicate ReclaimersGrounded(s: State) {
    forall q :: q in s.procs && s.procs[q].Reclaiming? ==> Grounded(s, s.procs[q].victim)
  }

  /** A liveness test that finds its owner dead is grounded, or the first ungrounded one on an abandoned directory. */
  ghost predicate Careful(s: State, e: Event) {
    e.TestOwner? && e.p in s.procs && s.procs[e.p].Inspected? && !Alive(s, s.procs[e.p].seen.pid)
    ==> Grounded(s, s.procs[e.p].seen) || (Abandoned(s) && ReclaimersGrounded(s))
  }

  ghost predicate CarefulRun(s: State, es: seq<Event>)
    decreases |es|
  {
    es == [] || (Careful(s, es[0]) && (Step(s, es[0]).Some? ==> CarefulRun(Step(s, es[0]).value, es[1..])))
  }

  /** All is in order, or it will be once one process has renamed an abandoned directory. */
  ghost predicate InOrder(s: State) {
    Core(s) || exists p :: Stranded(s, p)
  }

  lemma OthersLeaveItAbandoned(s: State, p: Pid, e: Event)
    requires Stranded(s, p) && Step(s, e).Some? && e.p != p
    ensures var t := Step(s, e).value;
      t.lock == s.lock && t.tombs == s.tombs && t.used == s.used && t.procs[p] == s.procs[p] && Abandoned(t)
  {
    assert e.p in s.procs ==> SetPc(s, p, Idle).procs[e.p] == s.procs[e.p];
  }

  /** While one process is stranded, a careful test is a grounded one. */
  lemma CarefulIsSound(s: State, p: Pid, e: Event)
    requires Stranded(s, p) && Careful(s, e) && e.p != p
    ensures Sound(SetPc(s, p, Idle), e)
  {
    assert !Grounded(s, s.procs[p].victim);
  }

  /** Whoever moves, the directory stays as it is until p gives up its decision, and then all is in order. */
  lemma StrandedStep(s: State, p: Pid, e: Event)
    requires Stranded(s, p) && Step(s, e).Some? && Careful(s, e)
    ensures if e.p == p then Core(Step(s, e).value) else Stranded(Step(s, e).value, p)
  {
    var idle := SetPc(s, p, Idle);
    var t := Step(s, e).value;
    if e.Die? && e.p == p {
      QuietStepKeepsCore(idle, p, Dead);
      assert t == SetPc(idle, p, Dead);
    } else if e.p == p {
      StrandedRename(s, p);
    } else {
      hide Step;
      StepsCommute(s, p, e);
      OthersLeaveItAbandoned(s, p, e);
      CarefulIsSound(s, p, e);
      StepKeepsCore(idle, e);
    }
  }

  /** The first ungrounded test on an abandoned directory strands its process. */
  lemma TestStrands(s: State, p: Pid)
    requires Core(s) && Step(s, TestOwner(p)).Some? && Careful(s, TestOwner(p)) && !Sound(s, TestOwner(p))
    ensures Stranded(Step(s, TestOwner(p)).value, p)
  {
    QuietStepKeepsCore(s, p, Idle);
    assert SetPc(Step(s, TestOwner(p)).value, p, Idle) == SetPc(s, p, Idle);
    assert KnownRecord(s, p, s.procs[p].seen);
  }

  lemma CarefulStepKeepsOrder(s: State, e: Event)
    requires InOrder(s) && Careful(s, e) && Step(s, e).Some?
    ensures InOrder(Step(s, e).value)
  {
    hide Step, Core, Stranded;
    if !Core(s) {
      var p :| Stranded(s, p);
      StrandedStep(s, p, e);
    } else if Sound(s, e) {
      StepKeepsCore(s, e);
    } else {
      TestStrands(s, e.p);
    }
  }

  lemma {:induction false} CarefulRunKeepsOrder(s: State, es: seq<Event>)
    requires InOrder(s) && CarefulRun(s, es) && Exec(s, es).Some?
    ensures InOrder(Exec(s, es).value)
    decreases |es|
  {
    hide Step, InOrder, Careful;
    if es != [] {
      CarefulStepKeepsOrder(s, es[0]);
      CarefulRunKeepsOrder(Step(s, es[0]).value, es[1..]);
    }
  }

  lemma OrderExcludes(s: State)
    requires InOrder(s)
    ensures MutualExclusion(s)
  {
  }

  lemma {:induction false} OneStepRunsAreCareful(s: State, es: seq<Event>)
    requires OneStepInspection(es)
    ensures CarefulRun(s, es)
    decreases |es|
  {
    hide Step;
    if es != [] {
      assert es[0] in es && OneStepInspection(es[1..]);
      if Step(s, es[0]).Some? {
        OneStepRunsAreCareful(Step(s, es[0]).value, es[1..]);
      }
    }
  }

  lemma NothingIsInOrder()
    ensures InOrder(Init)
  {
  }

  /** Mutual exclusion in every careful run, separate tests included. */
  lemma CarefulRunsExclude(es: seq<Event>)
    requires CarefulRun(Init, es) && Exec(Init, es).Some?
    ensures MutualExclusion(Exec(Init, es).value)
  {
    hide Exec, CarefulRun, InOrder, MutualExclusion;
    NothingIsInOrder();
    CarefulRunKeepsOrder(Init, es);
    OrderExcludes(Exec(Init, es).value);
  }

  lemma StrandedRunExcludes(s: State, p: Pid, es: seq<Event>)
    requires Stranded(s, p) && OneStepInspection(es) && Exec(s, es).Some?
    ensures MutualExclusion(Exec(s, es).value)
  {
    OneStepRunsAreCareful(s, es);
    hide Exec, CarefulRun, Stranded, OneStepInspection, MutualExclusion;
    CarefulRunKeepsOrder(s, es);
    OrderExcludes(Exec(s, es).value);
  }

  /** A second ungrounded test beside a stranded process: that process renames the abandoned directory, a fresh one
      takes the lock, and the second rename carries its directory away. */
  lemma SecondTestBreaksExclusion(s: State, r: Pid, p: Pid) returns (es: seq<Event>)
    requires Stranded(s, r) && Step(s, TestOwner(p)).Some? && !Sound(s, TestOwner(p))
    ensures OneStepInspection(es)
    ensures Exec(s, [TestOwner(p)] + es).Some? && TwoHolders(Exec(s, [TestOwner(p)] + es).value)
  {
    var v := s.procs[p].seen;
    var t := Step(s, TestOwner(p)).value;
    var u := Step(t, Rename(r)).value;
    var first, h := HoldAfterFree(u, p, v);
    var rest := RenameExposed(Exec(u, first).value, h, p, v);
    ExecAppends(u, first, [Rename(p)] + rest);
    es := [Rename(r)] + (first + ([Rename(p)] + rest));
    ExecCons(t, Rename(r), first + ([Rename(p)] + rest));
    ExecCons(s, TestOwner(p), es);
  }

  lemma UncarefulTestBreaksExclusion(s: State, p: Pid) returns (es: seq<Event>)
    requires InOrder(s) && Step(s, TestOwner(p)).Some? && !Careful(s, TestOwner(p))
    ensures OneStepInspection(es)
    ensures Exec(s, [TestOwner(p)] + es).Some? && TwoHolders(Exec(s, [TestOwner(p)] + es).value)
  {
    hide Step, Exec, Stranded, OneStepInspection, TwoHolders;
    if Core(s) {
      es := UngroundedTestBreaksExclusion(s, p);
    } else {
      var r :| Stranded(s, r);
      es := SecondTestBreaksExclusion(s, r, p);
    }
  }

  lemma TwoHoldersAreTwo(s: State)
    requires TwoHolders(s)
    ensures !MutualExclusion(s)
  {
  }

  /** Exactly when: wherever all is in order, and so after any careful run, testing the owner as a separate step keeps
      exclusion in every one-step continuation if and only if the test is careful. */
  lemma SeparateTestIsSafeIff(s: State, p: Pid)
    requires InOrder(s) && Step(s, TestOwner(p)).Some?
    ensures Careful(s, TestOwner(p)) <==>
      forall fs :: OneStepInspection(fs) && Exec(s, [TestOwner(p)] + fs).Some?
                   ==> MutualExclusion(Exec(s, [TestOwner(p)] + fs).value)
  {
    hide Step, Exec, Careful, InOrder, MutualExclusion, TwoHolders, CarefulRun, OneStepInspection;
    if Careful(s, TestOwner(p)) {
      CarefulStepKeepsOrder(s, TestOwner(p));
      var t := Step(s, TestOwner(p)).value;
      forall fs | OneStepInspection(fs) && Exec(s, [TestOwner(p)] + fs).Some?
        ensures MutualExclusion(Exec(s, [TestOwner(p)] + fs).value)
      {
        ExecCons(s, TestOwner(p), fs);
        OneStepRunsAreCareful(t, fs);
        CarefulRunKeepsOrder(t, fs);
        OrderExcludes(Exec(t, fs).value);
      }
    } else {
      var fs := UncarefulTestBreaksExclusion(s, p);
      TwoHoldersAreTwo(Exec(s, [TestOwner(p)] + fs).value);
    }
  }

  /** The step of e leads from s to t, compared field by field. */
  predicate Leads(s: State, e: Event, t: State) {
    Step(s, e).Some? && var u := Step(s, e).value;
    u.lock == t.lock && u.tombs == t.tombs && u.procs == t.procs && u.used == t.used
  }

  /** A run given state by state. */
  lemma {:induction false} Replay(ss: seq<State>, es: seq<Event>)
    requires |ss| == |es| + 1
    requires forall i :: 0 <= i < |es| ==> Leads(ss[i], es[i], ss[i + 1])
    ensures Exec(ss[0], es) == Some(ss[|es|])
    decreases |es|
  {
    if es != [] {
      forall i | 0 <= i < |es[1..]| ensures Leads(ss[1..][i], es[1..][i], ss[1..][i + 1]) {
        assert Leads(ss[i + 1], es[i + 1], ss[i + 2]);
      }
      assert Leads(ss[0], es[0], ss[1]);
      Replay(ss[1..], es[1..]);
    }
  }

  /** Process 0 acquires the free lock; process 1 arrives and reads its record. */
  const ReadWhileHeld: seq<Event> := [
    Start(0), Acquire(0), Mkdir(0, 10), Write(0), Start(1), Acquire(1), Mkdir(1, 11), ReadOwner(1)]

  /** Process 0 releases and exits. */
  const ReleaseAndExit: seq<Event> := [Release(0), Unlink(0), Rmdir(0), Die(0)]

  const Held: State := State(Some(Dir(10, 0, Some(Record(0, 10)))), map[],
                             map[0 := Holding(10), 1 := Inspected(Record(0, 10), 0)], {10})
  const Released: State := State(None, map[], map[0 := Dead, 1 := Inspected(Record(0, 10), 0)], {10})

  lemma ReachHeld()
    ensures Exec(Init, ReadWhileHeld) == Some(Held)
  {
    hide Exec;
    var d := Some(Dir(10, 0, Some(Record(0, 10))));
    var ss := [Init,
               State(None, map[], map[0 := Idle], {}),
               State(None, map[], map[0 := Contending(0)], {}),
               State(Some(Dir(10, 0, None)), map[], map[0 := Created(10)], {10}),
               State(d, map[], map[0 := Holding(10)], {10}),
               State(d, map[], map[0 := Holding(10), 1 := Idle], {10}),
               State(d, map[], map[0 := Holding(10), 1 := Contending(0)], {10}),
               State(d, map[], map[0 := Holding(10), 1 := Blocked(0)], {10}),
               Held];
    Replay(ss, ReadWhileHeld);
  }

  lemma ReleaseStep(s: State)
    requires 0 in s.procs && s.procs[0] == Holding(10) && s.lock == Some(Dir(10, 0, Some(Record(0, 10))))
    ensures Step(s, Release(0)) == Some(SetPc(s, 0, Removing(10)))
  {
  }

  lemma UnlinkStep(s: State)
    requires 0 in s.procs && s.procs[0] == Removing(10) && s.lock.Some?
    ensures Step(s, Unlink(0)) == Some(StepUnlink(s, 0, 10))
  {
  }

  lemma RmdirStep(s: State)
    requires 0 in s.procs && s.procs[0] == Emptied(10)
    ensures Step(s, Rmdir(0)) == Some(StepRmdir(s, 0))
  {
  }

  /** The holder releases and exits, whoever else is there. */
  lemma ReleasedAndGone(s: State)
    requires 0 in s.procs && s.procs[0] == Holding(10) && s.lock == Some(Dir(10, 0, Some(Record(0, 10))))
    ensures Exec(s, ReleaseAndExit) == Some(State(None, s.tombs, s.procs[0 := Dead], s.used))
  {
    var s1 := SetPc(s, 0, Removing(10));
    var s2 := StepUnlink(s1, 0, 10);
    var s3 := StepRmdir(s2, 0);
    assert Step(s3, Die(0)) == Some(SetPc(s3, 0, Dead));
    hide Exec, Step;
    ReleaseStep(s);
    UnlinkStep(s1);
    RmdirStep(s2);
    ExecOne(s3, Die(0));
    ExecCons(s2, Rmdir(0), [Die(0)]);
    ExecCons(s1, Unlink(0), [Rmdir(0)] + [Die(0)]);
    ExecCons(s, Release(0), [Unlink(0)] + ([Rmdir(0)] + [Die(0)]));
    assert ReleaseAndExit == [Release(0)] + ([Unlink(0)] + ([Rmdir(0)] + [Die(0)]));
    assert SetPc(s3, 0, Dead).procs == s.procs[0 := Dead];
  }

  lemma ReachReleased()
    ensures Exec(Init, ReadWhileHeld + ReleaseAndExit) == Some(Released)
  {
    hide Exec;
    ReleasedAndGone(Held);
    assert Held.procs[0 := Dead] == Released.procs;
    ReachHeld();
    ExecAppends(Init, ReadWhileHeld, ReleaseAndExit);
  }

  /** With reading and testing split, the owner's ordinary release and exit in between is enough to lose exclusion. */
  lemma SplitInspectionFails() returns (fs: seq<Event>)
    ensures OneStepInspection(fs)
    ensures var es := ReadWhileHeld + ReleaseAndExit + ([TestOwner(1)] + fs);
      Exec(Init, es).Some? && TwoHolders(Exec(Init, es).value)
  {
    hide Exec;
    ReachReleased();
    fs := UngroundedTestBreaksExclusion(Released, 1);
    ExecAppends(Init, ReadWhileHeld + ReleaseAndExit, [TestOwner(1)] + fs);
  }

  /** 2 reads the record of 0 as well. */
  const SecondReader: seq<Event> := [Start(2), Acquire(2), Mkdir(2, 12), ReadOwner(2)]

  /** 3 creates the lock directory and dies before it writes its record. */
  const MkdirAndDie: seq<Event> := [Start(3), Acquire(3), Mkdir(3, 13), Die(3)]

  const TwoReaders: State :=
    State(None, map[], map[0 := Dead, 1 := Inspected(Record(0, 10), 0), 2 := Inspected(Record(0, 10), 0)], {10})

  const LeftBehind: State :=
    State(Some(Dir(13, 3, None)), map[],
          map[0 := Dead, 1 := Inspected(Record(0, 10), 0), 2 := Inspected(Record(0, 10), 0), 3 := Dead], {10, 13})

  const BothRead: State :=
    State(Some(Dir(10, 0, Some(Record(0, 10)))), map[],
          map[0 := Holding(10), 1 := Inspected(Record(0, 10), 0), 2 := Inspected(Record(0, 10), 0)], {10})

  lemma ReachBothRead()
    ensures Exec(Held, SecondReader) == Some(BothRead)
  {
    hide Exec;
    var seen := Inspected(Record(0, 10), 0);
    var ss := [Held,
               Held.(procs := map[0 := Holding(10), 1 := seen, 2 := Idle]),
               Held.(procs := map[0 := Holding(10), 1 := seen, 2 := Contending(0)]),
               Held.(procs := map[0 := Holding(10), 1 := seen, 2 := Blocked(0)]),
               BothRead];
    Replay(ss, SecondReader);
  }

  lemma ReachTwoReaders()
    ensures Exec(Held, SecondReader + ReleaseAndExit) == Some(TwoReaders)
  {
    hide Exec;
    ReleasedAndGone(BothRead);
    assert BothRead.procs[0 := Dead] == TwoReaders.procs;
    ReachBothRead();
    ExecAppends(Held, SecondReader, ReleaseAndExit);
  }

  lemma ReachLeftBehind()
    ensures Exec(TwoReaders, MkdirAndDie) == Some(LeftBehind)
  {
    hide Exec;
    var procs := TwoReaders.procs;
    var ss := [TwoReaders,
               TwoReaders.(procs := procs[3 := Idle]),
               TwoReaders.(procs := procs[3 := Contending(0)]),
               LeftBehind.(procs := procs[3 := Created(13)]),
               LeftBehind];
    Replay(ss, MkdirAndDie);
  }

  lemma LeftBehindIsCore()
    ensures Core(LeftBehind) && Abandoned(LeftBehind)
  {
  }

  /** The input: 1 and 2 have read the record of 0, which is gone, and the path holds the empty directory of 3. The
      test of 1 is safe, and then that of 2 is not, though the directory is still abandoned. */
  lemma SecondTestFails() returns (fs: seq<Event>)
    ensures Exec(Init, ReadWhileHeld + (SecondReader + ReleaseAndExit + MkdirAndDie)) == Some(LeftBehind)
    ensures Careful(LeftBehind, TestOwner(1)) && Careful(LeftBehind, TestOwner(2))
    ensures Step(LeftBehind, TestOwner(1)).Some? && Abandoned(Step(LeftBehind, TestOwner(1)).value)
    ensures OneStepInspection(fs)
    ensures var t := Step(LeftBehind, TestOwner(1)).value;
      Exec(t, [TestOwner(2)] + fs).Some? && TwoHolders(Exec(t, [TestOwner(2)] + fs).value)
  {
    hide Exec, Core;
    ReachHeld();
    ReachTwoReaders();
    ReachLeftBehind();
    ExecAppends(Held, SecondReader + ReleaseAndExit, MkdirAndDie);
    ExecAppends(Init, ReadWhileHeld, SecondReader + ReleaseAndExit + MkdirAndDie);
    LeftBehindIsCore();
    TestStrands(LeftBehind, 1);
    fs := SecondTestBreaksExclusion(Step(LeftBehind, TestOwner(1)).value, 1, 2);
  }

  // ----- what becomes of a lease -----

  /** A free lock is acquired in two steps, and the record is the acquirer's. */
  lemma LeaseBegins(s: State, p: Pid, id: OwnerId)
    requires s.lock.None? && p in s.procs && s.procs[p].Contending? && id !in s.used
    ensures Exec(s, [Mkdir(p, id)] + [Write(p)])
            == Some(State(Some(Dir(id, p, Some(Record(p, id)))), s.tombs, s.procs[p := Holding(id)], s.used + {id}))
  {
    var t := StepMkdir(s, p, id, s.procs[p].retries);
    ExecOne(t, Write(p));
    ExecCons(s, Mkdir(p, id), [Write(p)]);
    assert t.procs[p := Holding(id)] == s.procs[p := Holding(id)];
  }

  lemma LeaseSteps(s: State, p: Pid)
    requires p in s.procs
    ensures s.procs[p].Holding? ==> Step(s, Release(p)) == Some(StepRelease(s, p, s.procs[p].id))
    ensures s.procs[p].Removing? ==> Step(s, Unlink(p)) == Some(StepUnlink(s, p, s.procs[p].id))
    ensures s.procs[p].Emptied? ==> Step(s, Rmdir(p)) == Some(StepRmdir(s, p))
  {
    hide StepRelease, StepUnlink, StepRmdir;
  }

  /** A holder whose record is at the path frees it. */
  lemma LeaseEnds(s: State, p: Pid)
    requires p in s.procs && s.procs[p].Holding? && OwnsPath(s, p)
    ensures Exec(s, [Release(p)] + ([Unlink(p)] + [Rmdir(p)]))
            == Some(State(None, s.tombs, s.procs[p := Idle], s.used))
  {
    var id := s.procs[p].id;
    var t := SetPc(s, p, Removing(id));
    var u := StepUnlink(t, p, id);
    hide Step, Exec;
    LeaseSteps(s, p);
    LeaseSteps(t, p);
    LeaseSteps(u, p);
    ExecOne(u, Rmdir(p));
    ExecCons(t, Unlink(p), [Rmdir(p)]);
    ExecCons(s, Release(p), [Unlink(p)] + [Rmdir(p)]);
    assert StepRmdir(u, p).procs == s.procs[p := Idle];
  }

  /** One whose record is not there leaves everything alone. */
  lemma LostLeaseIsDropped(s: State, p: Pid)
    requires p in s.procs && s.procs[p].Holding?
    requires s.lock.Some? && s.lock.value.record.Some? ==> s.lock.value.record.value.id != s.procs[p].id
    ensures Exec(s, [Release(p)]) == Some(s.(procs := s.procs[p := Idle]))
  {
    hide Step, Exec;
    LeaseSteps(s, p);
    ExecOne(s, Release(p));
  }

  /** An owner file that cannot be written, for want of a directory or otherwise, is cleaned up after: what is at the
      path then has no record. */
  lemma FailedWriteCleansUp(s: State, p: Pid, e: Event)
    requires p in s.procs && s.procs[p].Created? && (e == WriteFails(p) || (e == Write(p) && s.lock.None?))
    ensures Exec(s, [e] + [Unlink(p)]).Some?
    ensures var t := Exec(s, [e] + [Unlink(p)]).value;
      if s.lock.None? then t == s.(procs := s.procs[p := Idle])
      else t == State(Some(s.lock.value.(record := None)), s.tombs, s.procs[p := Emptied(s.procs[p].id)], s.used)
  {
    var t := SetPc(s, p, Removing(s.procs[p].id));
    ExecOne(t, Unlink(p));
    ExecCons(s, e, [Unlink(p)]);
    assert t.procs[p := Idle] == s.procs[p := Idle];
    assert t.procs[p := Emptied(s.procs[p].id)] == s.procs[p := Emptied(s.procs[p].id)];
  }

  // ----- acquisition never waits -----

  predicate HeldAlive(s: State) {
    s.lock.Some? && s.lock.value.record.Some? && Alive(s, s.lock.value.record.value.pid)
  }

  /** A contender that meets a live owner gives up at once: from every state whose lock records a live process, mkdir
      and inspection leave it idle and everything else as it was. */
  lemma LiveOwnerRefuses(s: State, p: Pid, id: OwnerId)
    requires HeldAlive(s) && p in s.procs && s.procs[p].Contending? && id !in s.used
    ensures Exec(s, [Mkdir(p, id), Inspect(p)]) == Some(s.(procs := s.procs[p := Idle]))
  {
    var t := SetPc(s, p, Blocked(s.procs[p].retries));
    assert [Mkdir(p, id), Inspect(p)] == [Mkdir(p, id)] + [Inspect(p)];
    ExecOne(t, Inspect(p));
    ExecCons(s, Mkdir(p, id), [Inspect(p)]);
    assert t.procs[p := Idle] == s.procs[p := Idle];
  }

  lemma ContenderSteps(s: State, p: Pid, id: OwnerId)
    requires p in s.procs
    ensures s.procs[p].Contending? && id !in s.used ==>
      Step(s, Mkdir(p, id)) == Some(StepMkdir(s, p, id, s.procs[p].retries))
    ensures s.procs[p].Blocked? && s.lock.Some? && s.lock.value.record.Some? ==>
      Step(s, ReadOwner(p)) == Some(SetPc(s, p, Inspected(s.lock.value.record.value, s.procs[p].retries)))
    ensures s.procs[p].Inspected? ==>
      Step(s, TestOwner(p)) == Some(Judge(s, p, s.procs[p].seen, s.procs[p].retries))
  {
    hide StepMkdir, Judge;
  }

  /** The same with reading and testing split, whatever the others do in between, as long as the owner that was read
      lives on. */
  lemma LiveOwnerRefusesLater(s: State, p: Pid, id: OwnerId, es: seq<Event>)
    requires HeldAlive(s) && p in s.procs && s.procs[p].Contending? && id !in s.used && Without(es, p)
    requires Exec(s, [Mkdir(p, id), ReadOwner(p)] + es).Some?
    requires Alive(Exec(s, [Mkdir(p, id), ReadOwner(p)] + es).value, s.lock.value.record.value.pid)
    ensures var t := Exec(s, [Mkdir(p, id), ReadOwner(p)] + es).value;
      Exec(s, [Mkdir(p, id), ReadOwner(p)] + es + [TestOwner(p)]) == Some(t.(procs := t.procs[p := Idle]))
  {
    var n := s.procs[p].retries;
    var u := SetPc(s, p, Blocked(n));
    var v := SetPc(u, p, Inspected(s.lock.value.record.value, n));
    hide Step, Exec;
    ContenderSteps(s, p, id);
    ContenderSteps(u, p, id);
    assert [Mkdir(p, id), ReadOwner(p)] == [Mkdir(p, id)] + [ReadOwner(p)];
    ExecOne(u, ReadOwner(p));
    ExecCons(s, Mkdir(p, id), [ReadOwner(p)]);
    ExecAppends(s, [Mkdir(p, id), ReadOwner(p)], es);
    KeepsStanding(v, es, p);
    ExecAppends(s, [Mkdir(p, id), ReadOwner(p)] + es, [TestOwner(p)]);
    var w := Exec(v, es).value;
    ContenderSteps(w, p, id);
    ExecOne(w, TestOwner(p));
  }

  lemma {:induction false} KeepsStanding(s: State, es: seq<Event>, p: Pid)
    requires Without(es, p) && Exec(s, es).Some? && p in s.procs
    ensures var t := Exec(s, es).value; p in t.procs && t.procs[p] == s.procs[p]
    decreases |es|
  {
    if es != [] {
      assert es[0] in es && Without(es[1..], p);
      KeepsStanding(Step(s, es[0]).value, es[1..], p);
    }
  }

  /** A lock without a readable owner refuses as well. */
  lemma UnreadableOwnerRefuses(s: State, p: Pid, id: OwnerId, e: Event)
    requires s.lock.Some? && s.lock.value.record.None? && p in s.procs && s.procs[p].Contending? && id !in s.used
    requires e == Inspect(p) || e == ReadOwner(p)
    ensures Exec(s, [Mkdir(p, id), e]) == Some(s.(procs := s.procs[p := Idle]))
  {
    var t := SetPc(s, p, Blocked(s.procs[p].retries));
    assert [Mkdir(p, id), e] == [Mkdir(p, id)] + [e];
    ExecOne(t, e);
    ExecCons(s, Mkdir(p, id), [e]);
    assert t.procs[p := Idle] == s.procs[p := Idle];
  }

  /** p is on its way to give up before a live owner, this many of its own steps from being idle. */
  predicate GivingUp(s: State, p: Pid, n: int) {
    p in s.procs &&
    match s.procs[p]
    case Idle | Dead => n == 0
    case Inspected(seen, _) => n == 1 && Alive(s, seen.pid)
    case Blocked(_) => n == 2
    case Contending(_) => n == 3
    case _ => false
  }

  /** While a live owner stands still, a process that sets out to acquire is idle again, or dead, after at most four of
      its own steps, and has changed nothing. */
  lemma NobodyWaitsForTheOwner(s: State, p: Pid, es: seq<Event>)
    requires HeldAlive(s) && s.lock.value.record.value.pid != p && p in s.procs && s.procs[p] == Idle
    requires By(es, p) && es != [] && es[0] == Acquire(p) && Acquire(p) !in es[1..] && Exec(s, es).Some?
    ensures |es| <= 5 && (|es| == 5 ==> es[4] == Die(p))
    ensures |es| >= 4 ==> var t := Exec(s, es).value; p in t.procs && (t.procs[p].Idle? || t.procs[p].Dead?)
    ensures Exec(s, es).value == s.(procs := Exec(s, es).value.procs)
  {
    GivesUpInTime(Step(s, Acquire(p)).value, p, es[1..], 3);
  }

  lemma {:induction false} GivesUpInTime(s: State, p: Pid, es: seq<Event>, n: nat)
    requires HeldAlive(s) && s.lock.value.record.value.pid != p && GivingUp(s, p, n)
    requires By(es, p) && Acquire(p) !in es && Exec(s, es).Some?
    ensures |es| <= n + 1 && (|es| == n + 1 ==> es[n] == Die(p))
    ensures Exec(s, es).value == s.(procs := Exec(s, es).value.procs)
    ensures exists m: nat :: m <= n && GivingUp(Exec(s, es).value, p, m) && (|es| >= n ==> m == 0)
    decreases |es|
  {
    if es == [] {
      assert GivingUp(Exec(s, es).value, p, n);
    } else {
      var t := Step(s, es[0]).value;
      assert es[0] in es && es[0].p == p && By(es[1..], p) && Acquire(p) !in es[1..];
      var m: nat := if t.procs[p].Dead? then 0 else if t.procs[p].Idle? then 0 else n - 1;
      assert GivingUp(t, p, m);
      if s.procs[p].Idle? || t.procs[p].Dead? {
        DeadStops(t, p, es[1..]);
      }
      GivesUpInTime(t, p, es[1..], m);
    }
  }

  lemma DeadStops(s: State, p: Pid, es: seq<Event>)
    requires p in s.procs && s.procs[p].Dead? && By(es, p) && Exec(s, es).Some?
    ensures es == []
  {
    assert forall i :: 0 <= i < |es| ==> es[i] in es;
  }

  // ----- the retry budget -----

  /** What p did since it last set out to acquire: renames that failed, renames that moved something, all its steps. */
  datatype Tally = Tally(failed: nat, moved: nat, steps: nat)

  function Tallied(s: State, e: Event, p: Pid, c: Tally): Tally
    requires Step(s, e).Some?
  {
    if e.p != p then c
    else if e.Acquire? then Tally(0, 0, 1)
    else if e.Rename? then
      if s.lock.Some? && Step(s, e).value.lock.None? then Tally(c.failed, c.moved + 1, c.steps + 1)
      else Tally(c.failed + 1, c.moved, c.steps + 1)
    else c.(steps := c.steps + 1)
  }

  function TallyOf(s: State, es: seq<Event>, p: Pid, c: Tally): Tally
    requires Exec(s, es).Some?
    decreases |es|
  {
    if es == [] then c else TallyOf(Step(s, es[0]).value, es[1..], p, Tallied(s, es[0], p, c))
  }

  /** In the loop the failed renames are counted and at most 8, and there are at most four steps to each round. */
  predicate WithinBudget(s: State, p: Pid, c: Tally) {
    p in s.procs ==>
      match s.procs[p]
      case Contending(n) => n == c.failed <= 8 && c.steps <= 4 * (c.failed + c.moved) + 1
      case Blocked(n) => n == c.failed <= 8 && c.steps <= 4 * (c.failed + c.moved) + 2
      case Inspected(_, n) => n == c.failed <= 8 && c.steps <= 4 * (c.failed + c.moved) + 3
      case Reclaiming(_, n) => n == c.failed <= 8 && c.steps <= 4 * (c.failed + c.moved) + 4
      case _ => true
  }

  lemma {:induction false} RetryBudget(s: State, es: seq<Event>, p: Pid, c: Tally)
    requires WithinBudget(s, p, c) && Exec(s, es).Some?
    ensures WithinBudget(Exec(s, es).value, p, TallyOf(s, es, p, c))
    decreases |es|
  {
    if es != [] {
      RetryBudget(Step(s, es[0]).value, es[1..], p, Tallied(s, es[0], p, c));
    }
  }

  /** Over every run: a rename that fails sends the process back to try again, and the ninth since it set out sends it
      away; one that moves something does not count. */
  lemma NinthFailureGivesUp(es: seq<Event>, p: Pid)
    requires Exec(Init, es + [Rename(p)]).Some? && Exec(Init, es).Some?
    ensures var c, s := TallyOf(Init, es, p, Tally(0, 0, 0)), Exec(Init, es).value;
      var t := Exec(Init, es + [Rename(p)]).value;
      && p in s.procs && p in t.procs && c.failed <= 8
      && (if s.lock.Some? && t.lock.None? then t.procs[p] == Contending(c.failed)
          else t.lock == s.lock && t.tombs == s.tombs
               && t.procs[p] == if c.failed < 8 then Contending(c.failed + 1) else Idle)
  {
    RetryBudget(Init, es, p, Tally(0, 0, 0));
    var s := Exec(Init, es).value;
    ExecAppends(Init, es, [Rename(p)]);
    assert [Rename(p)][0] == Rename(p);
    ExecOne(s, Rename(p));
  }

  // ----- what the permanent tombstone guarantees in EVERY interleaving, split inspection included -----

  lemma {:induction false} SealedForever(s: State, es: seq<Event>, k: OwnerId)
    requires Sealed(s, k) && Exec(s, es).Some?
    ensures Sealed(Exec(s, es).value, k) && Exec(s, es).value.tombs[k] == s.tombs[k]
    decreases |es|
  {
    if es != [] {
      SealedForever(Step(s, es[0]).value, es[1..], k);
    }
  }

  /** Once generation k lies in its own tombstone, no reclaimer of k moves anything, however late it runs. */
  lemma DelayedReclaimerIsHarmless(s: State, es: seq<Event>, k: OwnerId, p: Pid)
    requires Sealed(s, k) && Exec(s, es).Some?
    requires var t := Exec(s, es).value;
      Alive(t, p) && t.procs[p].Reclaiming? && t.procs[p].victim.id == k
    ensures var t := Exec(s, es).value;
      Step(t, Rename(p)).Some? && Step(t, Rename(p)).value.lock == t.lock && Step(t, Rename(p)).value.tombs == t.tombs
  {
    SealedForever(s, es, k);
  }

  /** p has not acted on its decision. */
  predicate Pending(s: State, t: State, p: Pid) {
    p in s.procs && p in t.procs && t.procs[p] == s.procs[p]
  }

  /** Exactly when: whatever the state, and in every interleaving from it, p's rename moves nothing for as long as
      p holds its decision if and only if the victim's tombstone is sealed. From a free path the alternative is
      that it takes the directory of a live holder. */
  lemma ReclaimerIsHarmlessIffSealed(s: State, p: Pid)
    requires Alive(s, p) && s.procs[p].Reclaiming?
    ensures Sealed(s, s.procs[p].victim.id) <==>
      forall es :: Exec(s, es).Some? && Pending(s, Exec(s, es).value, p) ==> !Takes(Exec(s, es).value, p)
    ensures s.lock.None? ==>
      (Sealed(s, s.procs[p].victim.id) <==>
       forall es, h :: Exec(s, es).Some? && Pending(s, Exec(s, es).value, p)
                       ==> !TakesFromHolder(Exec(s, es).value, p, h))
  {
    hide Exec;
    var v := s.procs[p].victim;
    if Sealed(s, v.id) {
      forall es | Exec(s, es).Some? && Pending(s, Exec(s, es).value, p) ensures !Takes(Exec(s, es).value, p) {
        SealedForever(s, es, v.id);
      }
    } else if s.lock.Some? {
      ExecNone(s);
      assert Pending(s, s, p) && Takes(s, p);
    } else {
      var es, h, g := TakeFreeLock(s);
      assert TakesFromHolder(Exec(s, es).value, p, h);
    }
  }

  /** A process that can still rewrite or empty the directory at the path: it writes or removes there without looking
      again, or holds a lease that the record at the path names. */
  predicate Writer(s: State, p: Pid) {
    && p in s.procs
    && (s.procs[p].Created? || s.procs[p].Removing?
        || (s.procs[p].Holding? && s.lock.Some? && s.lock.value.record.Some?
            && s.lock.value.record.value.id == s.procs[p].id))
  }

  /** p's rename would take a directory other than that of generation g. */
  predicate TakesOther(t: State, p: Pid, g: OwnerId) {
    Takes(t, p) && t.lock.value.gen != g
  }

  /** q has decided, or can yet find, that the owner w is dead, and w's tombstone does not stop its rename. */
  predicate Loose(s: State, p: Pid, q: Pid, w: Record) {
    && q != p && q in s.procs && !Sealed(s, w.id)
    && ((s.procs[q].Reclaiming? && s.procs[q].victim == w)
        || (s.procs[q].Inspected? && s.procs[q].seen == w && w.pid != p && w.pid != q))
  }

  /** q can still write the directory at the path, or remove it. */
  predicate Clears(s: State, q: Pid) {
    Writer(s, q) || (q in s.procs && s.procs[q].Emptied? && s.lock.Some? && s.lock.value.record.None?)
  }

  /** The directory of generation g at the path can leave it otherwise than to the tombstone of g, with a record. */
  ghost predicate Escapes(s: State, p: Pid, g: OwnerId)
    requires s.lock.Some?
  {
    || (exists q :: Clears(s, q))
    || (exists q, w :: Loose(s, p, q, w) && (w.id != g || s.lock.value.record.None?))
    || (s.lock.value.record.Some? && s.lock.value.record.value.id != g && s.lock.value.record.value.pid != p
        && !Sealed(s, s.lock.value.record.value.id))
  }

  /** Nothing took the directory elsewhere so far, and nothing will. */
  ghost predicate Confined(s: State, p: Pid, v: Record, retries: nat) {
    && p in s.procs && s.procs[p] == Reclaiming(v, retries)
    && (Sealed(s, v.id) || (s.lock.Some? && s.lock.value.gen == v.id && !Escapes(s, p, v.id)))
  }

  lemma ConfinedRename(s: State, p: Pid, v: Record, n: nat, q: Pid)
    requires Confined(s, p, v, n) && q != p && Step(s, Rename(q)).Some?
    ensures Confined(Step(s, Rename(q)).value, p, v, n)
  {
    if !Sealed(s, v.id) {
      var w := s.procs[q].victim;
      var t := Step(s, Rename(q)).value;
      if Sealed(s, w.id) {
        QuietKeepsConfined(s, p, v, n, q, t.procs[q]);
      } else {
        assert Loose(s, p, q, w);
      }
    }
  }

  /** A step that changes only q's own standing, without loosening anything. */
  lemma QuietKeepsConfined(s: State, p: Pid, v: Record, n: nat, q: Pid, pc: Pc)
    requires Confined(s, p, v, n) && q != p && !Sealed(s, v.id)
    requires var t := SetPc(s, q, pc);
      !Clears(t, q) && forall w :: Loose(t, p, q, w) ==> w.id == v.id && s.lock.value.record.Some?
    ensures Confined(SetPc(s, q, pc), p, v, n)
  {
    var t := SetPc(s, q, pc);
    assert forall x :: x != q ==> (Clears(t, x) <==> Clears(s, x));
    assert forall x, w :: x != q ==> (Loose(t, p, x, w) <==> Loose(s, p, x, w));
  }

  lemma ConfinedStep(s: State, p: Pid, v: Record, n: nat, e: Event)
    requires Confined(s, p, v, n) && e.p != p && Step(s, e).Some?
    ensures Confined(Step(s, e).value, p, v, n)
  {
    var t := Step(s, e).value;
    if e.Rename? {
      ConfinedRename(s, p, v, n, e.p);
    } else if !Sealed(s, v.id) {
      var q := e.p;
      assert !Clears(s, q);
      assert t == SetPc(s, q, t.procs[q]);
      forall w | Loose(t, p, q, w) ensures w.id == v.id && s.lock.value.record.Some? {
        assert !Loose(s, p, q, w) || (w.id == v.id && s.lock.value.record.Some?);
      }
      QuietKeepsConfined(s, p, v, n, q, t.procs[q]);
    }
  }

  lemma {:induction false} ConfinedRun(s: State, p: Pid, v: Record, n: nat, es: seq<Event>)
    requires Confined(s, p, v, n) && Without(es, p) && Exec(s, es).Some?
    ensures !TakesOther(Exec(s, es).value, p, v.id)
    decreases |es|
  {
    if es != [] {
      hide Step, Confined, TakesOther;
      assert es[0] in es && Without(es[1..], p);
      ConfinedStep(s, p, v, n, es[0]);
      ConfinedRun(Step(s, es[0]).value, p, v, n, es[1..]);
    }
  }

  /** Once the path is free and the tombstone is not sealed, a fresh process takes the lock before the rename. */
  lemma TakeBeforeRename(s: State, first: seq<Event>, p: Pid, v: Record, n: nat) returns (es: seq<Event>)
    requires Without(first, p) && Exec(s, first).Some?
    requires var t := Exec(s, first).value;
      t.lock.None? && p in t.procs && t.procs[p] == Reclaiming(v, n) && v.id in t.used && !Sealed(t, v.id)
    ensures Without(es, p) && Exec(s, es).Some? && TakesOther(Exec(s, es).value, p, v.id)
  {
    var t := Exec(s, first).value;
    var rest, h, g := TakeFreeLock(t);
    ExecAppends(s, first, rest);
    es := first + rest;
  }

  /** q itself clears the path. */
  lemma {:induction false} ClearThePath(s: State, q: Pid) returns (es: seq<Event>)
    requires s.lock.Some? && Clears(s, q)
    ensures By(es, q) && Exec(s, es) == Some(State(None, s.tombs, s.procs[q := Idle], s.used))
    decreases if s.procs[q].Emptied? then 0 else if s.procs[q].Removing? then 1 else 2
  {
    var e := match s.procs[q]
      case Created(_) => WriteFails(q)
      case Holding(_) => Release(q)
      case Removing(_) => Unlink(q)
      case _ => Rmdir(q);
    var t := Step(s, e).value;
    if s.procs[q].Emptied? {
      es := [e];
      assert t == State(None, s.tombs, s.procs[q := Idle], s.used);
    } else {
      var rest := ClearThePath(t, q);
      ExecCons(s, e, rest);
      es := [e] + rest;
      assert t.procs[q := Idle] == s.procs[q := Idle];
    }
  }

  /** A process other than p can always be made to have died. */
  lemma MakeDead(s: State, x: Pid) returns (es: seq<Event>)
    ensures By(es, x) && Exec(s, es) == Some(s.(procs := s.procs[x := Dead]))
  {
    if x !in s.procs {
      var t := SetPc(s, x, Idle);
      es := [Start(x)] + [Die(x)];
      ExecCons(s, Start(x), [Die(x)]);
      ExecOne(t, Die(x));
      assert t.procs[x := Dead] == s.procs[x := Dead];
    } else if s.procs[x] == Dead {
      es := [];
      ExecNone(s);
      assert s.procs[x := Dead] == s.procs;
    } else {
      es := [Die(x)];
      ExecOne(s, Die(x));
    }
  }

  /** A loose process buries the directory under the name of w. */
  lemma LooseBuries(s: State, p: Pid, q: Pid, w: Record) returns (es: seq<Event>)
    requires s.lock.Some? && p in s.procs && s.procs[p].Reclaiming? && Loose(s, p, q, w)
    ensures Without(es, p) && Exec(s, es).Some?
    ensures var t := Exec(s, es).value;
      t.lock.None? && t.tombs == s.tombs[w.id := s.lock.value] && t.used == s.used
      && p in t.procs && t.procs[p] == s.procs[p]
  {
    if s.procs[q].Reclaiming? {
      es := [Rename(q)];
      ExecOne(s, Rename(q));
    } else {
      var first := MakeDead(s, w.pid);
      var t := Exec(s, first).value;
      var u := Step(t, TestOwner(q)).value;
      ExecOne(u, Rename(q));
      ExecCons(t, TestOwner(q), [Rename(q)]);
      ExecAppends(s, first, [TestOwner(q)] + [Rename(q)]);
      es := first + ([TestOwner(q)] + [Rename(q)]);
    }
  }

  /** A fresh process buries it under the name its record bears. */
  lemma FreshBuries(s: State, p: Pid) returns (es: seq<Event>)
    requires s.lock.Some? && s.lock.value.record.Some? && p in s.procs && s.procs[p].Reclaiming?
    requires s.lock.value.record.value.pid != p && !Sealed(s, s.lock.value.record.value.id)
    ensures Without(es, p) && Exec(s, es).Some?
    ensures var t := Exec(s, es).value;
      t.lock.None? && t.tombs == s.tombs[s.lock.value.record.value.id := s.lock.value] && t.used == s.used
      && p in t.procs && t.procs[p] == s.procs[p]
  {
    var first := MakeDead(s, s.lock.value.record.value.pid);
    var rest, f := QuarantineTheDead(Exec(s, first).value);
    ExecAppends(s, first, rest);
    es := first + rest;
  }

  lemma EscapeTakes(s: State, p: Pid, v: Record, n: nat) returns (es: seq<Event>)
    requires p in s.procs && s.procs[p] == Reclaiming(v, n) && s.lock.Some? && v.id in s.used
    requires !Sealed(s, v.id) && Escapes(s, p, v.id)
    ensures Without(es, p) && Exec(s, es).Some? && TakesOther(Exec(s, es).value, p, v.id)
  {
    hide Exec, TakesOther, Without;
    var first;
    if q :| Clears(s, q) {
      first := ClearThePath(s, q);
      ByIsWithout(first, q, p);
    } else if q, w :| Loose(s, p, q, w) && (w.id != v.id || s.lock.value.record.None?) {
      first := LooseBuries(s, p, q, w);
    } else {
      first := FreshBuries(s, p);
    }
    es := TakeBeforeRename(s, first, p, v, n);
  }

  lemma ByIsWithout(es: seq<Event>, q: Pid, p: Pid)
    requires By(es, q) && p != q
    ensures Without(es, p)
  {
  }

  /** Exactly when, from a state with the victim's own directory still at the path: while p stands still, its rename can
      come to take another directory if and only if the tombstone is not sealed and the directory can leave the path
      otherwise than to that tombstone with its record. It can if some process can still write or remove it, if another
      one holds an unsealed reading or decision about another owner (or about any, while there is no record), or if the
      record names another owner. */
  lemma ReplacementIsTakenIff(s: State, p: Pid, v: Record, n: nat)
    requires p in s.procs && s.procs[p] == Reclaiming(v, n)
    requires s.lock.Some? && s.lock.value.gen == v.id && v.id in s.used
    ensures !Sealed(s, v.id) && Escapes(s, p, v.id) <==>
      exists es :: Without(es, p) && Exec(s, es).Some? && TakesOther(Exec(s, es).value, p, v.id)
  {
    hide Exec, TakesOther, Without, Escapes;
    if !Sealed(s, v.id) && Escapes(s, p, v.id) {
      var es := EscapeTakes(s, p, v, n);
    } else {
      forall es | Without(es, p) && Exec(s, es).Some? ensures !TakesOther(Exec(s, es).value, p, v.id) {
        ConfinedRun(s, p, v, n, es);
      }
    }
  }

  /** The event is a rename that moves the directory of generation g off the lock path. */
  predicate Moves(s: State, e: Event, g: OwnerId) {
    e.Rename? && Step(s, e).Some? && s.lock.Some? && s.lock.value.gen == g && Step(s, e).value.lock.None?
  }

  function CountMoves(s: State, es: seq<Event>, g: OwnerId): nat
    decreases |es|
  {
    if es == [] || Step(s, es[0]).None? then 0
    else (if Moves(s, es[0], g) then 1 else 0) + CountMoves(Step(s, es[0]).value, es[1..], g)
  }

  lemma {:induction false} GoneForGood(s: State, es: seq<Event>, g: OwnerId)
    requires g in s.used && (s.lock.Some? ==> s.lock.value.gen != g)
    ensures CountMoves(s, es, g) == 0
    ensures Exec(s, es).Some? && Exec(s, es).value.lock.Some? ==> Exec(s, es).value.lock.value.gen != g
    decreases |es|
  {
    if es != [] && Step(s, es[0]).Some? {
      GoneForGood(Step(s, es[0]).value, es[1..], g);
    }
  }

  /** At most one rename ever moves a given generation, whoever performs it. */
  lemma {:induction false} MovedAtMostOnce(s: State, es: seq<Event>, g: OwnerId)
    requires s.lock.Some? ==> s.lock.value.gen in s.used
    ensures CountMoves(s, es, g) <= 1
    decreases |es|
  {
    if es != [] && Step(s, es[0]).Some? {
      var t := Step(s, es[0]).value;
      if Moves(s, es[0], g) {
        GoneForGood(t, es[1..], g);
      } else {
        MovedAtMostOnce(t, es[1..], g);
      }
    }
  }

  /** The directory at the path in s is there, and unmoved, or was moved exactly once and lies in a tombstone, unchanged
      either way. */
  ghost predicate Accounted(s: State, es: seq<Event>)
    requires s.lock.Some? && Exec(s, es).Some?
  {
    var t, d := Exec(s, es).value, s.lock.value;
    || (t.lock == s.lock && CountMoves(s, es, d.gen) == 0)
    || (CountMoves(s, es, d.gen) == 1 && (t.lock.Some? ==> t.lock.value.gen != d.gen)
        && exists k :: k in t.tombs && t.tombs[k] == d)
  }

  /** Without a writer, a step leaves the recorded directory alone or moves it, whole, to a tombstone. */
  lemma UnwrittenStep(s: State, e: Event)
    requires s.lock.Some? && s.lock.value.record.Some? && Step(s, e).Some?
    requires forall p :: !Writer(s, p)
    ensures var t, d := Step(s, e).value, s.lock.value;
      if Moves(s, e, d.gen) then
        exists k :: k in t.tombs && t.tombs[k] == d
      else t.lock == s.lock && forall p :: !Writer(t, p)
  {
    var t, d := Step(s, e).value, s.lock.value;
    assert !Writer(s, e.p);
    if Moves(s, e, d.gen) {
      assert t.tombs[s.procs[e.p].victim.id] == d;
    } else {
      forall p ensures !Writer(t, p) {
        assert !Writer(s, p);
        assert p != e.p && p in t.procs ==> p in s.procs && t.procs[p] == s.procs[p];
      }
    }
  }

  lemma {:induction false} UnwrittenRun(s: State, es: seq<Event>)
    requires s.lock.Some? && s.lock.value.record.Some? && s.lock.value.gen in s.used
    requires (forall p :: !Writer(s, p)) && Exec(s, es).Some?
    ensures Accounted(s, es)
    decreases |es|
  {
    if es != [] {
      var d, t := s.lock.value, Step(s, es[0]).value;
      UnwrittenStep(s, es[0]);
      if Moves(s, es[0], d.gen) {
        var k :| k in t.tombs && t.tombs[k] == d;
        GoneForGood(t, es[1..], d.gen);
        SealedForever(t, es[1..], k);
      } else {
        hide Step;
        UnwrittenRun(t, es[1..]);
      }
    }
  }

  /** A writer can empty the directory at the path, in place. */
  lemma WriterEmpties(s: State, p: Pid) returns (es: seq<Event>)
    requires s.lock.Some? && s.lock.value.record.Some? && Writer(s, p)
    ensures Exec(s, es).Some? && Exec(s, es).value.lock == Some(s.lock.value.(record := None))
    ensures CountMoves(s, es, s.lock.value.gen) == 0
    decreases if s.procs[p].Removing? then 0 else 1
  {
    if s.procs[p].Removing? {
      es := [Unlink(p)];
    } else {
      var e := if s.procs[p].Created? then WriteFails(p) else Release(p);
      var t := Step(s, e).value;
      assert t.lock == s.lock && t.procs[p].Removing?;
      var rest := WriterEmpties(t, p);
      es := [e] + rest;
      assert es[1..] == rest;
    }
  }

  /** Exactly when: in every interleaving, split inspection included, a recorded directory stays at the path or is moved
      by exactly one rename, and never changes, if and only if no process can still write it. */
  lemma MovedExactlyOnceIff(s: State)
    requires s.lock.Some? && s.lock.value.record.Some? && s.lock.value.gen in s.used
    ensures (forall p :: !Writer(s, p)) <==> (forall es :: Exec(s, es).Some? ==> Accounted(s, es))
  {
    if p :| Writer(s, p) {
      var es := WriterEmpties(s, p);
      assert !Accounted(s, es);
    } else {
      forall es | Exec(s, es).Some? ensures Accounted(s, es) {
        UnwrittenRun(s, es);
      }
    }
  }

  /** The generation at the path is always a used one. */
  lemma {:induction false} PathIsUsed(s: State, es: seq<Event>)
    requires Exec(s, es).Some? && (s.lock.Some? ==> s.lock.value.gen in s.used)
    ensures var t := Exec(s, es).value; t.lock.Some? ==> t.lock.value.gen in t.used
    decreases |es|
  {
    if es != [] {
      PathIsUsed(Step(s, es[0]).value, es[1..]);
    }
  }

  /** In grounded runs exactly one rename moves the directory of a dead holder: it is at the path and nobody has moved
      it, or it lies in its own tombstone, unchanged and for good, and was moved once. */
  lemma {:induction false} DeadHolderIsMovedOnce(s: State, es: seq<Event>)
    requires Core(s) && SoundRun(s, es) && Exec(s, es).Some?
    requires s.lock.Some? && s.lock.value.record.Some? && !Alive(s, s.lock.value.maker)
    ensures var t, d := Exec(s, es).value, s.lock.value;
      if t.lock.Some? && t.lock.value.gen == d.gen then t.lock == s.lock && CountMoves(s, es, d.gen) == 0
      else Sealed(t, d.gen) && t.tombs[d.gen] == d && CountMoves(s, es, d.gen) == 1
    decreases |es|
  {
    if es != [] {
      var d, t := s.lock.value, Step(s, es[0]).value;
      StepKeepsCore(s, es[0]);
      DeadHolderStep(s, es[0]);
      if t.lock == s.lock {
        DeadHolderIsMovedOnce(t, es[1..]);
      } else {
        GoneForGood(t, es[1..], d.gen);
        SealedForever(t, es[1..], d.gen);
      }
    }
  }

  /** Only a rename under the dead holder's own name changes its directory's place, and nothing changes its content. */
  lemma DeadHolderStep(s: State, e: Event)
    requires Core(s) && Step(s, e).Some?
    requires s.lock.Some? && s.lock.value.record.Some? && !Alive(s, s.lock.value.maker)
    ensures var t, d := Step(s, e).value, s.lock.value;
      && !Alive(t, d.maker)
      && if Moves(s, e, d.gen) then t.lock.None? && t.tombs == s.tombs[d.gen := d] else t.lock == s.lock
  {
  }

  lemma {:induction false} BuriedIffMoved(s: State, es: seq<Event>, k: OwnerId)
    requires Inv(s) && SoundRun(s, es) && Exec(s, es).Some?
    ensures CountMoves(s, es, k) + (if k in s.tombs then 1 else 0) == if k in Exec(s, es).value.tombs then 1 else 0
    decreases |es|
  {
    if es != [] {
      StepKeepsInv(s, es[0]);
      BuriedIffMoved(Step(s, es[0]).value, es[1..], k);
    }
  }

  /** In grounded runs a generation was moved off the path exactly when its own tombstone exists, and then it lies
      there, sealed, and its maker is dead. */
  lemma SoundRunsBuryUnderOwnName(es: seq<Event>, k: OwnerId)
    requires SoundRun(Init, es) && Exec(Init, es).Some?
    ensures var t := Exec(Init, es).value;
      && CountMoves(Init, es, k) == (if k in t.tombs then 1 else 0)
      && (k in t.tombs ==> Sealed(t, k) && t.tombs[k].gen == k && !Alive(t, t.tombs[k].maker))
  {
    RunKeepsCore(Init, es);
    BuriedIffMoved(Init, es, k);
  }

  /** 1 has read 0's record and 0 is gone. Process 2 acquires and dies holding. */
  const AcquireAndDie: seq<Event> := [Start(2), Acquire(2), Mkdir(2, 12), Write(2), Die(2)]

  /** 3 finds 2 dead, in one step. */
  const CondemnTheDead: seq<Event> := [Start(3), Acquire(3), Mkdir(3, 13), Inspect(3)]

  /** 1's stale test sends 2's directory to the tombstone of 0. */
  const BuryUnderOtherName: seq<Event> := [TestOwner(1), Rename(1)]

  const ForeignBurial: seq<Event> := AcquireAndDie + CondemnTheDead + BuryUnderOtherName

  const DeadOwner: State :=
    State(Some(Dir(12, 2, Some(Record(2, 12)))), map[],
          map[0 := Dead, 1 := Inspected(Record(0, 10), 0), 2 := Dead], {10, 12})

  const Buried: State :=
    State(None, map[10 := Dir(12, 2, Some(Record(2, 12)))],
          map[0 := Dead, 1 := Contending(0), 2 := Dead, 3 := Reclaiming(Record(2, 12), 0)], {10, 12})

  lemma ReachDeadOwner()
    ensures Exec(Released, AcquireAndDie) == Some(DeadOwner)
  {
    hide Exec;
    var seen := Inspected(Record(0, 10), 0);
    var ss := [Released,
               State(None, map[], map[0 := Dead, 1 := seen, 2 := Idle], {10}),
               State(None, map[], map[0 := Dead, 1 := seen, 2 := Contending(0)], {10}),
               State(Some(Dir(12, 2, None)), map[], map[0 := Dead, 1 := seen, 2 := Created(12)], {10, 12}),
               DeadOwner.(procs := map[0 := Dead, 1 := seen, 2 := Holding(12)]),
               DeadOwner];
    Replay(ss, AcquireAndDie);
  }

  const Sentenced: State := DeadOwner.(procs := DeadOwner.procs[3 := Reclaiming(Record(2, 12), 0)])

  lemma ReachSentenced()
    ensures Exec(DeadOwner, CondemnTheDead) == Some(Sentenced)
  {
    hide Exec;
    var procs := map[0 := Dead, 1 := Inspected(Record(0, 10), 0), 2 := Dead];
    var ss := [DeadOwner,
               DeadOwner.(procs := procs[3 := Idle]),
               DeadOwner.(procs := procs[3 := Contending(0)]),
               DeadOwner.(procs := procs[3 := Blocked(0)]),
               Sentenced];
    Replay(ss, CondemnTheDead);
  }

  lemma ReachBuried()
    ensures Exec(Released, ForeignBurial) == Some(Buried)
  {
    hide Exec;
    var ss := [Sentenced, Sentenced.(procs := Sentenced.procs[1 := Reclaiming(Record(0, 10), 0)]), Buried];
    Replay(ss, BuryUnderOtherName);
    ReachDeadOwner();
    ReachSentenced();
    ExecAppends(Released, AcquireAndDie, CondemnTheDead);
    ExecAppends(Released, AcquireAndDie + CondemnTheDead, BuryUnderOtherName);
  }

  /** So the tombstone protects only a generation moved by its own reclaimers: generation 12 died holding and was
      buried under another owner's name. Its delayed reclaimer 3 then takes the directory of h, who holds the lock,
      to the tombstone of 12, and another process acquires beside h. */
  lemma ForeignBurialDefeatsTheTombstone() returns (es: seq<Event>, h: Pid, fs: seq<Event>)
    ensures Exec(Init, ReadWhileHeld + ReleaseAndExit + ForeignBurial) == Some(Buried)
    ensures Condemned(Buried, 3, Record(2, 12)) && Buried.tombs[10].gen == 12
    ensures OneStepInspection(es) && Exec(Buried, es).Some?
    ensures var t := Exec(Buried, es).value;
      && TakesFromHolder(t, 3, h) && Pending(Buried, t, 3)
      && Step(t, Rename(3)).value.tombs == t.tombs[12 := t.lock.value]
      && OneStepInspection(fs)
      && Exec(t, [Rename(3)] + fs).Some? && TwoHolders(Exec(t, [Rename(3)] + fs).value)
  {
    hide Exec, OneStepInspection, TwoHolders, By;
    ReachReleased();
    ReachBuried();
    ExecAppends(Init, ReadWhileHeld + ReleaseAndExit, ForeignBurial);
    var g;
    es, h, g := TakeFreeLock(Buried);
    fs := RenameExposed(Exec(Buried, es).value, h, 3, Record(2, 12));
  }
}
