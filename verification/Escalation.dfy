/**
  * The repair-escalation ladders of evals/src/sniff-feedback.ts: one ladder per failure signature,
  * one per scenario score, driven by the polls of `postSniffFeedback`.
  *
  * Hashes and fingerprints are tokens: equal exactly when the hashed inputs are. What the outside
  * world answers (session snapshots, deliveries, turns in flight) is part of the poll.
  */
module Escalation {
  import opened Common

  type FileKey = nat
  type Session = nat

  /** `coarseSniffSignature` names the file it is about; the plateau key is the score alone. */
  datatype Key = Signature(file: FileKey, failure: nat) | Plateau(score: real)

  /** `revisionKey`: the exact failure key and the content fingerprint. */
  datatype Revision = Revision(exact: nat, content: nat)

  datatype Snapshot = Snapshot(inflight: bool, mutationTurns: int, turns: int)
  datatype Checkpoint = Checkpoint(session: Session, mutationTurns: int)
  datatype PendingTurn = PendingTurn(session: Session, turnsAtLeast: int)

  /** SniffEscalationState. */
  datatype Ladder = Ladder(
    attempts: int,
    revisions: map<FileKey, Revision>,
    sent: bool,
    repair: Option<Checkpoint>,
    progress: Option<nat>,
    turn: Option<PendingTurn>)

  datatype Target = Target(gezel: nat, session: Option<Session>)

  /** The sends of one nudge: the primary message, then the optional coordinator copy and asset hand-off. */
  datatype Delivery =
    | Refused(permanent: bool)            // the primary send failed
    | FollowUpFailed(permanent: bool)     // the primary landed, a later send threw
    | Delivered(session: Option<Session>)

  datatype Poll = Poll(
    ok: bool, reasons: bool,
    file: FileKey, failure: nat, revision: Revision, token: Option<nat>, score: Option<real>,
    sigSnapshot: Option<Snapshot>, plateauSnapshot: Option<Snapshot>,
    hold: bool, target: Option<Target>, inflightMs: Option<nat>, deferMs: nat,
    baseline: Option<Snapshot>, delivery: Delivery, after: Option<Snapshot>)

  datatype Context = Context(hasSnapshots: bool, runtimePolicy: bool)

  datatype Nudge = Nudge(exact: nat, stage: int)

  datatype Feedback = Feedback(ladders: map<Key, Ladder>, posted: set<Nudge>, refused: set<(Nudge, nat)>)

  datatype Outcome =
    | NoOp | Held | Deduped | Deferred | Unroutable | SendFailed
    | Sent(stage: int, attempts: int)
    | Exhausted(attempts: int)

  const INFLIGHT_TERMINAL_DEFER_MS: nat := 15 * 60_000

  // ----- one ladder -----

  function Fresh(file: FileKey, revision: Revision): Ladder {
    Ladder(1, map[file := revision], false, None, None, None)
  }

  function LadderAt(ladders: map<Key, Ladder>, key: Key, p: Poll): Ladder {
    if key in ladders then ladders[key] else Fresh(p.file, p.revision)
  }

  /** completedTurnSinceNudge. */
  predicate CompletedTurn(ctx: Context, l: Ladder, snapshot: Option<Snapshot>) {
    !ctx.hasSnapshots ||
    (l.turn.Some? && snapshot.Some? && !snapshot.value.inflight && snapshot.value.turns >= l.turn.value.turnsAtLeast)
  }

  predicate CompletedRepair(ctx: Context, l: Ladder, snapshot: Option<Snapshot>) {
    l.sent && l.repair.Some? && ctx.hasSnapshots
    && snapshot.Some? && !snapshot.value.inflight && snapshot.value.mutationTurns > l.repair.value.mutationTurns
  }

  predicate RevisionChanged(l: Ladder, p: Poll) {
    p.file !in l.revisions || l.revisions[p.file] != p.revision
  }

  predicate Moved(l: Ladder, p: Poll) {
    p.token.Some? && l.progress.Some? && l.progress != p.token
  }

  /** advanceEscalationState. */
  function Advance(ctx: Context, l: Ladder, p: Poll, snapshot: Option<Snapshot>): Ladder {
    var seen := l.revisions[p.file := p.revision];
    if p.token.Some? then
      if Moved(l, p) then Ladder(1, seen, false, None, p.token, None)
      else if l.sent && CompletedTurn(ctx, l, snapshot) then
        Ladder(l.attempts + 1, seen, false, None, p.token, None)
      else l.(revisions := seen, progress := p.token)
    else if (RevisionChanged(l, p) || CompletedRepair(ctx, l, snapshot)) && l.sent then
      l.(attempts := l.attempts + 1, sent := false, revisions := seen, repair := None)
    else l.(revisions := seen)
  }

  // ----- stages -----

  function StageForAttempts(attempts: int): int {
    if attempts >= 4 then 3 else if attempts == 3 then 2 else if attempts == 2 then 1 else 0
  }

  function StageForPlateau(attempts: int): int {
    if attempts >= 6 then 3 else if attempts >= 4 then 2 else if attempts == 3 then 1 else 0
  }

  datatype Verdict = Verdict(stage: int, attempts: int)

  /** The staged decision from the signature ladder and, at a positive score, the plateau ladder. */
  function Judge(sig: int, plateau: Option<int>): Verdict {
    var signatureStage := StageForAttempts(sig);
    var plateauStage := if plateau.Some? then StageForPlateau(plateau.value) else 0;
    if plateauStage > signatureStage then Verdict(plateauStage, plateau.value)
    else if signatureStage == 3 && plateau.Some? && plateauStage < 2 then Verdict(2, sig)
    else Verdict(signatureStage, sig)
  }

  // ----- one poll -----

  function SigKey(p: Poll): Key {
    Signature(p.file, p.failure)
  }

  predicate Scored(p: Poll) {
    p.score.Some? && p.score.value > 0.0
  }

  function PlateauKey(p: Poll): Key
    requires Scored(p)
  {
    Plateau(p.score.value)
  }

  /** Both ladders after the poll was observed. */
  function Observe(ctx: Context, ladders: map<Key, Ladder>, p: Poll): map<Key, Ladder> {
    var l1 := ladders[SigKey(p) := Advance(ctx, LadderAt(ladders, SigKey(p), p), p, p.sigSnapshot)];
    if Scored(p) then l1[PlateauKey(p) := Advance(ctx, LadderAt(l1, PlateauKey(p), p), p, p.plateauSnapshot)]
    else l1
  }

  predicate Resets(st: Feedback, p: Poll) {
    Moved(LadderAt(st.ladders, SigKey(p), p), p)
  }

  function Forget(posted: set<Nudge>, exact: nat): set<Nudge> {
    posted - {Nudge(exact, 0), Nudge(exact, 1), Nudge(exact, 2), Nudge(exact, 3)}
  }

  function Observed(ctx: Context, st: Feedback, p: Poll): Feedback {
    st.(ladders := Observe(ctx, st.ladders, p),
        posted := if Resets(st, p) then Forget(st.posted, p.revision.exact) else st.posted)
  }

  function VerdictOf(ladders: map<Key, Ladder>, p: Poll): Verdict
    requires SigKey(p) in ladders && (Scored(p) ==> PlateauKey(p) in ladders)
  {
    Judge(ladders[SigKey(p)].attempts, if Scored(p) then Some(ladders[PlateauKey(p)].attempts) else None)
  }

  function DeliveredSession(p: Poll): Option<Session>
    requires p.delivery.Delivered? && p.target.Some?
  {
    if p.delivery.session.Some? then p.delivery.session else p.target.value.session
  }

  /** The repair-action baseline: taken only of an existing session. */
  function Baseline(ctx: Context, p: Poll): Option<Snapshot>
    requires p.target.Some?
  {
    if p.target.value.session.Some? && ctx.hasSnapshots then p.baseline else None
  }

  function CheckpointAfter(ctx: Context, p: Poll): Option<Checkpoint>
    requires p.delivery.Delivered? && p.target.Some?
  {
    var session, base := DeliveredSession(p), Baseline(ctx, p);
    var wasIdle := p.target.value.session.Some? && base.Some? && !base.value.inflight;
    if ctx.hasSnapshots && session.Some? && (wasIdle || p.target.value.session.None?) then
      Some(Checkpoint(session.value, if base.Some? then base.value.mutationTurns else 0))
    else None
  }

  /** turnsAfterNudge. */
  function TurnAfter(ctx: Context, p: Poll): Option<PendingTurn>
    requires p.delivery.Delivered? && p.target.Some? && DeliveredSession(p).Some?
  {
    var session, base := DeliveredSession(p).value, Baseline(ctx, p);
    if p.target.value.session == Some(session) && base.Some? then
      Some(PendingTurn(session, base.value.turns + 1 + if base.value.inflight then 1 else 0))
    else if p.after.Some? then Some(PendingTurn(session, p.after.value.turns + 1))
    else None
  }

  /** A delivered nudge arms a ladder. */
  function Arm(ctx: Context, l: Ladder, p: Poll): Ladder
    requires p.delivery.Delivered? && p.target.Some?
  {
    var armed := l.(sent := true, repair := CheckpointAfter(ctx, p));
    if ctx.hasSnapshots && p.token.Some? && DeliveredSession(p).Some? then armed.(turn := TurnAfter(ctx, p))
    else armed
  }

  function ArmAll(ctx: Context, ladders: map<Key, Ladder>, p: Poll): map<Key, Ladder>
    requires p.delivery.Delivered? && p.target.Some?
    requires SigKey(p) in ladders && (Scored(p) ==> PlateauKey(p) in ladders)
  {
    var l1 := ladders[SigKey(p) := Arm(ctx, ladders[SigKey(p)], p)];
    if Scored(p) then l1[PlateauKey(p) := Arm(ctx, l1[PlateauKey(p)], p)] else l1
  }

  predicate Silent(ctx: Context, p: Poll) {
    p.ok || !p.reasons || ctx.runtimePolicy
  }

  /** What remains of the poll once both ladders have been observed. */
  function Respond(ctx: Context, st: Feedback, p: Poll): (Feedback, Outcome)
    requires SigKey(p) in st.ladders && (Scored(p) ==> PlateauKey(p) in st.ladders)
  {
    var v := VerdictOf(st.ladders, p);
    var nudge := Nudge(p.revision.exact, v.stage);
    if v.stage < 3 && nudge in st.posted then (st, Deduped)
    else if p.hold then (st, Held)
    else if p.target.Some? && p.inflightMs.Some?
            && p.inflightMs.value < (if v.stage >= 3 then INFLIGHT_TERMINAL_DEFER_MS else p.deferMs) then (st, Deferred)
    else if v.stage >= 3 then (st, Exhausted(v.attempts))
    else if p.target.None? then (st, Unroutable)
    else if (nudge, p.target.value.gezel) in st.refused then (st, Deduped)
    else match p.delivery
      case Delivered(_) =>
        (st.(ladders := ArmAll(ctx, st.ladders, p), posted := st.posted + {nudge}), Sent(v.stage, v.attempts))
      case _ =>
        (if p.delivery.permanent then st.(refused := st.refused + {(nudge, p.target.value.gezel)}) else st, SendFailed)
  }

  /** postSniffFeedback. */
  function Step(ctx: Context, st: Feedback, p: Poll): (Feedback, Outcome) {
    if p.ok || !p.reasons then (st, NoOp)
    else if ctx.runtimePolicy then (st, Held)
    else Respond(ctx, Observed(ctx, st, p), p)
  }

  const Start := Feedback(map[], {}, {})

  function Run(ctx: Context, st: Feedback, ps: seq<Poll>): Feedback
    decreases |ps|
  {
    if ps == [] then st else Step(ctx, Run(ctx, st, ps[..|ps| - 1]), ps[|ps| - 1]).0
  }

  function OutcomeOf(ctx: Context, st: Feedback, p: Poll): Outcome {
    Step(ctx, st, p).1
  }

  // ----- accounting: every attempt beyond the first was paid for by a delivered nudge -----

  predicate Touches(p: Poll, key: Key) {
    key == SigKey(p) || (Scored(p) && key == PlateauKey(p))
  }

  predicate ResetsKey(ctx: Context, st: Feedback, p: Poll, key: Key) {
    !Silent(ctx, p) && Touches(p, key) && Moved(LadderAt(st.ladders, key, p), p)
  }

  /** Nudges delivered on the ladder since its last progress reset. */
  function DeliveredSinceReset(ctx: Context, st: Feedback, ps: seq<Poll>, key: Key): nat
    decreases |ps|
  {
    if ps == [] then 0
    else
      var p, before := ps[|ps| - 1], Run(ctx, st, ps[..|ps| - 1]);
      (if ResetsKey(ctx, before, p, key) then 0 else DeliveredSinceReset(ctx, st, ps[..|ps| - 1], key))
      + (if Touches(p, key) && OutcomeOf(ctx, before, p).Sent? then 1 else 0)
  }

  /** The ladder's attempts, and a nudge it is still waiting on, are covered by n deliveries. */
  predicate Covered(ladders: map<Key, Ladder>, key: Key, n: nat) {
    key in ladders ==>
      1 <= ladders[key].attempts && ladders[key].attempts + (if ladders[key].sent then 1 else 0) <= 1 + n
  }

  lemma ObserveOneKey(ctx: Context, ladders: map<Key, Ladder>, p: Poll, key: Key)
    ensures SigKey(p) in Observe(ctx, ladders, p) && (Scored(p) ==> PlateauKey(p) in Observe(ctx, ladders, p))
    ensures !Touches(p, key) ==> (key in Observe(ctx, ladders, p) <==> key in ladders)
    ensures !Touches(p, key) && key in ladders ==> Observe(ctx, ladders, p)[key] == ladders[key]
    ensures key == SigKey(p) ==>
      Observe(ctx, ladders, p)[key] == Advance(ctx, LadderAt(ladders, key, p), p, p.sigSnapshot)
    ensures Scored(p) && key == PlateauKey(p) ==>
      Observe(ctx, ladders, p)[key] == Advance(ctx, LadderAt(ladders, key, p), p, p.plateauSnapshot)
  {
  }

  lemma ObserveCovered(ctx: Context, st: Feedback, p: Poll, key: Key, n: nat)
    requires !Silent(ctx, p) && Covered(st.ladders, key, n)
    ensures Covered(Observe(ctx, st.ladders, p), key, if ResetsKey(ctx, st, p, key) then 0 else n)
  {
  }

  /** Responding changes ladders only by arming the ones it touched, and only when the nudge was sent. */
  lemma RespondOneKey(ctx: Context, st: Feedback, p: Poll, key: Key)
    requires SigKey(p) in st.ladders && (Scored(p) ==> PlateauKey(p) in st.ladders)
    ensures var (t, o) := Respond(ctx, st, p);
      && (key in t.ladders <==> key in st.ladders)
      && (key in st.ladders && Touches(p, key) && o.Sent? ==>
            p.target.Some? && p.delivery.Delivered? && t.ladders[key] == Arm(ctx, st.ladders[key], p))
      && (key in st.ladders && !(Touches(p, key) && o.Sent?) ==> t.ladders[key] == st.ladders[key])
  {
  }

  lemma StepCovered(ctx: Context, st: Feedback, p: Poll, key: Key, n: nat)
    requires Covered(st.ladders, key, n)
    ensures Covered(Step(ctx, st, p).0.ladders, key,
                    (if ResetsKey(ctx, st, p, key) then 0 else n)
                    + (if Touches(p, key) && OutcomeOf(ctx, st, p).Sent? then 1 else 0))
  {
    hide Observe, Respond;
    if !Silent(ctx, p) {
      ObserveCovered(ctx, st, p, key, n);
      ObserveOneKey(ctx, st.ladders, p, key);
      RespondOneKey(ctx, Observed(ctx, st, p), p, key);
    }
  }

  /** After any run, a ladder's attempts never exceed 1 plus the nudges delivered on it since its last reset. */
  lemma {:induction false} AttemptsAreDelivered(ctx: Context, ps: seq<Poll>, key: Key)
    ensures Covered(Run(ctx, Start, ps).ladders, key, DeliveredSinceReset(ctx, Start, ps, key))
    decreases |ps|
  {
    hide Step;
    if ps != [] {
      var n := |ps| - 1;
      AttemptsAreDelivered(ctx, ps[..n], key);
      StepCovered(ctx, Run(ctx, Start, ps[..n]), ps[n], key, DeliveredSinceReset(ctx, Start, ps[..n], key));
    }
  }

  lemma ExhaustedMeansStageThree(ctx: Context, st: Feedback, p: Poll)
    requires OutcomeOf(ctx, st, p).Exhausted?
    ensures !Silent(ctx, p)
    ensures var ladders := Observe(ctx, st.ladders, p);
      && SigKey(p) in ladders && (Scored(p) ==> PlateauKey(p) in ladders)
      && VerdictOf(ladders, p).stage == 3 && VerdictOf(ladders, p).attempts == OutcomeOf(ctx, st, p).attempts
  {
  }

  /** A terminal failure needs 3 deliveries on its signature ladder or 5 on its plateau ladder;
      at a positive score it also needs 3 at that same score. */
  lemma TerminalFailureIsEarned(ctx: Context, ps: seq<Poll>, p: Poll)
    requires OutcomeOf(ctx, Run(ctx, Start, ps), p).Exhausted?
    ensures var signature := DeliveredSinceReset(ctx, Start, ps, SigKey(p));
      && (signature >= 3 || (Scored(p) && DeliveredSinceReset(ctx, Start, ps, PlateauKey(p)) >= 5))
      && (Scored(p) ==> DeliveredSinceReset(ctx, Start, ps, PlateauKey(p)) >= 3)
  {
    hide Observe, Step;
    var st := Run(ctx, Start, ps);
    ExhaustedMeansStageThree(ctx, st, p);
    AttemptsAreDelivered(ctx, ps, SigKey(p));
    ObserveCovered(ctx, st, p, SigKey(p), DeliveredSinceReset(ctx, Start, ps, SigKey(p)));
    if Scored(p) {
      AttemptsAreDelivered(ctx, ps, PlateauKey(p));
      ObserveCovered(ctx, st, p, PlateauKey(p), DeliveredSinceReset(ctx, Start, ps, PlateauKey(p)));
    }
  }

  // ----- the other half: whose turn had ended when an attempt is counted for a token -----

  predicate Nudges(ctx: Context, st: Feedback, p: Poll, key: Key) {
    Touches(p, key) && OutcomeOf(ctx, st, p).Sent?
  }

  /** A nudge that leaves its own turn on the ladder to be waited for. */
  predicate BearsTurn(p: Poll) {
    p.token.Some? && p.delivery.Delivered? && p.target.Some? && DeliveredSession(p).Some?
  }

  /** The last nudge sent on the ladder. */
  function LastNudge(ctx: Context, st: Feedback, ps: seq<Poll>, key: Key): Option<Poll>
    decreases |ps|
  {
    if ps == [] then None
    else
      var p := ps[|ps| - 1];
      if Nudges(ctx, Run(ctx, st, ps[..|ps| - 1]), p, key) then Some(p) else LastNudge(ctx, st, ps[..|ps| - 1], key)
  }

  /** The last one that left a turn. */
  function LastTurnNudge(ctx: Context, st: Feedback, ps: seq<Poll>, key: Key): Option<Poll>
    decreases |ps|
  {
    if ps == [] then None
    else
      var p := ps[|ps| - 1];
      if Nudges(ctx, Run(ctx, st, ps[..|ps| - 1]), p, key) && BearsTurn(p) then Some(p)
      else LastTurnNudge(ctx, st, ps[..|ps| - 1], key)
  }

  /** The turn on the ladder is that of the last nudge that left one, and while a nudge is awaited that bears a turn, it
      is that one. */
  predicate Waits(ctx: Context, ladders: map<Key, Ladder>, key: Key, last: Option<Poll>, lastTurn: Option<Poll>) {
    key in ladders ==>
      var l := ladders[key];
      && (l.turn.Some? ==> lastTurn.Some? && BearsTurn(lastTurn.value) && l.turn == TurnAfter(ctx, lastTurn.value))
      && (l.sent ==> last.Some? && (BearsTurn(last.value) ==> l.turn == TurnAfter(ctx, last.value)))
  }

  lemma StepWaits(ctx: Context, st: Feedback, p: Poll, key: Key, last: Option<Poll>, lastTurn: Option<Poll>)
    requires ctx.hasSnapshots && Waits(ctx, st.ladders, key, last, lastTurn)
    ensures Waits(ctx, Step(ctx, st, p).0.ladders, key,
                  if Nudges(ctx, st, p, key) then Some(p) else last,
                  if Nudges(ctx, st, p, key) && BearsTurn(p) then Some(p) else lastTurn)
  {
    hide Observe, Respond, TurnAfter;
    if !Silent(ctx, p) {
      ObserveOneKey(ctx, st.ladders, p, key);
      RespondOneKey(ctx, Observed(ctx, st, p), p, key);
    }
  }

  lemma {:induction false} RunWaits(ctx: Context, ps: seq<Poll>, key: Key)
    requires ctx.hasSnapshots
    ensures Waits(ctx, Run(ctx, Start, ps).ladders, key,
                  LastNudge(ctx, Start, ps, key), LastTurnNudge(ctx, Start, ps, key))
    decreases |ps|
  {
    hide Step, Waits, Nudges, BearsTurn;
    if ps == [] {
      NobodyWaits(ctx, key);
    } else {
      var front := ps[..|ps| - 1];
      RunWaits(ctx, front, key);
      StepWaits(ctx, Run(ctx, Start, front), ps[|ps| - 1], key,
                LastNudge(ctx, Start, front, key), LastTurnNudge(ctx, Start, front, key));
    }
  }

  lemma NobodyWaits(ctx: Context, key: Key)
    ensures Waits(ctx, Start.ladders, key, None, None)
  {
  }

  /** The committed turns at which this nudge counts as answered: one more than its session had, two more if that was
      in the middle of a turn; of a session opened by the nudge, one more than it has right after. */
  function AskedFor(q: Poll): Option<int> {
    if !(q.target.Some? && q.delivery.Delivered?) then None
    else
      var delivered := if q.delivery.session.Some? then q.delivery.session else q.target.value.session;
      if delivered.None? then None
      else if q.target.value.session == delivered && q.baseline.Some? then
        Some(if q.baseline.value.inflight then q.baseline.value.turns + 2 else q.baseline.value.turns + 1)
      else if q.after.Some? then Some(q.after.value.turns + 1)
      else None
  }

  /** The snapshot shows the turn that this nudge asked for as finished. */
  predicate TurnEnded(q: Poll, snapshot: Option<Snapshot>) {
    && AskedFor(q).Some? && snapshot.Some? && !snapshot.value.inflight && snapshot.value.turns >= AskedFor(q).value
  }

  lemma AskedForIsTurnAfter(ctx: Context, q: Poll)
    requires ctx.hasSnapshots && BearsTurn(q)
    ensures AskedFor(q) == if TurnAfter(ctx, q).Some? then Some(TurnAfter(ctx, q).value.turnsAtLeast) else None
  {
  }

  /** The snapshot that a ladder's advance looks at. */
  function Seen(p: Poll, key: Key): Option<Snapshot> {
    if key == SigKey(p) then p.sigSnapshot else p.plateauSnapshot
  }

  lemma CountsForToken(ctx: Context, ladders: map<Key, Ladder>, p: Poll, key: Key)
    requires p.token.Some? && Touches(p, key) && key in ladders && ladders[key].attempts >= 1
    ensures var l := ladders[key];
      if l.progress.Some? && l.progress != p.token then Observe(ctx, ladders, p)[key].attempts == 1
      else Observe(ctx, ladders, p)[key].attempts
           == l.attempts + if l.sent && CompletedTurn(ctx, l, Seen(p, key)) then 1 else 0
  {
  }

  /** Over every run: for an unmoved token an attempt is counted exactly if a nudge is awaited and the turn has ended
      that was asked for by the last nudge on the ladder that left one; if the last nudge bore a token, that is its
      own. */
  lemma CountedTurnHadEnded(ctx: Context, ps: seq<Poll>, p: Poll, key: Key)
    requires ctx.hasSnapshots && p.token.Some? && Touches(p, key)
    requires var ladders := Run(ctx, Start, ps).ladders;
      key in ladders && (ladders[key].progress.Some? ==> ladders[key].progress == p.token)
    ensures var l, lastTurn := Run(ctx, Start, ps).ladders[key], LastTurnNudge(ctx, Start, ps, key);
      var counts := l.sent && l.turn.Some? && lastTurn.Some? && TurnEnded(lastTurn.value, Seen(p, key));
      Observe(ctx, Run(ctx, Start, ps).ladders, p)[key].attempts == l.attempts + if counts then 1 else 0
    ensures var l, last, lastTurn :=
        Run(ctx, Start, ps).ladders[key], LastNudge(ctx, Start, ps, key), LastTurnNudge(ctx, Start, ps, key);
      l.sent ==>
        && last.Some?
        && (BearsTurn(last.value) ==> last == lastTurn && (l.turn.Some? <==> AskedFor(last.value).Some?))
        && (!BearsTurn(last.value) ==> last != lastTurn)
  {
    hide Run, Observe, TurnAfter, BearsTurn, AskedFor;
    AttemptsAreDelivered(ctx, ps, key);
    RunWaits(ctx, ps, key);
    CountsForToken(ctx, Run(ctx, Start, ps).ladders, p, key);
    LastWithTurn(ctx, ps, key);
    if LastTurnNudge(ctx, Start, ps, key).Some? {
      AskedForIsTurnAfter(ctx, LastTurnNudge(ctx, Start, ps, key).value);
    }
  }

  lemma {:induction false} LastWithTurn(ctx: Context, ps: seq<Poll>, key: Key)
    ensures var last, lastTurn := LastNudge(ctx, Start, ps, key), LastTurnNudge(ctx, Start, ps, key);
      && (lastTurn.Some? ==> BearsTurn(lastTurn.value))
      && (last.Some? && BearsTurn(last.value) ==> last == lastTurn)
    decreases |ps|
  {
    hide Run, Nudges;
    if ps != [] {
      LastWithTurn(ctx, ps[..|ps| - 1], key);
    }
  }

  /** A poll of a file whose session had finished `turns` turns before it and `now` turns when the ladders look. */
  function PollAt(file: FileKey, token: Option<nat>, score: real, turns: int, now: int): Poll {
    var seen := Some(Snapshot(false, 0, now));
    Poll(false, true, file, 0, Revision(file, 0), token, Some(score), seen, seen,
         false, Some(Target(0, Some(file))), None, 0, Some(Snapshot(false, 0, turns)), Delivered(None), None)
  }

  /** The plateau ladder after the first nudge, and after the second at n == 2: the target's turn stays on it. */
  predicate Stale(ctx: Context, st: Feedback, score: real, n: int) {
    && Plateau(score) in st.ladders && st.refused == {}
    && var l := st.ladders[Plateau(score)];
    l.attempts == n && l.sent && l.progress == Some(7) && l.turn == Some(PendingTurn(0, 1))
  }

  lemma NudgeTarget(ctx: Context, score: real)
    requires ctx.hasSnapshots && !ctx.runtimePolicy && score > 0.0
    ensures var t := Step(ctx, Start, PollAt(0, Some(7), score, 0, 1)).0;
      Stale(ctx, t, score, 1) && t.ladders[Plateau(score)].revisions.Keys == {0}
      && Signature(1, 0) !in t.ladders && forall k :: Nudge(1, k) !in t.posted
  {
  }

  lemma NudgeFile(ctx: Context, st: Feedback, score: real)
    requires ctx.hasSnapshots && !ctx.runtimePolicy && score > 0.0
    requires Stale(ctx, st, score, 1) && st.ladders[Plateau(score)].revisions.Keys == {0}
    requires Signature(1, 0) !in st.ladders && forall k :: Nudge(1, k) !in st.posted
    ensures var file := PollAt(1, None, score, 5, 1);
      OutcomeOf(ctx, st, file).Sent? && Stale(ctx, Step(ctx, st, file).0, score, 2)
  {
    hide Observe;
    var file := PollAt(1, None, score, 5, 1);
    ObserveOneKey(ctx, st.ladders, file, SigKey(file));
    ObserveOneKey(ctx, st.ladders, file, PlateauKey(file));
  }

  lemma TwoPolls(ctx: Context, a: Poll, b: Poll, key: Key)
    ensures var s1 := Step(ctx, Start, a).0;
      && Run(ctx, Start, [a, b]) == Step(ctx, s1, b).0
      && (Nudges(ctx, s1, b, key) ==> LastNudge(ctx, Start, [a, b], key) == Some(b))
  {
    hide Step, Nudges;
    assert [a, b][..1] == [a] && [a][..0] == [];
    assert Run(ctx, Start, [a]) == Step(ctx, Start, a).0;
  }

  lemma StaleCounts(ctx: Context, st: Feedback, score: real)
    requires ctx.hasSnapshots && score > 0.0 && Stale(ctx, st, score, 2)
    ensures Observe(ctx, st.ladders, PollAt(0, Some(7), score, 0, 1))[Plateau(score)].attempts == 3
  {
    var target := PollAt(0, Some(7), score, 0, 1);
    hide Observe;
    ObserveOneKey(ctx, st.ladders, target, PlateauKey(target));
  }

  /** The input: a target with a token is nudged, then a file without one, whose session is to finish turn 6. The
      target's old turn is done at its next poll, and that counts the file's nudge as failed on the plateau ladder. */
  lemma StaleTurnCounts(ctx: Context, score: real)
    requires ctx.hasSnapshots && !ctx.runtimePolicy && score > 0.0
    ensures var target, file := PollAt(0, Some(7), score, 0, 1), PollAt(1, None, score, 5, 1);
      var st, key := Run(ctx, Start, [target, file]), Plateau(score);
      && LastNudge(ctx, Start, [target, file], key) == Some(file) && !BearsTurn(file)
      && AskedFor(file) == Some(6)
      && key in st.ladders && Observe(ctx, st.ladders, target)[key].attempts == st.ladders[key].attempts + 1
  {
    var target, file := PollAt(0, Some(7), score, 0, 1), PollAt(1, None, score, 5, 1);
    hide Step, Run, OutcomeOf, Observe, LastNudge;
    TwoPolls(ctx, target, file, Plateau(score));
    NudgeTarget(ctx, score);
    NudgeFile(ctx, Step(ctx, Start, target).0, score);
    StaleCounts(ctx, Run(ctx, Start, [target, file]), score);
  }

  // ----- real files: a nudged file that was revised, or whose session committed a mutation, is a failed attempt -----

  /** The revision that the last poll of this file showed the ladder. */
  function LastPolled(ctx: Context, ps: seq<Poll>, key: Key, file: FileKey): Option<Revision>
    decreases |ps|
  {
    if ps == [] then None
    else
      var p := ps[|ps| - 1];
      if !Silent(ctx, p) && Touches(p, key) && p.file == file then Some(p.revision)
      else LastPolled(ctx, ps[..|ps| - 1], key, file)
  }

  /** The session has committed a file mutation since this nudge, as far as the nudge took a count: that of the session
      if it was idle, none for a session it opened. */
  predicate MutatedSince(ctx: Context, q: Poll, snapshot: Option<Snapshot>) {
    && ctx.hasSnapshots && snapshot.Some? && !snapshot.value.inflight
    && q.delivery.Delivered? && q.target.Some?
    && (if q.target.value.session.Some? then
          q.baseline.Some? && !q.baseline.value.inflight
          && snapshot.value.mutationTurns > q.baseline.value.mutationTurns
        else q.delivery.session.Some? && snapshot.value.mutationTurns > 0)
  }

  /** The nudge awaited on the ladder after one more poll: this one, none if the poll was counted or moved on, or else
      the one before. */
  function AwaitedNext(ctx: Context, st: Feedback, p: Poll, key: Key, before: Option<Poll>): Option<Poll> {
    if Nudges(ctx, st, p, key) then Some(p)
    else if ResetsKey(ctx, st, p, key) then None
    else if !Silent(ctx, p) && Touches(p, key) && key in st.ladders
            && Observe(ctx, st.ladders, p)[key].attempts != st.ladders[key].attempts then None
    else before
  }

  function Awaited(ctx: Context, ps: seq<Poll>, key: Key): Option<Poll>
    decreases |ps|
  {
    if ps == [] then None
    else AwaitedNext(ctx, Run(ctx, Start, ps[..|ps| - 1]), ps[|ps| - 1], key, Awaited(ctx, ps[..|ps| - 1], key))
  }

  /** The ladder remembers the last revision of a file, */
  function Remembered(ladders: map<Key, Ladder>, key: Key, file: FileKey): Option<Revision> {
    if key in ladders && file in ladders[key].revisions then Some(ladders[key].revisions[file]) else None
  }

  /** and the nudge awaited, with the mutations counted at it. */
  predicate RemembersNudge(ctx: Context, ladders: map<Key, Ladder>, awaited: Option<Poll>, key: Key) {
    if key in ladders && ladders[key].sent then
      && awaited.Some? && awaited.value.delivery.Delivered? && awaited.value.target.Some?
      && ladders[key].repair == CheckpointAfter(ctx, awaited.value)
    else awaited.None?
  }

  lemma {:induction false} RunRemembersFile(ctx: Context, ps: seq<Poll>, key: Key, file: FileKey)
    ensures Remembered(Run(ctx, Start, ps).ladders, key, file) == LastPolled(ctx, ps, key, file)
    decreases |ps|
  {
    hide Observe, Respond;
    if ps != [] {
      var front, p := ps[..|ps| - 1], ps[|ps| - 1];
      var st := Run(ctx, Start, front);
      RunRemembersFile(ctx, front, key, file);
      if !Silent(ctx, p) {
        ObserveOneKey(ctx, st.ladders, p, key);
        RespondOneKey(ctx, Observed(ctx, st, p), p, key);
      }
    }
  }

  lemma StepRemembersNudge(ctx: Context, st: Feedback, p: Poll, key: Key, awaited: Option<Poll>)
    requires RemembersNudge(ctx, st.ladders, awaited, key)
    ensures RemembersNudge(ctx, Step(ctx, st, p).0.ladders, AwaitedNext(ctx, st, p, key, awaited), key)
  {
    hide Observe, Respond, CheckpointAfter;
    if !Silent(ctx, p) {
      ObserveOneKey(ctx, st.ladders, p, key);
      RespondOneKey(ctx, Observed(ctx, st, p), p, key);
    }
  }

  lemma {:induction false} RunRemembersNudge(ctx: Context, ps: seq<Poll>, key: Key)
    ensures RemembersNudge(ctx, Run(ctx, Start, ps).ladders, Awaited(ctx, ps, key), key)
    decreases |ps|
  {
    hide Step, RemembersNudge, AwaitedNext;
    if ps == [] {
      NoNudgeYet(ctx, key);
    } else {
      RunRemembersNudge(ctx, ps[..|ps| - 1], key);
      StepRemembersNudge(ctx, Run(ctx, Start, ps[..|ps| - 1]), ps[|ps| - 1], key, Awaited(ctx, ps[..|ps| - 1], key));
    }
  }

  lemma NoNudgeYet(ctx: Context, key: Key)
    ensures RemembersNudge(ctx, Start.ladders, None, key)
  {
  }

  lemma MutatedIsRepaired(ctx: Context, l: Ladder, q: Poll, snapshot: Option<Snapshot>)
    requires q.delivery.Delivered? && q.target.Some? && l.sent && l.repair == CheckpointAfter(ctx, q)
    ensures CompletedRepair(ctx, l, snapshot) <==> MutatedSince(ctx, q, snapshot)
  {
  }

  /** Exactly when, over every run: a poll without a token raises the ladder's attempts by one if a nudge is awaited on
      it and the poll shows another revision than the last poll of that file did, or a first one, or the nudged session
      has committed a mutation since; otherwise it leaves them alone, and a new ladder starts at one. */
  lemma RevisedFileCounts(ctx: Context, ps: seq<Poll>, p: Poll, key: Key)
    requires p.token.None? && Touches(p, key)
    ensures var ladders, awaited := Run(ctx, Start, ps).ladders, Awaited(ctx, ps, key);
      var counts := awaited.Some? && (LastPolled(ctx, ps, key, p.file) != Some(p.revision)
                                      || MutatedSince(ctx, awaited.value, Seen(p, key)));
      Observe(ctx, ladders, p)[key].attempts
      == if key !in ladders then 1 else ladders[key].attempts + if counts then 1 else 0
  {
    hide Run, CheckpointAfter, MutatedSince;
    var ladders := Run(ctx, Start, ps).ladders;
    RunRemembersFile(ctx, ps, key, p.file);
    RunRemembersNudge(ctx, ps, key);
    if key in ladders && ladders[key].sent {
      MutatedIsRepaired(ctx, ladders[key], Awaited(ctx, ps, key).value, Seen(p, key));
    }
    ObserveOneKey(ctx, ladders, p, key);
  }

  /** A poll of a real file that reaches an idle target and is delivered. */
  predicate Nudged(ctx: Context, p: Poll) {
    && !Silent(ctx, p) && p.token.None? && !p.hold && p.target.Some? && p.inflightMs.None? && p.delivery.Delivered?
  }

  /** q is a poll of the same failure of the same file at the same score, after a rewrite. */
  predicate Rewritten(p: Poll, q: Poll) {
    SigKey(p) == SigKey(q) && p.score == q.score && p.revision != q.revision
  }

  /** Both ladders of the file stand at n attempts, armed, this revision last seen; stages below n were posted. */
  ghost predicate Failing(st: Feedback, p: Poll, n: int) {
    && st.refused == {}
    && (forall nudge :: nudge in st.posted ==> nudge.stage < n)
    && (forall key :: key in st.ladders <==> Touches(p, key))
    && (forall key :: key in st.ladders ==>
          var l := st.ladders[key];
          l.attempts == n && l.sent && p.file in l.revisions && l.revisions[p.file] == p.revision)
  }

  lemma FailsOnce(ctx: Context, st: Feedback, p: Poll, q: Poll, n: int)
    requires Nudged(ctx, q) && Rewritten(p, q) && 1 <= n <= 3 && Failing(st, p, n)
    ensures n < 3 ==> OutcomeOf(ctx, st, q) == Sent(n, n + 1) && Failing(Step(ctx, st, q).0, q, n + 1)
    ensures n == 3 ==> OutcomeOf(ctx, st, q) == Exhausted(4)
  {
    hide Observe;
    forall key ensures var ladders := Observe(ctx, st.ladders, q);
      && (key in ladders <==> Touches(q, key))
      && (Touches(q, key) ==>
            && ladders[key].attempts == n + 1 && q.file in ladders[key].revisions
            && ladders[key].revisions[q.file] == q.revision)
    {
      assert Touches(q, key) <==> Touches(p, key);
      ObserveOneKey(ctx, st.ladders, q, key);
    }
    var seen := Observed(ctx, st, q);
    assert VerdictOf(seen.ladders, q) == Verdict(n, n + 1) by {
      assert Touches(q, SigKey(q)) && (Scored(q) ==> Touches(q, PlateauKey(q)));
    }
    forall key { RespondOneKey(ctx, seen, q, key); }
  }

  lemma FirstFailure(ctx: Context, p: Poll)
    requires Nudged(ctx, p)
    ensures OutcomeOf(ctx, Start, p) == Sent(0, 1) && Failing(Step(ctx, Start, p).0, p, 1)
  {
  }

  /** A file rewritten after each of three delivered nudges and failing in the same way is ended at attempt 4. */
  lemma RewrittenFileIsExhausted(ctx: Context, p0: Poll, p1: Poll, p2: Poll, p3: Poll)
    requires Nudged(ctx, p0) && Nudged(ctx, p1) && Nudged(ctx, p2) && Nudged(ctx, p3)
    requires Rewritten(p0, p1) && Rewritten(p1, p2) && Rewritten(p2, p3)
    ensures OutcomeOf(ctx, Start, p0) == Sent(0, 1) && OutcomeOf(ctx, Run(ctx, Start, [p0]), p1) == Sent(1, 2)
    ensures OutcomeOf(ctx, Run(ctx, Start, [p0, p1]), p2) == Sent(2, 3)
    ensures OutcomeOf(ctx, Run(ctx, Start, [p0, p1, p2]), p3) == Exhausted(4)
  {
    hide Step, OutcomeOf;
    assert [p0][..0] == [] && [p0, p1][..1] == [p0] && [p0, p1, p2][..2] == [p0, p1];
    var s1 := Step(ctx, Start, p0).0;
    var s2 := Step(ctx, s1, p1).0;
    assert Run(ctx, Start, [p0]) == s1;
    assert Run(ctx, Start, [p0, p1]) == s2;
    assert Run(ctx, Start, [p0, p1, p2]) == Step(ctx, s2, p2).0;
    FirstFailure(ctx, p0);
    FailsOnce(ctx, s1, p0, p1, 1);
    FailsOnce(ctx, s2, p1, p2, 2);
    FailsOnce(ctx, Step(ctx, s2, p2).0, p2, p3, 3);
  }

  // ----- no inflation -----

  /** The poll shows the ladder nothing new: the file's own revision as last seen, and no finished repair. */
  predicate NothingNew(ctx: Context, ladders: map<Key, Ladder>, key: Key, p: Poll, snapshot: Option<Snapshot>) {
    key in ladders ==> !RevisionChanged(ladders[key], p) && !CompletedRepair(ctx, ladders[key], snapshot)
  }

  /** For a real file, such a poll leaves every ladder's attempts as they were. */
  lemma UnchangedPollCountsNothing(ctx: Context, st: Feedback, p: Poll, key: Key)
    requires p.token.None?
    requires NothingNew(ctx, st.ladders, SigKey(p), p, p.sigSnapshot)
    requires Scored(p) ==> NothingNew(ctx, st.ladders, PlateauKey(p), p, p.plateauSnapshot)
    ensures var t := Step(ctx, st, p).0;
      && (key in st.ladders ==> key in t.ladders && t.ladders[key].attempts == st.ladders[key].attempts)
      && (key in t.ladders && key !in st.ladders ==> t.ladders[key].attempts == 1)
  {
    hide Observe, Respond;
    if !Silent(ctx, p) {
      ObserveOneKey(ctx, st.ladders, p, key);
      RespondOneKey(ctx, Observed(ctx, st, p), p, key);
    }
  }

  /** Every revision on record is the one the file keeps throughout. */
  ghost predicate Agrees(ladders: map<Key, Ladder>, content: map<FileKey, Revision>) {
    forall key, f :: key in ladders && f in ladders[key].revisions ==>
      f in content && ladders[key].revisions[f] == content[f]
  }

  predicate NoFinishedRepair(ctx: Context, st: Feedback, p: Poll) {
    && !CompletedRepair(ctx, LadderAt(st.ladders, SigKey(p), p), p.sigSnapshot)
    && (Scored(p) ==> !CompletedRepair(ctx, LadderAt(st.ladders, PlateauKey(p), p), p.plateauSnapshot))
  }

  /** A run over real files none of which changes, with no finished repair in between. */
  ghost predicate Frozen(ctx: Context, st: Feedback, ps: seq<Poll>, content: map<FileKey, Revision>)
    decreases |ps|
  {
    ps == [] ||
    ( && Frozen(ctx, st, ps[..|ps| - 1], content)
      && var p := ps[|ps| - 1];
        p.token.None? && p.file in content && p.revision == content[p.file]
        && NoFinishedRepair(ctx, Run(ctx, st, ps[..|ps| - 1]), p))
  }

  /** Attempts beyond one per file seen; a ladder that does not exist yet has none. */
  function Excess(ladders: map<Key, Ladder>, key: Key): int {
    if key in ladders then ladders[key].attempts - |ladders[key].revisions| else 0
  }

  lemma AdvanceFrozen(ctx: Context, l: Ladder, p: Poll, snapshot: Option<Snapshot>, content: map<FileKey, Revision>)
    requires p.token.None? && p.file in content && p.revision == content[p.file]
    requires !CompletedRepair(ctx, l, snapshot)
    requires forall f :: f in l.revisions ==> f in content && l.revisions[f] == content[f]
    ensures var a := Advance(ctx, l, p, snapshot);
      && a.attempts - |a.revisions| <= l.attempts - |l.revisions|
      && forall f :: f in a.revisions ==> f in content && a.revisions[f] == content[f]
  {
  }

  lemma StepFrozen(ctx: Context, st: Feedback, p: Poll, content: map<FileKey, Revision>, key: Key)
    requires Agrees(st.ladders, content) && NoFinishedRepair(ctx, st, p)
    requires p.token.None? && p.file in content && p.revision == content[p.file]
    ensures var t := Step(ctx, st, p).0;
      && Excess(t.ladders, key) <= Excess(st.ladders, key)
      && (key in t.ladders ==>
            forall f :: f in t.ladders[key].revisions ==> f in content && t.ladders[key].revisions[f] == content[f])
  {
    hide Observe, Respond;
    if !Silent(ctx, p) {
      ObserveOneKey(ctx, st.ladders, p, key);
      RespondOneKey(ctx, Observed(ctx, st, p), p, key);
      if Touches(p, key) {
        AdvanceFrozen(ctx, LadderAt(st.ladders, key, p), p,
                      if key == SigKey(p) then p.sigSnapshot else p.plateauSnapshot, content);
      }
    }
  }

  /** In any interleaving of unchanged files a ladder gains at most one attempt per file it sees for the first time. */
  lemma {:induction false} FrozenFilesNeverInflate(
    ctx: Context, st: Feedback, ps: seq<Poll>, content: map<FileKey, Revision>, key: Key)
    requires Agrees(st.ladders, content) && Frozen(ctx, st, ps, content)
    ensures Agrees(Run(ctx, st, ps).ladders, content)
    ensures Excess(Run(ctx, st, ps).ladders, key) <= Excess(st.ladders, key)
    decreases |ps|
  {
    hide Step;
    if ps != [] {
      var n := |ps| - 1;
      var before := Run(ctx, st, ps[..n]);
      FrozenFilesNeverInflate(ctx, st, ps[..n], content, key);
      StepFrozen(ctx, before, ps[n], content, key);
      forall k | k in Run(ctx, st, ps).ladders
        ensures forall f :: f in Run(ctx, st, ps).ladders[k].revisions ==>
          f in content && Run(ctx, st, ps).ladders[k].revisions[f] == content[f]
      {
        StepFrozen(ctx, before, ps[n], content, k);
      }
    }
  }

  ghost predicate OneFilePerSignature(ladders: map<Key, Ladder>) {
    forall key :: key in ladders && key.Signature? ==> ladders[key].revisions.Keys == {key.file}
  }

  lemma {:induction false} SignatureLaddersSeeOneFile(ctx: Context, ps: seq<Poll>)
    ensures OneFilePerSignature(Run(ctx, Start, ps).ladders)
    decreases |ps|
  {
    hide Step;
    if ps != [] {
      var n := |ps| - 1;
      SignatureLaddersSeeOneFile(ctx, ps[..n]);
      var st := Run(ctx, Start, ps[..n]);
      forall key | key in Run(ctx, Start, ps).ladders && key.Signature?
        ensures Run(ctx, Start, ps).ladders[key].revisions.Keys == {key.file}
      {
        StepSeesOneFile(ctx, st, ps[n], key);
      }
    }
  }

  lemma StepSeesOneFile(ctx: Context, st: Feedback, p: Poll, key: Key)
    requires key.Signature? && (key in st.ladders ==> st.ladders[key].revisions.Keys == {key.file})
    ensures key in Step(ctx, st, p).0.ladders ==> Step(ctx, st, p).0.ladders[key].revisions.Keys == {key.file}
  {
    hide Observe, Respond;
    if !Silent(ctx, p) {
      ObserveOneKey(ctx, st.ladders, p, key);
      RespondOneKey(ctx, Observed(ctx, st, p), p, key);
    }
  }

  /** Unchanged files never raise a signature ladder at all, however their polls interleave. */
  lemma FrozenSignaturesStayAtOne(ctx: Context, ps: seq<Poll>, content: map<FileKey, Revision>, key: Key)
    requires Frozen(ctx, Start, ps, content) && key.Signature? && key in Run(ctx, Start, ps).ladders
    ensures Run(ctx, Start, ps).ladders[key].attempts == 1
  {
    FrozenFilesNeverInflate(ctx, Start, ps, content, key);
    SignatureLaddersSeeOneFile(ctx, ps);
    AttemptsAreDelivered(ctx, ps, key);
    assert |Run(ctx, Start, ps).ladders[key].revisions.Keys| == 1;
  }

  // ----- one exact failure is sent at most three times between resets -----

  predicate Resetting(ctx: Context, st: Feedback, p: Poll, exact: nat) {
    !Silent(ctx, p) && p.revision.exact == exact && Resets(st, p)
  }

  /** Polls of this exact failure that reported a sent nudge, since its last progress reset. */
  function SentSinceReset(ctx: Context, st: Feedback, ps: seq<Poll>, exact: nat): nat
    decreases |ps|
  {
    if ps == [] then 0
    else
      var p, before := ps[|ps| - 1], Run(ctx, st, ps[..|ps| - 1]);
      (if Resetting(ctx, before, p, exact) then 0 else SentSinceReset(ctx, st, ps[..|ps| - 1], exact))
      + (if p.revision.exact == exact && OutcomeOf(ctx, before, p).Sent? then 1 else 0)
  }

  function PostedStages(posted: set<Nudge>, exact: nat): nat {
    (if Nudge(exact, 0) in posted then 1 else 0) + (if Nudge(exact, 1) in posted then 1 else 0)
    + (if Nudge(exact, 2) in posted then 1 else 0)
  }

  lemma StepPosts(ctx: Context, st: Feedback, p: Poll, exact: nat)
    ensures
      var (t, o) := Step(ctx, st, p);
      var kept := if Resetting(ctx, st, p, exact) then 0 else PostedStages(st.posted, exact);
      PostedStages(t.posted, exact) == kept + (if p.revision.exact == exact && o.Sent? then 1 else 0)
  {
    hide Observe, ArmAll;
    if !Silent(ctx, p) {
      ObserveOneKey(ctx, st.ladders, p, SigKey(p));
    }
  }

  lemma {:induction false} SentAtMostThreeTimes(ctx: Context, ps: seq<Poll>, exact: nat)
    ensures SentSinceReset(ctx, Start, ps, exact) == PostedStages(Run(ctx, Start, ps).posted, exact) <= 3
    decreases |ps|
  {
    hide Step, PostedStages;
    if ps != [] {
      var n := |ps| - 1;
      SentAtMostThreeTimes(ctx, ps[..n], exact);
      StepPosts(ctx, Run(ctx, Start, ps[..n]), ps[n], exact);
    }
    AtMostThreeStages(Run(ctx, Start, ps).posted, exact);
    NothingPosted(exact);
  }

  lemma AtMostThreeStages(posted: set<Nudge>, exact: nat)
    ensures PostedStages(posted, exact) <= 3
  {
  }

  lemma NothingPosted(exact: nat)
    ensures PostedStages({}, exact) == 0
  {
  }

  // ----- messages that landed, which are not the same as nudges recorded as sent -----

  predicate Attempted(ctx: Context, st: Feedback, p: Poll) {
    OutcomeOf(ctx, st, p).Sent? || OutcomeOf(ctx, st, p).SendFailed?
  }

  /** The target received the nudge text. */
  predicate Landed(ctx: Context, st: Feedback, p: Poll) {
    Attempted(ctx, st, p) && !p.delivery.Refused?
  }

  /** The target received it, but a later send threw and the poll reported a failed send. */
  predicate LandedUnrecorded(ctx: Context, st: Feedback, p: Poll) {
    Attempted(ctx, st, p) && p.delivery.FollowUpFailed?
  }

  /** The stage of the nudge this poll would send. */
  function StageOf(ctx: Context, st: Feedback, p: Poll): int {
    VerdictOf(Observe(ctx, st.ladders, p), p).stage
  }

  /** The poll is about this exact failure, at the given stage if one is given. */
  predicate Concerns(ctx: Context, st: Feedback, p: Poll, exact: nat, stage: Option<int>) {
    p.revision.exact == exact && (stage.Some? ==> StageOf(ctx, st, p) == stage.value)
  }

  /** Copies of this failure's nudges (of one stage, or of any) the target received since the last progress reset. */
  function LandedSince(ctx: Context, st: Feedback, ps: seq<Poll>, exact: nat, stage: Option<int>): nat
    decreases |ps|
  {
    if ps == [] then 0
    else
      var p, before := ps[|ps| - 1], Run(ctx, st, ps[..|ps| - 1]);
      (if Resetting(ctx, before, p, exact) then 0 else LandedSince(ctx, st, ps[..|ps| - 1], exact, stage))
      + (if Concerns(ctx, before, p, exact, stage) && Landed(ctx, before, p) then 1 else 0)
  }

  /** Those of them whose follow-up send failed. */
  function UnrecordedSince(ctx: Context, st: Feedback, ps: seq<Poll>, exact: nat, stage: Option<int>): nat
    decreases |ps|
  {
    if ps == [] then 0
    else
      var p, before := ps[|ps| - 1], Run(ctx, st, ps[..|ps| - 1]);
      (if Resetting(ctx, before, p, exact) then 0 else UnrecordedSince(ctx, st, ps[..|ps| - 1], exact, stage))
      + (if Concerns(ctx, before, p, exact, stage) && LandedUnrecorded(ctx, before, p) then 1 else 0)
  }

  lemma AttemptedSplits(ctx: Context, st: Feedback, p: Poll)
    ensures OutcomeOf(ctx, st, p).Sent? ==> p.delivery.Delivered?
    ensures OutcomeOf(ctx, st, p).SendFailed? ==> !p.delivery.Delivered?
  {
  }

  /** Over every run: the target gets at most three copies of one exact failure beyond those whose follow-up failed. */
  lemma {:induction false} LandedBeyondThreeWereUnrecorded(ctx: Context, ps: seq<Poll>, exact: nat)
    ensures var landed, unrecorded :=
        LandedSince(ctx, Start, ps, exact, None), UnrecordedSince(ctx, Start, ps, exact, None);
      landed == SentSinceReset(ctx, Start, ps, exact) + unrecorded <= 3 + unrecorded
    decreases |ps|
  {
    hide Step;
    SentAtMostThreeTimes(ctx, ps, exact);
    if ps != [] {
      LandedBeyondThreeWereUnrecorded(ctx, ps[..|ps| - 1], exact);
      AttemptedSplits(ctx, Run(ctx, Start, ps[..|ps| - 1]), ps[|ps| - 1]);
    }
  }

  lemma StepPostsNudge(ctx: Context, st: Feedback, p: Poll, nudge: Nudge)
    requires nudge in st.posted ==> 0 <= nudge.stage < 3
    ensures var (t, o) := Step(ctx, st, p);
      && (nudge in t.posted <==>
            || (nudge in st.posted && !Resetting(ctx, st, p, nudge.exact))
            || (o.Sent? && nudge == Nudge(p.revision.exact, StageOf(ctx, st, p))))
      && (o.Sent? || o.SendFailed? ==> 0 <= StageOf(ctx, st, p) < 3)
      && (o.Sent? || o.SendFailed? ==>
            Resetting(ctx, st, p, p.revision.exact) || Nudge(p.revision.exact, StageOf(ctx, st, p)) !in st.posted)
  {
    hide Observe;
    if !Silent(ctx, p) {
      ObserveOneKey(ctx, st.ladders, p, SigKey(p));
    }
  }

  /** Stage by stage: one copy if the stage is on record as posted, and otherwise only unrecorded ones. */
  lemma {:induction false} LandedOncePerRecordedStage(ctx: Context, ps: seq<Poll>, nudge: Nudge)
    ensures var posted := Run(ctx, Start, ps).posted;
      && (nudge in posted ==> 0 <= nudge.stage < 3)
      && LandedSince(ctx, Start, ps, nudge.exact, Some(nudge.stage))
         == (if nudge in posted then 1 else 0)
            + UnrecordedSince(ctx, Start, ps, nudge.exact, Some(nudge.stage))
    decreases |ps|
  {
    hide Step, StageOf;
    if ps != [] {
      var n := |ps| - 1;
      var before := Run(ctx, Start, ps[..n]);
      LandedOncePerRecordedStage(ctx, ps[..n], nudge);
      StepPostsNudge(ctx, before, ps[n], nudge);
      AttemptedSplits(ctx, before, ps[n]);
    }
  }

  /** When a nudge lands, it landed before, since the last reset, exactly if an earlier copy's follow-up failed, and
      then every earlier copy's did. */
  lemma LandsAgainIff(ctx: Context, ps: seq<Poll>, p: Poll)
    requires var st := Run(ctx, Start, ps);
      Landed(ctx, st, p) && !Resetting(ctx, st, p, p.revision.exact)
    ensures var exact, stage := p.revision.exact, Some(StageOf(ctx, Run(ctx, Start, ps), p));
      && LandedSince(ctx, Start, ps, exact, stage) == UnrecordedSince(ctx, Start, ps, exact, stage)
      && (LandedSince(ctx, Start, ps, exact, stage) > 0 <==> UnrecordedSince(ctx, Start, ps, exact, stage) > 0)
  {
    hide Step, StageOf;
    var nudge := Nudge(p.revision.exact, StageOf(ctx, Run(ctx, Start, ps), p));
    LandedOncePerRecordedStage(ctx, ps, nudge);
    StepPostsNudge(ctx, Run(ctx, Start, ps), p, nudge);
  }

  // ----- which ladders there are -----

  /** The poll is counted on this ladder: its failure's, and, only at a positive score, its score's. */
  predicate CountedOn(ctx: Context, p: Poll, key: Key) {
    && !p.ok && p.reasons && !ctx.runtimePolicy
    && match key
       case Signature(file, failure) => p.file == file && p.failure == failure
       case Plateau(score) => score > 0.0 && p.score == Some(score)
  }

  lemma StepLadders(ctx: Context, st: Feedback, p: Poll, key: Key)
    ensures key in Step(ctx, st, p).0.ladders <==> key in st.ladders || CountedOn(ctx, p, key)
  {
    hide Judge, Advance;
  }

  /** Over every run a ladder exists exactly if some poll was counted on it: at score 0 there is none. */
  lemma {:induction false} LadderIffCounted(ctx: Context, ps: seq<Poll>, key: Key)
    ensures key in Run(ctx, Start, ps).ladders <==> exists i :: 0 <= i < |ps| && CountedOn(ctx, ps[i], key)
    decreases |ps|
  {
    hide Step, CountedOn;
    if ps != [] {
      var n := |ps| - 1;
      LadderIffCounted(ctx, ps[..n], key);
      StepLadders(ctx, Run(ctx, Start, ps[..n]), ps[n], key);
      assert forall i :: 0 <= i < n ==> ps[..n][i] == ps[i];
    }
  }

  // ----- what a poll answers, told by the polls before it -----

  /** The poll tried to send this nudge to that gezel and failed for good. */
  predicate FailsForGood(ctx: Context, st: Feedback, p: Poll, nudge: Nudge, gezel: nat) {
    && OutcomeOf(ctx, st, p).SendFailed? && !p.delivery.Delivered? && p.delivery.permanent
    && p.target.Some? && p.target.value.gezel == gezel && nudge == Nudge(p.revision.exact, StageOf(ctx, st, p))
  }

  predicate FailedForGood(ctx: Context, ps: seq<Poll>, nudge: Nudge, gezel: nat)
    decreases |ps|
  {
    ps != [] &&
    var n := |ps| - 1;
    FailsForGood(ctx, Run(ctx, Start, ps[..n]), ps[n], nudge, gezel) || FailedForGood(ctx, ps[..n], nudge, gezel)
  }

  /** The nudge was sent, and progress has not reset its failure since. */
  predicate OnRecord(ctx: Context, ps: seq<Poll>, nudge: Nudge)
    decreases |ps|
  {
    ps != [] &&
    var p, before := ps[|ps| - 1], Run(ctx, Start, ps[..|ps| - 1]);
    || (OutcomeOf(ctx, before, p).Sent? && nudge == Nudge(p.revision.exact, StageOf(ctx, before, p)))
    || (!Resetting(ctx, before, p, nudge.exact) && OnRecord(ctx, ps[..|ps| - 1], nudge))
  }

  lemma StepRefuses(ctx: Context, st: Feedback, p: Poll, nudge: Nudge, gezel: nat)
    ensures (nudge, gezel) in Step(ctx, st, p).0.refused <==>
      (nudge, gezel) in st.refused || FailsForGood(ctx, st, p, nudge, gezel)
  {
    hide Observe, Judge, ArmAll;
  }

  /** What is on record is what was sent, and what is refused is what failed for good. */
  lemma {:induction false} RunRecords(ctx: Context, ps: seq<Poll>, nudge: Nudge, gezel: nat)
    ensures nudge in Run(ctx, Start, ps).posted <==> OnRecord(ctx, ps, nudge)
    ensures OnRecord(ctx, ps, nudge) ==> 0 <= nudge.stage < 3
    ensures (nudge, gezel) in Run(ctx, Start, ps).refused <==> FailedForGood(ctx, ps, nudge, gezel)
    decreases |ps|
  {
    hide Step, StageOf, Resetting, FailsForGood;
    LandedOncePerRecordedStage(ctx, ps, nudge);
    if ps != [] {
      var n := |ps| - 1;
      RunRecords(ctx, ps[..n], nudge, gezel);
      StepPostsNudge(ctx, Run(ctx, Start, ps[..n]), ps[n], nudge);
      StepRefuses(ctx, Run(ctx, Start, ps[..n]), ps[n], nudge, gezel);
    }
  }

  /** The target is mid-turn, and has been for less than the limit. */
  predicate MidTurn(p: Poll, limitMs: nat) {
    p.target.Some? && p.inflightMs.Some? && p.inflightMs.value < limitMs
  }

  /** What a poll answers over every run: it sends exactly if its nudge is neither on record nor given up for this
      target and nothing holds it back, and ends the trial exactly at stage 3 unless held or mid-turn under a quarter
      of an hour. */
  lemma Answers(ctx: Context, ps: seq<Poll>, p: Poll)
    ensures var st := Run(ctx, Start, ps);
      var o, stage := OutcomeOf(ctx, st, p), StageOf(ctx, st, p);
      var nudge := Nudge(p.revision.exact, stage);
      var speaks := !p.ok && p.reasons && !ctx.runtimePolicy;
      var spent := stage < 3 && OnRecord(ctx, ps, nudge) && !Resetting(ctx, st, p, p.revision.exact);
      var free := speaks && !spent && !p.hold && !MidTurn(p, if stage < 3 then p.deferMs else 900_000);
      var givenUp := p.target.Some? && FailedForGood(ctx, ps, nudge, p.target.value.gezel);
      var tries := free && stage < 3 && p.target.Some? && !givenUp;
      && (o.NoOp? <==> p.ok || !p.reasons)
      && (o.Held? <==> !o.NoOp? && (ctx.runtimePolicy || (!spent && p.hold)))
      && (o.Deferred? <==> speaks && !spent && !p.hold && !free)
      && (o.Exhausted? <==> free && stage >= 3)
      && (o.Unroutable? <==> free && stage < 3 && p.target.None?)
      && (o.Deduped? <==> speaks && (spent || (free && stage < 3 && givenUp)))
      && (o.Sent? <==> tries && p.delivery.Delivered?)
      && (o.SendFailed? <==> tries && !p.delivery.Delivered?)
  {
    hide Run, Observe, ArmAll, Judge, OnRecord, FailedForGood;
    var st := Run(ctx, Start, ps);
    var nudge := Nudge(p.revision.exact, StageOf(ctx, st, p));
    RunRecords(ctx, ps, nudge, if p.target.Some? then p.target.value.gezel else 0);
  }

  /** Which ladder speaks: the plateau ladder if it stands at a later stage, and the end waits for a plateau of 4. */
  lemma WhichLadderSpeaks(sig: int, plateau: Option<int>)
    ensures var v := Judge(sig, plateau);
      var height := if plateau.Some? then plateau.value else 0;
      && (v.stage == 3 <==> height >= 6 || (sig >= 4 && (plateau.None? || height >= 4)))
      && (v.stage == 2 <==> v.stage != 3 && (height >= 4 || sig >= 3))
      && (v.stage == 1 <==> v.stage < 2 && (height == 3 || sig == 2)) && 0 <= v.stage <= 3
      && (var plateauSpeaks := (height >= 6 && sig < 4) || (height >= 4 && sig < 3) || (height >= 3 && sig < 2);
          v.attempts == if plateauSpeaks then height else sig)
  {
  }

  /** The n-fold repetition of one poll. */
  function Repeat(p: Poll, n: nat): (ps: seq<Poll>)
    ensures |ps| == n && forall i :: 0 <= i < n ==> ps[i] == p
  {
    seq(n, _ => p)
  }

  lemma RepeatFront(p: Poll, n: nat, k: nat)
    requires k <= n
    ensures Repeat(p, n)[..k] == Repeat(p, k)
    ensures k < n ==> Repeat(p, k + 1) == Repeat(p, k) + [p]
  {
  }

  /** A real-file poll whose primary message lands and whose coordinator copy then fails, transiently. */
  predicate CopyKeepsFailing(ctx: Context, p: Poll) {
    && !Silent(ctx, p) && p.token.None? && !p.hold && p.target.Some? && p.inflightMs.None?
    && p.delivery == FollowUpFailed(false)
  }

  /** The stage 0 nudge is then delivered again on every poll, without bound, and no attempt is ever counted. */
  lemma {:induction false} FailingCopyRepeatsTheNudge(ctx: Context, p: Poll, n: nat)
    requires CopyKeepsFailing(ctx, p)
    ensures LandedSince(ctx, Start, Repeat(p, n), p.revision.exact, Some(0)) == n
    ensures var st := Run(ctx, Start, Repeat(p, n));
      && st.posted == {} && st.refused == {}
      && forall key :: key in st.ladders ==> st.ladders[key].attempts == 1 && !st.ladders[key].sent
    decreases n
  {
    hide Step, StageOf;
    if n > 0 {
      FailingCopyRepeatsTheNudge(ctx, p, n - 1);
      RepeatFront(p, n, n - 1);
      RepeatedOnce(ctx, Run(ctx, Start, Repeat(p, n - 1)), p);
    }
  }

  lemma RepeatedOnce(ctx: Context, st: Feedback, p: Poll)
    requires CopyKeepsFailing(ctx, p) && st.posted == {} && st.refused == {}
    requires forall key :: key in st.ladders ==> st.ladders[key].attempts == 1 && !st.ladders[key].sent
    ensures var (t, o) := Step(ctx, st, p);
      && o.SendFailed? && t.posted == {} && t.refused == {} && StageOf(ctx, st, p) == 0 && !Resets(st, p)
      && forall key :: key in t.ladders ==> t.ladders[key].attempts == 1 && !t.ladders[key].sent
  {
  }

  // ----- a frozen failure is exhausted, unless several virtual targets share a score -----

  /** A virtual-target poll that reaches an idle target, is delivered, and whose turn completes before the next. */
  predicate Responsive(ctx: Context, p: Poll) {
    && !Silent(ctx, p) && p.token.Some? && !p.hold && p.target.Some? && p.inflightMs.None? && p.delivery.Delivered?
    && ctx.hasSnapshots && DeliveredSession(p).Some? && TurnAfter(ctx, p).Some?
    && p.sigSnapshot.Some? && !p.sigSnapshot.value.inflight
    && p.sigSnapshot.value.turns >= TurnAfter(ctx, p).value.turnsAtLeast
    && p.plateauSnapshot == p.sigSnapshot
  }

  /** Both ladders of p stand at n attempts, armed, with p's own token last seen; stages below n-1 were posted. */
  ghost predicate Climbed(ctx: Context, st: Feedback, p: Poll, n: int)
    requires p.delivery.Delivered? && p.target.Some? && DeliveredSession(p).Some?
  {
    && st.refused == {}
    && (forall nudge :: nudge in st.posted ==> nudge.exact == p.revision.exact && nudge.stage < n)
    && (forall key :: key in st.ladders <==> Touches(p, key))
    && (forall key :: key in st.ladders ==>
          var l := st.ladders[key];
          l.attempts == n && l.sent && l.progress == p.token && l.turn == TurnAfter(ctx, p))
  }

  lemma ClimbOnce(ctx: Context, st: Feedback, p: Poll, n: int)
    requires Responsive(ctx, p) && 1 <= n <= 3 && Climbed(ctx, st, p, n)
    ensures n < 3 ==> OutcomeOf(ctx, st, p) == Sent(n, n + 1) && Climbed(ctx, Step(ctx, st, p).0, p, n + 1)
    ensures n == 3 ==> OutcomeOf(ctx, st, p) == Exhausted(4)
  {
    hide Observe;
    forall key ensures var ladders := Observe(ctx, st.ladders, p);
      && (key in ladders <==> Touches(p, key))
      && (Touches(p, key) ==>
            && ladders[key].attempts == n + 1 && !ladders[key].sent && ladders[key].progress == p.token)
    {
      ObserveOneKey(ctx, st.ladders, p, key);
    }
    assert !Resets(st, p) by { assert Touches(p, SigKey(p)); }
    var seen := Observed(ctx, st, p);
    assert VerdictOf(seen.ladders, p) == Verdict(n, n + 1) by {
      assert Touches(p, SigKey(p)) && (Scored(p) ==> Touches(p, PlateauKey(p)));
    }
    forall key { RespondOneKey(ctx, seen, p, key); }
  }

  lemma FirstClimb(ctx: Context, p: Poll)
    requires Responsive(ctx, p)
    ensures OutcomeOf(ctx, Start, p) == Sent(0, 1) && Climbed(ctx, Step(ctx, Start, p).0, p, 1)
  {
  }

  /** A lone frozen workflow is exhausted after exactly three delivered nudges: the bounds above are tight. */
  lemma FrozenTargetIsExhausted(ctx: Context, p: Poll)
    requires Responsive(ctx, p)
    ensures forall k: nat :: k < 3 ==> OutcomeOf(ctx, Run(ctx, Start, Repeat(p, k)), p) == Sent(k, k + 1)
    ensures OutcomeOf(ctx, Run(ctx, Start, Repeat(p, 3)), p) == Exhausted(4)
  {
    hide Step;
    RepeatFront(p, 1, 0);
    RepeatFront(p, 2, 1);
    RepeatFront(p, 3, 2);
    var s0 := Run(ctx, Start, Repeat(p, 0));
    var s1 := Run(ctx, Start, Repeat(p, 1));
    var s2 := Run(ctx, Start, Repeat(p, 2));
    var s3 := Run(ctx, Start, Repeat(p, 3));
    assert s0 == Start && s1 == Step(ctx, s0, p).0 && s2 == Step(ctx, s1, p).0 && s3 == Step(ctx, s2, p).0;
    FirstClimb(ctx, p);
    ClimbOnce(ctx, s1, p, 1);
    ClimbOnce(ctx, s2, p, 2);
    ClimbOnce(ctx, s3, p, 3);
  }

  /** Polls at one positive score, each with another progress token than the one before: one task that advances
      from poll to poll, or several targets polled in turn. */
  predicate Rotating(ctx: Context, ps: seq<Poll>, score: real) {
    && score > 0.0
    && (forall i :: 0 <= i < |ps| ==> !Silent(ctx, ps[i]) && ps[i].token.Some? && ps[i].score == Some(score))
    && (forall i :: 0 <= i < |ps| - 1 ==> ps[i].token != ps[i + 1].token)
  }

  /** Such polls are never ended, whatever their targets do: the plateau ladder remembers a single progress token, so
      each poll reads the previous token as movement and starts over. */
  lemma {:induction false} RotatingTargetsAreNeverExhausted(ctx: Context, ps: seq<Poll>, score: real)
    requires Rotating(ctx, ps, score)
    ensures var st := Run(ctx, Start, ps);
      if ps == [] then Plateau(score) !in st.ladders
      else Plateau(score) in st.ladders
           && st.ladders[Plateau(score)].attempts == 1 && st.ladders[Plateau(score)].progress == ps[|ps| - 1].token
    ensures forall n :: 0 <= n < |ps| ==> !OutcomeOf(ctx, Run(ctx, Start, ps[..n]), ps[n]).Exhausted?
    decreases |ps|
  {
    hide Step, OutcomeOf;
    if ps != [] {
      var n := |ps| - 1;
      assert Rotating(ctx, ps[..n], score);
      RotatingTargetsAreNeverExhausted(ctx, ps[..n], score);
      assert n > 0 ==> ps[..n][n - 1].token != ps[n].token;
      RotateOnce(ctx, Run(ctx, Start, ps[..n]), ps[n], score);
      forall m | 0 <= m < |ps| ensures !OutcomeOf(ctx, Run(ctx, Start, ps[..m]), ps[m]).Exhausted? {
        if m < n {
          assert ps[..n][..m] == ps[..m];
        }
      }
    }
  }

  lemma RotateOnce(ctx: Context, st: Feedback, p: Poll, score: real)
    requires !Silent(ctx, p) && p.token.Some? && p.score == Some(score) && score > 0.0
    requires Plateau(score) in st.ladders ==>
      st.ladders[Plateau(score)].progress.Some? && st.ladders[Plateau(score)].progress != p.token
    ensures var (t, o) := Step(ctx, st, p);
      && !OutcomeOf(ctx, st, p).Exhausted? && Plateau(score) in t.ladders
      && t.ladders[Plateau(score)].attempts == 1 && t.ladders[Plateau(score)].progress == p.token
  {
  }

  // ----- the poster -----

  class SniffFeedback {
    const ctx: Context
    var ladders: map<Key, Ladder>
    var posted: set<Nudge>
    var refused: set<(Nudge, nat)>

    ghost function State(): Feedback
      reads this
    {
      Feedback(ladders, posted, refused)
    }

    constructor (context: Context)
      ensures ctx == context && State() == Start
    {
      ctx := context;
      ladders, posted, refused := map[], {}, {};
    }

    /** ensureEscalationState followed by advanceEscalationState, on the record under `key`. */
    method AdvanceLadder(key: Key, p: Poll, snapshot: Option<Snapshot>) returns (reset: bool)
      modifies this`ladders
      ensures ladders == old(ladders)[key := Advance(ctx, LadderAt(old(ladders), key, p), p, snapshot)]
      ensures reset == Moved(LadderAt(old(ladders), key, p), p)
    {
      var l := if key in ladders then ladders[key] else Fresh(p.file, p.revision);
      if p.token.Some? {
        var moved := l.progress.Some? && l.progress != p.token;
        l := l.(progress := p.token);
        if moved {
          l := l.(attempts := 1, sent := false, repair := None, turn := None);
          ladders := ladders[key := l.(revisions := l.revisions[p.file := p.revision])];
          return true;
        }
        if l.sent && CompletedTurn(ctx, l, snapshot) {
          l := l.(attempts := l.attempts + 1, sent := false, repair := None, turn := None);
        }
        ladders := ladders[key := l.(revisions := l.revisions[p.file := p.revision])];
        return false;
      }
      var completed := false;
      if l.sent && l.repair.Some? && ctx.hasSnapshots {
        completed := snapshot.Some? && !snapshot.value.inflight
                     && snapshot.value.mutationTurns > l.repair.value.mutationTurns;
      }
      var changed := p.file !in l.revisions || l.revisions[p.file] != p.revision;
      if (changed || completed) && l.sent {
        l := l.(attempts := l.attempts + 1, sent := false, repair := None,
                revisions := l.revisions[p.file := p.revision]);
      } else if changed {
        l := l.(revisions := l.revisions[p.file := p.revision]);
      } else {
        assert l.revisions[p.file := p.revision] == l.revisions;
      }
      ladders := ladders[key := l];
      reset := false;
    }

    /** Arms the ladder under `key` after a delivery. */
    method ArmLadder(key: Key, p: Poll)
      requires key in ladders && p.delivery.Delivered? && p.target.Some?
      modifies this`ladders
      ensures ladders == old(ladders)[key := Arm(ctx, old(ladders)[key], p)]
    {
      var l := ladders[key].(sent := true, repair := None);
      if ctx.hasSnapshots {
        var session := if p.delivery.session.Some? then p.delivery.session else p.target.value.session;
        var baseline := if p.target.value.session.Some? then p.baseline else None;
        var wasIdle := p.target.value.session.Some? && baseline.Some? && !baseline.value.inflight;
        var newlyCreated := p.target.value.session.None? && session.Some?;
        if session.Some? && (wasIdle || newlyCreated) {
          var turns := if baseline.Some? then baseline.value.mutationTurns else 0;
          l := l.(repair := Some(Checkpoint(session.value, turns)));
        }
        if p.token.Some? && session.Some? {
          l := l.(turn := TurnAfter(ctx, p));
        }
      }
      ladders := ladders[key := l];
    }

    method Post(p: Poll) returns (outcome: Outcome)
      modifies this
      ensures (State(), outcome) == Step(ctx, old(State()), p)
    {
      if p.ok || !p.reasons { return NoOp; }
      if ctx.runtimePolicy { return Held; }
      var reset := AdvanceLadder(SigKey(p), p, p.sigSnapshot);
      var plateau := None;
      if Scored(p) {
        var _ := AdvanceLadder(PlateauKey(p), p, p.plateauSnapshot);
        plateau := Some(ladders[PlateauKey(p)].attempts);
      }
      var signatureStage := StageForAttempts(ladders[SigKey(p)].attempts);
      var plateauStage := if plateau.Some? then StageForPlateau(plateau.value) else 0;
      var plateauDriven := plateauStage > signatureStage;
      var scoreStillClimbing := plateau.Some? && StageForPlateau(plateau.value) < 2;
      var stage := if plateauDriven then plateauStage
                   else if signatureStage == 3 && scoreStillClimbing then 2 else signatureStage;
      var attempts := if plateauDriven then plateau.value else ladders[SigKey(p)].attempts;
      if reset {
        for s := 0 to 4
          invariant ladders == Observe(ctx, old(ladders), p) && refused == old(refused)
          invariant forall nudge :: nudge in posted <==>
            nudge in old(posted) && !(nudge.exact == p.revision.exact && 0 <= nudge.stage < s)
        {
          posted := posted - {Nudge(p.revision.exact, s)};
        }
        assert posted == Forget(old(posted), p.revision.exact);
      }
      ghost var seen := Observed(ctx, old(State()), p);
      assert State() == seen && VerdictOf(seen.ladders, p) == Verdict(stage, attempts);
      var key := Nudge(p.revision.exact, stage);
      if stage < 3 && key in posted { return Deduped; }
      if p.hold { return Held; }
      var ceiling := if stage >= 3 then INFLIGHT_TERMINAL_DEFER_MS else p.deferMs;
      if p.target.Some? && p.inflightMs.Some? && p.inflightMs.value < ceiling { return Deferred; }
      if stage >= 3 { return Exhausted(attempts); }
      if p.target.None? { return Unroutable; }
      if (key, p.target.value.gezel) in refused { return Deduped; }
      if p.delivery.Delivered? {
        posted := posted + {key};
        ArmLadder(SigKey(p), p);
        if Scored(p) { ArmLadder(PlateauKey(p), p); }
        return Sent(stage, attempts);
      }
      if p.delivery.permanent {
        refused := refused + {(key, p.target.value.gezel)};
      }
      return SendFailed;
    }
  }
}
