/**
  * When the ladders of evals/src/sniff-feedback.ts end a frozen virtual target: one whose polls carry a progress token
  * that never changes. The runs are those of `Escalation`. Nothing is assumed about when the target is polled, when it
  * can be nudged, or when it answers; the other polls of a run are arbitrary.
  */
module FrozenTargets {
  import opened Common
  import opened Escalation

  // ----- the target's polls -----

  /** A poll of p's target, which is frozen: the same ladder key, exact failure, progress token and score. */
  predicate Mine(q: Poll, p: Poll) {
    SigKey(q) == SigKey(p) && q.revision.exact == p.revision.exact && q.token == p.token && q.score == p.score
  }

  /** A poll of anything else, with or without a progress token, at any score, whatever becomes of it. */
  predicate Foreign(q: Poll, p: Poll) {
    SigKey(q) != SigKey(p) && q.revision.exact != p.revision.exact
  }

  /** Neither held nor deferred below this ceiling. */
  predicate Passes(ctx: Context, q: Poll, ceiling: nat) {
    !Silent(ctx, q) && !q.hold && !(q.target.Some? && q.inflightMs.Some? && q.inflightMs.value < ceiling)
  }

  /** A nudge due at this poll goes out and is recorded. */
  predicate CanSend(ctx: Context, q: Poll) {
    Passes(ctx, q, q.deferMs) && q.target.Some? && q.delivery.Delivered?
  }

  /** A terminal verdict at this poll is reported. */
  predicate CanEnd(ctx: Context, q: Poll) {
    Passes(ctx, q, INFLIGHT_TERMINAL_DEFER_MS)
  }

  /** The poll's nudge is not refused for good. */
  predicate NotRefused(ctx: Context, q: Poll) {
    Passes(ctx, q, q.deferMs) && q.target.Some? && !q.delivery.Delivered? ==> !q.delivery.permanent
  }

  /** A run in which p's target is frozen and none of its nudges is refused for good. */
  ghost predicate FrozenAmid(ctx: Context, ps: seq<Poll>, p: Poll) {
    p.token.Some? && forall q :: q in ps ==> Foreign(q, p) || (Mine(q, p) && NotRefused(ctx, q))
  }

  /** Nothing is on record about p's target; other targets may have left anything. */
  ghost predicate Unseen(st: Feedback, p: Poll) {
    && SigKey(p) !in st.ladders
    && (forall k :: Nudge(p.revision.exact, k) !in st.posted)
    && (forall k, g :: (Nudge(p.revision.exact, k), g) !in st.refused)
  }

  /** What a poll of the target meets: whether the turn its own ladder waits for is done, the attempts of the ladder
      shared at its score (0 without a positive score), and whether a nudge or the end could be delivered. */
  datatype Look = Look(done: bool, height: int, sends: bool, ends: bool)

  function HeightAt(ctx: Context, st: Feedback, q: Poll): int {
    if Scored(q) then Observe(ctx, st.ladders, q)[PlateauKey(q)].attempts else 0
  }

  function LookAt(ctx: Context, st: Feedback, q: Poll): Look {
    Look(SigKey(q) in st.ladders && CompletedTurn(ctx, st.ladders[SigKey(q)], q.sigSnapshot),
         HeightAt(ctx, st, q), CanSend(ctx, q), CanEnd(ctx, q))
  }

  /** What the target's own polls met, in order. */
  function Looks(ctx: Context, st: Feedback, ps: seq<Poll>, p: Poll): seq<Look>
    decreases |ps|
  {
    if ps == [] then []
    else
      var before, q := Looks(ctx, st, ps[..|ps| - 1], p), ps[|ps| - 1];
      if Mine(q, p) && !Silent(ctx, q) then before + [LookAt(ctx, Run(ctx, st, ps[..|ps| - 1]), q)] else before
  }

  // ----- the target's own side, as a function of what its polls meet -----

  /** The stages already sent to the target. */
  datatype Stages = Stages(zero: bool, one: bool, two: bool) {
    predicate Has(stage: int) {
      (stage == 0 && zero) || (stage == 1 && one) || (stage == 2 && two)
    }

    function Add(stage: int): Stages {
      Stages(zero || stage == 0, one || stage == 1, two || stage == 2)
    }
  }

  /** Stages posted, answers counted, and whether a nudge is awaited. */
  datatype Own = Own(posted: Stages, answers: nat, armed: bool)

  const NEW: Own := Own(Stages(false, false, false), 0, false)

  function Counted(o: Own, look: Look): Own {
    if o.armed && look.done then o.(answers := o.answers + 1, armed := false) else o
  }

  function StageFor(scored: bool, o: Own, look: Look): int {
    Judge(Counted(o, look).answers + 1, if scored then Some(look.height) else None).stage
  }

  predicate SendsAt(scored: bool, o: Own, look: Look) {
    StageFor(scored, o, look) < 3 && !o.posted.Has(StageFor(scored, o, look)) && look.sends
  }

  predicate EndsAt(scored: bool, o: Own, look: Look) {
    StageFor(scored, o, look) == 3 && look.ends
  }

  function After(scored: bool, o: Own, look: Look): Own {
    var c := Counted(o, look);
    if SendsAt(scored, o, look) then c.(posted := c.posted.Add(StageFor(scored, o, look)), armed := true) else c
  }

  function OwnAfter(scored: bool, looks: seq<Look>): Own
    decreases |looks|
  {
    if looks == [] then NEW else After(scored, OwnAfter(scored, looks[..|looks| - 1]), looks[|looks| - 1])
  }

  /** The target's own ladder and record are as o says; it has a ladder once it is known. */
  ghost predicate OwnState(st: Feedback, p: Poll, known: bool, o: Own) {
    && (forall k, g :: (Nudge(p.revision.exact, k), g) !in st.refused)
    && (forall k :: Nudge(p.revision.exact, k) in st.posted <==> o.posted.Has(k))
    && (SigKey(p) in st.ladders <==> known)
    && (if known then
          var l := st.ladders[SigKey(p)];
          l.progress == p.token && l.attempts == o.answers + 1 && l.sent == o.armed
        else o == NEW)
  }

  lemma OwnObserved(ctx: Context, st: Feedback, q: Poll, known: bool, o: Own)
    requires q.token.Some? && OwnState(st, q, known, o)
    ensures !Resets(st, q)
    ensures var l := Advance(ctx, LadderAt(st.ladders, SigKey(q), q), q, q.sigSnapshot);
      var c := Counted(o, LookAt(ctx, st, q));
      l.attempts == c.answers + 1 && l.sent == c.armed && l.progress == q.token
  {
  }

  lemma OwnResponded(ctx: Context, u: Feedback, q: Poll, c: Own, look: Look)
    requires q.token.Some? && !Silent(ctx, q) && NotRefused(ctx, q) && OwnState(u, q, true, c)
    requires !(c.armed && look.done) && look.sends == CanSend(ctx, q) && look.ends == CanEnd(ctx, q)
    requires Scored(q) ==> PlateauKey(q) in u.ladders && u.ladders[PlateauKey(q)].attempts == look.height
    ensures var (w, outcome) := Respond(ctx, u, q);
      && (outcome.Sent? <==> SendsAt(Scored(q), c, look)) && (outcome.Exhausted? <==> EndsAt(Scored(q), c, look))
      && OwnState(w, q, true, After(Scored(q), c, look))
  {
    hide ArmAll;
    RespondOneKey(ctx, u, q, SigKey(q));
    assert 0 <= StageFor(Scored(q), c, look) <= 3;
  }

  /** The stage depends on the answers counted so far alone. */
  lemma CountedOnce(scored: bool, o: Own, look: Look)
    ensures var c := Counted(o, look); var l := look.(done := false);
      && StageFor(scored, c, l) == StageFor(scored, o, look) && After(scored, c, l) == After(scored, o, look)
      && SendsAt(scored, c, l) == SendsAt(scored, o, look) && EndsAt(scored, c, l) == EndsAt(scored, o, look)
  {
  }

  lemma OwnPoll(ctx: Context, st: Feedback, q: Poll, known: bool, o: Own)
    requires q.token.Some? && !Silent(ctx, q) && NotRefused(ctx, q) && OwnState(st, q, known, o)
    ensures var look := LookAt(ctx, st, q);
      && (OutcomeOf(ctx, st, q).Sent? <==> SendsAt(Scored(q), o, look))
      && (OutcomeOf(ctx, st, q).Exhausted? <==> EndsAt(Scored(q), o, look))
      && OwnState(Step(ctx, st, q).0, q, true, After(Scored(q), o, look))
  {
    hide Observe, Respond, Advance, StageFor, SendsAt, EndsAt, After, CompletedTurn;
    var look := LookAt(ctx, st, q);
    OwnObserved(ctx, st, q, known, o);
    ObserveOneKey(ctx, st.ladders, q, SigKey(q));
    CountedOnce(Scored(q), o, look);
    OwnResponded(ctx, Observed(ctx, st, q), q, Counted(o, look), look.(done := false));
  }

  lemma ForeignPoll(ctx: Context, st: Feedback, q: Poll, p: Poll, known: bool, o: Own)
    requires Foreign(q, p) && OwnState(st, p, known, o)
    ensures OwnState(Step(ctx, st, q).0, p, known, o)
  {
    hide Observe;
    if !Silent(ctx, q) {
      ObserveOneKey(ctx, st.ladders, q, SigKey(q));
      ObserveOneKey(ctx, st.ladders, q, SigKey(p));
      RespondOneKey(ctx, Observed(ctx, st, q), q, SigKey(p));
    }
  }

  lemma SilentPoll(ctx: Context, st: Feedback, q: Poll)
    requires Silent(ctx, q)
    ensures Step(ctx, st, q).0 == st && !OutcomeOf(ctx, st, q).Exhausted? && !OutcomeOf(ctx, st, q).Sent?
  {
  }

  lemma SameOwnState(st: Feedback, q: Poll, p: Poll, known: bool, o: Own)
    requires Mine(q, p)
    ensures OwnState(st, q, known, o) <==> OwnState(st, p, known, o)
    ensures Scored(q) == Scored(p) && !Foreign(q, p)
  {
  }

  lemma UnseenState(st: Feedback, p: Poll)
    requires Unseen(st, p)
    ensures OwnState(st, p, false, NEW) && SigKey(p) !in st.ladders
  {
  }

  lemma AmidFront(ctx: Context, ps: seq<Poll>, p: Poll)
    requires FrozenAmid(ctx, ps, p) && ps != []
    ensures FrozenAmid(ctx, ps[..|ps| - 1], p) && p.token.Some?
    ensures var q := ps[|ps| - 1]; if Mine(q, p) then NotRefused(ctx, q) && q.token.Some? else Foreign(q, p)
  {
    assert ps[|ps| - 1] in ps;
  }

  /** Over every run the target's own side depends on the other polls through the heights alone. */
  lemma {:induction false} OwnStateAfter(ctx: Context, st: Feedback, ps: seq<Poll>, p: Poll)
    requires Unseen(st, p) && FrozenAmid(ctx, ps, p)
    ensures var looks := Looks(ctx, st, ps, p);
      OwnState(Run(ctx, st, ps), p, looks != [], OwnAfter(Scored(p), looks))
    decreases |ps|
  {
    hide Step, OwnState, LookAt, Unseen, FrozenAmid, After, Silent, NotRefused;
    if ps == [] {
      UnseenState(st, p);
    } else {
      var front, q := ps[..|ps| - 1], ps[|ps| - 1];
      var before, looks := Run(ctx, st, front), Looks(ctx, st, front, p);
      AmidFront(ctx, ps, p);
      OwnStateAfter(ctx, st, front, p);
      var o := OwnAfter(Scored(p), looks);
      if Silent(ctx, q) {
        SilentPoll(ctx, before, q);
      } else if Mine(q, p) {
        SameOwnState(before, q, p, looks != [], o);
        OwnPoll(ctx, before, q, looks != [], o);
        SameOwnState(Run(ctx, st, ps), q, p, true, After(Scored(p), o, LookAt(ctx, before, q)));
        assert (looks + [LookAt(ctx, before, q)])[..|looks|] == looks;
      } else {
        ForeignPoll(ctx, before, q, p, looks != [], o);
      }
    }
  }

  /** What every poll of the target comes to. */
  lemma TargetOutcome(ctx: Context, st: Feedback, ps: seq<Poll>, p: Poll, q: Poll)
    requires Unseen(st, p) && FrozenAmid(ctx, ps + [q], p) && Mine(q, p) && !Silent(ctx, q)
    ensures var before := Run(ctx, st, ps);
      var o, look := OwnAfter(Scored(p), Looks(ctx, st, ps, p)), LookAt(ctx, before, q);
      && (OutcomeOf(ctx, before, q).Sent? <==> SendsAt(Scored(p), o, look))
      && (OutcomeOf(ctx, before, q).Exhausted? <==> EndsAt(Scored(p), o, look))
  {
    hide OutcomeOf, OwnState, LookAt, Unseen, FrozenAmid, SendsAt, EndsAt, NotRefused, Silent;
    assert (ps + [q])[..|ps|] == ps;
    AmidFront(ctx, ps + [q], p);
    OwnStateAfter(ctx, st, ps, p);
    var looks := Looks(ctx, st, ps, p);
    SameOwnState(Run(ctx, st, ps), q, p, looks != [], OwnAfter(Scored(p), looks));
    OwnPoll(ctx, Run(ctx, st, ps), q, looks != [], OwnAfter(Scored(p), looks));
  }

  ghost predicate EverEnded(ctx: Context, st: Feedback, ps: seq<Poll>, p: Poll) {
    exists n :: 0 <= n < |ps| && Mine(ps[n], p) && OutcomeOf(ctx, Run(ctx, st, ps[..n]), ps[n]).Exhausted?
  }

  /** Some look meets the terminal verdict and can deliver it. */
  predicate Ends(scored: bool, looks: seq<Look>)
    decreases |looks|
  {
    looks != [] &&
    (Ends(scored, looks[..|looks| - 1]) || EndsAt(scored, OwnAfter(scored, looks[..|looks| - 1]), looks[|looks| - 1]))
  }

  lemma EndedSplits(ctx: Context, st: Feedback, ps: seq<Poll>, p: Poll)
    requires ps != []
    ensures var front, q := ps[..|ps| - 1], ps[|ps| - 1];
      EverEnded(ctx, st, ps, p) <==>
        EverEnded(ctx, st, front, p) || (Mine(q, p) && OutcomeOf(ctx, Run(ctx, st, front), q).Exhausted?)
  {
    hide OutcomeOf, Run, Mine;
    var front := ps[..|ps| - 1];
    assert forall n :: 0 <= n < |front| ==> front[..n] == ps[..n] && front[n] == ps[n];
  }

  lemma {:induction false} EndedIffEnds(ctx: Context, st: Feedback, ps: seq<Poll>, p: Poll)
    requires Unseen(st, p) && FrozenAmid(ctx, ps, p)
    ensures EverEnded(ctx, st, ps, p) <==> Ends(Scored(p), Looks(ctx, st, ps, p))
    decreases |ps|
  {
    hide OutcomeOf, Unseen, LookAt, EndsAt, SendsAt, EverEnded, Run, OwnAfter, FrozenAmid, NotRefused, Silent;
    if ps == [] {
      NothingEnded(ctx, st, p);
    } else {
      var front, q := ps[..|ps| - 1], ps[|ps| - 1];
      EndedSplits(ctx, st, ps, p);
      AmidFront(ctx, ps, p);
      EndedIffEnds(ctx, st, front, p);
      if Silent(ctx, q) {
        SilentPoll(ctx, Run(ctx, st, front), q);
      } else if Mine(q, p) {
        var looks, look := Looks(ctx, st, front, p), LookAt(ctx, Run(ctx, st, front), q);
        assert front + [q] == ps && (looks + [look])[..|looks|] == looks;
        TargetOutcome(ctx, st, front, p, q);
      }
    }
  }

  lemma NothingEnded(ctx: Context, st: Feedback, p: Poll)
    ensures !EverEnded(ctx, st, [], p)
  {
  }

  // ----- the closed form -----

  /** Rounds of nudge and answer: the answers so far, and whether a nudge waits for the next one. A round is opened by
      the first poll that can send, below height 6, and closed by the first later one that finds the turn done. */
  datatype Rounds = Rounds(answers: nat, waiting: bool)

  function NextRound(r: Rounds, look: Look): Rounds {
    var c := if r.waiting && look.done then Rounds(r.answers + 1, false) else r;
    if c.answers < 3 && look.sends && look.height < 6 then c.(waiting := true) else c
  }

  function RoundsAfter(looks: seq<Look>): (r: Rounds)
    ensures r.answers < 3 || (r.answers == 3 && !r.waiting)
    decreases |looks|
  {
    if looks == [] then Rounds(0, false) else NextRound(RoundsAfter(looks[..|looks| - 1]), looks[|looks| - 1])
  }

  /** Polls that can send find at most 2 before the first answer and at most 3 before the second, 6 and more aside. */
  predicate Low(looks: seq<Look>)
    decreases |looks|
  {
    looks == [] ||
    ( && Low(looks[..|looks| - 1])
      && var look, n := looks[|looks| - 1], RoundsAfter(looks).answers;
        look.sends && look.height < 6 ==> (n == 0 ==> look.height <= 2) && (n == 1 ==> look.height <= 3))
  }

  /** The i-th poll can report the end, and finds 6 or more, or at least 4 after three answers won at low heights. */
  predicate FinishesAt(scored: bool, looks: seq<Look>, i: nat)
    requires i < |looks|
  {
    looks[i].ends &&
    (if scored then
       looks[i].height >= 6
       || (Low(looks[..i + 1]) && RoundsAfter(looks[..i + 1]).answers == 3 && looks[i].height >= 4)
     else RoundsAfter(looks[..i + 1]).answers == 3)
  }

  ghost predicate Finishes(scored: bool, looks: seq<Look>) {
    exists i :: 0 <= i < |looks| && FinishesAt(scored, looks, i)
  }

  /** The stages of the rounds so far were sent one after the other. */
  predicate InOrder(o: Own, r: Rounds) {
    && o.answers == r.answers && o.armed == r.waiting
    && (o.posted.zero <==> r.answers > 0 || r.waiting)
    && (o.posted.one <==> r.answers > 1 || (r.answers == 1 && r.waiting))
    && (o.posted.two <==> r.answers > 2 || (r.answers == 2 && r.waiting))
  }

  /** A stage was sent too early: at most two answers can ever be counted. */
  predicate Stuck(o: Own) {
    || (o.answers == 0 && o.armed && (o.posted.one || o.posted.two))
    || (o.answers == 1 && (o.posted.two || (o.posted.one && !o.armed)))
    || (o.answers == 2 && o.posted.two && !o.armed)
  }

  lemma StaysStuck(o: Own, look: Look)
    requires Stuck(o)
    ensures Stuck(After(true, o, look)) && (EndsAt(true, o, look) <==> look.ends && look.height >= 6)
  {
  }

  lemma NextInOrder(scored: bool, o: Own, r: Rounds, look: Look)
    requires InOrder(o, r) && (r.answers < 3 || (r.answers == 3 && !r.waiting)) && (scored || look.height == 0)
    ensures var n, t := NextRound(r, look), After(scored, o, look);
      var low := look.sends && look.height < 6 ==>
        (n.answers == 0 ==> look.height <= 2) && (n.answers == 1 ==> look.height <= 3);
      && (if low then InOrder(t, n) else Stuck(t))
      && (EndsAt(scored, o, look) <==>
            look.ends && if scored then look.height >= 6 || (n.answers == 3 && look.height >= 4) else n.answers == 3)
  {
  }

  predicate Unscored(looks: seq<Look>) {
    forall i :: 0 <= i < |looks| ==> looks[i].height == 0
  }

  lemma {:induction false} OrderedOrStuck(scored: bool, looks: seq<Look>)
    requires scored || Unscored(looks)
    ensures if Low(looks) then InOrder(OwnAfter(scored, looks), RoundsAfter(looks))
            else scored && Stuck(OwnAfter(scored, looks))
    ensures looks != [] ==>
      var o, look := OwnAfter(scored, looks[..|looks| - 1]), looks[|looks| - 1];
      EndsAt(scored, o, look) <==> FinishesAt(scored, looks, |looks| - 1)
    decreases |looks|
  {
    hide InOrder, Stuck, After, EndsAt, NextRound;
    if looks == [] {
      NewIsInOrder();
    } else {
      var front, look := looks[..|looks| - 1], looks[|looks| - 1];
      assert looks[..|looks| - 1 + 1] == looks;
      OrderedOrStuck(scored, front);
      if Low(front) {
        NextInOrder(scored, OwnAfter(scored, front), RoundsAfter(front), look);
      } else {
        StaysStuck(OwnAfter(scored, front), look);
      }
    }
  }

  lemma NewIsInOrder()
    ensures InOrder(NEW, Rounds(0, false))
  {
  }

  lemma FinishesSplits(scored: bool, looks: seq<Look>)
    requires looks != []
    ensures Finishes(scored, looks) <==>
      Finishes(scored, looks[..|looks| - 1]) || FinishesAt(scored, looks, |looks| - 1)
  {
    hide Low, RoundsAfter;
    var front := looks[..|looks| - 1];
    forall i: nat | i < |front| ensures FinishesAt(scored, front, i) <==> FinishesAt(scored, looks, i) {
      assert front[..i + 1] == looks[..i + 1];
    }
  }

  lemma {:induction false} EndsIffFinishes(scored: bool, looks: seq<Look>)
    requires scored || Unscored(looks)
    ensures Ends(scored, looks) <==> Finishes(scored, looks)
    decreases |looks|
  {
    hide FinishesAt, EndsAt, Finishes;
    if looks == [] {
      NothingFinishes(scored);
    } else {
      EndsIffFinishes(scored, looks[..|looks| - 1]);
      FinishesSplits(scored, looks);
      OrderedOrStuck(scored, looks);
    }
  }

  lemma NothingFinishes(scored: bool)
    ensures !Finishes(scored, [])
  {
  }

  lemma {:induction false} UnscoredLooks(ctx: Context, st: Feedback, ps: seq<Poll>, p: Poll)
    requires !Scored(p)
    ensures Unscored(Looks(ctx, st, ps, p))
    decreases |ps|
  {
    hide Run;
    if ps != [] {
      UnscoredLooks(ctx, st, ps[..|ps| - 1], p);
    }
  }

  /** Exactly when, over every run of polls, whenever the target is polled, nudged or answers: a frozen virtual target
      with a positive score is exhausted if and only if a poll of it that can report the end finds the ladder of that
      score at 6 attempts or more, or finds it at 4 or more after three rounds of nudge and answer, no poll that could
      send having found more than 2 before the first answer or more than 3 before the second. A poll that finds more
      sends a later stage early; its dedupe key is then spent, the round of that stage never opens, and at most two
      answers are ever counted. A target without a positive score is exhausted after three rounds. */
  lemma TargetExhaustedIff(ctx: Context, st: Feedback, ps: seq<Poll>, p: Poll)
    requires Unseen(st, p) && FrozenAmid(ctx, ps, p)
    ensures EverEnded(ctx, st, ps, p) <==> Finishes(Scored(p), Looks(ctx, st, ps, p))
  {
    hide FrozenAmid, Unseen, EverEnded, Finishes, Looks;
    EndedIffEnds(ctx, st, ps, p);
    if !Scored(p) {
      UnscoredLooks(ctx, st, ps, p);
    }
    EndsIffFinishes(Scored(p), Looks(ctx, st, ps, p));
  }

  // ----- the shared ladder -----

  /** A nudge of this poll leaves a turn to be waited for, and both ladders see the session alike. */
  predicate Attends(ctx: Context, q: Poll) {
    && (CanSend(ctx, q) && ctx.hasSnapshots ==> DeliveredSession(q).Some? && TurnAfter(ctx, q).Some?)
    && q.plateauSnapshot == q.sigSnapshot
  }

  ghost predicate AllAttend(ctx: Context, ps: seq<Poll>, p: Poll) {
    forall q :: q in ps && Mine(q, p) ==> Attends(ctx, q)
  }

  /** A send at this poll reached both ladders. */
  lemma SentMeansCanSend(ctx: Context, st: Feedback, q: Poll)
    requires OutcomeOf(ctx, st, q).Sent?
    ensures CanSend(ctx, q)
  {
  }

  ghost predicate LadderExists(st: Feedback, p: Poll) {
    Scored(p) && PlateauKey(p) in st.ladders ==> st.ladders[PlateauKey(p)].attempts >= 1
  }

  lemma StepHeightPositive(ctx: Context, st: Feedback, q: Poll, key: Key)
    requires key in st.ladders ==> st.ladders[key].attempts >= 1
    ensures key in Step(ctx, st, q).0.ladders ==> Step(ctx, st, q).0.ladders[key].attempts >= 1
  {
    hide Observe, Respond;
    if !Silent(ctx, q) {
      ObserveOneKey(ctx, st.ladders, q, key);
      RespondOneKey(ctx, Observed(ctx, st, q), q, key);
    }
  }

  lemma {:induction false} HeightStaysPositive(ctx: Context, st: Feedback, ps: seq<Poll>, key: Key)
    requires key in st.ladders ==> st.ladders[key].attempts >= 1
    ensures key in Run(ctx, st, ps).ladders ==> Run(ctx, st, ps).ladders[key].attempts >= 1
    decreases |ps|
  {
    hide Step;
    if ps != [] {
      HeightStaysPositive(ctx, st, ps[..|ps| - 1], key);
      StepHeightPositive(ctx, Run(ctx, st, ps[..|ps| - 1]), ps[|ps| - 1], key);
    }
  }

  // ----- no other token at the target's score -----

  /** The other polls at the target's score carry no progress token. */
  ghost predicate OnlyToken(ctx: Context, ps: seq<Poll>, p: Poll) {
    forall q :: q in ps && !Mine(q, p) && q.score == p.score && !Silent(ctx, q) ==> q.token.None?
  }

  /** The ladder waits for a turn, or will count at its next look in any case. */
  predicate Pending(ctx: Context, m: Ladder) {
    m.sent && (m.turn.Some? || !ctx.hasSnapshots)
  }

  /** The shared ladder stands no lower than the target's own, an awaited nudge included. */
  ghost predicate KeepsUp(ctx: Context, t: Feedback, p: Poll) {
    && Scored(p) && SigKey(p) in t.ladders && PlateauKey(p) in t.ladders
    && var l, m := t.ladders[SigKey(p)], t.ladders[PlateauKey(p)];
    && m.progress == l.progress == p.token
    && (if l.sent then
          && m.attempts + (if Pending(ctx, m) then 1 else 0) >= l.attempts + 1
          && (m.turn.Some? && ctx.hasSnapshots ==> m.turn == l.turn)
        else m.attempts >= l.attempts)
  }

  lemma OwnPollKeepsUp(ctx: Context, t: Feedback, q: Poll)
    requires Scored(q) && q.token.Some? && !Silent(ctx, q) && Attends(ctx, q)
    requires KeepsUp(ctx, t, q) || (SigKey(q) !in t.ladders && LadderExists(t, q))
    ensures KeepsUp(ctx, Step(ctx, t, q).0, q)
    ensures HeightAt(ctx, t, q) >= Advance(ctx, LadderAt(t.ladders, SigKey(q), q), q, q.sigSnapshot).attempts
  {
    hide Observe, Respond, TurnAfter, CanSend;
    ObserveOneKey(ctx, t.ladders, q, SigKey(q));
    ObserveOneKey(ctx, t.ladders, q, PlateauKey(q));
    RespondOneKey(ctx, Observed(ctx, t, q), q, SigKey(q));
    RespondOneKey(ctx, Observed(ctx, t, q), q, PlateauKey(q));
    if OutcomeOf(ctx, t, q).Sent? {
      SentMeansCanSend(ctx, t, q);
    }
  }

  lemma OtherPollKeepsUp(ctx: Context, t: Feedback, q: Poll, p: Poll)
    requires Foreign(q, p) && (q.score == p.score && !Silent(ctx, q) ==> q.token.None?) && KeepsUp(ctx, t, p)
    ensures KeepsUp(ctx, Step(ctx, t, q).0, p)
  {
    hide Observe, Respond;
    if !Silent(ctx, q) {
      ObserveOneKey(ctx, t.ladders, q, SigKey(p));
      ObserveOneKey(ctx, t.ladders, q, PlateauKey(p));
      RespondOneKey(ctx, Observed(ctx, t, q), q, SigKey(p));
      RespondOneKey(ctx, Observed(ctx, t, q), q, PlateauKey(p));
    }
  }

  /** Every look is at least as high as the attempts it finds on the target's own ladder. */
  predicate HighEnough(looks: seq<Look>)
    decreases |looks|
  {
    looks == [] ||
    (HighEnough(looks[..|looks| - 1]) && looks[|looks| - 1].height >= OwnAfter(true, looks).answers + 1)
  }

  lemma SameKeepsUp(ctx: Context, t: Feedback, q: Poll, p: Poll)
    requires Mine(q, p)
    ensures KeepsUp(ctx, t, q) <==> KeepsUp(ctx, t, p)
    ensures LadderExists(t, q) <==> LadderExists(t, p)
    ensures SigKey(q) == SigKey(p) && Scored(q) == Scored(p) && (Scored(p) ==> PlateauKey(q) == PlateauKey(p))
  {
  }

  /** The attempts a poll finds on the target's own ladder are the answers so far and one. */
  lemma OwnAttempts(ctx: Context, st: Feedback, q: Poll, known: bool, o: Own)
    requires q.token.Some? && OwnState(st, q, known, o)
    ensures Advance(ctx, LadderAt(st.ladders, SigKey(q), q), q, q.sigSnapshot).attempts
            == After(Scored(q), o, LookAt(ctx, st, q)).answers + 1
  {
    hide StageFor, SendsAt;
    OwnObserved(ctx, st, q, known, o);
  }

  lemma {:induction false} LadderKeepsUp(ctx: Context, st: Feedback, ps: seq<Poll>, p: Poll)
    requires Unseen(st, p) && FrozenAmid(ctx, ps, p) && OnlyToken(ctx, ps, p) && AllAttend(ctx, ps, p)
    requires Scored(p) && LadderExists(st, p)
    ensures var looks := Looks(ctx, st, ps, p);
      && HighEnough(looks) && (looks != [] ==> KeepsUp(ctx, Run(ctx, st, ps), p))
    decreases |ps|
  {
    hide Step, Unseen, FrozenAmid, LookAt, OwnState, KeepsUp, Attends, Advance, Silent, NotRefused, After, LadderExists;
    if ps != [] {
      var front, q := ps[..|ps| - 1], ps[|ps| - 1];
      var t, looks := Run(ctx, st, front), Looks(ctx, st, front, p);
      assert q in ps && forall r :: r in front ==> r in ps;
      AmidFront(ctx, ps, p);
      LadderKeepsUp(ctx, st, front, p);
      if Silent(ctx, q) {
        SilentPoll(ctx, t, q);
      } else if Mine(q, p) {
        var o := OwnAfter(true, looks);
        SameKeepsUp(ctx, t, q, p);
        SameKeepsUp(ctx, Step(ctx, t, q).0, q, p);
        OwnStateAfter(ctx, st, front, p);
        SameOwnState(t, q, p, looks != [], o);
        OwnAttempts(ctx, t, q, looks != [], o);
        if looks == [] {
          NewTarget(ctx, st, front, p, o);
        }
        OwnPollKeepsUp(ctx, t, q);
        assert (looks + [LookAt(ctx, t, q)])[..|looks|] == looks;
        LookHeight(ctx, t, q);
      } else {
        if looks != [] {
          OtherPollKeepsUp(ctx, t, q, p);
        }
      }
    }
  }

  lemma LookHeight(ctx: Context, t: Feedback, q: Poll)
    ensures LookAt(ctx, t, q).height == HeightAt(ctx, t, q)
  {
  }

  lemma NewTarget(ctx: Context, st: Feedback, ps: seq<Poll>, p: Poll, o: Own)
    requires OwnState(Run(ctx, st, ps), p, false, o) && LadderExists(st, p) && Scored(p)
    ensures SigKey(p) !in Run(ctx, st, ps).ladders && LadderExists(Run(ctx, st, ps), p)
  {
    hide Run;
    HeightStaysPositive(ctx, st, ps, PlateauKey(p));
  }

  /** Some look can report the end and finds 6 or more, or comes after three answers won at low heights. */
  ghost predicate FinishesInStep(looks: seq<Look>) {
    exists i :: 0 <= i < |looks| && looks[i].ends
                && (looks[i].height >= 6 || (Low(looks[..i + 1]) && RoundsAfter(looks[..i + 1]).answers == 3))
  }

  lemma {:induction false} HighEnoughAt(looks: seq<Look>, i: nat)
    requires HighEnough(looks) && i < |looks|
    ensures looks[i].height >= OwnAfter(true, looks[..i + 1]).answers + 1
    decreases |looks|
  {
    hide OwnAfter;
    if i == |looks| - 1 {
      assert looks[..i + 1] == looks;
    } else {
      HighEnoughAt(looks[..|looks| - 1], i);
      assert looks[..|looks| - 1][..i + 1] == looks[..i + 1];
    }
  }

  /** Exactly when, with no other token at the target's score: the target is exhausted if and only if a poll of it that
      can report the end finds the ladder at 6 or more, or comes after three rounds without a poll that could send
      having found more than 2 before the first answer or more than 3 before the second. Token-less polls can raise the
      ladder early; they never lower it. */
  lemma OnlyTokenExhaustedIff(ctx: Context, st: Feedback, ps: seq<Poll>, p: Poll)
    requires Unseen(st, p) && FrozenAmid(ctx, ps, p) && OnlyToken(ctx, ps, p) && AllAttend(ctx, ps, p)
    requires Scored(p) && LadderExists(st, p)
    ensures EverEnded(ctx, st, ps, p) <==> FinishesInStep(Looks(ctx, st, ps, p))
  {
    hide FrozenAmid, Unseen, EverEnded, Looks, OnlyToken, AllAttend, Low, RoundsAfter, LadderExists, OwnAfter,
      HighEnough;
    var looks := Looks(ctx, st, ps, p);
    TargetExhaustedIff(ctx, st, ps, p);
    LadderKeepsUp(ctx, st, ps, p);
    forall i | 0 <= i < |looks| && Low(looks[..i + 1]) && RoundsAfter(looks[..i + 1]).answers == 3
      ensures looks[i].height >= 4
    {
      HighEnoughAt(looks, i);
      OrderedOrStuck(true, looks[..i + 1]);
    }
    if FinishesInStep(looks) {
      var i :| 0 <= i < |looks| && looks[i].ends
               && (looks[i].height >= 6 || (Low(looks[..i + 1]) && RoundsAfter(looks[..i + 1]).answers == 3));
      assert FinishesAt(true, looks, i);
    }
    if Finishes(true, looks) {
      var i :| 0 <= i < |looks| && FinishesAt(true, looks, i);
      assert looks[i].ends;
    }
  }

  // ----- nothing new at the score once the target is polled -----

  /** The shared ladder waits for no turn, or for one that the target's token clears. */
  predicate NoStaleTurn(t: Feedback, p: Poll) {
    Scored(p) && PlateauKey(p) in t.ladders ==>
      var m := t.ladders[PlateauKey(p)];
      m.turn.None? || (m.progress.Some? && m.progress != p.token)
  }

  /** From the target's first poll on, the other polls at its score carry no token and show the shared ladder nothing
      new; what was polled there before has left no turn to wait for. */
  ghost predicate Settled(ctx: Context, st: Feedback, ps: seq<Poll>, p: Poll)
    decreases |ps|
  {
    ps == [] ||
    ( && Settled(ctx, st, ps[..|ps| - 1], p)
      && var q, t, looks := ps[|ps| - 1], Run(ctx, st, ps[..|ps| - 1]), Looks(ctx, st, ps[..|ps| - 1], p);
        if Mine(q, p) then looks == [] ==> NoStaleTurn(t, p)
        else looks != [] && q.score == p.score && Scored(q) && !Silent(ctx, q) ==>
          q.token.None? && NothingNew(ctx, t.ladders, PlateauKey(q), q, q.plateauSnapshot))
  }

  /** Since the target's first poll, which found the shared ladder at h, both ladders have counted the same answers. */
  ghost predicate Linked(t: Feedback, p: Poll, h: int) {
    && Scored(p) && SigKey(p) in t.ladders && PlateauKey(p) in t.ladders
    && var l, m := t.ladders[SigKey(p)], t.ladders[PlateauKey(p)];
    && l.progress == m.progress == p.token && m.attempts == h + l.attempts - 1
    && (if l.sent then m.sent && m.turn.Some? && m.turn == l.turn else m.turn.None?)
  }

  lemma OwnPollLinks(ctx: Context, t: Feedback, q: Poll, h: int)
    requires ctx.hasSnapshots && Scored(q) && q.token.Some? && !Silent(ctx, q) && Attends(ctx, q)
    requires Linked(t, q, h) || (SigKey(q) !in t.ladders && NoStaleTurn(t, q) && h == HeightAt(ctx, t, q))
    ensures Linked(Step(ctx, t, q).0, q, h)
    ensures HeightAt(ctx, t, q) == h + Advance(ctx, LadderAt(t.ladders, SigKey(q), q), q, q.sigSnapshot).attempts - 1
  {
    hide Observe, Respond, TurnAfter, CanSend;
    ObserveOneKey(ctx, t.ladders, q, SigKey(q));
    ObserveOneKey(ctx, t.ladders, q, PlateauKey(q));
    RespondOneKey(ctx, Observed(ctx, t, q), q, SigKey(q));
    RespondOneKey(ctx, Observed(ctx, t, q), q, PlateauKey(q));
    if OutcomeOf(ctx, t, q).Sent? {
      SentMeansCanSend(ctx, t, q);
    }
  }

  lemma OtherPollLinks(ctx: Context, t: Feedback, q: Poll, p: Poll, h: int)
    requires Foreign(q, p) && Linked(t, p, h)
    requires q.score == p.score && !Silent(ctx, q) ==>
      q.token.None? && NothingNew(ctx, t.ladders, PlateauKey(p), q, q.plateauSnapshot)
    ensures Linked(Step(ctx, t, q).0, p, h)
  {
    hide Observe, Respond;
    if !Silent(ctx, q) {
      ObserveOneKey(ctx, t.ladders, q, SigKey(p));
      ObserveOneKey(ctx, t.ladders, q, PlateauKey(p));
      RespondOneKey(ctx, Observed(ctx, t, q), q, SigKey(p));
      RespondOneKey(ctx, Observed(ctx, t, q), q, PlateauKey(p));
    }
  }

  /** The height rises from h by one for every answer. */
  predicate RisesFrom(h: int, looks: seq<Look>)
    decreases |looks|
  {
    looks == [] ||
    (RisesFrom(h, looks[..|looks| - 1]) && looks[|looks| - 1].height == h + OwnAfter(true, looks).answers)
  }

  lemma SameLink(t: Feedback, q: Poll, p: Poll, h: int)
    requires Mine(q, p)
    ensures Linked(t, q, h) <==> Linked(t, p, h)
    ensures NoStaleTurn(t, q) <==> NoStaleTurn(t, p)
    ensures SigKey(q) == SigKey(p) && Scored(q) == Scored(p)
  {
  }

  lemma SettledMine(ctx: Context, st: Feedback, ps: seq<Poll>, q: Poll, p: Poll)
    requires ctx.hasSnapshots && Scored(p) && Unseen(st, p) && FrozenAmid(ctx, ps, p) && Settled(ctx, st, ps + [q], p)
    requires Mine(q, p) && !Silent(ctx, q) && q.token.Some? && Attends(ctx, q)
    requires var looks := Looks(ctx, st, ps, p);
      looks != [] ==> RisesFrom(looks[0].height, looks) && Linked(Run(ctx, st, ps), p, looks[0].height)
    ensures var looks := Looks(ctx, st, ps + [q], p);
      RisesFrom(looks[0].height, looks) && Linked(Run(ctx, st, ps + [q]), p, looks[0].height)
  {
    hide Step, Unseen, FrozenAmid, LookAt, OwnState, Linked, Attends, Advance, Silent, After, NoStaleTurn, NothingNew,
      OwnAfter, RisesFrom;
    assert (ps + [q])[..|ps|] == ps;
    var t, looks := Run(ctx, st, ps), Looks(ctx, st, ps, p);
    var o, look := OwnAfter(true, looks), LookAt(ctx, t, q);
    var h := (looks + [look])[0].height;
    SameLink(t, q, p, h);
    SameLink(Step(ctx, t, q).0, q, p, h);
    OwnStateAfter(ctx, st, ps, p);
    SameOwnState(t, q, p, looks != [], o);
    OwnAttempts(ctx, t, q, looks != [], o);
    LookHeight(ctx, t, q);
    if looks == [] {
      StillUnknown(t, p, o);
    }
    OwnPollLinks(ctx, t, q, h);
    RisesAgain(h, looks, look);
  }

  lemma {:induction false} SettledRises(ctx: Context, st: Feedback, ps: seq<Poll>, p: Poll)
    requires ctx.hasSnapshots && Scored(p) && Unseen(st, p) && FrozenAmid(ctx, ps, p) && AllAttend(ctx, ps, p)
    requires Settled(ctx, st, ps, p)
    ensures var looks := Looks(ctx, st, ps, p);
      looks != [] ==> RisesFrom(looks[0].height, looks) && Linked(Run(ctx, st, ps), p, looks[0].height)
    decreases |ps|
  {
    hide Step, Unseen, FrozenAmid, LookAt, Linked, Attends, Silent, NotRefused, NoStaleTurn, NothingNew, RisesFrom;
    if ps != [] {
      var front, q := ps[..|ps| - 1], ps[|ps| - 1];
      var t, looks := Run(ctx, st, front), Looks(ctx, st, front, p);
      assert q in ps && forall r :: r in front ==> r in ps;
      AmidFront(ctx, ps, p);
      SettledRises(ctx, st, front, p);
      if Silent(ctx, q) {
        SilentPoll(ctx, t, q);
      } else if Mine(q, p) {
        SettledMine(ctx, st, front, q, p);
        assert front + [q] == ps;
      } else {
        if q.score == p.score {
          ScoredAlike(q, p);
        }
        if looks != [] {
          OtherPollLinks(ctx, t, q, p, looks[0].height);
        }
      }
    }
  }

  lemma RisesAgain(h: int, looks: seq<Look>, look: Look)
    requires looks != [] ==> RisesFrom(h, looks)
    requires look.height == h + After(true, OwnAfter(true, looks), look).answers
    ensures RisesFrom(h, looks + [look])
  {
    assert (looks + [look])[..|looks|] == looks;
  }

  lemma ScoredAlike(q: Poll, p: Poll)
    requires q.score == p.score && Scored(p)
    ensures Scored(q) && PlateauKey(q) == PlateauKey(p)
  {
  }

  lemma StillUnknown(t: Feedback, p: Poll, o: Own)
    requires OwnState(t, p, false, o)
    ensures SigKey(p) !in t.ladders
  {
  }

  /** Some poll can report the end after this many answers. */
  ghost predicate EndsAfter(looks: seq<Look>, answers: nat) {
    exists i :: 0 <= i < |looks| && looks[i].ends && RoundsAfter(looks[..i + 1]).answers >= answers
  }

  /** What becomes of a target that first finds the ladder at h, nothing else moving it: the end comes after three
      answers from 1 or 2, after one from 5, at once from 6, and never from 3 or 4. */
  ghost predicate FinishesFrom(h: int, looks: seq<Look>) {
    if h <= 2 then EndsAfter(looks, 3) else if h == 5 then EndsAfter(looks, 1) else h >= 6 && EndsAfter(looks, 0)
  }

  /** Until the first answer the dedupe plays no part. */
  predicate SameFirstAnswer(o: Own, r: Rounds) {
    && (o.answers == 0 <==> r.answers == 0)
    && (o.answers == 0 ==> o.armed == r.waiting && (!o.armed ==> o.posted == NEW.posted))
  }

  lemma NextFirstAnswer(o: Own, r: Rounds, look: Look)
    requires SameFirstAnswer(o, r)
    ensures SameFirstAnswer(After(true, o, look), NextRound(r, look))
  {
  }

  lemma {:induction false} FirstAnswer(looks: seq<Look>)
    ensures SameFirstAnswer(OwnAfter(true, looks), RoundsAfter(looks))
    decreases |looks|
  {
    hide SameFirstAnswer, After, NextRound;
    if looks == [] {
      NoAnswerYet();
    } else {
      FirstAnswer(looks[..|looks| - 1]);
      NextFirstAnswer(OwnAfter(true, looks[..|looks| - 1]), RoundsAfter(looks[..|looks| - 1]), looks[|looks| - 1]);
    }
  }

  lemma NoAnswerYet()
    ensures SameFirstAnswer(NEW, Rounds(0, false))
  {
  }

  lemma {:induction false} RisesLow(h: int, looks: seq<Look>)
    requires h <= 2 && RisesFrom(h, looks)
    ensures Low(looks)
    decreases |looks|
  {
    hide OwnAfter;
    if looks != [] {
      RisesLow(h, looks[..|looks| - 1]);
      OrderedOrStuck(true, looks);
      FirstAnswer(looks);
      RisesLowLast(h, looks);
    }
  }

  /** The last look of a run that rises from 1 or 2 is low as well. */
  lemma RisesLowLast(h: int, looks: seq<Look>)
    requires h <= 2 && RisesFrom(h, looks) && looks != [] && Low(looks[..|looks| - 1])
    ensures Low(looks)
  {
    hide OwnAfter, RoundsAfter, RisesFrom;
    var front, look := looks[..|looks| - 1], looks[|looks| - 1];
    OrderedOrStuck(true, front);
    OwnTurns(front, look);
    assert front + [look] == looks;
    LastHeight(h, looks);
    LowSplits(looks);
  }

  lemma LastHeight(h: int, looks: seq<Look>)
    requires RisesFrom(h, looks) && looks != []
    ensures looks[|looks| - 1].height == h + OwnAfter(true, looks).answers
  {
  }

  lemma LowSplits(looks: seq<Look>)
    requires looks != []
    ensures var look, n := looks[|looks| - 1], RoundsAfter(looks).answers;
      var low := look.sends && look.height < 6 ==> (n == 0 ==> look.height <= 2) && (n == 1 ==> look.height <= 3);
      Low(looks) <==> Low(looks[..|looks| - 1]) && low
  {
  }

  /** In order, an answer is counted on the ladder exactly when it closes a round. */
  lemma OwnTurns(looks: seq<Look>, look: Look)
    requires InOrder(OwnAfter(true, looks), RoundsAfter(looks))
    ensures OwnAfter(true, looks + [look]).answers == RoundsAfter(looks + [look]).answers
  {
    assert (looks + [look])[..|looks|] == looks;
  }

  /** From 3 on stage 0 is never sent; from 4 on only stage 2 is. */
  predicate Short(h: int, o: Own) {
    && !o.posted.zero
    && (if h == 3 then
          || (o.answers == 0 && !o.posted.two && o.armed == o.posted.one)
          || (o.answers == 1 && o.posted.one && o.armed == o.posted.two)
          || (o.answers == 2 && o.posted.two && !o.armed)
        else
          !o.posted.one && ((o.answers == 0 && o.armed == o.posted.two)
                            || (o.answers == 1 && o.posted.two && !o.armed)))
  }

  lemma StaysShort(h: int, o: Own, look: Look)
    requires (h == 3 || h == 4) && Short(h, o) && look.height == h + After(true, o, look).answers
    ensures Short(h, After(true, o, look))
  {
  }

  lemma {:induction false} RisesShort(h: int, looks: seq<Look>)
    requires (h == 3 || h == 4) && RisesFrom(h, looks)
    ensures Short(h, OwnAfter(true, looks))
    decreases |looks|
  {
    hide Short, After;
    if looks == [] {
      NewIsShort(h);
    } else {
      RisesShort(h, looks[..|looks| - 1]);
      StaysShort(h, OwnAfter(true, looks[..|looks| - 1]), looks[|looks| - 1]);
    }
  }

  lemma NewIsShort(h: int)
    ensures Short(h, NEW)
  {
  }

  lemma {:induction false} RisesFront(h: int, looks: seq<Look>, n: nat)
    requires RisesFrom(h, looks) && n <= |looks|
    ensures RisesFrom(h, looks[..n])
    decreases |looks|
  {
    hide OwnAfter;
    if n == |looks| {
      assert looks[..n] == looks;
    } else {
      RisesFront(h, looks[..|looks| - 1], n);
      assert looks[..|looks| - 1][..n] == looks[..n];
    }
  }

  /** One look decides like this. */
  lemma RisesDecides(h: int, looks: seq<Look>, i: nat)
    requires RisesFrom(h, looks) && i < |looks| && h >= 1
    ensures FinishesAt(true, looks, i) <==>
      looks[i].ends &&
      var n := RoundsAfter(looks[..i + 1]).answers;
      if h <= 2 then n >= 3 else if h == 5 then n >= 1 else h >= 6
  {
    hide OwnAfter, RoundsAfter, RisesFrom, Low;
    var x := looks[..i + 1];
    assert x[|x| - 1] == looks[i];
    RisesFront(h, looks, i + 1);
    LastHeight(h, x);
    OrderedOrStuck(true, x);
    FirstAnswer(x);
    if h <= 2 {
      RisesLow(h, x);
    } else if h == 3 || h == 4 {
      RisesShort(h, x);
    }
  }

  lemma FinishesRising(h: int, looks: seq<Look>)
    requires RisesFrom(h, looks) && h >= 1
    ensures Finishes(true, looks) <==> FinishesFrom(h, looks)
  {
    hide RoundsAfter, RisesFrom, FinishesAt;
    forall i: nat | i < |looks|
      ensures FinishesAt(true, looks, i) <==>
        looks[i].ends &&
        var n := RoundsAfter(looks[..i + 1]).answers;
        if h <= 2 then n >= 3 else if h == 5 then n >= 1 else h >= 6
    {
      RisesDecides(h, looks, i);
    }
  }

  /** What the first poll finds. */
  function FirstHeight(st: Feedback, p: Poll): int
    requires Scored(p)
  {
    if PlateauKey(p) in st.ladders
       && !(st.ladders[PlateauKey(p)].progress.Some? && st.ladders[PlateauKey(p)].progress != p.token)
    then st.ladders[PlateauKey(p)].attempts else 1
  }

  lemma FirstFinds(ctx: Context, t: Feedback, q: Poll)
    requires ctx.hasSnapshots && Scored(q) && q.token.Some? && NoStaleTurn(t, q)
    ensures HeightAt(ctx, t, q) == FirstHeight(t, q)
  {
  }

  lemma HeightIsPositive(ctx: Context, t: Feedback, q: Poll)
    requires Scored(q) && q.token.Some? && LadderExists(t, q)
    ensures HeightAt(ctx, t, q) >= 1
  {
  }

  lemma {:induction false} FirstLookPositive(ctx: Context, st: Feedback, ps: seq<Poll>, p: Poll)
    requires Scored(p) && FrozenAmid(ctx, ps, p) && LadderExists(st, p)
    ensures Looks(ctx, st, ps, p) != [] ==> Looks(ctx, st, ps, p)[0].height >= 1
    decreases |ps|
  {
    hide FrozenAmid, LookAt, Silent, Run, NotRefused;
    if ps != [] {
      var front, q := ps[..|ps| - 1], ps[|ps| - 1];
      AmidFront(ctx, ps, p);
      FirstLookPositive(ctx, st, front, p);
      if Mine(q, p) {
        HeightStaysPositive(ctx, st, front, PlateauKey(p));
        HeightIsPositive(ctx, Run(ctx, st, front), q);
        LookHeight(ctx, Run(ctx, st, front), q);
      }
    }
  }

  /** Exactly when, amid token-less files that show nothing new and anything at other scores: the height that the target
      first finds decides. At 3 or 4 the ladder stops at 5, because two of the target's stages fall together under one
      dedupe key, and the target is never exhausted. */
  lemma SettledTargetExhaustedIff(ctx: Context, st: Feedback, ps: seq<Poll>, p: Poll)
    requires ctx.hasSnapshots && Scored(p) && Unseen(st, p) && LadderExists(st, p)
    requires FrozenAmid(ctx, ps, p) && AllAttend(ctx, ps, p) && Settled(ctx, st, ps, p)
    ensures var looks := Looks(ctx, st, ps, p);
      EverEnded(ctx, st, ps, p) <==> looks != [] && FinishesFrom(looks[0].height, looks)
  {
    hide FrozenAmid, Unseen, EverEnded, Finishes, FinishesFrom, Looks, AllAttend, Settled, LadderExists, Run, Linked;
    var looks := Looks(ctx, st, ps, p);
    TargetExhaustedIff(ctx, st, ps, p);
    if looks == [] {
      NothingFinishes(true);
    } else {
      SettledRises(ctx, st, ps, p);
      FirstLookPositive(ctx, st, ps, p);
      FinishesRising(looks[0].height, looks);
    }
  }

  // ----- the target polled alone, whatever was polled before -----

  /** Only the target is polled; its nudges land for good or not yet, and leave their turns. */
  ghost predicate Alone(ctx: Context, ps: seq<Poll>, p: Poll) {
    p.token.Some? && forall q :: q in ps ==> Mine(q, p) && NotRefused(ctx, q) && Attends(ctx, q)
  }

  lemma {:induction false} AloneIsSettled(ctx: Context, st: Feedback, ps: seq<Poll>, p: Poll)
    requires Alone(ctx, ps, p) && NoStaleTurn(st, p) && Scored(p) && ctx.hasSnapshots
    ensures FrozenAmid(ctx, ps, p) && AllAttend(ctx, ps, p) && Settled(ctx, st, ps, p)
    ensures Looks(ctx, st, ps, p) == [] ==> Run(ctx, st, ps) == st
    ensures Looks(ctx, st, ps, p) != [] ==> Looks(ctx, st, ps, p)[0].height == FirstHeight(st, p)
    decreases |ps|
  {
    hide Step, NotRefused, Attends, LookAt, Silent, NoStaleTurn;
    if ps != [] {
      var front, q := ps[..|ps| - 1], ps[|ps| - 1];
      assert q in ps && forall r :: r in front ==> r in ps;
      AloneIsSettled(ctx, st, front, p);
      if Silent(ctx, q) {
        SilentPoll(ctx, Run(ctx, st, front), q);
      } else if Looks(ctx, st, front, p) == [] {
        SameLink(st, q, p, 0);
        FirstFinds(ctx, st, q);
        LookHeight(ctx, st, q);
        SameFirstHeight(st, q, p);
      }
    }
  }

  lemma SameFirstHeight(st: Feedback, q: Poll, p: Poll)
    requires Mine(q, p) && Scored(p)
    ensures Scored(q) && FirstHeight(st, q) == FirstHeight(st, p)
  {
  }

  /** Exactly when: a frozen virtual target polled alone, whenever that is and whenever it answers, from any state that
      has nothing on record about it, comes to the end its first height allows: none from 3 or 4. */
  lemma LoneTargetExhaustedIff(ctx: Context, st: Feedback, ps: seq<Poll>, p: Poll)
    requires ctx.hasSnapshots && Scored(p) && Unseen(st, p) && LadderExists(st, p) && NoStaleTurn(st, p)
    requires Alone(ctx, ps, p)
    ensures EverEnded(ctx, st, ps, p) <==> FinishesFrom(FirstHeight(st, p), Looks(ctx, st, ps, p))
  {
    hide Unseen, EverEnded, Finishes, Looks, LadderExists, Run, RoundsAfter, Alone, FrozenAmid, AllAttend, Settled;
    AloneIsSettled(ctx, st, ps, p);
    SettledTargetExhaustedIff(ctx, st, ps, p);
  }

  // ----- the input: failing files polled before the target at its score -----

  /** The i-th of the failing real files polled before p at its score; its nudge is delivered, and nothing changes. */
  function FileBefore(p: Poll, i: nat): Poll {
    p.(file := p.file + 1 + i, revision := Revision(p.revision.exact + 1 + i, 0), token := None)
  }

  function FilesBefore(p: Poll, k: nat): (ps: seq<Poll>) {
    seq(k, i requires 0 <= i < k => FileBefore(p, i))
  }

  /** k files at the score have been polled and nudged. */
  ghost predicate FilesStand(st: Feedback, p: Poll, k: nat)
    requires Scored(p)
  {
    && st.refused == {}
    && (forall key :: key in st.ladders ==>
          key == PlateauKey(p) || (key.Signature? && p.file < key.file <= p.file + k))
    && (forall nudge :: nudge in st.posted ==> p.revision.exact < nudge.exact <= p.revision.exact + k)
    && (PlateauKey(p) in st.ladders <==> k > 0)
    && (k > 0 ==>
          var m := st.ladders[PlateauKey(p)];
          m.attempts == Min(k, 6) && m.sent == (k < 6) && m.progress.None? && m.turn.None?
          && forall f :: f in m.revisions ==> p.file < f <= p.file + k)
  }

  lemma FileStep(ctx: Context, st: Feedback, p: Poll, k: nat)
    requires CanSend(ctx, p) && Scored(p) && FilesStand(st, p, k)
    ensures FilesStand(Step(ctx, st, FileBefore(p, k)).0, p, k + 1)
  {
    hide Observe;
    var q := FileBefore(p, k);
    ObserveOneKey(ctx, st.ladders, q, SigKey(q));
    ObserveOneKey(ctx, st.ladders, q, PlateauKey(q));
    var u := Observed(ctx, st, q);
    var t := Step(ctx, st, q).0;
    forall key | key in t.ladders
      ensures key == PlateauKey(p) || (key.Signature? && p.file < key.file <= p.file + k + 1)
    {
      ObserveOneKey(ctx, st.ladders, q, key);
      RespondOneKey(ctx, u, q, key);
    }
    RespondOneKey(ctx, u, q, PlateauKey(q));
  }

  lemma {:induction false} FilesPolled(ctx: Context, p: Poll, k: nat)
    requires CanSend(ctx, p) && Scored(p)
    ensures FilesStand(Run(ctx, Start, FilesBefore(p, k)), p, k)
    decreases k
  {
    hide Step, FilesStand, CanSend;
    if k == 0 {
      NoFiles(p);
    } else {
      FilesPolled(ctx, p, k - 1);
      assert FilesBefore(p, k)[..k - 1] == FilesBefore(p, k - 1);
      FileStep(ctx, Run(ctx, Start, FilesBefore(p, k - 1)), p, k - 1);
    }
  }

  lemma NoFiles(p: Poll)
    requires Scored(p)
    ensures FilesStand(Start, p, 0)
  {
  }

  /** After k failing real files at the target's positive score, each polled and nudged once, the target polled alone is
      never exhausted if k is 3 or 4, whatever it answers; no other token was ever seen. */
  lemma FilesThenTarget(ctx: Context, p: Poll, k: nat, ps: seq<Poll>)
    requires ctx.hasSnapshots && CanSend(ctx, p) && Scored(p) && Alone(ctx, ps, p)
    ensures var st := Run(ctx, Start, FilesBefore(p, k));
      && Unseen(st, p)
      && (EverEnded(ctx, st, ps, p) <==> FinishesFrom(Max(1, Min(k, 6)), Looks(ctx, st, ps, p)))
  {
    hide Run, EverEnded, FinishesFrom, Looks, Alone, CanSend;
    FilesPolled(ctx, p, k);
    LoneTargetExhaustedIff(ctx, Run(ctx, Start, FilesBefore(p, k)), ps, p);
  }

  // ----- runs in which every nudge is answered -----

  /** The i-th poll of a run: every turn so far has finished, and a nudge starts one more. */
  function SteadyPoll(file: FileKey, i: nat, score: Option<real>): Poll {
    var snapshot := Some(Snapshot(false, 0, i));
    Poll(false, true, file, 0, Revision(file, 0), Some(file), score, snapshot, snapshot,
         false, Some(Target(0, Some(file))), None, 0, snapshot, Delivered(None), None)
  }

  function Steady(files: seq<FileKey>, score: FileKey -> Option<real>): (ps: seq<Poll>)
    ensures |ps| == |files| && forall i :: 0 <= i < |files| ==> ps[i] == SteadyPoll(files[i], i, score(files[i]))
  {
    seq(|files|, i requires 0 <= i < |files| => SteadyPoll(files[i], i, score(files[i])))
  }

  /** Each poll of the target finds its last nudge answered, and can send and end. */
  ghost predicate InLockStep(ctx: Context, st: Feedback, ps: seq<Poll>, p: Poll)
    decreases |ps|
  {
    ps == [] ||
    ( && InLockStep(ctx, st, ps[..|ps| - 1], p)
      && var q, ladders := ps[|ps| - 1], Run(ctx, st, ps[..|ps| - 1]).ladders;
        Mine(q, p) ==>
          && CanSend(ctx, q) && CanEnd(ctx, q)
          && (SigKey(q) in ladders && ladders[SigKey(q)].sent
              ==> CompletedTurn(ctx, ladders[SigKey(q)], q.sigSnapshot)))
  }

  predicate AnsweredBy(ctx: Context, st: Feedback, key: Key, n: nat) {
    key in st.ladders && st.ladders[key].sent && ctx.hasSnapshots ==>
      st.ladders[key].turn.Some? && st.ladders[key].turn.value.turnsAtLeast <= n
  }

  lemma SteadyStep(ctx: Context, st: Feedback, file: FileKey, i: nat, score: Option<real>, key: Key)
    requires AnsweredBy(ctx, st, key, i)
    ensures AnsweredBy(ctx, Step(ctx, st, SteadyPoll(file, i, score)).0, key, i + 1)
  {
    hide Observe, Respond;
    var p := SteadyPoll(file, i, score);
    if !Silent(ctx, p) {
      ObserveOneKey(ctx, st.ladders, p, key);
      RespondOneKey(ctx, Observed(ctx, st, p), p, key);
    }
  }

  lemma SteadyFields(ctx: Context, file: FileKey, i: nat, score: Option<real>)
    requires !ctx.runtimePolicy
    ensures var q := SteadyPoll(file, i, score);
      && q.file == file && q.token == Some(file) && q.score == score && q.revision.exact == file
      && SigKey(q) == Signature(file, 0) && !Silent(ctx, q)
      && CanSend(ctx, q) && CanEnd(ctx, q) && NotRefused(ctx, q) && Attends(ctx, q)
  {
  }

  /** Any files polled in any order make such a run for each of them. */
  lemma {:induction false} SteadyIsInLockStep(
    ctx: Context, st: Feedback, files: seq<FileKey>, score: FileKey -> Option<real>, p: Poll)
    requires !ctx.runtimePolicy && p == SteadyPoll(p.file, 0, score(p.file)) && SigKey(p) !in st.ladders
    ensures FrozenAmid(ctx, Steady(files, score), p) && AllAttend(ctx, Steady(files, score), p)
    ensures InLockStep(ctx, st, Steady(files, score), p)
    ensures AnsweredBy(ctx, Run(ctx, st, Steady(files, score)), SigKey(p), |files|)
    decreases |files|
  {
    hide Step, SteadyPoll, Attends, CanSend, CanEnd, NotRefused, AnsweredBy, Silent;
    SteadyFields(ctx, p.file, 0, score(p.file));
    if files == [] {
      NothingAwaited(ctx, st, SigKey(p));
    } else {
      var n := |files| - 1;
      var ps, q := Steady(files, score), SteadyPoll(files[n], n, score(files[n]));
      SteadyIsInLockStep(ctx, st, files[..n], score, p);
      assert ps[..n] == Steady(files[..n], score) && ps[n] == q;
      SteadyFields(ctx, files[n], n, score(files[n]));
      SteadyStep(ctx, Run(ctx, st, ps[..n]), files[n], n, score(files[n]), SigKey(p));
      forall r | r in ps && r != q ensures r in ps[..n] {
        var i :| 0 <= i < |ps| && ps[i] == r;
        assert ps[..n][i] == r;
      }
      SteadyDone(ctx, Run(ctx, st, ps[..n]), files[n], n, score(files[n]), SigKey(p));
    }
  }

  lemma NothingAwaited(ctx: Context, st: Feedback, key: Key)
    requires key !in st.ladders
    ensures AnsweredBy(ctx, st, key, 0)
  {
  }

  lemma SteadyDone(ctx: Context, st: Feedback, file: FileKey, i: nat, score: Option<real>, key: Key)
    requires AnsweredBy(ctx, st, key, i)
    ensures key in st.ladders && st.ladders[key].sent ==>
      CompletedTurn(ctx, st.ladders[key], SteadyPoll(file, i, score).sigSnapshot)
  {
  }

  /** In lock step the n-th poll comes after n - 1 answers, as long as the heights are low. */
  predicate PerAnswer(looks: seq<Look>)
    decreases |looks|
  {
    looks == [] ||
    ( && PerAnswer(looks[..|looks| - 1])
      && var look := looks[|looks| - 1];
        look.sends && look.ends && (OwnAfter(true, looks[..|looks| - 1]).armed ==> look.done))
  }

  predicate BelowSix(looks: seq<Look>) {
    forall i :: 0 <= i < |looks| ==> looks[i].height < 6
  }

  /** The first poll finds at most 2 and the second at most 3. */
  predicate StartsLow(looks: seq<Look>) {
    (|looks| > 0 ==> looks[0].height <= 2) && (|looks| > 1 ==> looks[1].height <= 3)
  }

  lemma {:induction false} RoundsPerPoll(looks: seq<Look>)
    requires PerAnswer(looks) && BelowSix(looks)
    ensures Low(looks) <==> StartsLow(looks)
    ensures Low(looks) && looks != [] ==> RoundsAfter(looks).answers == Min(|looks| - 1, 3)
    ensures Low(looks) ==> RoundsAfter(looks).waiting == (1 <= |looks| <= 3)
    decreases |looks|
  {
    hide OwnAfter;
    if looks != [] {
      RoundsPerPoll(looks[..|looks| - 1]);
      OrderedOrStuck(true, looks[..|looks| - 1]);
    }
  }

  /** One poll per answer: exhausted if and only if a poll finds 6 or more, or the first finds at most 2, the second at
      most 3, and the fourth or a later one at least 4. */
  lemma PerAnswerFinishes(looks: seq<Look>)
    requires PerAnswer(looks)
    ensures Finishes(true, looks) <==>
      !BelowSix(looks) || (StartsLow(looks) && exists i :: 3 <= i < |looks| && looks[i].height >= 4)
  {
    hide OwnAfter, PerAnswer, Low, RoundsAfter;
    if BelowSix(looks) {
      forall i: nat | i < |looks|
        ensures FinishesAt(true, looks, i) <==> StartsLow(looks) && i >= 3 && looks[i].height >= 4
      {
        PerAnswerFront(looks, i + 1);
        PerAnswerFront(looks, i);
        RoundsPerPoll(looks[..i + 1]);
        assert i >= 3 ==> (StartsLow(looks[..i + 1]) <==> StartsLow(looks));
      }
    } else {
      var i: nat :| i < |looks| && looks[i].height >= 6;
      PerAnswerFront(looks, i);
      assert FinishesAt(true, looks, i);
    }
  }

  lemma {:induction false} PerAnswerFront(looks: seq<Look>, n: nat)
    requires PerAnswer(looks) && n <= |looks|
    ensures PerAnswer(looks[..n]) && (n < |looks| ==> looks[n].ends)
    decreases |looks|
  {
    hide OwnAfter;
    if n == |looks| {
      assert looks[..n] == looks;
    } else {
      PerAnswerFront(looks[..|looks| - 1], n);
      assert looks[..|looks| - 1][..n] == looks[..n];
    }
  }

  lemma {:induction false} LockStepIsPerAnswer(ctx: Context, st: Feedback, ps: seq<Poll>, p: Poll)
    requires Unseen(st, p) && FrozenAmid(ctx, ps, p) && InLockStep(ctx, st, ps, p) && Scored(p)
    ensures PerAnswer(Looks(ctx, st, ps, p))
    decreases |ps|
  {
    hide Step, OwnAfter, CanSend, CanEnd, NotRefused, Unseen, FrozenAmid, HeightAt, Silent, CompletedTurn;
    if ps != [] {
      var front, q := ps[..|ps| - 1], ps[|ps| - 1];
      var looks, look := Looks(ctx, st, front, p), LookAt(ctx, Run(ctx, st, front), q);
      AmidFront(ctx, ps, p);
      LockStepIsPerAnswer(ctx, st, front, p);
      OwnStateAfter(ctx, st, front, p);
      assert (looks + [look])[..|looks|] == looks;
      ArmedIsSent(Run(ctx, st, front), p, looks != [], OwnAfter(true, looks));
    }
  }

  lemma ArmedIsSent(t: Feedback, p: Poll, known: bool, o: Own)
    requires OwnState(t, p, known, o)
    ensures o.armed ==> SigKey(p) in t.ladders && t.ladders[SigKey(p)].sent
  {
  }

  /** Exactly when, for runs in which each poll of the target finds its last nudge answered. */
  lemma AnsweredTargetExhaustedIff(ctx: Context, st: Feedback, ps: seq<Poll>, p: Poll)
    requires Unseen(st, p) && FrozenAmid(ctx, ps, p) && InLockStep(ctx, st, ps, p) && Scored(p)
    ensures var looks := Looks(ctx, st, ps, p);
      EverEnded(ctx, st, ps, p) <==>
        !BelowSix(looks) || (StartsLow(looks) && exists i :: 3 <= i < |looks| && looks[i].height >= 4)
  {
    hide FrozenAmid, Unseen, EverEnded, Finishes, Looks, InLockStep, PerAnswer, BelowSix, StartsLow;
    TargetExhaustedIff(ctx, st, ps, p);
    LockStepIsPerAnswer(ctx, st, ps, p);
    PerAnswerFinishes(Looks(ctx, st, ps, p));
  }

  /** The input: four files at one positive score, and then a frozen target that answers every nudge before its next
      poll, polled n times. */
  lemma FourFilesShutOut(ctx: Context, file: FileKey, score: real, n: nat)
    requires ctx.hasSnapshots && !ctx.runtimePolicy && score > 0.0
    ensures var p := SteadyPoll(file, 0, Some(score));
      var st, ps := Run(ctx, Start, FilesBefore(p, 4)), Steady(seq(n, _ => file), _ => Some(score));
      InLockStep(ctx, st, ps, p) && !EverEnded(ctx, st, ps, p)
  {
    hide Run, EverEnded, FinishesFrom, Looks, InLockStep, Steady, SteadyPoll, NotRefused, Attends, CanSend;
    var p, files := SteadyPoll(file, 0, Some(score)), seq(n, _ => file);
    SteadyFields(ctx, file, 0, Some(score));
    FourFiles(ctx, p, files, _ => Some(score));
  }

  lemma FourFiles(ctx: Context, p: Poll, files: seq<FileKey>, score: FileKey -> Option<real>)
    requires ctx.hasSnapshots && !ctx.runtimePolicy && Scored(p) && p == SteadyPoll(p.file, 0, score(p.file))
    requires forall f :: f in files ==> f == p.file
    ensures var st, ps := Run(ctx, Start, FilesBefore(p, 4)), Steady(files, score);
      InLockStep(ctx, st, ps, p) && !EverEnded(ctx, st, ps, p)
  {
    hide Run, EverEnded, Looks, InLockStep, SteadyPoll, NotRefused, Attends, CanSend, EndsAfter, FilesBefore;
    var ps := Steady(files, score);
    SteadyFields(ctx, p.file, 0, score(p.file));
    forall q | q in ps ensures Mine(q, p) && NotRefused(ctx, q) && Attends(ctx, q) {
      var i :| 0 <= i < |ps| && ps[i] == q;
      assert files[i] in files;
      SteadyFields(ctx, files[i], i, score(files[i]));
    }
    var k: nat := 4;
    FilesThenTarget(ctx, p, k, ps);
    UnseenState(Run(ctx, Start, FilesBefore(p, k)), p);
    SteadyIsInLockStep(ctx, Run(ctx, Start, FilesBefore(p, k)), files, score, p);
  }

  // ----- several tokens at one score -----

  /** The other polls at the target's score carry other progress tokens. */
  ghost predicate OtherTokens(ctx: Context, ps: seq<Poll>, p: Poll) {
    forall q :: q in ps && !Mine(q, p) && q.score == p.score && !Silent(ctx, q) ==>
      q.token.Some? && q.token != p.token
  }

  /** At the start the shared ladder is not the target's. */
  predicate NotYetOurs(st: Feedback, p: Poll) {
    Scored(p) && PlateauKey(p) in st.ladders ==>
      st.ladders[PlateauKey(p)].progress.Some? && st.ladders[PlateauKey(p)].progress != p.token
  }

  /** Once a nudge was sent to the target, no other target was polled at its score. */
  ghost predicate Undisturbed(ctx: Context, st: Feedback, ps: seq<Poll>, p: Poll)
    decreases |ps|
  {
    ps == [] ||
    ( && Undisturbed(ctx, st, ps[..|ps| - 1], p)
      && var q := ps[|ps| - 1];
        Mine(q, p) || q.score != p.score || Silent(ctx, q)
        || RoundsAfter(Looks(ctx, st, ps[..|ps| - 1], p)) == Rounds(0, false))
  }

  /** Rounds opened so far. */
  function Opened(r: Rounds): nat {
    r.answers + if r.waiting then 1 else 0
  }

  /** Where the shared ladder stands: with the target, as long as nothing came between; otherwise with another target
      or, after its return, no higher than the rounds opened. */
  ghost predicate Standing(ctx: Context, t: Feedback, p: Poll, known: bool, r: Rounds, undisturbed: bool) {
    && Scored(p)
    && (known <==> SigKey(p) in t.ladders)
    && (known ==>
          var l := t.ladders[SigKey(p)];
          PlateauKey(p) in t.ladders && l.progress == p.token && l.attempts == r.answers + 1 && l.sent == r.waiting)
    && (!known ==> r == Rounds(0, false) && undisturbed)
    && (if PlateauKey(p) in t.ladders && t.ladders[PlateauKey(p)].progress == p.token then
          var m := t.ladders[PlateauKey(p)];
          && known && (m.sent ==> r.waiting && (ctx.hasSnapshots ==> m.turn == t.ladders[SigKey(p)].turn))
          && (if undisturbed then m.attempts == r.answers + 1 && m.sent == r.waiting
              else m.attempts + (if m.sent then 1 else 0) <= Opened(r))
        else NotYetOurs(t, p) && (undisturbed ==> r == Rounds(0, false)))
    && (!undisturbed ==> Opened(r) >= 1)
  }

  /** What the target's poll then finds. */
  lemma OwnPollFinds(ctx: Context, t: Feedback, q: Poll, known: bool, r: Rounds, undisturbed: bool)
    requires Scored(q) && q.token.Some? && Attends(ctx, q) && Standing(ctx, t, q, known, r, undisturbed)
    ensures var look := LookAt(ctx, t, q);
      if undisturbed then look.height == NextRound(r, look).answers + 1 else look.height <= Opened(r)
  {
    hide Observe, CanSend, CanEnd, TurnAfter;
    ObserveOneKey(ctx, t.ladders, q, PlateauKey(q));
  }

  lemma OwnPollStands(ctx: Context, t: Feedback, q: Poll, known: bool, r: Rounds, undisturbed: bool)
    requires Scored(q) && q.token.Some? && !Silent(ctx, q) && Attends(ctx, q)
    requires Standing(ctx, t, q, known, r, undisturbed)
    requires r.answers < 3 || (r.answers == 3 && !r.waiting)
    requires OutcomeOf(ctx, t, q).Sent? <==>
      var n := NextRound(r, LookAt(ctx, t, q)); n.waiting && !(r.waiting && !LookAt(ctx, t, q).done)
    ensures var look := LookAt(ctx, t, q);
      Standing(ctx, Step(ctx, t, q).0, q, true, NextRound(r, look), undisturbed)
  {
    hide Observe, Respond, TurnAfter, CanSend, CanEnd;
    ObserveOneKey(ctx, t.ladders, q, SigKey(q));
    ObserveOneKey(ctx, t.ladders, q, PlateauKey(q));
    RespondOneKey(ctx, Observed(ctx, t, q), q, SigKey(q));
    RespondOneKey(ctx, Observed(ctx, t, q), q, PlateauKey(q));
    if OutcomeOf(ctx, t, q).Sent? {
      SentMeansCanSend(ctx, t, q);
    }
  }

  lemma OtherPollStands(
    ctx: Context, t: Feedback, q: Poll, p: Poll, known: bool, r: Rounds, undisturbed: bool)
    requires Foreign(q, p) && !Silent(ctx, q) && Standing(ctx, t, p, known, r, undisturbed)
    requires q.score == p.score ==> q.token.Some? && q.token != p.token
    ensures Standing(ctx, Step(ctx, t, q).0, p, known, r,
                     undisturbed && (q.score != p.score || r == Rounds(0, false)))
  {
    hide Observe, Respond;
    ObserveOneKey(ctx, t.ladders, q, SigKey(p));
    ObserveOneKey(ctx, t.ladders, q, PlateauKey(p));
    RespondOneKey(ctx, Observed(ctx, t, q), q, SigKey(p));
    RespondOneKey(ctx, Observed(ctx, t, q), q, PlateauKey(p));
  }

  /** At these heights the next stage goes out exactly when a round opens, and the end comes at 4 after the third. */
  lemma RoundDecides(o: Own, r: Rounds, look: Look, undisturbed: bool)
    requires InOrder(o, r) && (r.answers < 3 || (r.answers == 3 && !r.waiting))
    requires if undisturbed then look.height == NextRound(r, look).answers + 1 else look.height <= Opened(r)
    ensures var n := NextRound(r, look);
      && (SendsAt(true, o, look) <==> n.waiting && !(r.waiting && !look.done))
      && (EndsAt(true, o, look) <==> look.ends && n.answers == 3 && undisturbed)
      && InOrder(After(true, o, look), n)
  {
  }

  lemma SameStanding(ctx: Context, t: Feedback, q: Poll, p: Poll, known: bool, r: Rounds, undisturbed: bool)
    requires Mine(q, p)
    ensures Standing(ctx, t, q, known, r, undisturbed) <==> Standing(ctx, t, p, known, r, undisturbed)
  {
  }

  lemma StandsAtStart(ctx: Context, st: Feedback, p: Poll)
    requires Unseen(st, p) && NotYetOurs(st, p) && Scored(p)
    ensures Standing(ctx, st, p, false, Rounds(0, false), true)
  {
  }

  /** Where both ladders stand after any run among other tokens; at the target's poll, whether it ends. */
  lemma {:induction false} SharedStanding(ctx: Context, st: Feedback, ps: seq<Poll>, p: Poll)
    requires Unseen(st, p) && NotYetOurs(st, p) && Scored(p)
    requires FrozenAmid(ctx, ps, p) && AllAttend(ctx, ps, p) && OtherTokens(ctx, ps, p)
    ensures var looks := Looks(ctx, st, ps, p);
      && Standing(ctx, Run(ctx, st, ps), p, looks != [], RoundsAfter(looks), Undisturbed(ctx, st, ps, p))
      && InOrder(OwnAfter(true, looks), RoundsAfter(looks))
    ensures ps != [] ==>
      var front, q := ps[..|ps| - 1], ps[|ps| - 1];
      Mine(q, p) ==>
        (OutcomeOf(ctx, Run(ctx, st, front), q).Exhausted? <==>
         CanEnd(ctx, q) && RoundsAfter(Looks(ctx, st, ps, p)).answers == 3 && Undisturbed(ctx, st, ps, p))
    decreases |ps|
  {
    hide Step, Unseen, FrozenAmid, LookAt, Standing, Attends, Silent, NotRefused, InOrder, NotYetOurs, OutcomeOf, After,
      NextRound, CanEnd, Mine;
    if ps == [] {
      StandsAtStart(ctx, st, p);
      NewIsInOrder();
    } else {
      var front, q := ps[..|ps| - 1], ps[|ps| - 1];
      var t, looks := Run(ctx, st, front), Looks(ctx, st, front, p);
      var r, calm := RoundsAfter(looks), Undisturbed(ctx, st, front, p);
      assert q in ps && forall x :: x in front ==> x in ps;
      assert front + [q] == ps;
      AmidFront(ctx, ps, p);
      SharedStanding(ctx, st, front, p);
      if Silent(ctx, q) {
        SilentPoll(ctx, t, q);
        SilentCannotEnd(ctx, q);
      } else if Mine(q, p) {
        var look := LookAt(ctx, t, q);
        assert (looks + [look])[..|looks|] == looks;
        SameStanding(ctx, t, q, p, looks != [], r, calm);
        SameStanding(ctx, Step(ctx, t, q).0, q, p, true, NextRound(r, look), calm);
        SameLink(t, q, p, 0);
        OwnPollFinds(ctx, t, q, looks != [], r, calm);
        RoundDecides(OwnAfter(true, looks), r, look, calm);
        TargetOutcome(ctx, st, front, p, q);
        LookEnds(ctx, t, q);
        OwnPollStands(ctx, t, q, looks != [], r, calm);
      } else {
        OtherPollStands(ctx, t, q, p, looks != [], r, calm);
      }
    }
  }

  lemma SilentCannotEnd(ctx: Context, q: Poll)
    requires Silent(ctx, q)
    ensures !CanEnd(ctx, q)
  {
  }

  lemma LookEnds(ctx: Context, t: Feedback, q: Poll)
    ensures LookAt(ctx, t, q).ends == CanEnd(ctx, q)
  {
  }

  /** A poll of the target that can report the end comes after three rounds, and no other target was polled at its score
      since the first of them was opened. */
  ghost predicate Completes(ctx: Context, st: Feedback, ps: seq<Poll>, p: Poll) {
    exists n :: 0 <= n < |ps| && Mine(ps[n], p) && CanEnd(ctx, ps[n])
                && RoundsAfter(Looks(ctx, st, ps[..n + 1], p)).answers == 3 && Undisturbed(ctx, st, ps[..n + 1], p)
  }

  lemma CompletesSplits(ctx: Context, st: Feedback, ps: seq<Poll>, p: Poll)
    requires ps != []
    ensures var front, q := ps[..|ps| - 1], ps[|ps| - 1];
      Completes(ctx, st, ps, p) <==>
        Completes(ctx, st, front, p)
        || (Mine(q, p) && CanEnd(ctx, q) && RoundsAfter(Looks(ctx, st, ps, p)).answers == 3
            && Undisturbed(ctx, st, ps, p))
  {
    hide Mine, CanEnd, RoundsAfter, Looks, Undisturbed;
    var front := ps[..|ps| - 1];
    assert forall n :: 0 <= n < |front| ==> front[..n + 1] == ps[..n + 1] && front[n] == ps[n];
    assert ps[..|ps| - 1 + 1] == ps;
  }

  /** Exactly when, if the other polls at the target's score carry other tokens: the target is exhausted if and only if
      it goes through three rounds of nudge and answer, and is polled where the end can be reported, before any other
      target is polled at that score. The shared ladder remembers a single token, so another target in between starts it
      over; the rounds already gone through are not repeated. */
  lemma {:induction false} FrozenTargetExhaustedIff(ctx: Context, st: Feedback, ps: seq<Poll>, p: Poll)
    requires Unseen(st, p) && NotYetOurs(st, p) && Scored(p)
    requires FrozenAmid(ctx, ps, p) && AllAttend(ctx, ps, p) && OtherTokens(ctx, ps, p)
    ensures EverEnded(ctx, st, ps, p) <==> Completes(ctx, st, ps, p)
    decreases |ps|
  {
    hide Unseen, NotYetOurs, FrozenAmid, EverEnded, Completes, OutcomeOf, Run, Mine, CanEnd, Attends, Silent;
    if ps == [] {
      NothingEnded(ctx, st, p);
      NothingCompletes(ctx, st, p);
    } else {
      var front := ps[..|ps| - 1];
      assert forall x :: x in front ==> x in ps;
      AmidFront(ctx, ps, p);
      FrozenTargetExhaustedIff(ctx, st, front, p);
      EndedSplits(ctx, st, ps, p);
      CompletesSplits(ctx, st, ps, p);
      SharedStanding(ctx, st, ps, p);
    }
  }

  lemma NothingCompletes(ctx: Context, st: Feedback, p: Poll)
    ensures !Completes(ctx, st, [], p)
  {
  }

  lemma {:induction false} AnswersAreFewer(looks: seq<Look>)
    ensures looks != [] ==> RoundsAfter(looks).answers < |looks|
    decreases |looks|
  {
    if looks != [] {
      AnswersAreFewer(looks[..|looks| - 1]);
    }
  }

  lemma {:induction false} FewLooks(ctx: Context, st: Feedback, ps: seq<Poll>, p: Poll)
    ensures |Looks(ctx, st, ps, p)| <= |ps|
    decreases |ps|
  {
    hide Run, LookAt, Mine;
    if ps != [] {
      FewLooks(ctx, st, ps[..|ps| - 1], p);
    }
  }

  /** An opened round is never forgotten, and a disturbance never undone. */
  lemma {:induction false} ProgressStays(ctx: Context, st: Feedback, ps: seq<Poll>, p: Poll, n: nat)
    requires n <= |ps|
    ensures RoundsAfter(Looks(ctx, st, ps[..n], p)) != Rounds(0, false)
            ==> RoundsAfter(Looks(ctx, st, ps, p)) != Rounds(0, false)
    ensures Undisturbed(ctx, st, ps, p) ==> Undisturbed(ctx, st, ps[..n], p)
    decreases |ps|
  {
    hide Run, LookAt, Mine;
    if n == |ps| {
      assert ps[..n] == ps;
    } else {
      var front := ps[..|ps| - 1];
      ProgressStays(ctx, st, front, p, n);
      assert front[..n] == ps[..n];
      var looks, look := Looks(ctx, st, front, p), LookAt(ctx, Run(ctx, st, front), ps[|ps| - 1]);
      assert (looks + [look])[..|looks|] == looks;
    }
  }

  /** The first poll from the start opens a round. */
  lemma FirstOpens(ctx: Context, ps: seq<Poll>, p: Poll)
    requires ps != [] && Mine(ps[0], p) && Scored(p) && CanSend(ctx, ps[0])
    ensures RoundsAfter(Looks(ctx, Start, ps[..1], p)) != Rounds(0, false)
  {
    assert ps[..1][..0] == [] && ps[..1] == [ps[0]];
    var look := LookAt(ctx, Start, ps[0]);
    assert Looks(ctx, Start, ps[..1], p) == [look];
    assert look.height == 1;
    assert [look][..0] == [];
  }

  lemma FourthDisturbs(ctx: Context, ps: seq<Poll>, p: Poll)
    requires |ps| >= 4 && Mine(ps[0], p) && Scored(p) && CanSend(ctx, ps[0])
    requires !Mine(ps[3], p) && ps[3].score == p.score && !Silent(ctx, ps[3])
    ensures !Completes(ctx, Start, ps, p)
  {
    hide Mine, CanSend, CanEnd, RoundsAfter, Silent, Looks;
    if n :| 0 <= n < |ps| && Mine(ps[n], p) && CanEnd(ctx, ps[n])
            && RoundsAfter(Looks(ctx, Start, ps[..n + 1], p)).answers == 3 && Undisturbed(ctx, Start, ps[..n + 1], p) {
      if n < 3 {
        AnswersAreFewer(Looks(ctx, Start, ps[..n + 1], p));
        FewLooks(ctx, Start, ps[..n + 1], p);
        NoRounds();
      } else {
        ProgressStays(ctx, Start, ps[..n + 1], p, 4);
        assert ps[..n + 1][..4] == ps[..4] && ps[..4][..3] == ps[..3] && ps[..3][..1] == ps[..1];
        ProgressStays(ctx, Start, ps[..3], p, 1);
        FirstOpens(ctx, ps, p);
      }
    }
  }

  lemma NoRounds()
    ensures RoundsAfter([]).answers == 0
  {
  }

  /** The input: a frozen target polled three times, then once another of the same positive score, and from then on
      whichever targets of that score, the first alone for example, every nudge being answered before the next poll of
      its target. Nothing ever changes, yet the first is never exhausted. */
  lemma InterruptedTargetIsNeverExhausted(
    ctx: Context, a: FileKey, b: FileKey, rest: seq<FileKey>, score: FileKey -> Option<real>)
    requires !ctx.runtimePolicy && a != b
    requires score(a).Some? && score(a).value > 0.0
    requires score(b) == score(a) && forall f :: f in rest ==> score(f) == score(a)
    ensures var ps, p := Steady([a, a, a, b] + rest, score), SteadyPoll(a, 0, score(a));
      InLockStep(ctx, Start, ps, p) && !EverEnded(ctx, Start, ps, p)
  {
    hide FrozenAmid, EverEnded, Steady, SteadyPoll, Completes, InLockStep, Looks, CanSend, CanEnd, NotRefused, Attends;
    var files := [a, a, a, b] + rest;
    var ps, p := Steady(files, score), SteadyPoll(a, 0, score(a));
    SteadyFields(ctx, a, 0, score(a));
    SteadyIsInLockStep(ctx, Start, files, score, p);
    forall i | 0 <= i < |ps|
      ensures ps[i].score == score(a) && ps[i].token == Some(files[i]) && !Silent(ctx, ps[i])
              && (Mine(ps[i], p) <==> files[i] == a) && CanSend(ctx, ps[i])
    {
      SteadyFields(ctx, files[i], i, score(files[i]));
      assert i >= 4 ==> files[i] in rest;
    }
    FrozenTargetExhaustedIff(ctx, Start, ps, p);
    FourthDisturbs(ctx, ps, p);
  }
}
