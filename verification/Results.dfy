/** Awards and results publishing (lib/actions/results.ts), with the lifecycle's
    `complete` action (lib/lifecycle/registration-lifecycle.ts), for one MUN. The
    methods run without interruption; in the runs below an award is checked and written
    in two steps, because nothing is locked in between, and submitting counts the
    awards and changes the status in two. */
module Results {
  import opened Common

  type AwardId = nat

  /** EARLIER stands for every status before the conference and for a suspension. */
  datatype MunStatus =
    EARLIER | CONFERENCE_ACTIVE | RESULTS_PENDING | RESULTS_UNDER_REVIEW | COMPLETED | ARCHIVED | CANCELLED

  /** The MUN row's status, and per award whether it is verified. */
  datatype Mun = Mun(status: MunStatus, awards: map<AwardId, bool>)

  datatype ResultsError = ResultsLocked | NotFound | CannotSubmit | NeedAward | NotUnderReview | NoteRequired | CannotComplete

  predicate IsLocked(status: MunStatus) {
    status == RESULTS_UNDER_REVIEW || status == COMPLETED || status == ARCHIVED || status == CANCELLED
  }

  function AllVerified(awards: map<AwardId, bool>): map<AwardId, bool> {
    map a | a in awards :: true
  }

  function CreateAward(m: Mun, id: AwardId): Result<Mun, ResultsError>
    requires id !in m.awards
  {
    if IsLocked(m.status) then Failure(ResultsLocked) else Success(InsertAward(m, id))
  }

  /** The insert alone, without the editable check that precedes its transaction. */
  function InsertAward(m: Mun, id: AwardId): Mun {
    m.(awards := m.awards[id := false])
  }

  function DeleteAward(m: Mun, id: AwardId): Result<Mun, ResultsError> {
    if id !in m.awards then Failure(NotFound)
    else if IsLocked(m.status) then Failure(ResultsLocked)
    else Success(m.(awards := m.awards - {id}))
  }

  /** From CONFERENCE_ACTIVE this goes through RESULTS_PENDING in one transaction. */
  function SubmitResults(m: Mun): Result<Mun, ResultsError> {
    if m.status != CONFERENCE_ACTIVE && m.status != RESULTS_PENDING then Failure(CannotSubmit)
    else if |m.awards| == 0 then Failure(NeedAward)
    else Success(m.(status := RESULTS_UNDER_REVIEW))
  }

  function ReviewResults(m: Mun, approve: bool, note: string): Result<Mun, ResultsError> {
    if !approve && note == "" then Failure(NoteRequired)
    else if m.status != RESULTS_UNDER_REVIEW then Failure(NotUnderReview)
    else if approve then Success(Mun(COMPLETED, AllVerified(m.awards)))
    else Success(m.(status := RESULTS_PENDING))
  }

  /** The lifecycle's `complete`: also the exit of a conference without results. */
  function Complete(m: Mun): Result<Mun, ResultsError> {
    if m.status == RESULTS_UNDER_REVIEW then Success(Mun(COMPLETED, AllVerified(m.awards)))
    else if m.status == CONFERENCE_ACTIVE then Success(m.(status := COMPLETED))
    else Failure(CannotComplete)
  }

  /** The other moves of the MUN's status. */
  predicate OtherMove(from: MunStatus, to: MunStatus) {
    (from == EARLIER && (to == EARLIER || to == CONFERENCE_ACTIVE || to == CANCELLED))
    || (from == CONFERENCE_ACTIVE && (to == EARLIER || to == CANCELLED))
    || (from == COMPLETED && to == ARCHIVED)
  }

  /** The MUN row and its awards, updated in place. */
  class MunResults {
    var status: MunStatus
    var awards: map<AwardId, bool>

    ghost function Model(): Mun
      reads this
    {
      Mun(status, awards)
    }

    constructor ()
      ensures Model() == Mun(EARLIER, map[])
    {
      status, awards := EARLIER, map[];
    }

    method CreateAchievement(id: AwardId) returns (error: Option<ResultsError>)
      requires id !in awards
      modifies this
      ensures Outcome(CreateAward(old(Model()), id), old(Model()), Model(), error)
      ensures error == None <==> old(status) in {EARLIER, CONFERENCE_ACTIVE, RESULTS_PENDING}
      ensures error == None ==> status == old(status) && awards == old(awards)[id := false]
    {
      if IsLocked(status) {
        return Some(ResultsLocked);
      }
      awards := awards[id := false];
      error := None;
    }

    method DeleteAchievement(id: AwardId) returns (error: Option<ResultsError>)
      modifies this
      ensures Outcome(DeleteAward(old(Model()), id), old(Model()), Model(), error)
      ensures error == None <==> id in old(awards) && old(status) in {EARLIER, CONFERENCE_ACTIVE, RESULTS_PENDING}
      ensures error == None ==> status == old(status) && awards == old(awards) - {id}
    {
      if id !in awards {
        return Some(NotFound);
      }
      if IsLocked(status) {
        return Some(ResultsLocked);
      }
      awards := awards - {id};
      error := None;
    }

    method SubmitResultsForReview() returns (error: Option<ResultsError>)
      modifies this
      ensures Outcome(SubmitResults(old(Model())), old(Model()), Model(), error)
      ensures error == None <==> old(status) in {CONFERENCE_ACTIVE, RESULTS_PENDING} && old(awards) != map[]
      ensures error == None ==> status == RESULTS_UNDER_REVIEW && awards == old(awards)
    {
      if status != CONFERENCE_ACTIVE && status != RESULTS_PENDING {
        return Some(CannotSubmit);
      }
      if |awards| == 0 {
        return Some(NeedAward);
      }
      if status == CONFERENCE_ACTIVE {
        status := RESULTS_PENDING;
      }
      status := RESULTS_UNDER_REVIEW;
      error := None;
    }

    method Review(approve: bool, note: string) returns (error: Option<ResultsError>)
      modifies this
      ensures Outcome(ReviewResults(old(Model()), approve, note), old(Model()), Model(), error)
      ensures error == None <==> old(status) == RESULTS_UNDER_REVIEW && (approve || note != "")
      ensures error == None && approve ==>
                status == COMPLETED && awards.Keys == old(awards).Keys && forall a :: a in awards ==> awards[a]
      ensures error == None && !approve ==> status == RESULTS_PENDING && awards == old(awards)
    {
      if !approve && note == "" {
        return Some(NoteRequired);
      }
      if status != RESULTS_UNDER_REVIEW {
        return Some(NotUnderReview);
      }
      if approve {
        status := COMPLETED;
        awards := map a | a in awards :: true;
      } else {
        status := RESULTS_PENDING;
      }
      error := None;
    }

    method CompleteConference() returns (error: Option<ResultsError>)
      modifies this
      ensures Outcome(Complete(old(Model())), old(Model()), Model(), error)
      ensures error == None <==> old(status) in {RESULTS_UNDER_REVIEW, CONFERENCE_ACTIVE}
      ensures error == None ==> status == COMPLETED && awards.Keys == old(awards).Keys
      ensures error == None ==> forall a :: a in awards ==> awards[a] == (old(status) == RESULTS_UNDER_REVIEW || old(awards)[a])
    {
      var fromStatus := status;
      if fromStatus != RESULTS_UNDER_REVIEW && fromStatus != CONFERENCE_ACTIVE {
        return Some(CannotComplete);
      }
      status := COMPLETED;
      if fromStatus == RESULTS_UNDER_REVIEW {
        awards := map a | a in awards :: true;
      }
      error := None;
    }
  }

  ghost predicate Outcome(r: Result<Mun, ResultsError>, before: Mun, after: Mun, error: Option<ResultsError>) {
    match r
    case Success(m) => after == m && error == None
    case Failure(e) => after == before && error == Some(e)
  }

  // ---------------------------------------------------------------------------
  // Steps
  // ---------------------------------------------------------------------------

  type Pid = nat

  /** A call whose editable check has passed and whose write is still to come. */
  datatype Edit = Creating | Deleting(id: AwardId)

  /** `submitting` is whether a submission holds the MUN row and has counted the awards.
      `reviewed` is history: the MUN was completed out of the review. */
  datatype State = State(mun: Mun, edits: map<Pid, Edit>, submitting: bool, reviewed: bool)

  const START := State(Mun(EARLIER, map[]), map[], false, false)

  datatype Action =
    | CheckCreate(pid: Pid)
    | WriteCreate(pid: Pid, id: AwardId)
    | CheckDelete(pid: Pid, id: AwardId)
    | WriteDelete(pid: Pid)
    | GiveUp(pid: Pid)           // the call fails between the two
    | CountAwards
    | CommitSubmit
    | AbortSubmit
    | Decide(approve: bool, note: string)
    | Finish
    | Move(to: MunStatus)

  /** Whatever changes the status holds the MUN row. (So does the insert of an award, by
      its foreign key: none lands inside a deciding transaction.) */
  ghost predicate Enabled(s: State, a: Action) {
    match a
    case CheckCreate(pid) => pid !in s.edits
    case WriteCreate(pid, id) => pid in s.edits && s.edits[pid].Creating? && id !in s.mun.awards
    case CheckDelete(pid, _) => pid !in s.edits
    case WriteDelete(pid) => pid in s.edits && s.edits[pid].Deleting?
    case GiveUp(pid) => pid in s.edits
    case CountAwards => !s.submitting
    case CommitSubmit => s.submitting
    case AbortSubmit => s.submitting
    case Decide(_, _) => !s.submitting
    case Finish => !s.submitting
    case Move(to) => !s.submitting && OtherMove(s.mun.status, to)
  }

  /** The MUN's next row and awards, if the transaction does not throw. */
  function Decided(s: State, r: Result<Mun, ResultsError>): State {
    if r.Failure? then s
    else s.(mun := r.value,
            reviewed := s.reviewed || (s.mun.status == RESULTS_UNDER_REVIEW && r.value.status == COMPLETED))
  }

  ghost function Step(s: State, a: Action): State
    requires Enabled(s, a)
  {
    match a
    case CheckCreate(pid) => if IsLocked(s.mun.status) then s else s.(edits := s.edits[pid := Creating])
    case WriteCreate(pid, id) => s.(mun := InsertAward(s.mun, id), edits := s.edits - {pid})
    case CheckDelete(pid, id) =>
      if id !in s.mun.awards || IsLocked(s.mun.status) then s else s.(edits := s.edits[pid := Deleting(id)])
    case WriteDelete(pid) => s.(mun := s.mun.(awards := s.mun.awards - {s.edits[pid].id}), edits := s.edits - {pid})
    case GiveUp(pid) => s.(edits := s.edits - {pid})
    case CountAwards => s.(submitting := SubmitResults(s.mun).Success?)
    case CommitSubmit => s.(mun := s.mun.(status := RESULTS_UNDER_REVIEW), submitting := false)
    case AbortSubmit => s.(submitting := false)
    case Decide(approve, note) => Decided(s, ReviewResults(s.mun, approve, note))
    case Finish => Decided(s, Complete(s.mun))
    case Move(to) => s.(mun := s.mun.(status := to))
  }

  ghost predicate IsRun(states: seq<State>, actions: seq<Action>) {
    |states| == |actions| + 1 && states[0] == START &&
    forall k :: 0 <= k < |actions| ==> Enabled(states[k], actions[k]) && states[k + 1] == Step(states[k], actions[k])
  }

  ghost predicate HasReviewedResults(m: Mun) {
    m.awards != map[] && forall a :: a in m.awards ==> m.awards[a]
  }

  ghost predicate NothingVerified(m: Mun) {
    forall a :: a in m.awards ==> !m.awards[a]
  }

  ghost predicate Done(status: MunStatus) {
    status == COMPLETED || status == ARCHIVED
  }

  /** The promise: results under review have an award, and those of a MUN completed out
      of the review are there and verified. */
  ghost predicate Sound(s: State) {
    (s.mun.status == RESULTS_UNDER_REVIEW ==> s.mun.awards != map[])
    && (s.reviewed ==> HasReviewedResults(s.mun))
  }

  /** What holds in every run, late writes or not. */
  ghost predicate Inv(s: State) {
    (s.reviewed ==> Done(s.mun.status)) && (!s.reviewed ==> NothingVerified(s.mun))
    && (s.submitting ==> s.mun.status == CONFERENCE_ACTIVE || s.mun.status == RESULTS_PENDING)
  }

  lemma StepKeepsInv(s: State, a: Action)
    requires Inv(s) && Enabled(s, a)
    ensures Inv(Step(s, a))
  {
  }

  // ---------------------------------------------------------------------------
  // Writes that break the promise
  // ---------------------------------------------------------------------------

  /** Submitting although the awards it counted are gone, removing the last award from
      results that are submitted, adding one to results that are approved. */
  ghost predicate Spoils(s: State, a: Action)
    requires Enabled(s, a)
  {
    (a.CommitSubmit? && s.mun.awards == map[])
    || (a.WriteDelete? && (s.mun.status == RESULTS_UNDER_REVIEW || s.reviewed) && s.mun.awards - {s.edits[a.pid].id} == map[])
    || (a.WriteCreate? && s.reviewed)
  }

  lemma ApprovedIsReviewed(m: Mun)
    requires m.awards != map[]
    ensures HasReviewedResults(Mun(COMPLETED, AllVerified(m.awards)))
  {
    var x :| x in m.awards;
    assert x in AllVerified(m.awards);
  }

  /** A step breaks the promise if and only if it is one of these. */
  lemma SoundStep(s: State, a: Action)
    requires Inv(s) && Sound(s) && Enabled(s, a)
    ensures Sound(Step(s, a)) <==> !Spoils(s, a)
  {
    if (a.Decide? || a.Finish?) && s.mun.status == RESULTS_UNDER_REVIEW { ApprovedIsReviewed(s.mun); }
    if a.WriteCreate? { assert a.id in Step(s, a).mun.awards && !Step(s, a).mun.awards[a.id]; }
  }

  /** An award written after its check's answer has become untrue: the results are
      locked, or about to be. */
  ghost predicate Late(s: State, a: Action)
    requires Enabled(s, a)
  {
    (a.WriteCreate? || a.WriteDelete?) && (IsLocked(s.mun.status) || s.submitting)
  }

  // ---------------------------------------------------------------------------
  // Runs
  // ---------------------------------------------------------------------------

  lemma {:induction false} RunKeepsInv(states: seq<State>, actions: seq<Action>, n: nat)
    requires IsRun(states, actions) && n < |states|
    ensures Inv(states[n])
    decreases n
  {
    if n > 0 {
      RunKeepsInv(states, actions, n - 1);
      StepKeepsInv(states[n - 1], actions[n - 1]);
      assert states[n - 1 + 1] == Step(states[n - 1], actions[n - 1]);
    }
  }

  ghost predicate SoundSoFar(states: seq<State>, n: nat)
    requires n < |states|
  {
    forall k :: 0 <= k <= n ==> Sound(states[k])
  }

  ghost predicate NothingSpoiled(states: seq<State>, actions: seq<Action>, n: nat)
    requires IsRun(states, actions) && n < |states|
  {
    forall k :: 0 <= k < n ==> !Spoils(states[k], actions[k])
  }

  ghost predicate NothingLate(states: seq<State>, actions: seq<Action>, n: nat)
    requires IsRun(states, actions) && n < |states|
  {
    forall k :: 0 <= k < n ==> !Late(states[k], actions[k])
  }

  /** Every award is written on the strength of an earlier check by the same call, at
      which the results were editable and an award to be deleted was there. */
  lemma {:induction false} EveryWriteWasChecked(states: seq<State>, actions: seq<Action>, n: nat, pid: Pid) returns (m: nat)
    requires IsRun(states, actions) && n < |states| && pid in states[n].edits
    ensures m < n && states[m].mun.status in {EARLIER, CONFERENCE_ACTIVE, RESULTS_PENDING}
    ensures match states[n].edits[pid]
            case Creating => actions[m] == CheckCreate(pid)
            case Deleting(id) => actions[m] == CheckDelete(pid, id) && id in states[m].mun.awards
    decreases n
  {
    assert n > 0 && states[n - 1 + 1] == Step(states[n - 1], actions[n - 1]);
    if pid in states[n - 1].edits { m := EveryWriteWasChecked(states, actions, n - 1, pid); } else { m := n - 1; }
  }

  /** Over a run the promise holds all along if and only if no such write was made. */
  lemma {:induction false} ResultsAreSoundIff(states: seq<State>, actions: seq<Action>, n: nat)
    requires IsRun(states, actions) && n < |states|
    ensures SoundSoFar(states, n) <==> NothingSpoiled(states, actions, n)
    decreases n
  {
    if n > 0 {
      ResultsAreSoundIff(states, actions, n - 1);
      RunKeepsInv(states, actions, n - 1);
      assert n - 1 + 1 == n && states[n] == Step(states[n - 1], actions[n - 1]);
      if SoundSoFar(states, n - 1) { SoundStep(states[n - 1], actions[n - 1]); }
    }
  }

  lemma CountedStep(s: State, a: Action)
    requires Inv(s) && Enabled(s, a) && !Late(s, a) && (s.submitting ==> s.mun.awards != map[])
    ensures !Spoils(s, a) && (Step(s, a).submitting ==> Step(s, a).mun.awards != map[])
  {
  }

  /** Without late writes what a submission counted is still there when it commits. */
  lemma {:induction false} CountedStay(states: seq<State>, actions: seq<Action>, n: nat)
    requires IsRun(states, actions) && n < |states| && NothingLate(states, actions, n)
    ensures NothingSpoiled(states, actions, n) && (states[n].submitting ==> states[n].mun.awards != map[])
    decreases n
  {
    if n > 0 {
      CountedStay(states, actions, n - 1);
      RunKeepsInv(states, actions, n - 1);
      assert n - 1 + 1 == n && states[n] == Step(states[n - 1], actions[n - 1]);
      CountedStep(states[n - 1], actions[n - 1]);
    }
  }

  /** So the promise holds in every run in which each award is written while the results
      still are editable; in particular when check and write are not interrupted. */
  lemma TimelyWritesAreSound(states: seq<State>, actions: seq<Action>, n: nat)
    requires IsRun(states, actions) && n < |states| && NothingLate(states, actions, n)
    ensures Sound(states[n])
  {
    CountedStay(states, actions, n);
    ResultsAreSoundIff(states, actions, n);
  }

  /** A completed MUN has awards, all of them verified, exactly when it was completed
      out of the review. A conference completed straight from CONFERENCE_ACTIVE keeps
      whatever awards it had, unverified for good. */
  lemma CompletedIsVerifiedIffReviewed(states: seq<State>, actions: seq<Action>, n: nat)
    requires IsRun(states, actions) && n < |states| && NothingSpoiled(states, actions, n)
    requires Done(states[n].mun.status)
    ensures HasReviewedResults(states[n].mun) <==> states[n].reviewed
  {
    RunKeepsInv(states, actions, n);
    ResultsAreSoundIff(states, actions, n);
    var m := states[n].mun;
    if !states[n].reviewed && m.awards != map[] {
      var x :| x in m.awards;
      assert !m.awards[x];
    }
  }

  /** The same, one call at a time: what the caller can check is the status. */
  lemma CompleteVerifiesIffUnderReview(states: seq<State>, actions: seq<Action>, n: nat)
    requires IsRun(states, actions) && n < |states| && NothingSpoiled(states, actions, n)
    requires Complete(states[n].mun).Success?
    ensures HasReviewedResults(Complete(states[n].mun).value) <==> states[n].mun.status == RESULTS_UNDER_REVIEW
  {
    RunKeepsInv(states, actions, n);
    ResultsAreSoundIff(states, actions, n);
    var m, after := states[n].mun, Complete(states[n].mun).value;
    if m.status == RESULTS_UNDER_REVIEW {
      ApprovedIsReviewed(m);
    } else if m.awards != map[] {
      var x :| x in m.awards;
      assert !after.awards[x];
    }
  }
}
