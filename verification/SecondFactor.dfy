/** The second-factor guess budget of lib/actions/staff-mfa.ts. */
module SecondFactor {
  import opened Common

  const CHALLENGE_TTL := 5 * 60 * 1000
  const FAILURE_WINDOW := 15 * 60 * 1000
  const MAX_ATTEMPTS := 5
  const MAX_FAILURES_PER_WINDOW := 2 * MAX_ATTEMPTS

  type UserId = string
  type TokenHash = string

  /** A row of `mfa_pending_challenges`. A marker row, which only records a wrong
      code, is written already consumed. Times are milliseconds. */
  datatype Challenge = Challenge(userId: UserId, tokenHash: TokenHash, createdAt: int, expiresAt: int, attempts: nat,
                                 consumedAt: Option<int>)

  datatype MfaError = Expired | TooManyAttempts | LockedOut | NotEnrolled | InvalidCode

  /** One counted wrong code: on which row (by owner and creation time), when, and
      how many wrong codes had been counted when that row was created. */
  datatype Guess = Guess(userId: UserId, createdAt: int, time: int, born: nat)

  /** The table, and the history the claims below are about. */
  datatype State = State(challenges: seq<Challenge>, guesses: seq<Guess>, born: seq<nat>, clock: int)

  const EMPTY := State([], [], [], 0)

  // ---------------------------------------------------------------------------
  // Operations
  // ---------------------------------------------------------------------------

  /** Rows of one account created after `from`, and no later than `to` if given. */
  datatype Window = Window(userId: UserId, from: int, to: Option<int>)

  predicate Within(w: Window, userId: UserId, createdAt: int) {
    userId == w.userId && w.from < createdAt && (w.to.Some? ==> createdAt <= w.to.value)
  }

  /** `sum(attempts)` over the rows in the window. */
  function SumAttempts(rows: seq<Challenge>, w: Window): nat {
    if rows == [] then 0
    else
      var last := rows[|rows| - 1];
      SumAttempts(rows[..|rows| - 1], w) + (if Within(w, last.userId, last.createdAt) then last.attempts else 0)
  }

  function CountRecentFailures(rows: seq<Challenge>, userId: UserId, now: int): nat {
    SumAttempts(rows, Window(userId, now - FAILURE_WINDOW, None))
  }

  predicate IsLockedOut(s: State, userId: UserId, now: int) {
    CountRecentFailures(s.challenges, userId, now) >= MAX_FAILURES_PER_WINDOW
  }

  /** The unconsumed challenge with this token hash, if any. */
  function FindChallenge(rows: seq<Challenge>, tokenHash: TokenHash): (i: nat)
    ensures i <= |rows|
    ensures i < |rows| ==> rows[i].tokenHash == tokenHash && rows[i].consumedAt == None
    ensures forall j :: 0 <= j < i ==> !(rows[j].tokenHash == tokenHash && rows[j].consumedAt == None)
  {
    if rows == [] then 0
    else if rows[0].tokenHash == tokenHash && rows[0].consumedAt == None then 0
    else 1 + FindChallenge(rows[1..], tokenHash)
  }

  function AddRow(s: State, row: Challenge, now: int): State {
    s.(challenges := s.challenges + [row], born := s.born + [|s.guesses|], clock := now)
  }

  function AddGuess(s: State, userId: UserId, createdAt: int, now: int, born: nat): State {
    s.(guesses := s.guesses + [Guess(userId, createdAt, now, born)], clock := now)
  }

  function BeginChallenge(s: State, userId: UserId, tokenHash: TokenHash, now: int): Result<State, MfaError> {
    if IsLockedOut(s, userId, now) then Failure(LockedOut)
    else Success(AddRow(s, Challenge(userId, tokenHash, now, now + CHALLENGE_TTL, 0, None), now))
  }

  /** `enrolled` is whether the account has confirmed its authenticator; `correct`
      whether the code verifies, as a TOTP or as a recovery code. */
  function CompleteChallenge(s: State, tokenHash: TokenHash, enrolled: bool, correct: bool, now: int)
    : (State, Option<MfaError>)
    requires |s.born| == |s.challenges|
  {
    var i := FindChallenge(s.challenges, tokenHash);
    if i == |s.challenges| || s.challenges[i].expiresAt <= now then (s, Some(Expired))
    else
      var row := s.challenges[i];
      if row.attempts >= MAX_ATTEMPTS then (s, Some(TooManyAttempts))
      else if IsLockedOut(s, row.userId, now) then (s, Some(LockedOut))
      else if !enrolled then (s, Some(NotEnrolled))
      else if !correct then
        var counted := s.(challenges := s.challenges[i := row.(attempts := row.attempts + 1)]);
        (AddGuess(counted, row.userId, row.createdAt, now, s.born[i]),
         Some(if row.attempts + 1 >= MAX_ATTEMPTS then TooManyAttempts else InvalidCode))
      else (s.(challenges := s.challenges[i := row.(consumedAt := Some(now))], clock := now), None)
  }

  /** `regenerateMfaRecoveryCodes` and `disableMfa`: a wrong code leaves a marker. */
  function CheckManagementCode(s: State, userId: UserId, marker: TokenHash, enrolled: bool, correct: bool, now: int)
    : (State, Option<MfaError>)
  {
    if !enrolled then (s, Some(NotEnrolled))
    else if IsLockedOut(s, userId, now) then (s, Some(LockedOut))
    else if correct then (s.(clock := now), None)
    else
      var marked := AddRow(s, Challenge(userId, marker, now, now, 1, Some(now)), now);
      (AddGuess(marked, userId, now, now, |s.guesses|), Some(InvalidCode))
  }

  /** A row a guess can be spent on: not used, not expired, fewer than five wrong codes
      on it and fewer than ten on its account's rows of the last 15 minutes. */
  ghost predicate TakesGuess(rows: seq<Challenge>, i: nat, tokenHash: TokenHash, now: int) {
    i < |rows| && rows[i].tokenHash == tokenHash && rows[i].consumedAt == None && rows[i].expiresAt > now
    && rows[i].attempts < 5 && SumAttempts(rows, Window(rows[i].userId, now - 15 * 60 * 1000, None)) < 10
  }

  /** The table as an object whose methods update it in place. The two ghost fields
      are the history the specification talks about. */
  class MfaGuard {
    var challenges: seq<Challenge>
    ghost var guesses: seq<Guess>
    ghost var born: seq<nat>
    ghost var clock: int

    ghost function Model(): State
      reads this
    {
      State(challenges, guesses, born, clock)
    }

    constructor ()
      ensures Model() == EMPTY
    {
      challenges, guesses, born, clock := [], [], [], 0;
    }

    method BeginMfaChallenge(userId: UserId, tokenHash: TokenHash, now: int) returns (error: Option<MfaError>)
      modifies this
      ensures match BeginChallenge(old(Model()), userId, tokenHash, now)
              case Success(next) => error == None && Model() == next
              case Failure(e) => error == Some(e) && Model() == old(Model())
      ensures error == None <==> SumAttempts(old(challenges), Window(userId, now - 15 * 60 * 1000, None)) < 10
      ensures error == None ==>
                challenges == old(challenges) + [Challenge(userId, tokenHash, now, now + 5 * 60 * 1000, 0, None)]
    {
      if CountRecentFailures(challenges, userId, now) >= MAX_FAILURES_PER_WINDOW {
        return Some(LockedOut);
      }
      challenges := challenges + [Challenge(userId, tokenHash, now, now + CHALLENGE_TTL, 0, None)];
      born, clock := born + [|guesses|], now;
      error := None;
    }

    method CompleteMfaChallenge(tokenHash: TokenHash, enrolled: bool, correct: bool, now: int)
      returns (error: Option<MfaError>)
      requires |born| == |challenges|
      modifies this
      ensures (Model(), error) == CompleteChallenge(old(Model()), tokenHash, enrolled, correct, now)
      // a right code uses the row up and changes nothing else
      ensures error == None ==>
                enrolled && correct
                && exists i: nat :: TakesGuess(old(challenges), i, tokenHash, now)
                            && challenges == old(challenges)[i := old(challenges)[i].(consumedAt := Some(now))]
      // a wrong one adds an attempt; the fifth uses the row up
      ensures challenges != old(challenges) && error.Some? ==>
                enrolled && !correct
                && exists i: nat :: TakesGuess(old(challenges), i, tokenHash, now)
                            && challenges == old(challenges)[i := old(challenges)[i].(attempts := old(challenges)[i].attempts + 1)]
                            && error == Some(if old(challenges)[i].attempts == 4 then TooManyAttempts else InvalidCode)
      // and the only row with this token takes either
      ensures forall i: nat :: TakesGuess(old(challenges), i, tokenHash, now) && OnlyWithToken(old(challenges), i) && enrolled ==>
                if correct then error == None else error.Some? && challenges != old(challenges)
    {
      var i := FindChallenge(challenges, tokenHash);
      if i == |challenges| || challenges[i].expiresAt <= now {
        return Some(Expired);
      }
      var row := challenges[i];
      if row.attempts >= MAX_ATTEMPTS {
        return Some(TooManyAttempts);
      }
      if CountRecentFailures(challenges, row.userId, now) >= MAX_FAILURES_PER_WINDOW {
        return Some(LockedOut);
      }
      if !enrolled {
        return Some(NotEnrolled);
      }
      if !correct {
        var attempts := row.attempts + 1;
        challenges := challenges[i := row.(attempts := attempts)];
        guesses, clock := guesses + [Guess(row.userId, row.createdAt, now, born[i])], now;
        return Some(if attempts >= MAX_ATTEMPTS then TooManyAttempts else InvalidCode);
      }
      challenges := challenges[i := row.(consumedAt := Some(now))];
      clock := now;
      error := None;
    }

    static ghost predicate OnlyWithToken(rows: seq<Challenge>, i: nat) {
      i < |rows| && forall j :: 0 <= j < |rows| && j != i ==> rows[j].tokenHash != rows[i].tokenHash
    }

    method RecordMfaFailure(userId: UserId, marker: TokenHash, enrolled: bool, correct: bool, now: int)
      returns (error: Option<MfaError>)
      modifies this
      ensures (Model(), error) == CheckManagementCode(old(Model()), userId, marker, enrolled, correct, now)
      ensures challenges == if error == Some(InvalidCode)
                            then old(challenges) + [Challenge(userId, marker, now, now, 1, Some(now))] else old(challenges)
      ensures enrolled && SumAttempts(old(challenges), Window(userId, now - 15 * 60 * 1000, None)) < 10 ==>
                error == if correct then None else Some(InvalidCode)
      ensures !enrolled || SumAttempts(old(challenges), Window(userId, now - 15 * 60 * 1000, None)) >= 10 ==>
                error.Some? && error != Some(InvalidCode)
    {
      if !enrolled {
        return Some(NotEnrolled);
      }
      if CountRecentFailures(challenges, userId, now) >= MAX_FAILURES_PER_WINDOW {
        return Some(LockedOut);
      }
      clock := now;
      if correct {
        return None;
      }
      challenges := challenges + [Challenge(userId, marker, now, now, 1, Some(now))];
      born := born + [|guesses|];
      guesses := guesses + [Guess(userId, now, now, |guesses|)];
      error := Some(InvalidCode);
    }
  }

  // ---------------------------------------------------------------------------
  // Counting guesses
  // ---------------------------------------------------------------------------

  ghost function Count(log: seq<Guess>, p: Guess -> bool): nat {
    if log == [] then 0
    else Count(log[..|log| - 1], p) + (if p(log[|log| - 1]) then 1 else 0)
  }

  ghost function OnRowsIn(w: Window): Guess -> bool {
    (g: Guess) => Within(w, g.userId, g.createdAt)
  }

  lemma CountSnoc(log: seq<Guess>, g: Guess, p: Guess -> bool)
    ensures Count(log + [g], p) == Count(log, p) + (if p(g) then 1 else 0)
  {
    assert (log + [g])[..|log|] == log;
  }

  lemma {:induction false} CountMonotone(log: seq<Guess>, p: Guess -> bool, q: Guess -> bool)
    requires forall g :: g in log && p(g) ==> q(g)
    ensures Count(log, p) <= Count(log, q)
  {
    if log != [] {
      CountMonotone(log[..|log| - 1], p, q);
    }
  }

  lemma {:induction false} CountUnion(log: seq<Guess>, p: Guess -> bool, a: Guess -> bool, b: Guess -> bool)
    requires forall g :: g in log && p(g) ==> a(g) || b(g)
    ensures Count(log, p) <= Count(log, a) + Count(log, b)
  {
    if log != [] {
      CountUnion(log[..|log| - 1], p, a, b);
    }
  }

  /** The last guess counted, if any. */
  lemma {:induction false} CountLast(log: seq<Guess>, p: Guess -> bool) returns (k: nat)
    requires Count(log, p) > 0
    ensures k < |log| && p(log[k]) && forall j :: k < j < |log| ==> !p(log[j])
    ensures Count(log, p) == Count(log[..k], p) + 1
  {
    var n := |log| - 1;
    if p(log[n]) {
      k := n;
    } else {
      k := CountLast(log[..n], p);
      assert log[..n][..k] == log[..k];
    }
  }

  lemma {:induction false} CountPrefix(log: seq<Guess>, n: nat, p: Guess -> bool)
    requires n <= |log| && forall j :: n <= j < |log| ==> !p(log[j])
    ensures Count(log, p) == Count(log[..n], p)
    decreases |log|
  {
    if n == |log| {
      assert log[..n] == log;
    } else {
      CountPrefix(log[..|log| - 1], n, p);
      assert log[..|log| - 1][..n] == log[..n];
    }
  }

  // ---------------------------------------------------------------------------
  // What every guess in the history satisfies
  // ---------------------------------------------------------------------------

  ghost predicate WithinBudget(log: seq<Guess>, userId: UserId, now: int) {
    Count(log, OnRowsIn(Window(userId, now - FAILURE_WINDOW, None))) < MAX_FAILURES_PER_WINDOW
  }

  /** The budget was checked when the guess was made, and when its row was created. */
  ghost predicate LegalGuess(log: seq<Guess>, k: nat)
    requires k < |log|
  {
    var g := log[k];
    g.createdAt <= g.time < g.createdAt + CHALLENGE_TTL && g.born <= k
    && WithinBudget(log[..k], g.userId, g.time)
    && WithinBudget(log[..g.born], g.userId, g.createdAt)
    && (forall j :: g.born <= j < |log| ==> g.createdAt <= log[j].time)
  }

  ghost predicate Sorted(log: seq<Guess>) {
    forall i, j :: 0 <= i <= j < |log| ==> log[i].time <= log[j].time
  }

  ghost predicate Legal(log: seq<Guess>) {
    Sorted(log) && forall k :: 0 <= k < |log| ==> LegalGuess(log, k)
  }

  ghost predicate LegalRow(s: State, i: nat)
    requires i < |s.challenges| == |s.born|
  {
    var row := s.challenges[i];
    row.createdAt <= s.clock && s.born[i] <= |s.guesses|
    && (row.consumedAt == None ==> row.expiresAt == row.createdAt + CHALLENGE_TTL)
    && row.attempts <= MAX_ATTEMPTS
    && WithinBudget(s.guesses[..s.born[i]], row.userId, row.createdAt)
    && forall j :: s.born[i] <= j < |s.guesses| ==> row.createdAt <= s.guesses[j].time
  }

  ghost predicate Inv(s: State) {
    |s.born| == |s.challenges| && Legal(s.guesses)
    && (forall j :: 0 <= j < |s.guesses| ==> s.guesses[j].time <= s.clock)
    && (forall i :: 0 <= i < |s.challenges| ==> LegalRow(s, i))
    && forall w :: SumAttempts(s.challenges, w) == Count(s.guesses, OnRowsIn(w))
  }

  lemma SumSnoc(rows: seq<Challenge>, row: Challenge, w: Window)
    ensures SumAttempts(rows + [row], w)
         == SumAttempts(rows, w) + (if Within(w, row.userId, row.createdAt) then row.attempts else 0)
  {
    assert (rows + [row])[..|rows|] == rows;
  }

  lemma {:induction false} SumUpdate(rows: seq<Challenge>, i: nat, row: Challenge, w: Window)
    requires i < |rows| && row.userId == rows[i].userId && row.createdAt == rows[i].createdAt
    ensures SumAttempts(rows[i := row], w)
         == SumAttempts(rows, w) + (if Within(w, row.userId, row.createdAt) then row.attempts - rows[i].attempts else 0)
    decreases |rows|
  {
    var n := |rows| - 1;
    if i < n {
      SumUpdate(rows[..n], i, row, w);
      assert rows[i := row][..n] == rows[..n][i := row];
    } else {
      assert rows[i := row][..n] == rows[..n];
    }
  }

  lemma AddRowKeeps(s: State, row: Challenge, now: int)
    requires Inv(s) && s.clock <= now && !IsLockedOut(s, row.userId, now)
    requires row.createdAt == now && row.attempts <= MAX_ATTEMPTS
    requires row.consumedAt == None ==> row.expiresAt == now + CHALLENGE_TTL
    ensures var t := AddRow(s, row, now);
            forall i :: 0 <= i < |t.challenges| ==> LegalRow(t, i)
  {
    var t := AddRow(s, row, now);
    assert t.guesses[..|s.guesses|] == s.guesses;
    assert WithinBudget(s.guesses, row.userId, now);
    forall i | 0 <= i < |t.challenges|
      ensures LegalRow(t, i)
    {
      if i < |s.challenges| {
        assert LegalRow(s, i);
      }
    }
  }

  /** Counting one more wrong code, on a row whose creation was checked. */
  lemma AddGuessLegal(log: seq<Guess>, g: Guess)
    requires Legal(log) && (forall j :: 0 <= j < |log| ==> log[j].time <= g.time)
    requires g.createdAt <= g.time < g.createdAt + CHALLENGE_TTL && WithinBudget(log, g.userId, g.time)
    requires g.born <= |log| && WithinBudget(log[..g.born], g.userId, g.createdAt)
    requires forall j :: g.born <= j < |log| ==> g.createdAt <= log[j].time
    ensures Legal(log + [g])
  {
    var log' := log + [g];
    forall k | 0 <= k < |log'|
      ensures LegalGuess(log', k)
    {
      if k < |log| {
        assert LegalGuess(log, k);
        assert log'[..k] == log[..k] && log'[..log[k].born] == log[..log[k].born];
      } else {
        assert log'[..k] == log && log'[..g.born] == log[..g.born];
      }
    }
  }

  lemma AddGuessKeeps(s: State, userId: UserId, createdAt: int, now: int, born: nat)
    requires Legal(s.guesses) && s.clock <= now && createdAt <= now < createdAt + CHALLENGE_TTL
    requires forall j :: 0 <= j < |s.guesses| ==> s.guesses[j].time <= s.clock
    requires |s.born| == |s.challenges| && forall i :: 0 <= i < |s.challenges| ==> LegalRow(s, i)
    requires WithinBudget(s.guesses, userId, now)
    requires born <= |s.guesses| && WithinBudget(s.guesses[..born], userId, createdAt)
    requires forall j :: born <= j < |s.guesses| ==> createdAt <= s.guesses[j].time
    ensures var t := AddGuess(s, userId, createdAt, now, born);
            Legal(t.guesses) && forall i :: 0 <= i < |t.challenges| ==> LegalRow(t, i)
  {
    var t := AddGuess(s, userId, createdAt, now, born);
    AddGuessLegal(s.guesses, Guess(userId, createdAt, now, born));
    forall i | 0 <= i < |t.challenges|
      ensures LegalRow(t, i)
    {
      assert LegalRow(s, i);
      assert t.guesses[..t.born[i]] == s.guesses[..t.born[i]];
    }
  }

  // ---------------------------------------------------------------------------
  // Runs
  // ---------------------------------------------------------------------------

  datatype Action =
    | Begin(userId: UserId, tokenHash: TokenHash, now: int)
    | Complete(tokenHash: TokenHash, enrolled: bool, correct: bool, now: int)
    | Manage(userId: UserId, tokenHash: TokenHash, enrolled: bool, correct: bool, now: int)

  function Step(s: State, a: Action): State
    requires |s.born| == |s.challenges|
  {
    match a
    case Begin(userId, tokenHash, now) =>
      var r := BeginChallenge(s, userId, tokenHash, now);
      if r.Success? then r.value else s
    case Complete(tokenHash, enrolled, correct, now) => CompleteChallenge(s, tokenHash, enrolled, correct, now).0
    case Manage(userId, tokenHash, enrolled, correct, now) =>
      CheckManagementCode(s, userId, tokenHash, enrolled, correct, now).0
  }

  /** A run whose clock never goes backwards. */
  ghost predicate IsRun(states: seq<State>, actions: seq<Action>) {
    |states| == |actions| + 1 && states[0] == EMPTY &&
    forall i :: 0 <= i < |actions| ==>
      |states[i].born| == |states[i].challenges| && states[i].clock <= actions[i].now
      && states[i + 1] == Step(states[i], actions[i])
  }

  lemma BeginKeeps(s: State, userId: UserId, tokenHash: TokenHash, now: int)
    requires Inv(s) && s.clock <= now && !IsLockedOut(s, userId, now)
    ensures Inv(BeginChallenge(s, userId, tokenHash, now).value)
  {
    var row := Challenge(userId, tokenHash, now, now + CHALLENGE_TTL, 0, None);
    AddRowKeeps(s, row, now);
    forall w
      ensures SumAttempts(s.challenges + [row], w) == Count(s.guesses, OnRowsIn(w))
    {
      SumSnoc(s.challenges, row, w);
    }
  }

  lemma ManageKeeps(s: State, userId: UserId, marker: TokenHash, now: int)
    requires Inv(s) && s.clock <= now && !IsLockedOut(s, userId, now)
    ensures Inv(CheckManagementCode(s, userId, marker, true, false, now).0)
  {
    var row := Challenge(userId, marker, now, now, 1, Some(now));
    AddRowKeeps(s, row, now);
    var t := AddRow(s, row, now);
    assert s.guesses[..|s.guesses|] == s.guesses;
    assert WithinBudget(s.guesses, userId, now);
    AddGuessKeeps(t, userId, now, now, |s.guesses|);
    forall w
      ensures SumAttempts(t.challenges, w) == Count(t.guesses + [Guess(userId, now, now, |s.guesses|)], OnRowsIn(w))
    {
      SumSnoc(s.challenges, row, w);
      CountSnoc(s.guesses, Guess(userId, now, now, |s.guesses|), OnRowsIn(w));
    }
  }

  /** Changing a row's count or consuming it leaves every row legal. */
  lemma RowsStayLegal(s: State, i: nat, row': Challenge)
    requires Inv(s) && i < |s.challenges| && row'.attempts <= MAX_ATTEMPTS
    requires var row := s.challenges[i];
             row'.userId == row.userId && row'.createdAt == row.createdAt && row'.expiresAt == row.expiresAt
             && (row'.consumedAt == None ==> row.consumedAt == None)
    ensures var u := s.(challenges := s.challenges[i := row']);
            forall k :: 0 <= k < |u.challenges| ==> LegalRow(u, k)
  {
    var u := s.(challenges := s.challenges[i := row']);
    forall k | 0 <= k < |u.challenges| ensures LegalRow(u, k) { assert LegalRow(s, k) && LegalRow(s, i); }
  }

  lemma RightCodeKeeps(s: State, i: nat, now: int)
    requires Inv(s) && s.clock <= now && i < |s.challenges|
    ensures Inv(s.(challenges := s.challenges[i := s.challenges[i].(consumedAt := Some(now))], clock := now))
  {
    var row' := s.challenges[i].(consumedAt := Some(now));
    var u := s.(challenges := s.challenges[i := row']);
    assert LegalRow(s, i);
    RowsStayLegal(s, i, row');
    forall k | 0 <= k < |u.challenges| ensures LegalRow(u.(clock := now), k) { assert LegalRow(u, k); }
    forall w ensures SumAttempts(u.challenges, w) == Count(s.guesses, OnRowsIn(w)) { SumUpdate(s.challenges, i, row', w); }
  }

  lemma WrongCodeKeeps(s: State, i: nat, now: int)
    requires Inv(s) && s.clock <= now && i < |s.challenges|
    requires var row := s.challenges[i];
             row.consumedAt == None && now < row.expiresAt && row.attempts < MAX_ATTEMPTS && !IsLockedOut(s, row.userId, now)
    ensures var row := s.challenges[i];
            var counted := s.(challenges := s.challenges[i := row.(attempts := row.attempts + 1)]);
            Inv(AddGuess(counted, row.userId, row.createdAt, now, s.born[i]))
  {
    var row := s.challenges[i];
    var row' := row.(attempts := row.attempts + 1);
    var u := s.(challenges := s.challenges[i := row']);
    assert LegalRow(s, i) && WithinBudget(s.guesses, row.userId, now);
    RowsStayLegal(s, i, row');
    AddGuessKeeps(u, row.userId, row.createdAt, now, s.born[i]);
    var g := Guess(row.userId, row.createdAt, now, s.born[i]);
    forall w
      ensures SumAttempts(u.challenges, w) == Count(s.guesses + [g], OnRowsIn(w))
    {
      SumUpdate(s.challenges, i, row', w);
      CountSnoc(s.guesses, g, OnRowsIn(w));
    }
  }

  lemma CompleteKeeps(s: State, tokenHash: TokenHash, enrolled: bool, correct: bool, now: int)
    requires Inv(s) && s.clock <= now
    ensures Inv(CompleteChallenge(s, tokenHash, enrolled, correct, now).0)
  {
    var i := FindChallenge(s.challenges, tokenHash);
    if CompleteChallenge(s, tokenHash, enrolled, correct, now).0 != s {
      if correct { RightCodeKeeps(s, i, now); } else { WrongCodeKeeps(s, i, now); }
    }
  }

  lemma RightManagementCodeKeeps(s: State, now: int)
    requires Inv(s) && s.clock <= now
    ensures Inv(s.(clock := now))
  {
    var t := s.(clock := now);
    forall i | 0 <= i < |t.challenges| ensures LegalRow(t, i) { assert LegalRow(s, i); }
  }

  lemma {:induction false} RunKeeps(states: seq<State>, actions: seq<Action>, n: nat)
    requires IsRun(states, actions) && n < |states|
    ensures Inv(states[n])
    decreases n
  {
    if n > 0 {
      RunKeeps(states, actions, n - 1);
      var s, a := states[n - 1], actions[n - 1];
      assert states[n - 1 + 1] == Step(s, a);
      match a {
        case Begin(userId, tokenHash, now) =>
          if !IsLockedOut(s, userId, now) { BeginKeeps(s, userId, tokenHash, now); }
        case Complete(tokenHash, enrolled, correct, now) =>
          CompleteKeeps(s, tokenHash, enrolled, correct, now);
        case Manage(userId, tokenHash, enrolled, correct, now) =>
          if enrolled && !IsLockedOut(s, userId, now) {
            if correct { RightManagementCodeKeeps(s, now); } else { ManageKeeps(s, userId, tokenHash, now); }
          }
      }
    }
  }

  // ---------------------------------------------------------------------------
  // Main results
  // ---------------------------------------------------------------------------

  /** At every moment of every run, the rows of an account created in the last 15
      minutes carry at most 10 wrong codes. */
  lemma TrailingWindowBound(states: seq<State>, actions: seq<Action>, n: nat, userId: UserId, now: int)
    requires IsRun(states, actions) && n < |states| && states[n].clock <= now
    ensures SumAttempts(states[n].challenges, Window(userId, now - 15 * 60 * 1000, None)) <= 10
  {
    RunKeeps(states, actions, n);
    var log, p := states[n].guesses, OnRowsIn(Window(userId, now - FAILURE_WINDOW, None));
    if Count(log, p) > 0 {
      var k := CountLast(log, p);
      assert LegalGuess(log, k);
      CountMonotone(log[..k], p, OnRowsIn(Window(userId, log[k].time - FAILURE_WINDOW, None)));
    }
  }

  ghost function GuessedIn(userId: UserId, from: int): Guess -> bool {
    (g: Guess) => g.userId == userId && from < g.time <= from + FAILURE_WINDOW
  }

  ghost function And(p: Guess -> bool, q: Guess -> bool): Guess -> bool {
    (g: Guess) => p(g) && q(g)
  }

  ghost function CreatedBy(t: int): Guess -> bool {
    (g: Guess) => g.createdAt <= t
  }

  ghost function CreatedAfter(t: int): Guess -> bool {
    (g: Guess) => g.createdAt > t
  }

  lemma CountUpTo(log: seq<Guess>, k: nat, p: Guess -> bool)
    requires k < |log| && forall j :: k < j < |log| ==> !p(log[j])
    ensures Count(log, p) <= Count(log[..k], p) + 1
  {
    CountPrefix(log, k + 1, p);
    assert log[..k + 1] == log[..k] + [log[k]];
    CountSnoc(log[..k], log[k], p);
  }

  lemma BelowBudget(log: seq<Guess>, p: Guess -> bool, userId: UserId, now: int)
    requires WithinBudget(log, userId, now)
    requires forall g :: g in log && p(g) ==> g.userId == userId && g.createdAt > now - FAILURE_WINDOW
    ensures Count(log, p) < MAX_FAILURES_PER_WINDOW
  {
    CountMonotone(log, p, OnRowsIn(Window(userId, now - FAILURE_WINDOW, None)));
  }

  /** Guesses, all on rows created after the window that ended with the last of
      them began, are at most 10. */
  lemma AtMostTen(log: seq<Guess>, p: Guess -> bool, userId: UserId, k: nat)
    requires Legal(log) && k < |log| && log[k].userId == userId
    requires forall j :: k < j < |log| ==> !p(log[j])
    requires forall g :: g in log && p(g) ==> g.userId == userId && g.createdAt > log[k].time - FAILURE_WINDOW
    ensures Count(log, p) <= MAX_FAILURES_PER_WINDOW
  {
    assert Count(log[..k], p) < MAX_FAILURES_PER_WINDOW by {
      assert LegalGuess(log, k);
      BelowBudget(log[..k], p, userId, log[k].time);
    }
    CountUpTo(log, k, p);
  }

  lemma LoggedInWindow(log: seq<Guess>, userId: UserId, from: int)
    requires Legal(log)
    ensures Count(log, GuessedIn(userId, from)) <= 2 * MAX_FAILURES_PER_WINDOW
  {
    var p := GuessedIn(userId, from);
    if Count(log, p) > 0 {
      var k := CountLast(log, p);
      var edge := log[k].time - FAILURE_WINDOW;
      var recent, older := And(p, CreatedAfter(edge)), And(p, CreatedBy(edge));
      CountUnion(log, p, recent, older);
      AtMostTen(log, recent, userId, k);
      if Count(log, older) > 0 {
        var k' := CountLast(log, older);
        assert LegalGuess(log, k');
        forall g | g in log && older(g)
          ensures g.createdAt > log[k'].time - FAILURE_WINDOW
        {
          var j :| 0 <= j < |log| && log[j] == g;
          assert LegalGuess(log, j);
        }
        AtMostTen(log, older, userId, k');
      }
    }
  }

  /** The step answers a wrong code of the account: what it shows for it is one attempt
      more on a row of the account, or a new row that carries one. */
  ghost predicate AnswersWrongCode(s: State, a: Action, userId: UserId)
    requires |s.born| == |s.challenges|
  {
    var after := Step(s, a).challenges;
    !a.Begin? && !a.correct
    && ((exists i: nat :: i < |s.challenges| && s.challenges[i].userId == userId
                       && after == s.challenges[i := s.challenges[i].(attempts := s.challenges[i].attempts + 1)])
        || (|after| > |s.challenges| && after[|s.challenges|].userId == userId && after[|s.challenges|].attempts == 1))
  }

  /** The wrong codes of the account among the first `n` steps, in 15 minutes after `from`. */
  ghost function WrongCodes(states: seq<State>, actions: seq<Action>, n: nat, userId: UserId, from: int): nat
    requires IsRun(states, actions) && n < |states|
  {
    if n == 0 then 0
    else
      var now := actions[n - 1].now;
      WrongCodes(states, actions, n - 1, userId, from)
      + if AnswersWrongCode(states[n - 1], actions[n - 1], userId) && from < now <= from + 15 * 60 * 1000 then 1 else 0
  }

  /** Exactly the steps that log a guess answer a wrong code, of that account. */
  lemma WrongAnswerIsLogged(s: State, a: Action, userId: UserId)
    requires Inv(s)
    ensures var log, after := s.guesses, Step(s, a).guesses;
            if AnswersWrongCode(s, a, userId)
            then |after| == |log| + 1 && after[..|log|] == log && after[|log|].userId == userId && after[|log|].time == a.now
            else after == log || (|after| == |log| + 1 && after[..|log|] == log && after[|log|].userId != userId)
  {
    var after := Step(s, a).challenges;
    if a.Complete? && !a.correct {
      var i := FindChallenge(s.challenges, a.tokenHash);
      if after != s.challenges {
        assert after[i].attempts == s.challenges[i].attempts + 1;
      } else {
        assert forall k: nat :: k < |s.challenges| ==>
            s.challenges[k := s.challenges[k].(attempts := s.challenges[k].attempts + 1)][k] != s.challenges[k];
      }
    }
  }

  lemma WrongCodeIsLogged(s: State, a: Action, userId: UserId, from: int)
    requires Inv(s)
    ensures Count(Step(s, a).guesses, GuessedIn(userId, from))
         == Count(s.guesses, GuessedIn(userId, from))
            + if AnswersWrongCode(s, a, userId) && from < a.now <= from + FAILURE_WINDOW then 1 else 0
  {
    WrongAnswerIsLogged(s, a, userId);
  }

  lemma {:induction false} LogIsComplete(states: seq<State>, actions: seq<Action>, n: nat, userId: UserId, from: int)
    requires IsRun(states, actions) && n < |states|
    ensures Count(states[n].guesses, GuessedIn(userId, from)) == WrongCodes(states, actions, n, userId, from)
    decreases n
  {
    if n > 0 {
      LogIsComplete(states, actions, n - 1, userId, from);
      RunKeeps(states, actions, n - 1);
      WrongCodeIsLogged(states[n - 1], actions[n - 1], userId, from);
      assert states[n - 1 + 1] == Step(states[n - 1], actions[n - 1]);
    }
  }

  /** By the time a code is typed: at most 20 wrong ones in any 15 minutes of any run.
      A challenge lives 5 minutes, so a wrong code counts against rows at most 5
      minutes older; two windows' budgets cover it because 15 >= 2 * 5. */
  lemma GuessTimeBound(states: seq<State>, actions: seq<Action>, n: nat, userId: UserId, from: int)
    requires IsRun(states, actions) && n < |states|
    ensures WrongCodes(states, actions, n, userId, from) <= 20
  {
    RunKeeps(states, actions, n);
    LoggedInWindow(states[n].guesses, userId, from);
    LogIsComplete(states, actions, n, userId, from);
  }

  /** Wrong codes on rows of a creation window, counted after that window closed. */
  ghost function LateOn(w: Window): Guess -> bool {
    (g: Guess) => Within(w, g.userId, g.createdAt) && w.to.Some? && g.time > w.to.value
  }

  ghost function InTimeOn(w: Window): Guess -> bool {
    (g: Guess) => Within(w, g.userId, g.createdAt) && w.to.Some? && g.time <= w.to.value
  }

  /** By the time a row is created: the rows of any 15 minutes carry at most 10 wrong
      codes, and besides those only what is guessed on them after the 15 minutes are
      over; together never more than 19. Not always 10: see NineteenIsReached. */
  lemma CreationWindowBound(states: seq<State>, actions: seq<Action>, n: nat, userId: UserId, from: int)
    requires IsRun(states, actions) && n < |states|
    ensures var w := Window(userId, from, Some(from + 15 * 60 * 1000));
            SumAttempts(states[n].challenges, w) <= 10 + Count(states[n].guesses, LateOn(w)) &&
            SumAttempts(states[n].challenges, w) <= 19
  {
    RunKeeps(states, actions, n);
    InTimeGuesses(states[n].guesses, userId, from);
    AllGuesses(states[n].guesses, userId, from);
    assert SumAttempts(states[n].challenges, Window(userId, from, Some(from + FAILURE_WINDOW)))
        == Count(states[n].guesses, OnRowsIn(Window(userId, from, Some(from + FAILURE_WINDOW))));
  }

  lemma InTimeGuesses(log: seq<Guess>, userId: UserId, from: int)
    requires Legal(log)
    ensures var w := Window(userId, from, Some(from + FAILURE_WINDOW));
            Count(log, OnRowsIn(w)) <= MAX_FAILURES_PER_WINDOW + Count(log, LateOn(w))
  {
    var w := Window(userId, from, Some(from + FAILURE_WINDOW));
    CountUnion(log, OnRowsIn(w), InTimeOn(w), LateOn(w));
    if Count(log, InTimeOn(w)) > 0 {
      var k := CountLast(log, InTimeOn(w));
      AtMostTen(log, InTimeOn(w), userId, k);
    }
  }

  lemma AllGuesses(log: seq<Guess>, userId: UserId, from: int)
    requires Legal(log)
    ensures Count(log, OnRowsIn(Window(userId, from, Some(from + FAILURE_WINDOW)))) <= 2 * MAX_FAILURES_PER_WINDOW - 1
  {
    var p := OnRowsIn(Window(userId, from, Some(from + FAILURE_WINDOW)));
    if Count(log, p) > 0 {
      var k := CountLast(log, p);
      assert LegalGuess(log, k);
      if log[k].time <= from + FAILURE_WINDOW {
        AtMostTen(log, p, userId, k);
      } else {
        var edge := log[k].time - FAILURE_WINDOW;
        var recent, older := And(p, CreatedAfter(edge)), And(p, CreatedBy(edge));
        CountUnion(log, p, recent, older);
        AtMostTen(log, recent, userId, k);
        OlderRowsAreUnderBudget(log, k, older, userId, from);
      }
    }
  }

  /** The row of guess `k` could only be created while the older rows were below
      budget, and they had all expired by then. */
  lemma OlderRowsAreUnderBudget(log: seq<Guess>, k: nat, older: Guess -> bool, userId: UserId, from: int)
    requires Legal(log) && k < |log| && log[k].userId == userId
    requires from < log[k].createdAt <= from + FAILURE_WINDOW < log[k].time
    requires forall g :: g in log && older(g) ==>
               g.userId == userId && from < g.createdAt <= log[k].time - FAILURE_WINDOW
    ensures Count(log, older) < MAX_FAILURES_PER_WINDOW
  {
    var born, created := log[k].born, log[k].createdAt;
    assert LegalGuess(log, k);
    BelowBudget(log[..born], older, userId, created);
    forall j | born <= j < |log|
      ensures !older(log[j])
    {
      assert LegalGuess(log, j) && log[j] in log && created <= log[j].time;
    }
    CountPrefix(log, born, older);
  }

  // ---------------------------------------------------------------------------
  // A token signs in once
  // ---------------------------------------------------------------------------

  /** Tokens are random: no step stores a hash that is already stored. */
  ghost predicate IssuesFresh(s: State, a: Action) {
    a.Complete? || forall i :: 0 <= i < |s.challenges| ==> s.challenges[i].tokenHash != a.tokenHash
  }

  ghost predicate SignsIn(s: State, a: Action)
    requires |s.born| == |s.challenges|
  {
    a.Complete? && CompleteChallenge(s, a.tokenHash, a.enrolled, a.correct, a.now).1 == None
  }

  lemma {:induction false} TokensStayDistinct(states: seq<State>, actions: seq<Action>, n: nat)
    requires IsRun(states, actions) && n < |states|
    requires forall k :: 0 <= k < |actions| ==> IssuesFresh(states[k], actions[k])
    ensures forall i, j :: 0 <= i < j < |states[n].challenges| ==>
              states[n].challenges[i].tokenHash != states[n].challenges[j].tokenHash
    decreases n
  {
    if n > 0 {
      TokensStayDistinct(states, actions, n - 1);
      assert states[n - 1 + 1] == Step(states[n - 1], actions[n - 1]) && IssuesFresh(states[n - 1], actions[n - 1]);
    }
  }

  lemma {:induction false} ConsumedForGood(states: seq<State>, actions: seq<Action>, m: nat, n: nat, i: nat)
    requires IsRun(states, actions) && m <= n < |states|
    requires i < |states[m].challenges| && states[m].challenges[i].consumedAt.Some?
    ensures i < |states[n].challenges| && states[n].challenges[i] == states[m].challenges[i]
    decreases n
  {
    if m < n {
      ConsumedForGood(states, actions, m, n - 1, i);
      assert states[n - 1 + 1] == Step(states[n - 1], actions[n - 1]);
    }
  }

  /** In every run a challenge's token signs in at most once: every later attempt with
      it, right code or wrong, is answered as expired and changes nothing. */
  lemma TokenSignsInOnce(states: seq<State>, actions: seq<Action>, m: nat, n: nat)
    requires IsRun(states, actions) && m < n < |actions| && actions[m].Complete? && actions[n].Complete?
    requires forall k :: 0 <= k < |actions| ==> IssuesFresh(states[k], actions[k])
    requires SignsIn(states[m], actions[m]) && actions[n].tokenHash == actions[m].tokenHash
    ensures var a := actions[n];
            CompleteChallenge(states[n], a.tokenHash, a.enrolled, a.correct, a.now) == (states[n], Some(Expired))
  {
    var i := FindChallenge(states[m].challenges, actions[m].tokenHash);
    assert states[m + 1] == Step(states[m], actions[m]);
    ConsumedForGood(states, actions, m + 1, n, i);
    TokensStayDistinct(states, actions, n);
  }

  // ---------------------------------------------------------------------------
  // The bounds are reached
  // ---------------------------------------------------------------------------

  const MINUTE := 60 * 1000

  ghost predicate Reachable(s: State) {
    exists states, actions :: IsRun(states, actions) && states[|actions|] == s
  }

  lemma ReachableStep(s: State, a: Action)
    requires Reachable(s) && |s.born| == |s.challenges| && s.clock <= a.now
    ensures Reachable(Step(s, a))
  {
    var states, actions :| IsRun(states, actions) && states[|actions|] == s;
    assert IsRun(states + [Step(s, a)], actions + [a]);
  }

  lemma ReachableStart()
    ensures Reachable(EMPTY)
  {
    assert IsRun([EMPTY], []);
  }

  /** Challenge `i` is open and can take `n` more wrong codes within both budgets. */
  ghost predicate CanTake(s: State, i: nat, now: int, n: nat) {
    |s.born| == |s.challenges| && s.clock <= now && i < |s.challenges|
    && (forall j :: 0 <= j < |s.challenges| && j != i ==> s.challenges[j].tokenHash != s.challenges[i].tokenHash)
    && s.challenges[i].consumedAt == None && s.challenges[i].expiresAt > now
    && s.challenges[i].attempts + n <= MAX_ATTEMPTS
    && CountRecentFailures(s.challenges, s.challenges[i].userId, now) + n <= MAX_FAILURES_PER_WINDOW
  }

  function Guessed(rows: seq<Challenge>, i: nat, n: nat): seq<Challenge>
    requires i < |rows|
  {
    rows[i := rows[i].(attempts := rows[i].attempts + n)]
  }

  /** Guesses of the account in the 15 minutes after `from`. */
  ghost function GuessesIn(s: State, userId: UserId, from: int): nat {
    Count(s.guesses, GuessedIn(userId, from))
  }

  lemma GuessOnce(s: State, i: nat, now: int, n: nat, from: int) returns (t: State)
    requires Reachable(s) && n > 0 && CanTake(s, i, now, n) && from < now <= from + FAILURE_WINDOW
    ensures Reachable(t) && CanTake(t, i, now, n - 1) && t.challenges == Guessed(s.challenges, i, 1)
    ensures GuessesIn(t, s.challenges[i].userId, from) == GuessesIn(s, s.challenges[i].userId, from) + 1
  {
    var row := s.challenges[i];
    ReachableStep(s, Complete(row.tokenHash, true, false, now));
    t := Step(s, Complete(row.tokenHash, true, false, now));
    SumUpdate(s.challenges, i, t.challenges[i], Window(row.userId, now - FAILURE_WINDOW, None));
    CountSnoc(s.guesses, Guess(row.userId, row.createdAt, now, s.born[i]), GuessedIn(row.userId, from));
  }

  lemma {:induction false} Burst(s: State, i: nat, now: int, n: nat, from: int) returns (t: State)
    requires Reachable(s) && CanTake(s, i, now, n) && from < now <= from + FAILURE_WINDOW
    ensures Reachable(t) && |t.born| == |t.challenges| && t.clock <= now
    ensures t.challenges == Guessed(s.challenges, i, n)
    ensures GuessesIn(t, s.challenges[i].userId, from) == GuessesIn(s, s.challenges[i].userId, from) + n
    decreases n
  {
    if n == 0 {
      t := s;
    } else {
      var u := GuessOnce(s, i, now, n, from);
      t := Burst(u, i, now, n - 1, from);
    }
  }

  lemma Opened(s: State, tokenHash: TokenHash, now: int) returns (t: State)
    requires Reachable(s) && |s.born| == |s.challenges| && s.clock <= now
    requires CountRecentFailures(s.challenges, "u", now) < MAX_FAILURES_PER_WINDOW
    ensures Reachable(t) && |t.born| == |t.challenges| && t.clock <= now && t.guesses == s.guesses
    ensures t.challenges == s.challenges + [Challenge("u", tokenHash, now, now + CHALLENGE_TTL, 0, None)]
  {
    ReachableStep(s, Begin("u", tokenHash, now));
    t := Step(s, Begin("u", tokenHash, now));
  }

  function Row(tokenHash: TokenHash, createdAt: int, attempts: nat): Challenge {
    Challenge("u", tokenHash, createdAt, createdAt + CHALLENGE_TTL, attempts, None)
  }

  /** Two challenges begun at 0 and two begun at `later`, with their wrong codes. */
  function Rows(later: int, a: nat, b: nat, c: nat, d: nat): seq<Challenge> {
    [Row("a", 0, a), Row("b", 0, b), Row("c", later, c), Row("d", later, d)]
  }

  lemma SumOfFour(later: int, a: nat, b: nat, c: nat, d: nat, w: Window)
    requires w.userId == "u" && w.from < later && (w.to.Some? ==> later <= w.to.value) && later > 0
    ensures var old' := if w.from < 0 then a + b else 0;
            SumAttempts(Rows(later, a, b, c, d)[..1], w) == (if w.from < 0 then a else 0) &&
            SumAttempts(Rows(later, a, b, c, d)[..2], w) == old' &&
            SumAttempts(Rows(later, a, b, c, d)[..3], w) == old' + c &&
            SumAttempts(Rows(later, a, b, c, d), w) == old' + c + d
  {
    var rows := Rows(later, a, b, c, d);
    SumSnoc(rows[..0], rows[0], w);
    SumSnoc(rows[..1], rows[1], w);
    SumSnoc(rows[..2], rows[2], w);
    SumSnoc(rows[..3], rows[3], w);
    assert rows[..0] + [rows[0]] == rows[..1] && rows[..1] + [rows[1]] == rows[..2];
    assert rows[..2] + [rows[2]] == rows[..3] && rows[..3] + [rows[3]] == rows;
  }

  ghost predicate Stands(s: State, rows: seq<Challenge>, now: int) {
    Reachable(s) && |s.born| == |s.challenges| && s.clock <= now && s.challenges == rows
  }

  lemma OneOpen() returns (s: State)
    ensures Stands(s, Rows(1, 0, 0, 0, 0)[..1], 0) && s.guesses == []
  {
    ReachableStart();
    s := Opened(EMPTY, "a", 0);
    assert s.challenges == Rows(1, 0, 0, 0, 0)[..1];
  }

  lemma TwoOpen() returns (s: State)
    ensures Stands(s, Rows(1, 0, 0, 0, 0)[..2], 0) && s.guesses == []
  {
    s := OneOpen();
    SumOfFour(1, 0, 0, 0, 0, Window("u", -FAILURE_WINDOW, None));
    s := Opened(s, "b", 0);
    assert s.challenges == Rows(1, 0, 0, 0, 0)[..2];
  }

  lemma OneTakesFive(s0: State, now: int, from: int) returns (s: State)
    requires Stands(s0, Rows(1, 0, 0, 0, 0)[..2], now) && 0 <= now < CHALLENGE_TTL && from < now <= from + FAILURE_WINDOW
    ensures Stands(s, Rows(1, 5, 0, 0, 0)[..2], now) && GuessesIn(s, "u", from) == GuessesIn(s0, "u", from) + 5
  {
    SumOfFour(1, 0, 0, 0, 0, Window("u", now - FAILURE_WINDOW, None));
    s := Burst(s0, 0, now, 5, from);
    assert s.challenges == Rows(1, 5, 0, 0, 0)[..2];
  }

  /** Two challenges begun at minute 0 take five wrong codes and `second` more at `now`. */
  lemma FirstTwo(now: int, second: nat, from: int) returns (s: State)
    requires 0 <= now < CHALLENGE_TTL && second <= 5 && from < now <= from + FAILURE_WINDOW
    ensures Stands(s, Rows(1, 5, second, 0, 0)[..2], now) && GuessesIn(s, "u", from) == 5 + second
  {
    s := TwoOpen();
    s := OneTakesFive(s, now, from);
    SumOfFour(1, 5, 0, 0, 0, Window("u", now - FAILURE_WINDOW, None));
    s := Burst(s, 1, now, second, from);
    assert s.challenges == Rows(1, 5, second, 0, 0)[..2];
  }

  /** Two more are begun at `later`, when the account is not locked out. */
  lemma TwoMore(s0: State, before: int, later: int, second: nat) returns (s: State)
    requires Stands(s0, Rows(1, 5, second, 0, 0)[..2], before) && before <= later && later > 0
    requires second < 5 || later >= FAILURE_WINDOW
    ensures Stands(s, Rows(later, 5, second, 0, 0), later) && s.guesses == s0.guesses
  {
    assert Rows(1, 5, second, 0, 0)[..2] == Rows(later, 5, second, 0, 0)[..2];
    SumOfFour(later, 5, second, 0, 0, Window("u", later - FAILURE_WINDOW, None));
    s := Opened(s0, "c", later);
    assert s.challenges == Rows(later, 5, second, 0, 0)[..3];
    s := Opened(s, "d", later);
    assert s.challenges == Rows(later, 5, second, 0, 0);
  }

  lemma ThirdTakesFive(s0: State, later: int, now: int, second: nat, from: int) returns (s: State)
    requires Stands(s0, Rows(later, 5, second, 0, 0), later) && second <= 5
    requires 0 < later <= now < later + CHALLENGE_TTL && now >= FAILURE_WINDOW && from < now <= from + FAILURE_WINDOW
    ensures Stands(s, Rows(later, 5, second, 5, 0), now) && GuessesIn(s, "u", from) == GuessesIn(s0, "u", from) + 5
  {
    SumOfFour(later, 5, second, 0, 0, Window("u", now - FAILURE_WINDOW, None));
    s := Burst(s0, 2, now, 5, from);
    assert s.challenges == Rows(later, 5, second, 5, 0);
  }

  /** They take ten at `now`, when the first two have left the window. */
  lemma LastTwo(s0: State, later: int, now: int, second: nat, from: int) returns (s: State)
    requires Stands(s0, Rows(later, 5, second, 0, 0), later) && second <= 5
    requires 0 < later <= now < later + CHALLENGE_TTL && now >= FAILURE_WINDOW && from < now <= from + FAILURE_WINDOW
    ensures Stands(s, Rows(later, 5, second, 5, 5), now) && GuessesIn(s, "u", from) == GuessesIn(s0, "u", from) + 10
  {
    s := ThirdTakesFive(s0, later, now, second, from);
    SumOfFour(later, 5, second, 5, 0, Window("u", now - FAILURE_WINDOW, None));
    s := Burst(s, 3, now, 5, from);
    assert s.challenges == Rows(later, 5, second, 5, 5);
  }

  /** A run in which challenges created within 15 minutes of each other carry 19
      wrong codes: two begun at minute 0 take nine, two more begun at minute 11 take
      ten at minute 15, when the first two have just left the window. */
  lemma NineteenIsReached()
    ensures exists s ::
              Reachable(s) && SumAttempts(s.challenges, Window("u", -1, Some(15 * MINUTE - 1))) == 19
  {
    var s := FirstTwo(0, 4, -1);
    s := TwoMore(s, 0, 11 * MINUTE, 4);
    s := LastTwo(s, 11 * MINUTE, 15 * MINUTE, 4, 15 * MINUTE - 1);
    SumOfFour(11 * MINUTE, 5, 4, 5, 5, Window("u", -1, Some(FAILURE_WINDOW - 1)));
  }

  /** A run in which 20 wrong codes are guessed within 15 minutes: ten at the end of the
      first two challenges' life, ten more on two begun when those leave the window. */
  lemma TwentyIsReached()
    ensures exists states, actions, from :: IsRun(states, actions) && WrongCodes(states, actions, |actions|, "u", from) == 20
  {
    var first, from := CHALLENGE_TTL - 1, CHALLENGE_TTL - 2;
    var s := FirstTwo(first, 5, from);
    s := TwoMore(s, first, FAILURE_WINDOW, 5);
    s := LastTwo(s, FAILURE_WINDOW, FAILURE_WINDOW, 5, from);
    var states, actions :| IsRun(states, actions) && states[|actions|] == s;
    LogIsComplete(states, actions, |actions|, "u", from);
  }
}
