/** Rolling-window limits: password-reset emails per account
    (lib/actions/password-reset.ts) and delegate messages per MUN
    (lib/actions/organizer-communications.ts). Both count under a row lock, so each
    request is one atomic step; times are milliseconds. */
module Throttles {
  import opened Common

  type Owner = string
  type TokenHash = string

  const HOUR := 60 * 60 * 1000
  const RESET_COOLDOWN := 60 * 1000
  const RESETS_PER_HOUR := 3
  const RESET_TOKEN_TTL := 60 * 60 * 1000
  const MAX_SENDS_PER_HOUR := 5

  /** Something sent on behalf of an account or a MUN. */
  datatype Event = Event(owner: Owner, time: int)

  /** Events of one owner after `from` and up to `to`. */
  ghost function CountIn(log: seq<Event>, owner: Owner, from: int, to: int): nat {
    if log == [] then 0
    else
      var last := log[|log| - 1];
      CountIn(log[..|log| - 1], owner, from, to) + (if last.owner == owner && from < last.time <= to then 1 else 0)
  }

  /** Which events of the log those are. */
  ghost function EventsIn(log: seq<Event>, owner: Owner, from: int, to: int): set<nat> {
    set i: nat | i < |log| && log[i].owner == owner && from < log[i].time <= to
  }

  lemma EventsSnoc(log: seq<Event>, e: Event, owner: Owner, from: int, to: int)
    ensures EventsIn(log + [e], owner, from, to)
         == EventsIn(log, owner, from, to) + if e.owner == owner && from < e.time <= to then {|log|} else {}
  {
    forall i: nat | i < |log| ensures (log + [e])[i] == log[i] {}
  }

  lemma {:induction false} CountIsEvents(log: seq<Event>, owner: Owner, from: int, to: int)
    ensures CountIn(log, owner, from, to) == |EventsIn(log, owner, from, to)|
  {
    if log != [] {
      var n := |log| - 1;
      CountIsEvents(log[..n], owner, from, to);
      EventsSnoc(log[..n], log[n], owner, from, to);
      assert log[..n] + [log[n]] == log && n !in EventsIn(log[..n], owner, from, to);
    }
  }

  ghost predicate Sorted(log: seq<Event>) {
    forall i, j :: 0 <= i <= j < |log| ==> log[i].time <= log[j].time
  }

  /** Event `k` came when its owner had fewer than `limit` in the hour before it. */
  ghost predicate UnderLimit(log: seq<Event>, k: nat, limit: nat)
    requires k < |log|
  {
    CountIn(log[..k], log[k].owner, log[k].time - HOUR, log[k].time) < limit
  }

  ghost predicate WithinLimit(log: seq<Event>, limit: nat) {
    Sorted(log) && forall k :: 0 <= k < |log| ==> UnderLimit(log, k, limit)
  }

  lemma {:induction false} CountMonotone(log: seq<Event>, owner: Owner, from: int, to: int, from': int, to': int)
    requires from' <= from && forall e :: e in log && from < e.time <= to ==> e.time <= to'
    ensures CountIn(log, owner, from, to) <= CountIn(log, owner, from', to')
  {
    if log != [] {
      CountMonotone(log[..|log| - 1], owner, from, to, from', to');
    }
  }

  lemma PrefixWithinLimit(log: seq<Event>, n: nat, limit: nat)
    requires WithinLimit(log, limit) && n <= |log|
    ensures WithinLimit(log[..n], limit)
  {
    forall i | 0 <= i < n
      ensures UnderLimit(log[..n], i, limit)
    {
      assert log[..n][..i] == log[..i] && UnderLimit(log, i, limit);
    }
  }

  /** Any hour at all, not just the hours before an event, holds at most `limit`. */
  lemma {:induction false} EveryHourIsWithinLimit(log: seq<Event>, limit: nat, owner: Owner, from: int)
    requires WithinLimit(log, limit)
    ensures CountIn(log, owner, from, from + HOUR) <= limit
    decreases |log|
  {
    if log != [] {
      var k := |log| - 1;
      if log[k].owner == owner && from < log[k].time <= from + HOUR {
        assert UnderLimit(log, k, limit);
        CountMonotone(log[..k], owner, from, from + HOUR, log[k].time - HOUR, log[k].time);
      } else {
        PrefixWithinLimit(log, k, limit);
        EveryHourIsWithinLimit(log[..k], limit, owner, from);
      }
    }
  }

  lemma UnderLimitAfterAppend(log: seq<Event>, e: Event, k: nat, limit: nat)
    requires k <= |log|
    requires if k < |log| then UnderLimit(log, k, limit) else CountIn(log, e.owner, e.time - HOUR, e.time) < limit
    ensures UnderLimit(log + [e], k, limit)
  {
    var before, event := (log + [e])[..k], (log + [e])[k];
    if k == |log| {
      assert before == log && event == e;
    } else {
      assert before == log[..k] && event == log[k];
    }
  }

  lemma AppendWithinLimit(log: seq<Event>, limit: nat, e: Event)
    requires WithinLimit(log, limit) && forall i :: 0 <= i < |log| ==> log[i].time <= e.time
    requires CountIn(log, e.owner, e.time - HOUR, e.time) < limit
    ensures WithinLimit(log + [e], limit)
  {
    forall k | 0 <= k < |log + [e]|
      ensures UnderLimit(log + [e], k, limit)
    {
      UnderLimitAfterAppend(log, e, k, limit);
    }
  }

  // ---------------------------------------------------------------------------
  // Password resets
  // ---------------------------------------------------------------------------

  datatype Token = Token(userId: Owner, hash: TokenHash, createdAt: int, expiresAt: int, usedAt: Option<int>)

  /** The token table, the emails sent and the clock; the last two are history. */
  datatype Resets = Resets(tokens: seq<Token>, emails: seq<Event>, clock: int)

  predicate IsRecent(t: Token, userId: Owner, now: int) {
    t.userId == userId && t.createdAt > now - HOUR
  }

  function CountRecent(tokens: seq<Token>, userId: Owner, now: int): nat {
    if tokens == [] then 0
    else CountRecent(tokens[..|tokens| - 1], userId, now) + (if IsRecent(tokens[|tokens| - 1], userId, now) then 1 else 0)
  }

  /** The newest recent token, which is the first of the descending query, is less
      than a minute old: some recent token is. */
  predicate CoolingDown(tokens: seq<Token>, userId: Owner, now: int) {
    exists i :: 0 <= i < |tokens| && IsRecent(tokens[i], userId, now) && now - tokens[i].createdAt < RESET_COOLDOWN
  }

  /** `userId` is the account the email belongs to, if there is one. */
  function RequestReset(s: Resets, userId: Option<Owner>, hash: TokenHash, now: int): Resets {
    if userId == None then s
    else
      var u := userId.value;
      if CoolingDown(s.tokens, u, now) || CountRecent(s.tokens, u, now) >= RESETS_PER_HOUR then s
      else Resets(s.tokens + [Token(u, hash, now, now + RESET_TOKEN_TTL, None)], s.emails + [Event(u, now)], now)
  }

  function SpendAll(tokens: seq<Token>, userId: Owner, now: int): seq<Token> {
    seq(|tokens|, i requires 0 <= i < |tokens| =>
      if tokens[i].userId == userId && tokens[i].usedAt == None then tokens[i].(usedAt := Some(now)) else tokens[i])
  }

  /** A staff set-password link: retires the older links and adds a token, without
      an email from this path and without a throttle. */
  function MintLink(s: Resets, userId: Owner, hash: TokenHash, expiresAt: int, now: int): Resets {
    s.(tokens := SpendAll(s.tokens, userId, now) + [Token(userId, hash, now, expiresAt, None)], clock := now)
  }

  predicate IsLive(t: Token, hash: TokenHash, now: int) {
    t.hash == hash && t.usedAt == None && t.expiresAt > now
  }

  function FindLive(tokens: seq<Token>, hash: TokenHash, now: int): (i: nat)
    ensures i <= |tokens| && (i < |tokens| ==> IsLive(tokens[i], hash, now))
    ensures forall j :: 0 <= j < i ==> !IsLive(tokens[j], hash, now)
  {
    if tokens == [] || IsLive(tokens[0], hash, now) then 0 else 1 + FindLive(tokens[1..], hash, now)
  }

  /** The conditional UPDATE that consumes a link; with it goes every other
      outstanding link of the account. */
  function Consume(s: Resets, hash: TokenHash, now: int): (Resets, bool) {
    var i := FindLive(s.tokens, hash, now);
    if i == |s.tokens| then (s, false)
    else (s.(tokens := SpendAll(s.tokens, s.tokens[i].userId, now), clock := now), true)
  }

  /** Where in the table the account's tokens of the last hour are. */
  ghost function RecentAt(tokens: seq<Token>, u: Owner, now: int): set<nat> {
    set i: nat | i < |tokens| && tokens[i].userId == u && tokens[i].createdAt > now - 60 * 60 * 1000
  }

  lemma RecentSnoc(tokens: seq<Token>, t: Token, u: Owner, now: int)
    ensures RecentAt(tokens + [t], u, now) == RecentAt(tokens, u, now) + if IsRecent(t, u, now) then {|tokens|} else {}
  {
    forall i: nat | i < |tokens| ensures (tokens + [t])[i] == tokens[i] {}
  }

  lemma {:induction false} RecentTokens(tokens: seq<Token>, u: Owner, now: int)
    ensures CountRecent(tokens, u, now) == |RecentAt(tokens, u, now)|
  {
    if tokens != [] {
      var n := |tokens| - 1;
      RecentTokens(tokens[..n], u, now);
      RecentSnoc(tokens[..n], tokens[n], u, now);
      assert tokens[..n] + [tokens[n]] == tokens && n !in RecentAt(tokens[..n], u, now);
    }
  }

  /** The token table as the object the three entry points update. */
  class PasswordResets {
    var tokens: seq<Token>
    ghost var emails: seq<Event>
    ghost var clock: int

    ghost function Model(): Resets
      reads this
    {
      Resets(tokens, emails, clock)
    }

    constructor ()
      ensures Model() == Resets([], [], 0)
    {
      tokens, emails, clock := [], [], 0;
    }

    method RequestPasswordReset(userId: Option<Owner>, hash: TokenHash, now: int) returns (sent: bool)
      modifies this
      ensures Model() == RequestReset(old(Model()), userId, hash, now)
      ensures sent <==>
                userId.Some?
                && (forall i :: 0 <= i < |old(tokens)| && old(tokens)[i].userId == userId.value ==>
                     now - old(tokens)[i].createdAt >= 60 * 1000)
                && |RecentAt(old(tokens), userId.value, now)| < 3
      ensures tokens == if sent then old(tokens) + [Token(userId.value, hash, now, now + 60 * 60 * 1000, None)] else old(tokens)
      ensures emails == if sent then old(emails) + [Event(userId.value, now)] else old(emails)
    {
      if userId == None {
        return false;
      }
      var u := userId.value;
      var recent, coolingDown := 0, false;
      for i := 0 to |tokens|
        invariant recent == CountRecent(tokens[..i], u, now)
        invariant coolingDown <==> CoolingDown(tokens[..i], u, now)
      {
        assert tokens[..i + 1][..i] == tokens[..i];
        if IsRecent(tokens[i], u, now) {
          recent := recent + 1;
          if now - tokens[i].createdAt < RESET_COOLDOWN {
            assert IsRecent(tokens[..i + 1][i], u, now);
            coolingDown := true;
          }
        }
        assert coolingDown <==> CoolingDown(tokens[..i + 1], u, now) by {
          CoolingDownSnoc(tokens[..i], tokens[i], u, now);
          assert tokens[..i] + [tokens[i]] == tokens[..i + 1];
        }
      }
      assert tokens[..|tokens|] == tokens;
      RecentTokens(tokens, u, now);
      if coolingDown || recent >= RESETS_PER_HOUR {
        return false;
      }
      tokens := tokens + [Token(u, hash, now, now + RESET_TOKEN_TTL, None)];
      emails, clock := emails + [Event(u, now)], now;
      sent := true;
    }

    /** The account's only link that still works is the new one. No link of another
        account is touched, and none that was used changes. */
    method MintSetPasswordLink(userId: Owner, hash: TokenHash, expiresAt: int, now: int)
      modifies this
      ensures Model() == MintLink(old(Model()), userId, hash, expiresAt, now)
      ensures |tokens| == |old(tokens)| + 1
      ensures forall i :: 0 <= i < |tokens| && tokens[i].userId == userId ==> (tokens[i].usedAt == None <==> i == |tokens| - 1)
      ensures forall i :: 0 <= i < |old(tokens)| && (tokens[i].userId != userId || old(tokens)[i].usedAt.Some?) ==>
                tokens[i] == old(tokens)[i]
      ensures expiresAt > now ==> IsLive(tokens[|tokens| - 1], hash, now) && tokens[|tokens| - 1].userId == userId
    {
      tokens := SpendAll(tokens, userId, now);
      tokens := tokens + [Token(userId, hash, now, expiresAt, None)];
      clock := now;
    }

    method ResetPassword(hash: TokenHash, now: int) returns (ok: bool)
      modifies this
      ensures (Model(), ok) == Consume(old(Model()), hash, now)
    {
      var i := FindLive(tokens, hash, now);
      if i == |tokens| {
        return false;
      }
      var userId := tokens[i].userId;
      var consumed := tokens[i := tokens[i].(usedAt := Some(now))];
      assert SpendAll(consumed, userId, now) == SpendAll(tokens, userId, now);
      tokens := SpendAll(consumed, userId, now);
      clock := now;
      ok := true;
    }
  }

  lemma CoolingDownSnoc(tokens: seq<Token>, t: Token, userId: Owner, now: int)
    ensures CoolingDown(tokens + [t], userId, now)
       <==> CoolingDown(tokens, userId, now) || (IsRecent(t, userId, now) && now - t.createdAt < RESET_COOLDOWN)
  {
    var all := tokens + [t];
    if i :| 0 <= i < |tokens| && IsRecent(tokens[i], userId, now) && now - tokens[i].createdAt < RESET_COOLDOWN {
      assert all[i] == tokens[i];
    }
    assert all[|tokens|] == t;
  }

  datatype ResetAction =
    | Request(account: Option<Owner>, hash: TokenHash, now: int)
    | Mint(userId: Owner, hash: TokenHash, expiresAt: int, now: int)
    | Use(hash: TokenHash, now: int)

  function ResetStep(s: Resets, a: ResetAction): Resets {
    match a
    case Request(account, hash, now) => RequestReset(s, account, hash, now)
    case Mint(userId, hash, expiresAt, now) => MintLink(s, userId, hash, expiresAt, now)
    case Use(hash, now) => Consume(s, hash, now).0
  }

  ghost predicate IsResetRun(states: seq<Resets>, actions: seq<ResetAction>) {
    |states| == |actions| + 1 && states[0] == Resets([], [], 0) &&
    forall i :: 0 <= i < |actions| ==>
      states[i].clock <= actions[i].now && states[i + 1] == ResetStep(states[i], actions[i])
  }

  ghost predicate Spaced(emails: seq<Event>) {
    forall i, j :: 0 <= i < j < |emails| && emails[i].owner == emails[j].owner
      ==> emails[j].time - emails[i].time >= RESET_COOLDOWN
  }

  ghost predicate Tokened(s: Resets) {
    forall i :: 0 <= i < |s.emails| ==> s.emails[i].time <= s.clock && HasToken(s.tokens, s.emails[i])
  }

  ghost predicate Covered(emails: seq<Event>, tokens: seq<Token>, clock: int) {
    forall u, from :: CountIn(emails, u, from, clock) <= CountTokens(tokens, u, from)
  }

  /** Every email has its token, and the emails keep to the limit and the cooldown. */
  ghost predicate ResetInv(s: Resets) {
    WithinLimit(s.emails, RESETS_PER_HOUR) && Spaced(s.emails) && Tokened(s) && Covered(s.emails, s.tokens, s.clock)
  }

  ghost predicate HasToken(tokens: seq<Token>, e: Event) {
    exists i :: 0 <= i < |tokens| && tokens[i].userId == e.owner && tokens[i].createdAt == e.time
  }

  ghost function CountTokens(tokens: seq<Token>, userId: Owner, from: int): nat {
    CountRecent(tokens, userId, from + HOUR)
  }

  lemma {:induction false} SpendingKeepsCounts(tokens: seq<Token>, userId: Owner, now: int, u: Owner, t: int)
    ensures CountRecent(SpendAll(tokens, userId, now), u, t) == CountRecent(tokens, u, t)
    decreases |tokens|
  {
    if tokens != [] {
      var n := |tokens| - 1;
      assert SpendAll(tokens, userId, now)[..n] == SpendAll(tokens[..n], userId, now);
      SpendingKeepsCounts(tokens[..n], userId, now, u, t);
    }
  }

  lemma EmailsUpTo(s: Resets, now: int, u: Owner, from: int)
    requires Tokened(s) && Covered(s.emails, s.tokens, s.clock) && s.clock <= now
    ensures CountIn(s.emails, u, from, now) <= CountTokens(s.tokens, u, from)
  {
    forall e | e in s.emails
      ensures e.time <= s.clock
    {
      var i :| 0 <= i < |s.emails| && s.emails[i] == e;
    }
    CountMonotone(s.emails, u, from, now, from, s.clock);
    assert CountIn(s.emails, u, from, s.clock) <= CountTokens(s.tokens, u, from);
  }

  lemma TokenKept(tokens: seq<Token>, more: seq<Token>, e: Event)
    requires HasToken(tokens, e) && |tokens| <= |more|
    requires forall k :: 0 <= k < |tokens| ==> more[k].userId == tokens[k].userId && more[k].createdAt == tokens[k].createdAt
    ensures HasToken(more, e)
  {
    var k :| 0 <= k < |tokens| && tokens[k].userId == e.owner && tokens[k].createdAt == e.time;
    assert more[k].userId == e.owner;
  }

  lemma IssueIsSpaced(s: Resets, u: Owner, now: int)
    requires ResetInv(s) && s.clock <= now && !CoolingDown(s.tokens, u, now)
    ensures Spaced(s.emails + [Event(u, now)])
  {
    forall i | 0 <= i < |s.emails| && s.emails[i].owner == u
      ensures now - s.emails[i].time >= RESET_COOLDOWN
    {
      var k :| 0 <= k < |s.tokens| && s.tokens[k].userId == u && s.tokens[k].createdAt == s.emails[i].time;
      assert !(IsRecent(s.tokens[k], u, now) && now - s.tokens[k].createdAt < RESET_COOLDOWN);
    }
  }

  lemma IssueIsCovered(s: Resets, u: Owner, t: Token, now: int)
    requires ResetInv(s) && s.clock <= now && t.userId == u && t.createdAt == now
    ensures Covered(s.emails + [Event(u, now)], s.tokens + [t], now)
  {
    forall v, from
      ensures CountIn(s.emails + [Event(u, now)], v, from, now) <= CountTokens(s.tokens + [t], v, from)
    {
      EmailsUpTo(s, now, v, from);
    }
  }

  lemma IssueKeeps(s: Resets, u: Owner, hash: TokenHash, now: int)
    requires ResetInv(s) && s.clock <= now
    requires !CoolingDown(s.tokens, u, now) && CountRecent(s.tokens, u, now) < RESETS_PER_HOUR
    ensures ResetInv(RequestReset(s, Some(u), hash, now))
  {
    var t := Token(u, hash, now, now + RESET_TOKEN_TTL, None);
    EmailsUpTo(s, now, u, now - HOUR);
    AppendWithinLimit(s.emails, RESETS_PER_HOUR, Event(u, now));
    IssueIsSpaced(s, u, now);
    IssueIsCovered(s, u, t, now);
    var s' := RequestReset(s, Some(u), hash, now);
    forall i | 0 <= i < |s'.emails|
      ensures HasToken(s'.tokens, s'.emails[i])
    {
      if i < |s.emails| { TokenKept(s.tokens, s'.tokens, s.emails[i]); } else { assert s'.tokens[|s.tokens|] == t; }
    }
  }

  lemma SpendKeeps(s: Resets, userId: Owner, extra: seq<Token>, now: int)
    requires ResetInv(s) && s.clock <= now && |extra| <= 1
    ensures ResetInv(s.(tokens := SpendAll(s.tokens, userId, now) + extra, clock := now))
  {
    var spent := SpendAll(s.tokens, userId, now);
    var tokens := spent + extra;
    forall i | 0 <= i < |s.emails| ensures HasToken(tokens, s.emails[i]) { TokenKept(s.tokens, tokens, s.emails[i]); }
    forall u, from
      ensures CountIn(s.emails, u, from, now) <= CountTokens(tokens, u, from)
    {
      EmailsUpTo(s, now, u, from);
      SpendingKeepsCounts(s.tokens, userId, now, u, from + HOUR);
      if extra == [] {
        assert tokens == spent;
      } else {
        assert extra == [extra[0]];
      }
    }
  }

  lemma ResetStepKeeps(s: Resets, a: ResetAction)
    requires ResetInv(s) && s.clock <= a.now
    ensures ResetInv(ResetStep(s, a))
  {
    match a {
      case Request(account, hash, now) =>
        if ResetStep(s, a) != s { IssueKeeps(s, account.value, hash, now); }
      case Mint(userId, hash, expiresAt, now) =>
        SpendKeeps(s, userId, [Token(userId, hash, now, expiresAt, None)], now);
      case Use(hash, now) =>
        var i := FindLive(s.tokens, hash, now);
        if i < |s.tokens| {
          SpendKeeps(s, s.tokens[i].userId, [], now);
          assert SpendAll(s.tokens, s.tokens[i].userId, now) + [] == SpendAll(s.tokens, s.tokens[i].userId, now);
        }
    }
  }

  lemma {:induction false} ResetRunKeeps(states: seq<Resets>, actions: seq<ResetAction>, n: nat)
    requires IsResetRun(states, actions) && n < |states|
    ensures ResetInv(states[n])
    decreases n
  {
    if n > 0 {
      ResetRunKeeps(states, actions, n - 1);
      ResetStepKeeps(states[n - 1], actions[n - 1]);
      assert states[n - 1 + 1] == ResetStep(states[n - 1], actions[n - 1]);
    }
  }

  /** In every run an account gets at most three reset emails in any hour, and any
      two are at least a minute apart. */
  lemma ResetEmailsAreLimited(states: seq<Resets>, actions: seq<ResetAction>, n: nat, userId: Owner, from: int, i: nat, j: nat)
    requires IsResetRun(states, actions) && n < |states|
    ensures |EventsIn(states[n].emails, userId, from, from + 60 * 60 * 1000)| <= 3
    ensures i < j < |states[n].emails| && states[n].emails[i].owner == states[n].emails[j].owner
        ==> states[n].emails[j].time - states[n].emails[i].time >= 60 * 1000
  {
    ResetRunKeeps(states, actions, n);
    EveryHourIsWithinLimit(states[n].emails, RESETS_PER_HOUR, userId, from);
    CountIsEvents(states[n].emails, userId, from, from + HOUR);
  }

  ghost predicate Distinct(tokens: seq<Token>) {
    forall i, j :: 0 <= i < j < |tokens| ==> tokens[i].hash != tokens[j].hash
  }

  /** The column is unique: no step issues a hash that is already stored. */
  ghost predicate IssuesFresh(s: Resets, a: ResetAction) {
    a.Use? || forall t :: t in s.tokens ==> t.hash != a.hash
  }

  lemma {:induction false} TokensStayDistinct(states: seq<Resets>, actions: seq<ResetAction>, n: nat)
    requires IsResetRun(states, actions) && n < |states|
    requires forall k :: 0 <= k < |actions| ==> IssuesFresh(states[k], actions[k])
    ensures Distinct(states[n].tokens)
    decreases n
  {
    if n > 0 {
      TokensStayDistinct(states, actions, n - 1);
      assert states[n - 1 + 1] == ResetStep(states[n - 1], actions[n - 1]) && IssuesFresh(states[n - 1], actions[n - 1]);
    }
  }

  lemma {:induction false} SpentForGood(states: seq<Resets>, actions: seq<ResetAction>, m: nat, n: nat, i: nat)
    requires IsResetRun(states, actions) && m <= n < |states| && i < |states[m].tokens| && states[m].tokens[i].usedAt.Some?
    ensures i < |states[n].tokens| && states[n].tokens[i] == states[m].tokens[i]
    decreases n
  {
    if m < n {
      SpentForGood(states, actions, m, n - 1, i);
      assert states[n - 1 + 1] == ResetStep(states[n - 1], actions[n - 1]);
    }
  }

  /** In every run a link works at most once; and after one of an account's links
      worked, no other link the account had at that moment works any more. */
  lemma LinksWorkOnce(states: seq<Resets>, actions: seq<ResetAction>, m: nat, n: nat, j: nat)
    requires IsResetRun(states, actions) && m < n < |actions| && actions[m].Use? && actions[n].Use?
    requires forall k :: 0 <= k < |actions| ==> IssuesFresh(states[k], actions[k])
    requires Consume(states[m], actions[m].hash, actions[m].now).1
    requires j < |states[m].tokens| && states[m].tokens[j].hash == actions[n].hash
    requires states[m].tokens[j].userId
          == states[m].tokens[FindLive(states[m].tokens, actions[m].hash, actions[m].now)].userId
    ensures !Consume(states[n], actions[n].hash, actions[n].now).1
  {
    assert states[m + 1] == ResetStep(states[m], actions[m]);
    SpentForGood(states, actions, m + 1, n, j);
    TokensStayDistinct(states, actions, n);
    var live := FindLive(states[n].tokens, actions[n].hash, actions[n].now);
    assert live < |states[n].tokens| ==> live == j;
  }

  /** The link was sent or handed out with this hash, and until when it was to work. */
  ghost predicate Issued(a: ResetAction, t: Token) {
    match a
    case Request(account, hash, now) =>
      account == Some(t.userId) && hash == t.hash && t.createdAt == now && t.expiresAt == now + 60 * 60 * 1000
    case Mint(userId, hash, expiresAt, now) =>
      userId == t.userId && hash == t.hash && t.createdAt == now && t.expiresAt == expiresAt
    case Use(_, _) => false
  }

  lemma {:induction false} WasIssued(states: seq<Resets>, actions: seq<ResetAction>, n: nat, i: nat) returns (m: nat)
    requires IsResetRun(states, actions) && n < |states| && i < |states[n].tokens|
    ensures m < n && Issued(actions[m], states[n].tokens[i])
    decreases n
  {
    assert n > 0 && states[n - 1 + 1] == ResetStep(states[n - 1], actions[n - 1]);
    if i < |states[n - 1].tokens| {
      m := WasIssued(states, actions, n - 1, i);
    } else {
      m := n - 1;
    }
  }

  /** In every run a link that works was issued earlier with that hash and has neither
      reached its expiry nor been used; a link that is so works, and what it does is mark
      every unused link of its account, and no other, as used. */
  lemma LinkWorksWhileLive(states: seq<Resets>, actions: seq<ResetAction>, n: nat) returns (m: nat, i: nat)
    requires IsResetRun(states, actions) && n < |actions| && actions[n].Use?
    ensures Consume(states[n], actions[n].hash, actions[n].now).1
       <==> exists k :: 0 <= k < |states[n].tokens| && states[n].tokens[k].hash == actions[n].hash
                     && states[n].tokens[k].usedAt == None && actions[n].now < states[n].tokens[k].expiresAt
    ensures Consume(states[n], actions[n].hash, actions[n].now).1 ==>
              m < n && i < |states[n].tokens| && Issued(actions[m], states[n].tokens[i])
              && states[n].tokens[i].hash == actions[n].hash && states[n].tokens[i].usedAt == None
              && actions[n].now < states[n].tokens[i].expiresAt
              && |states[n + 1].tokens| == |states[n].tokens|
              && forall k :: 0 <= k < |states[n].tokens| ==>
                   var before, after := states[n].tokens[k], states[n + 1].tokens[k];
                   after == if before.userId == states[n].tokens[i].userId && before.usedAt == None
                            then before.(usedAt := Some(actions[n].now)) else before
  {
    m, i := 0, FindLive(states[n].tokens, actions[n].hash, actions[n].now);
    if i < |states[n].tokens| {
      m := WasIssued(states, actions, n, i);
      assert states[n + 1] == ResetStep(states[n], actions[n]);
    }
  }

  // ---------------------------------------------------------------------------
  // Delegate messages
  // ---------------------------------------------------------------------------

  ghost function CountSends(log: seq<Event>, munId: Owner, since: int, clock: int): nat {
    CountIn(log, munId, since, clock)
  }

  /** One send: counted at `countedAt`, its audit row written at `writtenAt`, both
      under the lock on the MUN row. */
  datatype Send = Send(munId: Owner, countedAt: int, writtenAt: int)

  ghost function SendStep(log: seq<Event>, a: Send): seq<Event> {
    if CountSends(log, a.munId, a.countedAt - HOUR, a.countedAt) >= MAX_SENDS_PER_HOUR then log
    else log + [Event(a.munId, a.writtenAt)]
  }

  ghost predicate IsSendRun(logs: seq<seq<Event>>, sends: seq<Send>) {
    |logs| == |sends| + 1 && logs[0] == [] &&
    forall i :: 0 <= i < |sends| ==>
      sends[i].countedAt <= sends[i].writtenAt && (forall e :: e in logs[i] ==> e.time <= sends[i].countedAt)
      && logs[i + 1] == SendStep(logs[i], sends[i])
  }

  lemma SendStepWithinLimit(log: seq<Event>, a: Send)
    requires WithinLimit(log, MAX_SENDS_PER_HOUR)
    requires a.countedAt <= a.writtenAt && forall e :: e in log ==> e.time <= a.countedAt
    ensures WithinLimit(SendStep(log, a), MAX_SENDS_PER_HOUR)
  {
    if SendStep(log, a) != log {
      CountMonotone(log, a.munId, a.writtenAt - HOUR, a.writtenAt, a.countedAt - HOUR, a.countedAt);
      forall i | 0 <= i < |log| ensures log[i].time <= a.writtenAt { assert log[i] in log; }
      AppendWithinLimit(log, MAX_SENDS_PER_HOUR, Event(a.munId, a.writtenAt));
    }
  }

  lemma {:induction false} SendsAreWithinLimit(logs: seq<seq<Event>>, sends: seq<Send>, n: nat)
    requires IsSendRun(logs, sends) && n < |logs|
    ensures WithinLimit(logs[n], MAX_SENDS_PER_HOUR)
    decreases n
  {
    if n > 0 {
      SendsAreWithinLimit(logs, sends, n - 1);
      SendStepWithinLimit(logs[n - 1], sends[n - 1]);
      assert logs[n - 1 + 1] == SendStep(logs[n - 1], sends[n - 1]);
    }
  }

  /** In every run a MUN's delegates get at most five messages in any hour, and one is
      refused only to a MUN that sent exactly five in the hour before. */
  lemma MessagesAreLimited(logs: seq<seq<Event>>, sends: seq<Send>, n: nat, munId: Owner, from: int)
    requires IsSendRun(logs, sends) && n < |logs|
    ensures |EventsIn(logs[n], munId, from, from + 60 * 60 * 1000)| <= 5
    ensures n < |sends| ==>
              var a := sends[n];
              logs[n + 1] == if |EventsIn(logs[n], a.munId, a.countedAt - 60 * 60 * 1000, a.countedAt)| == 5 then logs[n]
                             else logs[n] + [Event(a.munId, a.writtenAt)]
  {
    SendsAreWithinLimit(logs, sends, n);
    EveryHourIsWithinLimit(logs[n], MAX_SENDS_PER_HOUR, munId, from);
    CountIsEvents(logs[n], munId, from, from + HOUR);
    if n < |sends| {
      var a := sends[n];
      EveryHourIsWithinLimit(logs[n], MAX_SENDS_PER_HOUR, a.munId, a.countedAt - HOUR);
      CountIsEvents(logs[n], a.munId, a.countedAt - HOUR, a.countedAt);
    }
  }
}
