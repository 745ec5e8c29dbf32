/**
 The log of model calls and the monthly rollups kept beside it: one per tenant, month and model,
 one per tenant, user and month. A rollup takes its month from the clock read before the log row
 is inserted; the log row is stamped when it is inserted.
 */
module UsageLedger {
  import opened Wrappers
  import opened Pricing

  /** An instant in UTC: year, month, and the ticks since the month began. */
  datatype Instant = Instant(year: nat, month: nat, tick: nat)

  predicate ValidInstant(t: Instant) { 1 <= t.month <= 12 }

  predicate Before(a: Instant, b: Instant) {
    || a.year < b.year
    || (a.year == b.year && a.month < b.month)
    || (a.year == b.year && a.month == b.month && a.tick < b.tick)
  }

  function Month(t: Instant): int { t.year * 12 + t.month - 1 }

  function MonthBounds(year: nat, month: nat): (Instant, Instant) {
    (Instant(year, month, 0), if month == 12 then Instant(year + 1, 1, 0) else Instant(year, month + 1, 0))
  }

  /** `created_at >= start AND created_at < end` selects the instants of the month. */
  predicate InBounds(t: Instant, year: nat, month: nat) {
    !Before(t, MonthBounds(year, month).0) && Before(t, MonthBounds(year, month).1)
  }

  /** Instants are ordered by month, and within a month by their ticks. */
  lemma BeforeFollowsTime(a: Instant, b: Instant)
    requires 1 <= a.month <= 12 && 1 <= b.month <= 12
    ensures Before(a, b) <==> Month(a) < Month(b) || (Month(a) == Month(b) && a.tick < b.tick)
    ensures Month(a) == Month(b) <==> a.year == b.year && a.month == b.month
  {
  }

  lemma BoundsAreTheMonth(t: Instant, year: nat, month: nat)
    requires 1 <= t.month <= 12 && 1 <= month <= 12
    ensures InBounds(t, year, month) <==> Month(t) == year * 12 + month - 1
  {
  }

  /** The counters of a log row or a rollup row. */
  datatype Counters = Counters(tokens: TokenUsage, total: nat, cost: int, billed: int, requests: nat)
  {
    function Plus(c: Counters): Counters {
      Counters(tokens.Plus(c.tokens), total + c.total, cost + c.cost, billed + c.billed, requests + c.requests)
    }
  }

  const ZERO := Counters(TokenUsage(0, 0, 0, 0, 0), 0, 0, 0, 0)

  datatype Measure = Input | Output | Thinking | Cached | CacheWrite | Total | Cost | Billed | Requests

  function Get(c: Counters, m: Measure): int {
    match m
    case Input => c.tokens.input
    case Output => c.tokens.output
    case Thinking => c.tokens.thinking
    case Cached => c.tokens.cached
    case CacheWrite => c.tokens.cacheWrite
    case Total => c.total
    case Cost => c.cost
    case Billed => c.billed
    case Requests => c.requests
  }

  /** One recorded call. `at` is the clock reading, `createdAt` the stamp of the log row. */
  datatype Call = Call(
    tenant: nat, user: Option<nat>, model: string, counters: Counters, at: Instant, createdAt: Instant)

  ghost predicate ValidCall(c: Call) {
    && ValidInstant(c.at) && ValidInstant(c.createdAt) && !Before(c.createdAt, c.at)
    && c.counters.requests == 1
  }

  datatype LogRow = LogRow(tenant: nat, user: Option<nat>, model: string, counters: Counters, createdAt: Instant)

  function Priced(markup: ValidMarkup, model: string, usage: TokenUsage): Counters {
    var cost := ComputeCost(model, usage);
    Counters(usage, usage.Total(), cost, ApplyMarkup(markup, cost), 1)
  }

  type TenantKey = (nat, int, string)
  type UserKey = (nat, nat, int)

  // ---------------------------------------------------------------------------------------
  // What the tables should hold, as sums over the calls

  /** Calls of one user, or without a user; or all calls. */
  datatype Group = Of(user: Option<nat>) | Everyone

  predicate InGroup(g: Group, c: Call) { g.Of? ==> c.user == g.user }

  /** Which calls a sum takes in. `Charged` goes by the clock reading, as the rollups do, `Logged`
      by the stamp of the log row. */
  datatype Scope =
    | ByModel(tenant: nat, month: int, model: string)          // a tenant rollup row
    | ByModels(tenant: nat, month: int, models: set<string>)   // several of them
    | Charged(tenant: nat, group: Group, month: int)
    | Logged(tenant: nat, group: Group, month: int)

  /** The calls of a user's rollup row. */
  function ByUser(tenant: nat, user: nat, month: int): Scope { Charged(tenant, Of(Some(user)), month) }

  predicate Takes(scope: Scope, c: Call) {
    match scope
    case ByModel(tenant, month, model) => c.tenant == tenant && Month(c.at) == month && c.model == model
    case ByModels(tenant, month, models) => c.tenant == tenant && Month(c.at) == month && c.model in models
    case Charged(tenant, group, month) => c.tenant == tenant && InGroup(group, c) && Month(c.at) == month
    case Logged(tenant, group, month) => c.tenant == tenant && InGroup(group, c) && Month(c.createdAt) == month
  }

  function SumOf(calls: seq<Call>, scope: Scope, m: Measure): int {
    if calls == [] then 0
    else
      var c := calls[|calls| - 1];
      SumOf(calls[..|calls| - 1], scope, m) + if Takes(scope, c) then Get(c.counters, m) else 0
  }

  /** The row holds, measure by measure, the sums over the calls in scope. */
  ghost predicate Shows(row: Counters, calls: seq<Call>, scope: Scope) {
    forall m: Measure :: Get(row, m) == SumOf(calls, scope, m)
  }

  ghost predicate Taken(calls: seq<Call>, scope: Scope) { exists c <- calls :: Takes(scope, c) }

  class Ledger {
    const markup: ValidMarkup
    var log: seq<LogRow>
    var tenantMonthly: map<TenantKey, Counters>
    var userMonthly: map<UserKey, Counters>

    ghost predicate LogReflects(calls: seq<Call>)
      reads this`log
    {
      && |log| == |calls|
      && forall i | 0 <= i < |calls| ::
           && ValidCall(calls[i])
           && log[i] == LogRow(calls[i].tenant, calls[i].user, calls[i].model, calls[i].counters, calls[i].createdAt)
    }

    ghost predicate TenantReflects(calls: seq<Call>)
      reads this`tenantMonthly
    {
      forall k: TenantKey ::
        && (k in tenantMonthly <==> Taken(calls, ByModel(k.0, k.1, k.2)))
        && (k in tenantMonthly ==> Shows(tenantMonthly[k], calls, ByModel(k.0, k.1, k.2)))
    }

    ghost predicate UserReflects(calls: seq<Call>)
      reads this`userMonthly
    {
      forall k: UserKey ::
        && (k in userMonthly <==> Taken(calls, ByUser(k.0, k.1, k.2)))
        && (k in userMonthly ==> Shows(userMonthly[k], calls, ByUser(k.0, k.1, k.2)))
    }

    /** The tables hold exactly the calls recorded so far. */
    ghost predicate Reflects(calls: seq<Call>)
      reads this
    {
      LogReflects(calls) && TenantReflects(calls) && UserReflects(calls)
    }

    constructor (markup: ValidMarkup)
      ensures Reflects([]) && this.markup == markup
    {
      this.markup := markup;
      log, tenantMonthly, userMonthly := [], map[], map[];
    }

    /** Without a tenant nothing is recorded. */
    method RecordUsage(tenant: Option<nat>, user: Option<nat>, model: string, usage: TokenUsage,
                       now: Instant, stamp: Instant, ghost calls: seq<Call>)
      requires Reflects(calls)
      requires ValidInstant(now) && ValidInstant(stamp) && !Before(stamp, now)
      modifies this
      ensures tenant.None? ==> Reflects(calls)
      ensures tenant.Some? ==>
                Reflects(calls + [Call(tenant.value, user, model, Priced(markup, model, usage), now, stamp)])
    {
      if tenant.None? {
        return;
      }
      var computed := ComputeCost(model, usage);
      var billed := ApplyMarkup(markup, computed);
      var added := Counters(usage, usage.Total(), computed, billed, 1);
      ghost var call := Call(tenant.value, user, model, added, now, stamp);
      log := log + [LogRow(tenant.value, user, model, added, stamp)];
      AddToTenantRollup((tenant.value, Month(now), model), added, calls, call);
      if user.Some? {
        AddToUserRollup((tenant.value, user.value, Month(now)), added, calls, call);
      } else {
        NoUserKeyTaken(calls, call);
      }
    }

    method AddToTenantRollup(key: TenantKey, added: Counters, ghost calls: seq<Call>, ghost call: Call)
      requires TenantReflects(calls)
      requires key == (call.tenant, Month(call.at), call.model) && added == call.counters
      modifies this`tenantMonthly
      ensures TenantReflects(calls + [call])
    {
      if key !in tenantMonthly {
        NothingTaken(calls, ByModel(key.0, key.1, key.2));
        tenantMonthly := tenantMonthly[key := ZERO];
      }
      ghost var before := tenantMonthly;
      tenantMonthly := tenantMonthly[key := tenantMonthly[key].Plus(added)];
      forall k: TenantKey
        ensures k in tenantMonthly <==> Taken(calls + [call], ByModel(k.0, k.1, k.2))
        ensures k in tenantMonthly ==> Shows(tenantMonthly[k], calls + [call], ByModel(k.0, k.1, k.2))
      {
        var scope := ByModel(k.0, k.1, k.2);
        TakenGrows(calls, call, scope);
        assert Takes(scope, call) <==> k == key;
        if k in tenantMonthly {
          ShowsGrows(before[k], calls, call, scope);
        }
      }
    }

    method AddToUserRollup(key: UserKey, added: Counters, ghost calls: seq<Call>, ghost call: Call)
      requires UserReflects(calls)
      requires call.user.Some? && key == (call.tenant, call.user.value, Month(call.at)) && added == call.counters
      modifies this`userMonthly
      ensures UserReflects(calls + [call])
    {
      if key !in userMonthly {
        NothingTaken(calls, ByUser(key.0, key.1, key.2));
        userMonthly := userMonthly[key := ZERO];
      }
      ghost var before := userMonthly;
      userMonthly := userMonthly[key := userMonthly[key].Plus(added)];
      forall k: UserKey
        ensures k in userMonthly <==> Taken(calls + [call], ByUser(k.0, k.1, k.2))
        ensures k in userMonthly ==> Shows(userMonthly[k], calls + [call], ByUser(k.0, k.1, k.2))
      {
        var scope := ByUser(k.0, k.1, k.2);
        TakenGrows(calls, call, scope);
        assert Takes(scope, call) <==> k == key;
        if k in userMonthly {
          ShowsGrows(before[k], calls, call, scope);
        }
      }
    }

    /** A call without a user changes no user's rollup. */
    lemma NoUserKeyTaken(calls: seq<Call>, call: Call)
      requires UserReflects(calls) && call.user.None?
      ensures UserReflects(calls + [call])
    {
    }

    /** Adds the tenant's rows of the month up over all models. */
    method CurrentMonthUsage(tenant: nat, month: int, ghost calls: seq<Call>) returns (billed: int, tokens: int)
      requires Reflects(calls)
      ensures billed == SumOf(calls, Charged(tenant, Everyone, month), Billed)
      ensures tokens == SumOf(calls, Charged(tenant, Everyone, month), Total)
    {
      var rows := set k <- tenantMonthly | k.0 == tenant && k.1 == month;
      ghost var done: set<string> := {};
      billed, tokens := 0, 0;
      NothingTaken(calls, ByModels(tenant, month, {}));
      while rows != {}
        invariant rows <= tenantMonthly.Keys
        invariant forall k <- rows :: k.0 == tenant && k.1 == month && k.2 !in done
        invariant forall k <- tenantMonthly | k.0 == tenant && k.1 == month :: k in rows || k.2 in done
        invariant billed == SumOf(calls, ByModels(tenant, month, done), Billed)
        invariant tokens == SumOf(calls, ByModels(tenant, month, done), Total)
        decreases |rows|
      {
        var k :| k in rows;
        assert k == (tenant, month, k.2);
        AddRow(calls, tenant, month, done, k.2, tenantMonthly[k]);
        billed := billed + tenantMonthly[k].billed;
        tokens := tokens + tenantMonthly[k].total;
        rows, done := rows - {k}, done + {k.2};
      }
      forall c <- calls | c.tenant == tenant && Month(c.at) == month
        ensures c.model in done
      {
        assert Takes(ByModel(tenant, month, c.model), c);
        assert (tenant, month, c.model) in tenantMonthly;
      }
      AllTheModels(calls, tenant, month, done, Billed);
      AllTheModels(calls, tenant, month, done, Total);
    }

    /** Reads a user's month from the log. */
    method UserUsageForMonth(tenant: nat, user: nat, year: nat, month: nat, ghost calls: seq<Call>)
      returns (usage: Counters)
      requires Reflects(calls) && 1 <= month <= 12
      ensures Shows(usage, calls, Logged(tenant, Of(Some(user)), year * 12 + month - 1))
    {
      usage := ZERO;
      ghost var scope := Logged(tenant, Of(Some(user)), year * 12 + month - 1);
      for i := 0 to |log|
        invariant Shows(usage, calls[..i], scope)
      {
        assert calls[..i + 1][..i] == calls[..i];
        BoundsAreTheMonth(log[i].createdAt, year, month);
        if log[i].tenant == tenant && log[i].user == Some(user) && InBounds(log[i].createdAt, year, month) {
          usage := usage.Plus(log[i].counters);
        }
      }
      assert calls[..|calls|] == calls;
    }
  }

  lemma TakenGrows(calls: seq<Call>, call: Call, scope: Scope)
    ensures Taken(calls + [call], scope) <==> Taken(calls, scope) || Takes(scope, call)
  {
  }

  lemma GetPlus(a: Counters, b: Counters, m: Measure)
    ensures Get(a.Plus(b), m) == Get(a, m) + Get(b, m)
  {
  }

  lemma ShowsGrows(row: Counters, calls: seq<Call>, call: Call, scope: Scope)
    requires Shows(row, calls, scope)
    ensures Shows(if Takes(scope, call) then row.Plus(call.counters) else row, calls + [call], scope)
  {
    var after := calls + [call];
    assert after[..|after| - 1] == calls;
    forall m: Measure
      ensures Get(if Takes(scope, call) then row.Plus(call.counters) else row, m) == SumOf(after, scope, m)
    {
      GetPlus(row, call.counters, m);
    }
  }

  lemma {:induction false} NothingTaken(calls: seq<Call>, scope: Scope)
    requires !Taken(calls, scope)
    ensures Shows(ZERO, calls, scope)
  {
    if calls != [] {
      assert calls[|calls| - 1] in calls;
      assert forall c <- calls[..|calls| - 1] :: c in calls;
      NothingTaken(calls[..|calls| - 1], scope);
    }
  }

  lemma {:induction false} OneMoreModel(calls: seq<Call>, tenant: nat, month: int, done: set<string>, model: string,
                                        m: Measure)
    requires model !in done
    ensures SumOf(calls, ByModels(tenant, month, done + {model}), m) ==
            SumOf(calls, ByModels(tenant, month, done), m) + SumOf(calls, ByModel(tenant, month, model), m)
  {
    if calls != [] {
      OneMoreModel(calls[..|calls| - 1], tenant, month, done, model, m);
    }
  }

  lemma AddRow(calls: seq<Call>, tenant: nat, month: int, done: set<string>, model: string, row: Counters)
    requires model !in done && Shows(row, calls, ByModel(tenant, month, model))
    ensures var more := ByModels(tenant, month, done + {model});
            && SumOf(calls, more, Billed) == SumOf(calls, ByModels(tenant, month, done), Billed) + row.billed
            && SumOf(calls, more, Total) == SumOf(calls, ByModels(tenant, month, done), Total) + row.total
  {
    OneMoreModel(calls, tenant, month, done, model, Billed);
    OneMoreModel(calls, tenant, month, done, model, Total);
    assert Get(row, Billed) == SumOf(calls, ByModel(tenant, month, model), Billed);
    assert Get(row, Total) == SumOf(calls, ByModel(tenant, month, model), Total);
  }

  lemma {:induction false} AllTheModels(calls: seq<Call>, tenant: nat, month: int, done: set<string>, m: Measure)
    requires forall c <- calls | c.tenant == tenant && Month(c.at) == month :: c.model in done
    ensures SumOf(calls, ByModels(tenant, month, done), m) == SumOf(calls, Charged(tenant, Everyone, month), m)
  {
    if calls != [] {
      assert calls[|calls| - 1] in calls;
      AllTheModels(calls[..|calls| - 1], tenant, month, done, m);
    }
  }

  // ---------------------------------------------------------------------------------------
  // Rollup against log

  /** The log row is stamped in a later month than the rollup was chosen by. */
  predicate Straddles(c: Call) { Month(c.at) != Month(c.createdAt) }

  predicate StraddlesIn(c: Call, tenant: nat, group: Group) {
    Straddles(c) && c.tenant == tenant && InGroup(group, c)
  }

  function StraddlersFrom(calls: seq<Call>, tenant: nat, group: Group, month: int): nat {
    if calls == [] then 0
    else
      var c := calls[|calls| - 1];
      StraddlersFrom(calls[..|calls| - 1], tenant, group, month)
      + if StraddlesIn(c, tenant, group) && Month(c.at) == month then 1 else 0
  }

  lemma {:induction false} WithoutStraddlersSumsAgree(calls: seq<Call>, tenant: nat, group: Group, month: int,
                                                      m: Measure)
    requires forall c <- calls :: !StraddlesIn(c, tenant, group)
    ensures SumOf(calls, Charged(tenant, group, month), m) == SumOf(calls, Logged(tenant, group, month), m)
  {
    if calls != [] {
      assert calls[|calls| - 1] in calls;
      WithoutStraddlersSumsAgree(calls[..|calls| - 1], tenant, group, month, m);
    }
  }

  /** In the first month that loses a call, the rollup counts more requests than the log. */
  lemma {:induction false} RollupExcess(calls: seq<Call>, tenant: nat, group: Group, month: int)
    requires forall c <- calls :: ValidCall(c)
    requires forall c <- calls | StraddlesIn(c, tenant, group) :: Month(c.at) >= month
    ensures SumOf(calls, Charged(tenant, group, month), Requests) ==
            SumOf(calls, Logged(tenant, group, month), Requests) + StraddlersFrom(calls, tenant, group, month)
  {
    if calls != [] {
      assert calls[|calls| - 1] in calls;
      RollupExcess(calls[..|calls| - 1], tenant, group, month);
    }
  }

  lemma {:induction false} StraddlerCounts(calls: seq<Call>, c: Call, tenant: nat, group: Group)
    requires c in calls && StraddlesIn(c, tenant, group)
    ensures StraddlersFrom(calls, tenant, group, Month(c.at)) > 0
  {
    var last := calls[|calls| - 1];
    if c != last {
      assert calls == calls[..|calls| - 1] + [last];
      StraddlerCounts(calls[..|calls| - 1], c, tenant, group);
    }
  }

  lemma {:induction false} EarliestStraddler(calls: seq<Call>, tenant: nat, group: Group) returns (e: Call)
    requires exists c <- calls :: StraddlesIn(c, tenant, group)
    ensures e in calls && StraddlesIn(e, tenant, group)
    ensures forall c <- calls | StraddlesIn(c, tenant, group) :: Month(c.at) >= Month(e.at)
  {
    var init, last := calls[..|calls| - 1], calls[|calls| - 1];
    assert calls == init + [last];
    if exists c <- init :: StraddlesIn(c, tenant, group) {
      e := EarliestStraddler(init, tenant, group);
      if StraddlesIn(last, tenant, group) && Month(last.at) < Month(e.at) {
        e := last;
      }
    } else {
      e := last;
    }
  }

  /** A group with a straddling call has a month in which the rollup counts more requests. */
  lemma StraddlerShows(calls: seq<Call>, tenant: nat, group: Group) returns (e: Call)
    requires forall c <- calls :: ValidCall(c)
    requires exists c <- calls :: StraddlesIn(c, tenant, group)
    ensures e in calls && Takes(Charged(tenant, group, Month(e.at)), e)
    ensures SumOf(calls, Charged(tenant, group, Month(e.at)), Requests) >
            SumOf(calls, Logged(tenant, group, Month(e.at)), Requests)
  {
    e := EarliestStraddler(calls, tenant, group);
    RollupExcess(calls, tenant, group, Month(e.at));
    StraddlerCounts(calls, e, tenant, group);
  }

  /** The measures that the list of users shows, from the rollup or from the log. */
  predicate Listed(m: Measure) { m in {Input, Cached, Total, Billed, Requests} }

  /** Whether the rollup has a row under this key: never under none. */
  ghost predicate InRollup(calls: seq<Call>, tenant: nat, user: Option<nat>, month: int) {
    user.Some? && Taken(calls, ByUser(tenant, user.value, month))
  }

  /** Both lists have a row for the same users of the month, counting those without a user as one
      key, and show the same in it. */
  ghost predicate ListsAgree(calls: seq<Call>, tenant: nat, user: Option<nat>, month: int) {
    && (InRollup(calls, tenant, user, month) <==> Taken(calls, Logged(tenant, Of(user), month)))
    && (InRollup(calls, tenant, user, month) ==>
          forall m: Measure | Listed(m) ::
            SumOf(calls, ByUser(tenant, user.value, month), m) == SumOf(calls, Logged(tenant, Of(user), month), m))
  }

  lemma ListsAgreeWithout(calls: seq<Call>, tenant: nat, user: Option<nat>, month: int)
    requires forall c <- calls :: !Straddles(c) && c.user.Some?
    ensures ListsAgree(calls, tenant, user, month)
  {
    if user.Some? {
      var charged, logged := ByUser(tenant, user.value, month), Logged(tenant, Of(user), month);
      assert forall c <- calls :: Takes(charged, c) <==> Takes(logged, c);
      forall m: Measure {
        WithoutStraddlersSumsAgree(calls, tenant, Of(user), month, m);
      }
    }
  }

  /** The two lists of users agree for every month exactly when no call straddles the turn of a
      month and none lacks a user: the log has a row for those, the rollup has not. */
  lemma ListsAgreeIff(calls: seq<Call>)
    requires forall c <- calls :: ValidCall(c)
    ensures (forall tenant: nat, user: Option<nat>, month: int :: ListsAgree(calls, tenant, user, month)) <==>
            (forall c <- calls :: !Straddles(c) && c.user.Some?)
  {
    if c :| c in calls && c.user.None? {
      var month := Month(c.createdAt);
      assert Takes(Logged(c.tenant, Of(None), month), c);
      assert !ListsAgree(calls, c.tenant, None, month);
    } else if c :| c in calls && Straddles(c) {
      assert StraddlesIn(c, c.tenant, Of(c.user));
      var e := StraddlerShows(calls, c.tenant, Of(c.user));
      assert !ListsAgree(calls, c.tenant, c.user, Month(e.at)) by {
        assert InRollup(calls, c.tenant, c.user, Month(e.at)) && Listed(Requests);
      }
    } else {
      forall tenant: nat, user: Option<nat>, month: int ensures ListsAgree(calls, tenant, user, month) {
        ListsAgreeWithout(calls, tenant, user, month);
      }
    }
  }

  ghost predicate MonthsAgree(calls: seq<Call>, tenant: nat, month: int, m: Measure) {
    SumOf(calls, Charged(tenant, Everyone, month), m) == SumOf(calls, Logged(tenant, Everyone, month), m)
  }

  /** A tenant's months by its rollup rows and by its log rows agree exactly
      when no call straddles the turn of a month, whether it has a user or not. */
  lemma TenantMonthsAgreeIff(calls: seq<Call>)
    requires forall c <- calls :: ValidCall(c)
    ensures (forall tenant: nat, month: int, m: Measure :: MonthsAgree(calls, tenant, month, m)) <==>
            (forall c <- calls :: !Straddles(c))
  {
    if c :| c in calls && Straddles(c) {
      assert StraddlesIn(c, c.tenant, Everyone);
      var e := StraddlerShows(calls, c.tenant, Everyone);
      assert !MonthsAgree(calls, c.tenant, Month(e.at), Requests);
    } else {
      forall tenant: nat, month: int, m: Measure
        ensures MonthsAgree(calls, tenant, month, m)
      {
        WithoutStraddlersSumsAgree(calls, tenant, Everyone, month, m);
      }
    }
  }

  // ---------------------------------------------------------------------------------------
  // Rollups against prices

  /** Every call carries the counters that pricing gives its tokens. */
  ghost predicate AllPriced(markup: ValidMarkup, calls: seq<Call>) {
    forall c <- calls :: c.counters == Priced(markup, c.model, c.counters.tokens)
  }

  function TokensOf(calls: seq<Call>, scope: Scope): TokenUsage {
    if calls == [] then NoTokens()
    else
      var rest, c := TokensOf(calls[..|calls| - 1], scope), calls[|calls| - 1];
      if Takes(scope, c) then rest.Plus(c.counters.tokens) else rest
  }

  lemma {:induction false} PartsShow(calls: seq<Call>, scope: Scope)
    ensures var t := TokensOf(calls, scope);
            && t.input == SumOf(calls, scope, Input) && t.output == SumOf(calls, scope, Output)
            && t.thinking == SumOf(calls, scope, Thinking) && t.cached == SumOf(calls, scope, Cached)
            && t.cacheWrite == SumOf(calls, scope, CacheWrite)
  {
    if calls != [] {
      PartsShow(calls[..|calls| - 1], scope);
    }
  }

  lemma {:induction false} TotalShows(calls: seq<Call>, scope: Scope)
    requires forall c <- calls :: c.counters.total == c.counters.tokens.Total()
    ensures TokensOf(calls, scope).Total() == SumOf(calls, scope, Total)
  {
    if calls != [] {
      assert calls[|calls| - 1] in calls;
      TotalShows(calls[..|calls| - 1], scope);
    }
  }

  function PlainSum(calls: seq<Call>, scope: Scope): nat {
    if calls == [] then 0
    else
      var c := calls[|calls| - 1];
      PlainSum(calls[..|calls| - 1], scope) + if Takes(scope, c) then PlainInput(c.counters.tokens) else 0
  }

  /** Cache writes beyond the input, call by call. */
  function ShortSum(calls: seq<Call>, scope: Scope): nat {
    if calls == [] then 0
    else
      var c, u := calls[|calls| - 1], calls[|calls| - 1].counters.tokens;
      ShortSum(calls[..|calls| - 1], scope)
      + if Takes(scope, c) && u.cacheWrite > u.input then u.cacheWrite - u.input else 0
  }

  lemma {:induction false} PlainLessShort(calls: seq<Call>, scope: Scope)
    ensures var t := TokensOf(calls, scope); PlainSum(calls, scope) - ShortSum(calls, scope) == t.input - t.cacheWrite
    ensures PlainSum(calls, scope) > 0 <==>
              exists c <- calls :: Takes(scope, c) && c.counters.tokens.cacheWrite < c.counters.tokens.input
    ensures ShortSum(calls, scope) > 0 <==>
              exists c <- calls :: Takes(scope, c) && c.counters.tokens.input < c.counters.tokens.cacheWrite
  {
    if calls != [] {
      var init, last := calls[..|calls| - 1], calls[|calls| - 1];
      PlainLessShort(init, scope);
      assert forall c :: c in calls <==> c in init || c == last;
    }
  }

  /** Two calls of the row: one wrote more tokens to the cache than it had input, one fewer. */
  ghost predicate ExcessesOppose(calls: seq<Call>, scope: Scope) {
    exists c <- calls, d <- calls ::
      Takes(scope, c) && Takes(scope, d) && OppositeExcess(c.counters.tokens, d.counters.tokens)
  }

  lemma PlainInputAddsIff(calls: seq<Call>, scope: Scope)
    ensures PlainSum(calls, scope) == PlainInput(TokensOf(calls, scope)) <==> !ExcessesOppose(calls, scope)
  {
    PlainLessShort(calls, scope);
    if PlainSum(calls, scope) > 0 && ShortSum(calls, scope) > 0 {
      var c :| c in calls && Takes(scope, c) && c.counters.tokens.cacheWrite < c.counters.tokens.input;
      var d :| d in calls && Takes(scope, d) && d.counters.tokens.input < d.counters.tokens.cacheWrite;
      assert OppositeExcess(c.counters.tokens, d.counters.tokens);
    }
  }

  /** Pricing two usages apart exceeds pricing them together by what plain input is lost. */
  ghost predicate LosesPlain(price: TokenUsage -> int, rate: nat) {
    forall a: TokenUsage, b: TokenUsage ::
      price(a) + price(b) - price(a.Plus(b)) == (PlainInput(a) + PlainInput(b) - PlainInput(a.Plus(b))) * rate
  }

  lemma {:induction false} PriceOfSum(price: TokenUsage -> int, rate: nat, calls: seq<Call>, scope: Scope)
    requires price(NoTokens()) == 0 && LosesPlain(price, rate)
    requires forall c <- calls | Takes(scope, c) :: c.counters.cost == price(c.counters.tokens)
    ensures SumOf(calls, scope, Cost) - price(TokensOf(calls, scope)) ==
            (PlainSum(calls, scope) - PlainInput(TokensOf(calls, scope))) * rate
  {
    if calls != [] {
      var init, last := calls[..|calls| - 1], calls[|calls| - 1];
      assert last in calls;
      PriceOfSum(price, rate, init, scope);
      if Takes(scope, last) {
        var t, u := TokensOf(init, scope), last.counters.tokens;
        assert price(t) + price(u) - price(t.Plus(u)) == (PlainInput(t) + PlainInput(u) - PlainInput(t.Plus(u))) * rate;
        Distribute(rate, PlainSum(init, scope) - PlainInput(t), PlainInput(t) + PlainInput(u) - PlainInput(t.Plus(u)));
      }
    }
  }

  /** One call: billed within half a unit of the markup on its cost. */
  ghost predicate Drifts(markup: ValidMarkup, c: Counters) {
    c.requests == 1 && -markup.den <= 2 * (markup.den * c.billed - markup.num * c.cost) <= markup.den
  }

  lemma {:induction false} BilledSumDrifts(markup: ValidMarkup, calls: seq<Call>, scope: Scope)
    requires forall c <- calls :: Drifts(markup, c.counters)
    ensures var drift := 2 * (markup.den * SumOf(calls, scope, Billed) - markup.num * SumOf(calls, scope, Cost));
            -(SumOf(calls, scope, Requests) * markup.den) <= drift <= SumOf(calls, scope, Requests) * markup.den
  {
    if calls != [] {
      var init, c := calls[..|calls| - 1], calls[|calls| - 1];
      assert c in calls;
      BilledSumDrifts(markup, init, scope);
      if Takes(scope, c) {
        DriftStep(SumOf(init, scope, Requests), markup, SumOf(init, scope, Billed), SumOf(init, scope, Cost),
                  c.counters.billed, c.counters.cost);
      }
    }
  }

  lemma CostLosesPlain(model: string)
    ensures LosesPlain((u: TokenUsage) => ComputeCost(model, u), RatesFor(model).input)
  {
    var price, rate := (u: TokenUsage) => ComputeCost(model, u), RatesFor(model).input;
    forall a: TokenUsage, b: TokenUsage
      ensures price(a) + price(b) - price(a.Plus(b)) == (PlainInput(a) + PlainInput(b) - PlainInput(a.Plus(b))) * rate
    {
      CostOfTwo(model, a, b);
    }
  }

  lemma PriceOfSumIff(price: TokenUsage -> int, rate: nat, calls: seq<Call>, scope: Scope)
    requires rate > 0 && price(NoTokens()) == 0 && LosesPlain(price, rate)
    requires forall c <- calls | Takes(scope, c) :: c.counters.cost == price(c.counters.tokens)
    ensures SumOf(calls, scope, Cost) == price(TokensOf(calls, scope)) <==> !ExcessesOppose(calls, scope)
  {
    PriceOfSum(price, rate, calls, scope);
    PlainInputAddsIff(calls, scope);
    NothingLostIff(PlainSum(calls, scope) - PlainInput(TokensOf(calls, scope)), rate);
  }

  lemma RowTokens(row: Counters, calls: seq<Call>, scope: Scope)
    requires Shows(row, calls, scope)
    requires forall c <- calls :: c.counters.total == c.counters.tokens.Total()
    ensures row.tokens == TokensOf(calls, scope) && row.total == row.tokens.Total()
    ensures row.cost == SumOf(calls, scope, Cost)
  {
    PartsShow(calls, scope);
    TotalShows(calls, scope);
    assert Get(row, Input) == SumOf(calls, scope, Input) && Get(row, Output) == SumOf(calls, scope, Output);
    assert Get(row, Thinking) == SumOf(calls, scope, Thinking) && Get(row, Cached) == SumOf(calls, scope, Cached);
    assert Get(row, CacheWrite) == SumOf(calls, scope, CacheWrite) && Get(row, Total) == SumOf(calls, scope, Total);
    assert Get(row, Cost) == SumOf(calls, scope, Cost);
  }

  lemma CostOfScope(markup: ValidMarkup, calls: seq<Call>, scope: Scope, model: string)
    requires AllPriced(markup, calls)
    requires forall c <- calls | Takes(scope, c) :: c.model == model
    ensures SumOf(calls, scope, Cost) == ComputeCost(model, TokensOf(calls, scope)) <==> !ExcessesOppose(calls, scope)
  {
    CostIsExact(model, NoTokens());
    CostLosesPlain(model);
    PriceOfSumIff((u: TokenUsage) => ComputeCost(model, u), RatesFor(model).input, calls, scope);
  }

  /** The cost in a model's monthly row is the cost of its summed tokens if and only if no two of
      its calls have opposite excesses of cache writes over input. */
  lemma MonthlyCostIsCostOfTokensIff(markup: ValidMarkup, calls: seq<Call>, tenant: nat, month: int, model: string,
                                     row: Counters)
    requires AllPriced(markup, calls)
    requires Shows(row, calls, ByModel(tenant, month, model))
    ensures row.cost == ComputeCost(model, row.tokens) <==> !ExcessesOppose(calls, ByModel(tenant, month, model))
    ensures row.total == row.tokens.Total()
  {
    RowTokens(row, calls, ByModel(tenant, month, model));
    CostOfScope(markup, calls, ByModel(tenant, month, model), model);
  }

  /** Its billed amount is within half a unit a request of the markup on its cost. */
  lemma MonthlyBillingDrift(markup: ValidMarkup, calls: seq<Call>, tenant: nat, month: int, model: string,
                            row: Counters)
    requires AllPriced(markup, calls)
    requires Shows(row, calls, ByModel(tenant, month, model))
    ensures var drift := 2 * (markup.den * row.billed - markup.num * row.cost);
            -(row.requests * markup.den) <= drift <= row.requests * markup.den
  {
    var scope := ByModel(tenant, month, model);
    forall c <- calls
      ensures Drifts(markup, c.counters)
    {
      MarkupBound(markup, c.counters.cost);
    }
    BilledSumDrifts(markup, calls, scope);
    assert SumOf(calls, scope, Cost) == Get(row, Cost) && SumOf(calls, scope, Billed) == Get(row, Billed);
    assert SumOf(calls, scope, Requests) == Get(row, Requests);
  }
}
