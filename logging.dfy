/** Model of the application log buffer (`Logger` in lib/logging.ts): the
    level filter, the bounded in-memory buffer with its flush and retry, the
    query over the buffer, the statistics and child loggers that add a context.

    Time is an integer number of milliseconds and the ids of new entries are
    supplied by the caller. Storing a batch (database and file) is a call
    whose only observable effect here is whether it failed. */
module Logging {
  import opened Common

  // ---------------------------------------------------------------------
  // Data model
  // ---------------------------------------------------------------------

  datatype Level = Debug | Info | Warn | Error | Critical

  /** The position of a level in `['debug', 'info', 'warn', 'error', 'critical']`. */
  function LevelIndex(l: Level): nat {
    match l
    case Debug => 0
    case Info => 1
    case Warn => 2
    case Error => 3
    case Critical => 4
  }

  /** The string a level is written as (the key of the per-level counts). */
  function LevelName(l: Level): string {
    match l
    case Debug => "debug"
    case Info => "info"
    case Warn => "warn"
    case Error => "error"
    case Critical => "critical"
  }

  /** A metadata value. The logger never looks inside one except to nest the
      error of `error`/`critical`; `Absent` is JavaScript's `undefined`. */
  datatype Value = Text(text: string) | ErrorInfo(name: string, message: string, stack: Option<string>) | Absent

  type Metadata = map<string, Value>

  /** An entry. `log` sets id, timestamp, level, message, category and
      metadata only; the other optional fields of `LogEntry` that a query can
      filter on are kept so that the filters can be stated, and `log` leaves
      them unset. */
  datatype LogEntry = LogEntry(
    id: string,
    timestamp: int,
    level: Level,
    message: string,
    category: string,
    userId: Option<string>,
    provider: Option<string>,
    operation: Option<string>,
    metadata: Option<Metadata>)

  /** The configuration fields the buffer logic reads. */
  datatype LogConfig = LogConfig(
    level: Level,
    enableConsole: bool,
    enableFile: bool,
    enableDatabase: bool,
    includeStackTrace: bool)

  datatype LogConfigPatch = LogConfigPatch(
    level: Option<Level>,
    enableConsole: Option<bool>,
    enableFile: Option<bool>,
    enableDatabase: Option<bool>,
    includeStackTrace: Option<bool>)

  /** The context of a child logger; every field is optional. */
  datatype ChildContext = ChildContext(
    category: Option<string>,
    userId: Option<string>,
    sessionId: Option<string>,
    requestId: Option<string>)

  /** A thrown error passed to `error` or `critical`. */
  datatype Failure = Failure(name: string, message: string, stack: Option<string>)

  /** Accepted messages accumulate up to this many entries before a flush. */
  const BufferSize: nat := 100
  const DefaultQueryLimit: nat := 100
  const RecentErrorsCap: nat := 10

  function DefaultLogConfig(): LogConfig {
    LogConfig(Info, true, false, true, true)
  }

  // ---------------------------------------------------------------------
  // Level filter
  // ---------------------------------------------------------------------

  /** `shouldLog`. */
  predicate ShouldLog(configured: Level, level: Level) {
    LevelIndex(level) >= LevelIndex(configured)
  }

  /** The filter is a threshold: what passes at one level passes at every
      higher level, `critical` always passes, `debug` passes only when the
      configured level is `debug`, and lowering the configured level never
      drops a message that passed before. */
  lemma ShouldLogThreshold(configured: Level, level: Level, higher: Level, lower: Level)
    requires LevelIndex(higher) >= LevelIndex(level)
    requires LevelIndex(lower) <= LevelIndex(configured)
    ensures ShouldLog(configured, level) ==> ShouldLog(configured, higher) && ShouldLog(lower, level)
    ensures ShouldLog(configured, Critical)
    ensures ShouldLog(configured, Debug) <==> configured == Debug
    ensures ShouldLog(configured, level) <==> !ShouldLog(level, configured) || level == configured
  {
  }

  // ---------------------------------------------------------------------
  // Entries and child context
  // ---------------------------------------------------------------------

  /** The entry `log` builds. */
  function NewEntry(id: string, now: int, level: Level, message: string, category: string, metadata: Option<Metadata>): LogEntry {
    LogEntry(id, now, level, message, category, None, None, None, metadata)
  }

  /** The metadata `error` and `critical` pass on: the caller's metadata with
      an `error` key that holds the error's name, message and (when
      configured) stack, or `undefined` without an error. */
  function WithError(metadata: Option<Metadata>, error: Option<Failure>, includeStackTrace: bool): (m: Metadata)
    ensures "error" in m
    ensures error.None? ==> m["error"] == Absent
    ensures error.Some? ==>
      && m["error"].ErrorInfo? && m["error"].name == error.value.name
      && m["error"].message == error.value.message
      && (m["error"].stack.Some? <==> includeStackTrace && error.value.stack.Some?)
    ensures forall k | k != "error" :: (k in m <==> metadata.Some? && k in metadata.value)
    ensures forall k | k != "error" && k in m :: m[k] == metadata.value[k]
  {
    var base := if metadata.Some? then metadata.value else map[];
    var info := if error.None? then Absent
                else ErrorInfo(error.value.name, error.value.message,
                               if includeStackTrace then error.value.stack else None);
    base["error" := info]
  }

  /** The object spread `{ ...context }`: the fields the context has. */
  function ContextFields(ctx: ChildContext): (m: Metadata)
    ensures "category" in m <==> ctx.category.Some?
    ensures "userId" in m <==> ctx.userId.Some?
    ensures "sessionId" in m <==> ctx.sessionId.Some?
    ensures "requestId" in m <==> ctx.requestId.Some?
    ensures forall k | k in m :: k in {"category", "userId", "sessionId", "requestId"}
    ensures ctx.category.Some? ==> m["category"] == Text(ctx.category.value)
    ensures ctx.userId.Some? ==> m["userId"] == Text(ctx.userId.value)
    ensures ctx.sessionId.Some? ==> m["sessionId"] == Text(ctx.sessionId.value)
    ensures ctx.requestId.Some? ==> m["requestId"] == Text(ctx.requestId.value)
  {
    var m0: Metadata := map[];
    var m1 := if ctx.category.Some? then m0["category" := Text(ctx.category.value)] else m0;
    var m2 := if ctx.userId.Some? then m1["userId" := Text(ctx.userId.value)] else m1;
    var m3 := if ctx.sessionId.Some? then m2["sessionId" := Text(ctx.sessionId.value)] else m2;
    if ctx.requestId.Some? then m3["requestId" := Text(ctx.requestId.value)] else m3
  }

  /** The metadata of a child logger's entry, `{ ...metadata, ...context }`:
      the context's fields win over metadata keys of the same name, every
      other metadata key is kept, and the result is always an object. */
  function ContextualMetadata(metadata: Option<Metadata>, ctx: ChildContext): (m: Metadata)
    ensures forall k | k in ContextFields(ctx) :: k in m && m[k] == ContextFields(ctx)[k]
    ensures forall k | k !in ContextFields(ctx) :: (k in m <==> metadata.Some? && k in metadata.value)
    ensures forall k | k !in ContextFields(ctx) && k in m :: m[k] == metadata.value[k]
    ensures ctx.userId.Some? ==> m["userId"] == Text(ctx.userId.value)
  {
    var base := if metadata.Some? then metadata.value else map[];
    base + ContextFields(ctx)
  }

  /** The category of a child logger's entry, `context.category || category`:
      an empty context category is falsy and does not replace the caller's. */
  function ContextualCategory(ctx: ChildContext, category: string): (c: string)
    ensures ctx.category.Some? && ctx.category.value != "" ==> c == ctx.category.value
    ensures ctx.category.None? || ctx.category.value == "" ==> c == category
  {
    if ctx.category.Some? && ctx.category.value != "" then ctx.category.value else category
  }

  /** The entry a call to `log` appends, if the level passes, for a logger
      with the given context (a child logger rewrites the category and the
      metadata before the level is checked). */
  function Admit(config: LogConfig, context: Option<ChildContext>, level: Level, message: string, category: string,
                 metadata: Option<Metadata>, id: string, now: int): (e: Option<LogEntry>)
    ensures e.Some? <==> ShouldLog(config.level, level)
    ensures e.Some? ==>
      && e.value.id == id && e.value.timestamp == now && e.value.level == level
      && e.value.message == message
      && e.value.userId.None? && e.value.provider.None? && e.value.operation.None?
    ensures e.Some? && context.None? ==> e.value.category == category && e.value.metadata == metadata
    ensures e.Some? && context.Some? ==>
      e.value.category == ContextualCategory(context.value, category)
      && e.value.metadata == Some(ContextualMetadata(metadata, context.value))
  {
    if !ShouldLog(config.level, level) then None
    else if context.None? then Some(NewEntry(id, now, level, message, category, metadata))
    else
      var ctx := context.value;
      Some(NewEntry(id, now, level, message, ContextualCategory(ctx, category), Some(ContextualMetadata(metadata, ctx))))
  }

  /** The shallow merge `{ ...config, ...patch }`. */
  function MergeLogConfig(config: LogConfig, patch: LogConfigPatch): (c: LogConfig)
    ensures c.level == (if patch.level.Some? then patch.level.value else config.level)
    ensures c.enableConsole == (if patch.enableConsole.Some? then patch.enableConsole.value else config.enableConsole)
    ensures c.enableFile == (if patch.enableFile.Some? then patch.enableFile.value else config.enableFile)
    ensures c.enableDatabase == (if patch.enableDatabase.Some? then patch.enableDatabase.value else config.enableDatabase)
    ensures c.includeStackTrace == (if patch.includeStackTrace.Some? then patch.includeStackTrace.value else config.includeStackTrace)
  {
    LogConfig(
      if patch.level.Some? then patch.level.value else config.level,
      if patch.enableConsole.Some? then patch.enableConsole.value else config.enableConsole,
      if patch.enableFile.Some? then patch.enableFile.value else config.enableFile,
      if patch.enableDatabase.Some? then patch.enableDatabase.value else config.enableDatabase,
      if patch.includeStackTrace.Some? then patch.includeStackTrace.value else config.includeStackTrace)
  }

  /** An empty patch leaves the configuration as it is, and applying the same
      patch twice is the same as applying it once. */
  lemma MergeLogConfigIdempotent(config: LogConfig, patch: LogConfigPatch)
    ensures MergeLogConfig(config, LogConfigPatch(None, None, None, None, None)) == config
    ensures MergeLogConfig(MergeLogConfig(config, patch), patch) == MergeLogConfig(config, patch)
  {
  }

  // ---------------------------------------------------------------------
  // Query
  // ---------------------------------------------------------------------

  /** `offset` and `limit` are non-negative here; see the README. */
  datatype LogQuery = LogQuery(
    level: Option<Level>,
    category: Option<string>,
    userId: Option<string>,
    provider: Option<string>,
    operation: Option<string>,
    startDate: Option<int>,
    endDate: Option<int>,
    limit: Option<nat>,
    offset: Option<nat>,
    search: Option<string>)

  /** A string filter that JavaScript treats as given: present and non-empty. */
  predicate Given(s: Option<string>) {
    s.Some? && s.value != ""
  }

  function LowerChar(c: char): char {
    if 'A' <= c <= 'Z' then (c as int + 32) as char else c
  }

  /** `toLowerCase` on ASCII letters. */
  function Lower(s: string): string {
    seq(|s|, i requires 0 <= i < |s| => LowerChar(s[i]))
  }

  /** `sub` occurs in `s` starting at `i`. */
  predicate OccursAt(s: string, sub: string, i: int) {
    0 <= i && i + |sub| <= |s| && s[i..i + |sub|] == sub
  }

  /** `s.includes(sub)`. */
  predicate Includes(s: string, sub: string) {
    exists i | 0 <= i <= |s| :: OccursAt(s, sub, i)
  }

  predicate SearchHit(e: LogEntry, search: string) {
    Includes(Lower(e.message), Lower(search)) || Includes(Lower(e.category), Lower(search))
  }

  /** The number of stages of the filter chain of `queryLogs`. */
  const FilterStages: nat := 8

  /** Whether stage `k` of the chain runs: `if (query.level)`, `if
      (query.category)`, ... in the source's order; a string filter runs only
      when it is non-empty. */
  predicate StageActive(q: LogQuery, k: nat) {
    match k
    case 0 => q.level.Some?
    case 1 => Given(q.category)
    case 2 => Given(q.userId)
    case 3 => Given(q.provider)
    case 4 => Given(q.operation)
    case 5 => q.startDate.Some?
    case 6 => q.endDate.Some?
    case 7 => Given(q.search)
    case _ => false
  }

  /** The predicate stage `k` filters by when it runs. */
  predicate StageKeeps(q: LogQuery, k: nat, e: LogEntry)
    requires StageActive(q, k)
  {
    match k
    case 0 => e.level == q.level.value
    case 1 => e.category == q.category.value
    case 2 => e.userId == q.userId
    case 3 => e.provider == q.provider
    case 4 => e.operation == q.operation
    case 5 => e.timestamp >= q.startDate.value
    case 6 => e.timestamp <= q.endDate.value
    case 7 => SearchHit(e, q.search.value)
  }

  /** The results after the first `k` stages, each one a `filter` on the
      results of the one before. */
  function Chain(entries: seq<LogEntry>, q: LogQuery, k: nat): seq<LogEntry>
    requires k <= FilterStages
  {
    if k == 0 then entries
    else
      var before := Chain(entries, q, k - 1);
      if StageActive(q, k - 1) then Filter(before, (e: LogEntry) => StageKeeps(q, k - 1, e)) else before
  }

  /** `e` passes every stage among the first `k` that runs. */
  predicate PassesStages(q: LogQuery, k: nat, e: LogEntry) {
    k == 0 || (PassesStages(q, k - 1, e) && (!StageActive(q, k - 1) || StageKeeps(q, k - 1, e)))
  }

  /** `PassesStages` as a filter predicate. */
  function PassesFirst(q: LogQuery, k: nat): LogEntry -> bool {
    e => PassesStages(q, k, e)
  }

  /** Every filter of the query that is given holds of the entry. */
  predicate Matches(q: LogQuery, e: LogEntry) {
    && (q.level.None? || e.level == q.level.value)
    && (!Given(q.category) || e.category == q.category.value)
    && (!Given(q.userId) || e.userId == q.userId)
    && (!Given(q.provider) || e.provider == q.provider)
    && (!Given(q.operation) || e.operation == q.operation)
    && (q.startDate.None? || e.timestamp >= q.startDate.value)
    && (q.endDate.None? || e.timestamp <= q.endDate.value)
    && (!Given(q.search) || SearchHit(e, q.search.value))
  }

  lemma PassesAllStages(q: LogQuery, e: LogEntry)
    ensures PassesStages(q, FilterStages, e) == Matches(q, e)
  {
    assert PassesStages(q, 1, e) == (q.level.None? || e.level == q.level.value);
    assert PassesStages(q, 2, e) == (PassesStages(q, 1, e) && (!Given(q.category) || e.category == q.category.value));
    assert PassesStages(q, 3, e) == (PassesStages(q, 2, e) && (!Given(q.userId) || e.userId == q.userId));
    assert PassesStages(q, 4, e) == (PassesStages(q, 3, e) && (!Given(q.provider) || e.provider == q.provider));
    assert PassesStages(q, 5, e) == (PassesStages(q, 4, e) && (!Given(q.operation) || e.operation == q.operation));
    assert PassesStages(q, 6, e) == (PassesStages(q, 5, e) && (q.startDate.None? || e.timestamp >= q.startDate.value));
    assert PassesStages(q, 7, e) == (PassesStages(q, 6, e) && (q.endDate.None? || e.timestamp <= q.endDate.value));
  }

  function MatchesQuery(q: LogQuery): LogEntry -> bool {
    e => Matches(q, e)
  }

  /** Filtering twice is filtering once by the conjunction. */
  lemma {:induction false} FilterTwice(s: seq<LogEntry>, p: LogEntry -> bool, p2: LogEntry -> bool, both: LogEntry -> bool)
    requires forall e :: both(e) == (p(e) && p2(e))
    ensures Filter(Filter(s, p), p2) == Filter(s, both)
  {
    if s != [] {
      FilterTwice(s[1..], p, p2, both);
      if p(s[0]) {
        assert Filter(s, p) == [s[0]] + Filter(s[1..], p);
        assert Filter(s, p)[1..] == Filter(s[1..], p);
      }
    }
  }

  /** Filters by predicates that agree everywhere agree. */
  lemma {:induction false} FilterExtensional(s: seq<LogEntry>, p: LogEntry -> bool, p2: LogEntry -> bool)
    requires forall e :: p(e) == p2(e)
    ensures Filter(s, p) == Filter(s, p2)
  {
    if s != [] {
      FilterExtensional(s[1..], p, p2);
    }
  }

  /** A filter that keeps nothing of `s` returns nothing. */
  lemma {:induction false} FilterNone(s: seq<LogEntry>, p: LogEntry -> bool)
    requires forall i | 0 <= i < |s| :: !p(s[i])
    ensures Filter(s, p) == []
  {
    if s != [] {
      assert forall i | 0 <= i < |s[1..]| :: s[1..][i] == s[i + 1];
      FilterNone(s[1..], p);
    }
  }

  /** The first `k` stages of the chain are one filter by "passes every stage
      that runs". */
  lemma {:induction false} ChainIsOneFilter(entries: seq<LogEntry>, q: LogQuery, k: nat)
    requires k <= FilterStages
    ensures ChainIsFilter(entries, q, k)
  {
    if k == 0 {
      ChainBase(entries, q);
    } else {
      ChainIsOneFilter(entries, q, k - 1);
      ChainStep(entries, q, k);
    }
  }

  lemma ChainBase(entries: seq<LogEntry>, q: LogQuery)
    ensures ChainIsFilter(entries, q, 0)
  {
    FilterKeepsAll(entries, PassesFirst(q, 0));
  }

  /** The first `k` stages amount to one filter. */
  predicate ChainIsFilter(entries: seq<LogEntry>, q: LogQuery, k: nat)
    requires k <= FilterStages
  {
    Chain(entries, q, k) == Filter(entries, PassesFirst(q, k))
  }

  lemma ChainStep(entries: seq<LogEntry>, q: LogQuery, k: nat)
    requires 0 < k <= FilterStages
    requires ChainIsFilter(entries, q, k - 1)
    ensures ChainIsFilter(entries, q, k)
  {
    var sofar := PassesFirst(q, k - 1);
    var next := PassesFirst(q, k);
    if StageActive(q, k - 1) {
      FilterTwice(entries, sofar, (e: LogEntry) => StageKeeps(q, k - 1, e), next);
    } else {
      FilterExtensional(entries, sofar, next);
    }
  }

  /** A filter that keeps everything returns its input. */
  lemma {:induction false} FilterKeepsAll(s: seq<LogEntry>, p: LogEntry -> bool)
    requires forall e :: p(e)
    ensures Filter(s, p) == s
  {
    if s != [] {
      FilterKeepsAll(s[1..], p);
    }
  }

  /** The filter chain of `queryLogs` keeps exactly the entries that satisfy
      every given filter, in buffer order; so the order of the stages does not
      matter. */
  lemma ChainIsConjunction(entries: seq<LogEntry>, q: LogQuery)
    ensures Chain(entries, q, FilterStages) == Filter(entries, MatchesQuery(q))
  {
    ChainIsOneFilter(entries, q, FilterStages);
    assert Chain(entries, q, FilterStages) == Filter(entries, PassesFirst(q, FilterStages));
    forall e ensures PassesStages(q, FilterStages, e) == MatchesQuery(q)(e) {
      PassesAllStages(q, e);
    }
    FilterExtensional(entries, PassesFirst(q, FilterStages), MatchesQuery(q));
  }

  function LogTimestamp(e: LogEntry): int { e.timestamp }

  /** Every entry of the buffer the query selects, newest first (stable among
      equal timestamps): the filter chain and the sort of `queryLogs`, with
      the chain written as the single filter it amounts to
      (`ChainIsConjunction`). */
  function Ranked(entries: seq<LogEntry>, q: LogQuery): (r: seq<LogEntry>)
    ensures SortedDesc(r, LogTimestamp)
    ensures forall i | 0 <= i < |r| :: Matches(q, r[i])
    ensures forall e | e in entries && Matches(q, e) :: e in r
    ensures forall e :: multiset(r)[e] == if Matches(q, e) then multiset(entries)[e] else 0
  {
    RankedFacts(entries, q);
    SortDesc(Filter(entries, MatchesQuery(q)), LogTimestamp)
  }

  /** Sorting the results of the source's filter chain gives `Ranked`. */
  lemma RankedIsSortedChain(entries: seq<LogEntry>, q: LogQuery)
    ensures SortDesc(Chain(entries, q, FilterStages), LogTimestamp) == Ranked(entries, q)
  {
    ChainIsConjunction(entries, q);
  }

  lemma RankedFacts(entries: seq<LogEntry>, q: LogQuery)
    ensures var r := SortDesc(Filter(entries, MatchesQuery(q)), LogTimestamp);
      && (forall i | 0 <= i < |r| :: Matches(q, r[i]))
      && (forall e | e in entries && Matches(q, e) :: e in r)
      && (forall e :: multiset(r)[e] == if Matches(q, e) then multiset(entries)[e] else 0)
  {
    var f := Filter(entries, MatchesQuery(q));
    var r := SortDesc(f, LogTimestamp);
    forall i | 0 <= i < |r| ensures Matches(q, r[i]) {
      assert r[i] in multiset(f);
    }
    forall e | e in entries && Matches(q, e) ensures e in r {
      assert e in multiset(f);
    }
    FilterCounts(entries, MatchesQuery(q));
  }

  /** `query.offset || 0`. */
  function QueryOffset(q: LogQuery): nat { if q.offset.Some? then q.offset.value else 0 }

  /** `query.limit || 100`: no limit and a limit of 0 both mean 100. */
  function QueryLimit(q: LogQuery): (n: nat)
    ensures n > 0
    ensures q.limit.Some? && q.limit.value != 0 ==> n == q.limit.value
    ensures q.limit.None? || q.limit.value == 0 ==> n == DefaultQueryLimit
  {
    if q.limit.Some? && q.limit.value != 0 then q.limit.value else DefaultQueryLimit
  }

  /** `queryLogs`: the filter chain on a copy of the buffer, a stable sort by
      descending timestamp, and the page `[offset, offset + limit)`. */
  function Query(buffer: seq<LogEntry>, q: LogQuery): (r: seq<LogEntry>)
    ensures |r| <= QueryLimit(q)
  {
    Slice(Ranked(buffer, q), QueryOffset(q), QueryLimit(q))
  }

  /** What a query returns: entries of the buffer that satisfy every given
      filter, newest first, and all of them when no page bound cuts in. */
  lemma QueryResults(buffer: seq<LogEntry>, q: LogQuery)
    ensures var r := Query(buffer, q);
      && (forall i | 0 <= i < |r| :: Matches(q, r[i]))
      && SortedDesc(r, LogTimestamp)
      && multiset(r) <= multiset(buffer)
      && (QueryOffset(q) == 0 && |Filter(buffer, MatchesQuery(q))| <= QueryLimit(q) ==>
            forall e | e in buffer && Matches(q, e) :: e in r)
  {
    var all := Ranked(buffer, q);
    SliceOfSorted(all, QueryOffset(q), QueryLimit(q), MatchesQuery(q), LogTimestamp);
    if QueryOffset(q) == 0 && |Filter(buffer, MatchesQuery(q))| <= QueryLimit(q) {
      WholePage(buffer, q);
    }
  }

  /** A page that starts at the first result and has room for all of them is
      the whole ranking. */
  lemma WholePage(buffer: seq<LogEntry>, q: LogQuery)
    requires QueryOffset(q) == 0 && |Filter(buffer, MatchesQuery(q))| <= QueryLimit(q)
    ensures Query(buffer, q) == Ranked(buffer, q)
  {
    assert |Ranked(buffer, q)| == |Filter(buffer, MatchesQuery(q))|;
  }

  /** The selection and order of a query do not depend on its pagination. */
  lemma RankedIgnoresPaging(buffer: seq<LogEntry>, q: LogQuery, o: Option<nat>, l: Option<nat>)
    ensures Ranked(buffer, q.(offset := o, limit := l)) == Ranked(buffer, q)
  {
    FilterExtensional(buffer, MatchesQuery(q.(offset := o, limit := l)), MatchesQuery(q));
  }

  /** The query without its pagination. */
  function Unpaged(q: LogQuery): LogQuery {
    q.(offset := None, limit := None)
  }

  /** The page a query returns is a slice of the ranking of the query
      without its pagination. */
  lemma PageAt(buffer: seq<LogEntry>, q: LogQuery)
    ensures Query(buffer, q) == Slice(Ranked(buffer, Unpaged(q)), QueryOffset(q), QueryLimit(q))
  {
    RankedIgnoresPaging(buffer, q, None, None);
  }

  /** Entries made by `log` carry no user, provider or operation, so a query
      that gives one of these filters returns nothing. */
  lemma FieldFiltersMatchNothing(buffer: seq<LogEntry>, q: LogQuery)
    requires forall i | 0 <= i < |buffer| :: buffer[i].userId.None? && buffer[i].provider.None? && buffer[i].operation.None?
    requires Given(q.userId) || Given(q.provider) || Given(q.operation)
    ensures Query(buffer, q) == []
  {
    FilterNone(buffer, MatchesQuery(q));
    assert Ranked(buffer, q) == [];
  }
  // ---------------------------------------------------------------------
  // Statistics
  // ---------------------------------------------------------------------

  /** The number of elements of `s` with the given key. */
  function CountKey(s: seq<LogEntry>, key: LogEntry -> string, k: string): nat {
    if s == [] then 0
    else CountKey(s[..|s| - 1], key, k) + (if key(s[|s| - 1]) == k then 1 else 0)
  }

  /** `acc[k] = (acc[k] || 0) + 1`. */
  function Bump(m: map<string, nat>, k: string): map<string, nat> {
    m[k := (if k in m then m[k] else 0) + 1]
  }

  /** The `reduce` that counts entries by a key, `acc[k] = (acc[k] || 0) + 1`,
      from the left. */
  function Tally(s: seq<LogEntry>, key: LogEntry -> string): (m: map<string, nat>)
    ensures forall k :: k in m <==> exists i | 0 <= i < |s| :: key(s[i]) == k
    ensures forall k | k in m :: m[k] == CountKey(s, key, k) && m[k] > 0
  {
    if s == [] then map[]
    else
      var n := |s| - 1;
      var prev := Tally(s[..n], key);
      var k := key(s[n]);
      var m := Bump(prev, k);
      BumpKeys(s, s[..n], key, prev, m);
      assert forall j | j !in prev :: CountKey(s[..n], key, j) == 0 by {
        forall j | j !in prev ensures CountKey(s[..n], key, j) == 0 {
          CountKeyAbsent(s[..n], key, j);
        }
      }
      m
  }

  /** Counting the last entry adds its key to the keys of the counts so far. */
  lemma BumpKeys(s: seq<LogEntry>, init: seq<LogEntry>, key: LogEntry -> string,
                 prev: map<string, nat>, m: map<string, nat>)
    requires s != [] && init == s[..|s| - 1]
    requires forall k :: k in prev <==> exists i | 0 <= i < |init| :: key(init[i]) == k
    requires m == Bump(prev, key(s[|s| - 1]))
    ensures forall k :: k in m <==> exists i | 0 <= i < |s| :: key(s[i]) == k
  {
    var n := |s| - 1;
    forall j ensures j in m <==> exists i | 0 <= i < |s| :: key(s[i]) == j {
      if j in prev {
        var i :| 0 <= i < n && key(init[i]) == j;
        assert key(s[i]) == j;
      }
      if j != key(s[n]) && (exists i | 0 <= i < |s| :: key(s[i]) == j) {
        var i :| 0 <= i < |s| && key(s[i]) == j;
        assert i < n && key(init[i]) == j;
      }
    }
  }

  lemma {:induction false} CountKeyAbsent(s: seq<LogEntry>, key: LogEntry -> string, k: string)
    requires forall i | 0 <= i < |s| :: key(s[i]) != k
    ensures CountKey(s, key, k) == 0
  {
    if s != [] {
      CountKeyAbsent(s[..|s| - 1], key, k);
    }
  }

  /** Every entry is counted once: the counts add up to the number of
      entries. */
  lemma {:induction false} TallySum(s: seq<LogEntry>, key: LogEntry -> string)
    ensures SumValues(Tally(s, key)) == |s|
  {
    if s != [] {
      var n := |s| - 1;
      TallySum(s[..n], key);
      var prev := Tally(s[..n], key);
      var k := key(s[n]);
      SumValuesIncrement(prev, k);
      assert Tally(s, key) == Bump(prev, k);
    } else {
      assert Tally(s, key) == map[];
    }
  }

  function LevelKey(e: LogEntry): string { LevelName(e.level) }

  function CategoryKey(e: LogEntry): string { e.category }

  predicate IsErrorEntry(e: LogEntry) { e.level == Error || e.level == Critical }

  datatype LogStats = LogStats(
    totalEntries: nat,
    entriesByLevel: map<string, nat>,
    entriesByCategory: map<string, nat>,
    recentErrors: seq<LogEntry>)

  /** `m` counts the entries of `s` by `key`: its keys are exactly the keys
      that occur, each maps to its number of occurrences, and the counts add
      up to the number of entries. */
  ghost predicate CountsBy(m: map<string, nat>, s: seq<LogEntry>, key: LogEntry -> string) {
    && (forall k :: k in m <==> exists i | 0 <= i < |s| :: key(s[i]) == k)
    && (forall k | k in m :: m[k] == CountKey(s, key, k))
    && SumValues(m) == |s|
  }

  lemma TallyCounts(s: seq<LogEntry>, key: LogEntry -> string)
    ensures CountsBy(Tally(s, key), s, key)
  {
    TallySum(s, key);
  }

  /** The `recentErrors` of `getLogStats`: the error and critical entries,
      newest first, at most ten of them; an error entry is left out only when
      the list is full and it is no newer than the last one listed. */
  function RecentErrors(buffer: seq<LogEntry>): (r: seq<LogEntry>)
    ensures |r| <= RecentErrorsCap
    ensures forall i | 0 <= i < |r| :: IsErrorEntry(r[i])
    ensures SortedDesc(r, LogTimestamp)
    ensures multiset(r) <= multiset(buffer)
    ensures forall e | e in buffer && IsErrorEntry(e) && multiset(r)[e] < multiset(buffer)[e] ::
      |r| == RecentErrorsCap && LogTimestamp(e) <= LogTimestamp(r[RecentErrorsCap - 1])
  {
    TopN(buffer, (e: LogEntry) => IsErrorEntry(e), LogTimestamp, RecentErrorsCap)
  }

  /** `getLogStats`: the number of entries, the counts by level name and by
      category, and the recent errors. */
  function Stats(buffer: seq<LogEntry>): (st: LogStats)
    ensures st.totalEntries == |buffer|
    ensures CountsBy(st.entriesByLevel, buffer, LevelKey)
    ensures CountsBy(st.entriesByCategory, buffer, CategoryKey)
    ensures st.recentErrors == RecentErrors(buffer)
  {
    TallyCounts(buffer, LevelKey);
    TallyCounts(buffer, CategoryKey);
    LogStats(|buffer|, Tally(buffer, LevelKey), Tally(buffer, CategoryKey), RecentErrors(buffer))
  }

  // ---------------------------------------------------------------------
  // The logger object
  // ---------------------------------------------------------------------

  class Logger {
    var config: LogConfig
    var buffer: seq<LogEntry>
    /** `None` for a logger made by the constructor; `Some` for one made by
        `child`, whose `log` adds this context. */
    var context: Option<ChildContext>

    /** The constructor: default configuration, empty buffer. The flush timer
        it starts is the caller invoking `Flush`. */
    constructor ()
      ensures config == DefaultLogConfig() && buffer == [] && context == None
    {
      config := DefaultLogConfig();
      buffer := [];
      context := None;
    }

    method UpdateConfig(patch: LogConfigPatch)
      modifies this`config
      ensures config == MergeLogConfig(old(config), patch)
    {
      config := MergeLogConfig(config, patch);
    }

    /** `flushBuffer` up to its first `await`: takes every entry and empties
        the buffer; an empty buffer is left alone. `taken` is the batch whose
        storing is now in flight. */
    method Flush() returns (taken: seq<LogEntry>)
      modifies this`buffer
      ensures taken == old(buffer)
      ensures buffer == []
    {
      if |buffer| == 0 {
        return [];
      }
      taken := buffer;
      buffer := [];
    }

    /** The end of `flushBuffer`, once storing `taken` has finished: storing
        fails only through an enabled target that fails, and then the batch
        goes back in front of whatever was logged in the meantime, in its
        original order. */
    method FinishFlush(taken: seq<LogEntry>, databaseFails: bool, fileFails: bool) returns (failed: bool)
      modifies this`buffer
      ensures failed == ((config.enableDatabase && databaseFails) || (config.enableFile && fileFails))
      ensures buffer == if failed then taken + old(buffer) else old(buffer)
    {
      failed := false;
      if config.enableDatabase && databaseFails {
        failed := true;
      } else if config.enableFile && fileFails {
        failed := true;
      }
      if failed {
        buffer := taken + buffer;
      }
    }

    /** `log` (and `debug`, `info`, `warn`, which call it): a rejected level
        changes nothing; an accepted message appends one entry, and when the
        buffer reaches `BufferSize` a flush starts and `taken` is its batch. */
    method Log(level: Level, message: string, category: string, metadata: Option<Metadata>, id: string, now: int)
      returns (taken: seq<LogEntry>)
      modifies this`buffer
      ensures var e := Admit(config, context, level, message, category, metadata, id, now);
        && (e.None? ==> buffer == old(buffer) && taken == [])
        && (e.Some? && |old(buffer)| + 1 < BufferSize ==> buffer == old(buffer) + [e.value] && taken == [])
        && (e.Some? && |old(buffer)| + 1 >= BufferSize ==> buffer == [] && taken == old(buffer) + [e.value])
      ensures |old(buffer)| < BufferSize ==> |buffer| < BufferSize
    {
      taken := [];
      var e := Admit(config, context, level, message, category, metadata, id, now);
      if e.None? {
        return;
      }
      buffer := buffer + [e.value];
      if |buffer| >= BufferSize {
        taken := Flush();
      }
    }

    /** `error` and `critical`: `log` with the error folded into the
        metadata. */
    method LogFailure(level: Level, message: string, error: Option<Failure>, metadata: Option<Metadata>,
                      category: string, id: string, now: int)
      returns (taken: seq<LogEntry>)
      requires level == Error || level == Critical
      modifies this`buffer
      ensures var e := Admit(config, context, level, message, category,
                             Some(WithError(metadata, error, config.includeStackTrace)), id, now);
        && (e.None? ==> buffer == old(buffer) && taken == [])
        && (e.Some? && |old(buffer)| + 1 < BufferSize ==> buffer == old(buffer) + [e.value] && taken == [])
        && (e.Some? && |old(buffer)| + 1 >= BufferSize ==> buffer == [] && taken == old(buffer) + [e.value])
      ensures level == Critical ==> |buffer| == |old(buffer)| + 1 || buffer == []
    {
      taken := Log(level, message, category, Some(WithError(metadata, error, config.includeStackTrace)), id, now);
    }

    /** `child`: a new logger with a copy of the configuration, its own empty
        buffer, and the given context. A child of a child has only its own
        context. */
    method Child(ctx: ChildContext) returns (c: Logger)
      ensures fresh(c)
      ensures c.config == config && c.buffer == [] && c.context == Some(ctx)
    {
      c := new Logger();
      c.config := config;
      c.context := Some(ctx);
    }

    /** `queryLogs`: reads the buffer and leaves it as it is. */
    function QueryLogs(q: LogQuery): (r: seq<LogEntry>)
      reads this
      ensures r == Query(buffer, q)
      ensures multiset(r) <= multiset(buffer)
    {
      QueryResults(buffer, q);
      Query(buffer, q)
    }

    /** `getLogStats`. */
    function GetLogStats(): (st: LogStats)
      reads this
      ensures st == Stats(buffer)
      ensures st.totalEntries == |buffer|
    {
      Stats(buffer)
    }
  }
}
