/** The log optimizer: numbers for resources and scopes, and one sorted list of all records of a batch. */
module LogOptimizer {
  import opened Wrappers
  import opened Values
  import opened Sorting

  function Init<T>(s: seq<T>): seq<T>
    requires s != []
  {
    s[..|s| - 1]
  }

  function Last<T>(s: seq<T>): T
    requires s != []
  {
    s[|s| - 1]
  }

  /** `key` is the text that identifies a resource or a scope. */
  datatype Owner = Owner(key: string, attrs: seq<Entry>)

  datatype Log = Log(attrs: seq<Entry>, traceId: seq<byte>)

  datatype ResScope = ResScope(resourceLogsId: nat, resource: Owner, scopeLogsId: nat, scope: Owner)

  datatype FlattenedLog = FlattenedLog(rs: ResScope, log: Log)

  // ---------------------------------------------------------------- The order of records

  predicate ByIds(a: FlattenedLog, b: FlattenedLog) {
    if a.rs.resourceLogsId == b.rs.resourceLogsId then
      (if a.rs.scopeLogsId == b.rs.scopeLogsId then CompareBytes(a.log.traceId, b.log.traceId) == -1
       else a.rs.scopeLogsId < b.rs.scopeLogsId)
    else a.rs.resourceLogsId < b.rs.resourceLogsId
  }

  lemma BytesOrder(a: seq<byte>, b: seq<byte>, c: seq<byte>)
    ensures -1 <= CompareBytes(a, b) <= 1 && CompareBytes(b, a) == -CompareBytes(a, b)
    ensures CompareBytes(a, b) <= 0 && CompareBytes(b, c) <= 0 ==> CompareBytes(a, c) <= 0
  {
    CompareSeqLaws(a, b, c, (x: byte) => x as int);
  }

  lemma ByIdsIsWeakOrder(s: seq<FlattenedLog>)
    ensures WeakOrderOn(s, ByIds)
  {
    forall a, b, c | a in s && b in s && c in s
      ensures ByIds(a, b) ==> !ByIds(b, a)
      ensures ByIds(a, c) ==> ByIds(a, b) || ByIds(b, c)
    {
      BytesOrder(a.log.traceId, b.log.traceId, c.log.traceId);
      BytesOrder(c.log.traceId, b.log.traceId, a.log.traceId);
      BytesOrder(a.log.traceId, c.log.traceId, b.log.traceId);
    }
  }

  /** By resource number, then scope number, then trace id. */
  ghost predicate LogBefore(a: FlattenedLog, b: FlattenedLog) {
    || a.rs.resourceLogsId < b.rs.resourceLogsId
    || (a.rs.resourceLogsId == b.rs.resourceLogsId && a.rs.scopeLogsId < b.rs.scopeLogsId)
    || (a.rs.resourceLogsId == b.rs.resourceLogsId && a.rs.scopeLogsId == b.rs.scopeLogsId
        && BytesBefore(a.log.traceId, b.log.traceId))
  }

  lemma LogsInOrder(logs: seq<FlattenedLog>, sorted: seq<FlattenedLog>, i: nat, j: nat)
    requires SortOutcome(logs, sorted, ByIds) && i < j < |sorted|
    ensures !LogBefore(sorted[j], sorted[i])
  {
    ByIdsIsWeakOrder(logs);
    assert !ByIds(sorted[j], sorted[i]);
    BytesInOrder(sorted[j].log.traceId, sorted[i].log.traceId);
    hide CompareBytes, BytesBefore;
  }

  // ---------------------------------------------------------------- Numbering

  datatype ScopeLogs = ScopeLogs(scope: Owner, logs: seq<Log>)

  datatype ResourceLogs = ResourceLogs(resource: Owner, scopes: seq<ScopeLogs>)

  /** Numbers given out one after the other, each to one key. */
  ghost predicate Dense(ids: map<string, nat>) {
    && (forall k :: k in ids ==> ids[k] < |ids|)
    && (forall j, k :: j in ids && k in ids && ids[j] == ids[k] ==> j == k)
  }

  ghost predicate Extends(ids: map<string, nat>, more: map<string, nat>) {
    forall k :: k in ids ==> k in more && more[k] == ids[k]
  }

  function IdOf(ids: map<string, nat>, key: string): nat {
    if key in ids then ids[key] else 0
  }

  /** A new text gets the next number. */
  function Number(ids: map<string, nat>, key: string): map<string, nat> {
    if key in ids then ids else ids[key := |ids|]
  }

  function NumberScopes(ids: map<string, nat>, scopes: seq<ScopeLogs>): map<string, nat> {
    if scopes == [] then ids else Number(NumberScopes(ids, Init(scopes)), Last(scopes).scope.key)
  }

  /** Numbers in the order in which the texts are first met. */
  function ResourceNumbers(all: seq<ResourceLogs>): map<string, nat> {
    if all == [] then map[] else Number(ResourceNumbers(Init(all)), Last(all).resource.key)
  }

  function ScopeNumbers(all: seq<ResourceLogs>): map<string, nat> {
    if all == [] then map[] else NumberScopes(ScopeNumbers(Init(all)), Last(all).scopes)
  }

  method NumberFor(ids: map<string, nat>, key: string) returns (more: map<string, nat>, id: nat)
    requires Dense(ids)
    ensures more == Number(ids, key)
    ensures Dense(more) && Extends(ids, more) && key in more && id == more[key]
  {
    if key in ids {
      more, id := ids, ids[key];
    } else {
      id := |ids|;
      more := ids[key := id];
      assert |more| == |ids| + 1;
    }
  }

  function FlattenLogs(rs: ResScope, logs: seq<Log>): seq<FlattenedLog> {
    if logs == [] then [] else FlattenLogs(rs, Init(logs)) + [FlattenedLog(rs, Last(logs))]
  }

  function FlattenScopes(resID: nat, resource: Owner, scopes: seq<ScopeLogs>,
      scopeIDs: map<string, nat>): seq<FlattenedLog>
  {
    if scopes == [] then [] else
      var s := Last(scopes);
      FlattenScopes(resID, resource, Init(scopes), scopeIDs)
        + FlattenLogs(ResScope(resID, resource, IdOf(scopeIDs, s.scope.key), s.scope), s.logs)
  }

  /** The records one after the other, with the number of their resource and of their scope. */
  function Flatten(all: seq<ResourceLogs>, resIDs: map<string, nat>, scopeIDs: map<string, nat>): seq<FlattenedLog> {
    if all == [] then [] else
      var r := Last(all);
      Flatten(Init(all), resIDs, scopeIDs) + FlattenScopes(IdOf(resIDs, r.resource.key), r.resource, r.scopes, scopeIDs)
  }

  ghost predicate ScopesKnown(scopes: seq<ScopeLogs>, scopeIDs: map<string, nat>) {
    forall j :: 0 <= j < |scopes| ==> scopes[j].scope.key in scopeIDs
  }

  ghost predicate Known(all: seq<ResourceLogs>, resIDs: map<string, nat>, scopeIDs: map<string, nat>) {
    forall i :: 0 <= i < |all| ==> all[i].resource.key in resIDs && ScopesKnown(all[i].scopes, scopeIDs)
  }

  lemma {:induction false} ScopesStay(resID: nat, r: Owner, scopes: seq<ScopeLogs>, ids: map<string, nat>,
      more: map<string, nat>)
    requires Extends(ids, more) && ScopesKnown(scopes, ids)
    ensures ScopesKnown(scopes, more) && FlattenScopes(resID, r, scopes, more) == FlattenScopes(resID, r, scopes, ids)
  {
    if scopes != [] {
      ScopesStay(resID, r, Init(scopes), ids, more);
    }
  }

  lemma {:induction false} FlattenStays(all: seq<ResourceLogs>, resIDs: map<string, nat>, scopeIDs: map<string, nat>,
                                        resMore: map<string, nat>, scopeMore: map<string, nat>)
    requires Extends(resIDs, resMore) && Extends(scopeIDs, scopeMore) && Known(all, resIDs, scopeIDs)
    ensures Known(all, resMore, scopeMore) && Flatten(all, resMore, scopeMore) == Flatten(all, resIDs, scopeIDs)
  {
    if all != [] {
      FlattenStays(Init(all), resIDs, scopeIDs, resMore, scopeMore);
      var r := Last(all);
      ScopesStay(IdOf(resIDs, r.resource.key), r.resource, r.scopes, scopeIDs, scopeMore);
    }
  }

  method FlattenOneScope(flat: seq<FlattenedLog>, rs: ResScope, logs: seq<Log>) returns (more: seq<FlattenedLog>)
    ensures more == flat + FlattenLogs(rs, logs)
  {
    more := flat;
    for k := 0 to |logs|
      invariant more == flat + FlattenLogs(rs, logs[..k])
    {
      assert Init(logs[..k + 1]) == logs[..k];
      more := more + [FlattenedLog(rs, logs[k])];
    }
    assert logs[..|logs|] == logs;
  }

  method FlattenOneResource(flat: seq<FlattenedLog>, resID: nat, resource: Owner, scopes: seq<ScopeLogs>,
      scopeIDs: map<string, nat>)
    returns (more: seq<FlattenedLog>, moreIDs: map<string, nat>)
    requires Dense(scopeIDs)
    ensures moreIDs == NumberScopes(scopeIDs, scopes)
    ensures Dense(moreIDs) && Extends(scopeIDs, moreIDs) && ScopesKnown(scopes, moreIDs)
    ensures more == flat + FlattenScopes(resID, resource, scopes, moreIDs)
  {
    more, moreIDs := flat, scopeIDs;
    ghost var done: seq<ScopeLogs> := [];
    ghost var added: seq<FlattenedLog> := [];
    assert ScopesKnown(done, moreIDs) && added == FlattenScopes(resID, resource, done, moreIDs)
        && Extends(scopeIDs, moreIDs);
    hide Dense, ScopesKnown, FlattenScopes, FlattenLogs, Extends, Number;
    for j := 0 to |scopes|
      invariant Dense(moreIDs) && Extends(scopeIDs, moreIDs) && done == scopes[..j]
      invariant moreIDs == NumberScopes(scopeIDs, done)
      invariant ScopesKnown(done, moreIDs) && added == FlattenScopes(resID, resource, done, moreIDs)
          && more == flat + added
    {
      var s := scopes[j];
      var next, scopeID := NumberFor(moreIDs, s.scope.key);
      var rs := ResScope(resID, resource, scopeID, s.scope);
      ExtendsOn(scopeIDs, moreIDs, next);
      ScopesStay(resID, resource, done, moreIDs, next);
      ScopesNext(resID, resource, done, s, next);
      assert Init(done + [s]) == done;
      more := FlattenOneScope(more, rs, s.logs);
      Regroup(flat, added, FlattenLogs(rs, s.logs));
      done, added, moreIDs := done + [s], added + FlattenLogs(rs, s.logs), next;
    }
    assert done == scopes;
  }

  lemma ExtendsOn(ids: map<string, nat>, more: map<string, nat>, next: map<string, nat>)
    requires Extends(ids, more) && Extends(more, next)
    ensures Extends(ids, next)
  {
  }

  lemma ScopesNext(resID: nat, r: Owner, done: seq<ScopeLogs>, s: ScopeLogs, ids: map<string, nat>)
    requires ScopesKnown(done, ids) && s.scope.key in ids
    ensures ScopesKnown(done + [s], ids)
    ensures FlattenScopes(resID, r, done + [s], ids)
         == FlattenScopes(resID, r, done, ids) + FlattenLogs(ResScope(resID, r, ids[s.scope.key], s.scope), s.logs)
  {
    assert Init(done + [s]) == done;
  }

  lemma FlattenNext(done: seq<ResourceLogs>, r: ResourceLogs, resIDs: map<string, nat>, scopeIDs: map<string, nat>)
    requires Known(done, resIDs, scopeIDs) && r.resource.key in resIDs && ScopesKnown(r.scopes, scopeIDs)
    ensures Known(done + [r], resIDs, scopeIDs)
    ensures Flatten(done + [r], resIDs, scopeIDs)
         == Flatten(done, resIDs, scopeIDs) + FlattenScopes(resIDs[r.resource.key], r.resource, r.scopes, scopeIDs)
  {
    assert Init(done + [r]) == done;
  }

  lemma NothingNumbered()
    ensures Dense(map[]) && Known([], map[], map[]) && Flatten([], map[], map[]) == []
    ensures ResourceNumbers([]) == map[] && ScopeNumbers([]) == map[]
  {
  }

  lemma NumbersNext(done: seq<ResourceLogs>, r: ResourceLogs)
    ensures ResourceNumbers(done + [r]) == Number(ResourceNumbers(done), r.resource.key)
    ensures ScopeNumbers(done + [r]) == NumberScopes(ScopeNumbers(done), r.scopes)
  {
    assert Init(done + [r]) == done;
    hide Number, NumberScopes;
  }

  // ---------------------------------------------------------------- Where a record comes from

  datatype Position = Position(resource: nat, scope: nat, log: nat)

  predicate IsPosition(all: seq<ResourceLogs>, p: Position) {
    && p.resource < |all| && p.scope < |all[p.resource].scopes|
    && p.log < |all[p.resource].scopes[p.scope].logs|
  }

  /** f is the record at this position, with its resource, its scope and the numbers of both. */
  predicate Carries(all: seq<ResourceLogs>, resIDs: map<string, nat>, scopeIDs: map<string, nat>, p: Position,
                    f: FlattenedLog)
  {
    IsPosition(all, p) &&
    var r := all[p.resource];
    var s := r.scopes[p.scope];
    && r.resource.key in resIDs && s.scope.key in scopeIDs
    && f.rs == ResScope(resIDs[r.resource.key], r.resource, scopeIDs[s.scope.key], s.scope)
    && f.log == s.logs[p.log]
  }

  ghost predicate AllCarried(all: seq<ResourceLogs>, resIDs: map<string, nat>, scopeIDs: map<string, nat>,
                             logs: seq<FlattenedLog>, at: seq<Position>)
  {
    |at| == |logs| && forall i :: 0 <= i < |at| ==> Carries(all, resIDs, scopeIDs, at[i], logs[i])
  }

  ghost predicate Distinct<T>(s: seq<T>) {
    forall i, j :: 0 <= i < j < |s| ==> s[i] != s[j]
  }

  /** The records stand for all the positions of the batch, each of them once. */
  ghost predicate Placed(all: seq<ResourceLogs>, resIDs: map<string, nat>, scopeIDs: map<string, nat>,
                         logs: seq<FlattenedLog>, at: seq<Position>)
  {
    && AllCarried(all, resIDs, scopeIDs, logs, at) && Distinct(at)
    && forall p :: IsPosition(all, p) ==> p in at
  }

  ghost predicate EveryRecordOnce(all: seq<ResourceLogs>, resIDs: map<string, nat>, scopeIDs: map<string, nat>,
                                  logs: seq<FlattenedLog>)
  {
    exists at :: Placed(all, resIDs, scopeIDs, logs, at)
  }

  // ---------------------------------------------------------------- Flattening

  lemma {:induction false} FlattenLogsAt(rs: ResScope, logs: seq<Log>)
    ensures |FlattenLogs(rs, logs)| == |logs|
    ensures forall k :: 0 <= k < |logs| ==> FlattenLogs(rs, logs)[k] == FlattenedLog(rs, logs[k])
  {
    if logs != [] {
      FlattenLogsAt(rs, Init(logs));
    }
  }

  function LogPositions(i: nat, j: nat, n: nat): (ps: seq<Position>)
    ensures |ps| == n && forall k :: 0 <= k < n ==> ps[k] == Position(i, j, k)
  {
    seq(n, k requires 0 <= k < n => Position(i, j, k))
  }

  function ScopePositions(i: nat, scopes: seq<ScopeLogs>): seq<Position> {
    if scopes == [] then []
    else ScopePositions(i, Init(scopes)) + LogPositions(i, |scopes| - 1, |Last(scopes).logs|)
  }

  function AllPositions(all: seq<ResourceLogs>): seq<Position> {
    if all == [] then []
    else AllPositions(Init(all)) + ScopePositions(|all| - 1, Last(all).scopes)
  }

  lemma DistinctAppend<T>(s: seq<T>, t: seq<T>)
    requires Distinct(s) && Distinct(t) && forall x :: x in s ==> x !in t
    ensures Distinct(s + t)
  {
    forall i, j | 0 <= i < j < |s + t| ensures (s + t)[i] != (s + t)[j] {
      if i < |s| <= j {
        assert s[i] in s && t[j - |s|] in t;
      }
    }
  }

  lemma {:induction false} ScopePositionsAre(i: nat, scopes: seq<ScopeLogs>)
    ensures forall p :: p in ScopePositions(i, scopes) <==>
              p.resource == i && p.scope < |scopes| && p.log < |scopes[p.scope].logs|
    ensures Distinct(ScopePositions(i, scopes))
  {
    if scopes != [] {
      var n := |scopes| - 1;
      ScopePositionsAre(i, Init(scopes));
      var last := LogPositions(i, n, |Last(scopes).logs|);
      forall p ensures p in last <==> p.resource == i && p.scope == n && p.log < |Last(scopes).logs| {
        if p.resource == i && p.scope == n && p.log < |Last(scopes).logs| {
          assert last[p.log] == p;
        }
      }
      DistinctAppend(ScopePositions(i, Init(scopes)), last);
    }
  }

  lemma {:induction false} AllPositionsAre(all: seq<ResourceLogs>)
    ensures forall p :: p in AllPositions(all) <==> IsPosition(all, p)
    ensures Distinct(AllPositions(all))
  {
    if all != [] {
      AllPositionsAre(Init(all));
      ScopePositionsAre(|all| - 1, Last(all).scopes);
      hide ScopePositions, Distinct;
      DistinctAppend(AllPositions(Init(all)), ScopePositions(|all| - 1, Last(all).scopes));
    }
  }

  /** The records of the first scopes of resource i, in the order of their positions. */
  lemma {:induction false} ScopesCarried(all: seq<ResourceLogs>, resIDs: map<string, nat>, scopeIDs: map<string, nat>,
                                         i: nat, n: nat)
    requires Known(all, resIDs, scopeIDs) && i < |all| && n <= |all[i].scopes|
    ensures var r := all[i];
            AllCarried(all, resIDs, scopeIDs,
                       FlattenScopes(IdOf(resIDs, r.resource.key), r.resource, r.scopes[..n], scopeIDs),
                       ScopePositions(i, r.scopes[..n]))
  {
    var r := all[i];
    if n > 0 {
      ScopesCarried(all, resIDs, scopeIDs, i, n - 1);
      var s := r.scopes[n - 1];
      assert Init(r.scopes[..n]) == r.scopes[..n - 1] && Last(r.scopes[..n]) == s;
      FlattenLogsAt(ResScope(IdOf(resIDs, r.resource.key), r.resource, IdOf(scopeIDs, s.scope.key), s.scope), s.logs);
      hide FlattenLogs;
    }
  }

  lemma CarriedMore(all: seq<ResourceLogs>, r: ResourceLogs, resIDs: map<string, nat>, scopeIDs: map<string, nat>,
                    logs: seq<FlattenedLog>, at: seq<Position>)
    requires AllCarried(all, resIDs, scopeIDs, logs, at)
    ensures AllCarried(all + [r], resIDs, scopeIDs, logs, at)
  {
  }

  lemma CarriedAppend(all: seq<ResourceLogs>, resIDs: map<string, nat>, scopeIDs: map<string, nat>,
                      logs: seq<FlattenedLog>, at: seq<Position>, more: seq<FlattenedLog>, then_: seq<Position>)
    requires AllCarried(all, resIDs, scopeIDs, logs, at) && AllCarried(all, resIDs, scopeIDs, more, then_)
    ensures AllCarried(all, resIDs, scopeIDs, logs + more, at + then_)
  {
    hide Carries;
  }

  lemma {:induction false} FlattenCarried(all: seq<ResourceLogs>, resIDs: map<string, nat>, scopeIDs: map<string, nat>)
    requires Known(all, resIDs, scopeIDs)
    ensures AllCarried(all, resIDs, scopeIDs, Flatten(all, resIDs, scopeIDs), AllPositions(all))
  {
    if all != [] {
      var init, r := Init(all), Last(all);
      FlattenCarried(init, resIDs, scopeIDs);
      CarriedMore(init, r, resIDs, scopeIDs, Flatten(init, resIDs, scopeIDs), AllPositions(init));
      assert init + [r] == all && r.scopes[..|r.scopes|] == r.scopes;
      ScopesCarried(all, resIDs, scopeIDs, |all| - 1, |r.scopes|);
      hide AllCarried, FlattenScopes, ScopePositions;
      CarriedAppend(all, resIDs, scopeIDs, Flatten(init, resIDs, scopeIDs), AllPositions(init),
                    FlattenScopes(IdOf(resIDs, r.resource.key), r.resource, r.scopes, scopeIDs),
                    ScopePositions(|all| - 1, r.scopes));
    }
  }

  // ---------------------------------------------------------------- Sorting

  lemma CarriedOthers(all: seq<ResourceLogs>, resIDs: map<string, nat>, scopeIDs: map<string, nat>,
                      logs: seq<FlattenedLog>, at: seq<Position>, k: nat)
    requires AllCarried(all, resIDs, scopeIDs, logs, at) && k < |logs|
    ensures AllCarried(all, resIDs, scopeIDs, Others(logs, k), Others(at, k))
  {
    hide Carries, Others;
  }

  /** However the records are rearranged, their positions can be rearranged along with them. */
  lemma {:induction false} CarriedPermuted(all: seq<ResourceLogs>, resIDs: map<string, nat>,
                                           scopeIDs: map<string, nat>, logs: seq<FlattenedLog>, at: seq<Position>,
                                           sorted: seq<FlattenedLog>) returns (at': seq<Position>)
    requires AllCarried(all, resIDs, scopeIDs, logs, at) && multiset(logs) == multiset(sorted)
    ensures AllCarried(all, resIDs, scopeIDs, sorted, at') && multiset(at') == multiset(at)
    decreases |sorted|
  {
    SameMembers(logs, sorted);
    if sorted == [] {
      at' := [];
    } else {
      assert sorted[0] in sorted;
      var k :| 0 <= k < |logs| && logs[k] == sorted[0];
      CarriedOthers(all, resIDs, scopeIDs, logs, at, k);
      assert Carries(all, resIDs, scopeIDs, at[k], sorted[0]);
      assert |at| == |logs|;
      hide Carries, Others, AllCarried;
      SameRest(logs, sorted, k, 0);
      var rest := CarriedPermuted(all, resIDs, scopeIDs, Others(logs, k), Others(at, k), Others(sorted, 0));
      at' := [at[k]] + rest;
      PutBack(at, k, rest);
      assert sorted == [sorted[0]] + Others(sorted, 0);
      CarriedOne(all, resIDs, scopeIDs, sorted[0], at[k]);
      CarriedAppend(all, resIDs, scopeIDs, [sorted[0]], [at[k]], Others(sorted, 0), rest);
    }
  }

  lemma CarriedOne(all: seq<ResourceLogs>, resIDs: map<string, nat>, scopeIDs: map<string, nat>, f: FlattenedLog,
                   p: Position)
    requires Carries(all, resIDs, scopeIDs, p, f)
    ensures AllCarried(all, resIDs, scopeIDs, [f], [p])
  {
  }

  /** What Optimize hands on, in whatever order, are all records of the batch, each once, and no others. */
  lemma OptimizedOnce(all: seq<ResourceLogs>, resIDs: map<string, nat>, scopeIDs: map<string, nat>,
                      logs: seq<FlattenedLog>)
    requires Known(all, resIDs, scopeIDs) && multiset(Flatten(all, resIDs, scopeIDs)) == multiset(logs)
    ensures EveryRecordOnce(all, resIDs, scopeIDs, logs)
  {
    FlattenCarried(all, resIDs, scopeIDs);
    AllPositionsAre(all);
    hide AllCarried, AllPositions, Flatten, Known;
    var at := CarriedPermuted(all, resIDs, scopeIDs, Flatten(all, resIDs, scopeIDs), AllPositions(all), logs);
    SameMembers(AllPositions(all), at);
    forall i, j | 0 <= i < j < |at| ensures at[i] != at[j] {
      NoRepeats(AllPositions(all), at, i, j);
    }
    assert Placed(all, resIDs, scopeIDs, logs, at);
  }

  ghost function PositionsOf(all: seq<ResourceLogs>, resIDs: map<string, nat>, scopeIDs: map<string, nat>,
                             f: FlattenedLog): set<Position>
  {
    set i, j, k | 0 <= i < |all| && 0 <= j < |all[i].scopes| && 0 <= k < |all[i].scopes[j].logs|
                  && Carries(all, resIDs, scopeIDs, Position(i, j, k), f) :: Position(i, j, k)
  }

  function CountedAt(logs: seq<FlattenedLog>, at: seq<Position>, f: FlattenedLog): set<Position>
    requires |at| == |logs|
  {
    set i | 0 <= i < |logs| && logs[i] == f :: at[i]
  }

  lemma {:induction false} CountAlong(logs: seq<FlattenedLog>, at: seq<Position>, f: FlattenedLog)
    requires |at| == |logs| && Distinct(at)
    ensures multiset(logs)[f] == |CountedAt(logs, at, f)|
  {
    if logs != [] {
      var n := |logs| - 1;
      CountAlong(logs[..n], at[..n], f);
      assert logs == logs[..n] + [logs[n]];
      var before := CountedAt(logs[..n], at[..n], f);
      assert at[n] !in before;
      assert CountedAt(logs, at, f) == before + if logs[n] == f then {at[n]} else {};
    }
  }

  lemma CarriesOne(all: seq<ResourceLogs>, resIDs: map<string, nat>, scopeIDs: map<string, nat>, p: Position,
                   f: FlattenedLog, g: FlattenedLog)
    requires Carries(all, resIDs, scopeIDs, p, f)
    ensures Carries(all, resIDs, scopeIDs, p, g) <==> f == g
    ensures IsPosition(all, p)
  {
  }

  lemma PositionOf(all: seq<ResourceLogs>, resIDs: map<string, nat>, scopeIDs: map<string, nat>, f: FlattenedLog,
                   p: Position)
    ensures p in PositionsOf(all, resIDs, scopeIDs, f) <==> Carries(all, resIDs, scopeIDs, p, f)
  {
    if Carries(all, resIDs, scopeIDs, p, f) {
      assert p == Position(p.resource, p.scope, p.log);
    }
  }

  /** A record is handed on as often as the batch has it under these numbers. */
  lemma RecordCount(all: seq<ResourceLogs>, resIDs: map<string, nat>, scopeIDs: map<string, nat>,
                    logs: seq<FlattenedLog>, f: FlattenedLog)
    requires EveryRecordOnce(all, resIDs, scopeIDs, logs)
    ensures multiset(logs)[f] == |PositionsOf(all, resIDs, scopeIDs, f)|
  {
    var at :| Placed(all, resIDs, scopeIDs, logs, at);
    CountAlong(logs, at, f);
    hide Carries, IsPosition, PositionsOf, Distinct;
    var counted, positions := CountedAt(logs, at, f), PositionsOf(all, resIDs, scopeIDs, f);
    forall i | 0 <= i < |at| ensures at[i] in positions <==> logs[i] == f {
      PositionOf(all, resIDs, scopeIDs, f, at[i]);
      CarriesOne(all, resIDs, scopeIDs, at[i], logs[i], f);
    }
    forall p | p in positions ensures p in at {
      PositionOf(all, resIDs, scopeIDs, f, p);
      CarriesOne(all, resIDs, scopeIDs, p, f, f);
    }
    assert counted == positions;
  }

  function LogCount(all: seq<ResourceLogs>): nat {
    if all == [] then 0 else LogCount(Init(all)) + ScopeLogCount(Last(all).scopes)
  }

  function ScopeLogCount(scopes: seq<ScopeLogs>): nat {
    if scopes == [] then 0 else ScopeLogCount(Init(scopes)) + |Last(scopes).logs|
  }

  lemma {:induction false} ScopePositionCount(i: nat, scopes: seq<ScopeLogs>)
    ensures |ScopePositions(i, scopes)| == ScopeLogCount(scopes)
  {
    if scopes != [] {
      ScopePositionCount(i, Init(scopes));
    }
  }

  lemma {:induction false} PositionCount(all: seq<ResourceLogs>)
    ensures |AllPositions(all)| == LogCount(all)
  {
    if all != [] {
      PositionCount(Init(all));
      ScopePositionCount(|all| - 1, Last(all).scopes);
    }
  }

  lemma {:induction false} DistinctSize<T>(s: seq<T>)
    requires Distinct(s)
    ensures |Elements(s)| == |s|
  {
    if s != [] {
      var n := |s| - 1;
      DistinctSize(s[..n]);
      assert s == s[..n] + [s[n]] && s[n] !in s[..n];
      assert Elements(s) == Elements(s[..n]) + {s[n]};
    }
  }

  function Elements<T>(s: seq<T>): set<T> {
    set x | x in s
  }

  lemma PlacedPositions(all: seq<ResourceLogs>, resIDs: map<string, nat>, scopeIDs: map<string, nat>,
                        logs: seq<FlattenedLog>, at: seq<Position>, p: Position)
    requires Placed(all, resIDs, scopeIDs, logs, at)
    ensures p in at <==> IsPosition(all, p)
  {
    hide IsPosition, Carries;
    if p in at {
      var i :| 0 <= i < |at| && at[i] == p;
      CarriesOne(all, resIDs, scopeIDs, p, logs[i], logs[i]);
    }
  }

  /** As many records are handed on as the scopes of the batch hold together. */
  lemma RecordTotal(all: seq<ResourceLogs>, resIDs: map<string, nat>, scopeIDs: map<string, nat>,
                    logs: seq<FlattenedLog>)
    requires EveryRecordOnce(all, resIDs, scopeIDs, logs)
    ensures |logs| == LogCount(all)
  {
    hide IsPosition, Carries, LogCount, AllPositions;
    var at :| Placed(all, resIDs, scopeIDs, logs, at);
    AllPositionsAre(all);
    PositionCount(all);
    DistinctSize(at);
    DistinctSize(AllPositions(all));
    forall p ensures p in at <==> p in AllPositions(all) {
      PlacedPositions(all, resIDs, scopeIDs, logs, at, p);
    }
    assert Elements(at) == Elements(AllPositions(all));
  }

  // ---------------------------------------------------------------- Numbers

  /** These and no other texts are numbered, from zero, in the order in which they are first met. */
  ghost predicate FirstCome(ids: map<string, nat>, keys: seq<string>) {
    && ids.Keys == Elements(keys)
    && forall i :: 0 <= i < |keys| && keys[i] !in keys[..i] ==> ids[keys[i]] == |Elements(keys[..i])|
  }

  lemma NumberFirstCome(ids: map<string, nat>, keys: seq<string>, key: string)
    requires FirstCome(ids, keys)
    ensures FirstCome(Number(ids, key), keys + [key])
  {
    var more, all := Number(ids, key), keys + [key];
    NumberedKeys(ids, keys, key);
    hide Number, Elements;
    forall i | 0 <= i < |all| && all[i] !in all[..i] ensures more[all[i]] == |Elements(all[..i])| {
      assert all[..i] == keys[..i];
      if i < |keys| {
        KnownNumber(ids, keys, key, i);
      } else {
        assert keys[..i] == keys && all[i] == key;
        NewNumber(ids, keys, key);
      }
    }
  }

  lemma NumberedKeys(ids: map<string, nat>, keys: seq<string>, key: string)
    requires ids.Keys == Elements(keys)
    ensures Number(ids, key).Keys == Elements(keys + [key])
  {
    assert Elements(keys + [key]) == Elements(keys) + {key};
  }

  lemma KnownNumber(ids: map<string, nat>, keys: seq<string>, key: string, i: nat)
    requires FirstCome(ids, keys) && i < |keys| && keys[i] !in keys[..i]
    ensures keys[i] in ids && Number(ids, key)[keys[i]] == |Elements(keys[..i])|
  {
    assert keys[i] in Elements(keys);
    hide Elements;
  }

  lemma NewNumber(ids: map<string, nat>, keys: seq<string>, key: string)
    requires FirstCome(ids, keys) && key !in keys
    ensures key in Number(ids, key) && Number(ids, key)[key] == |Elements(keys)|
  {
    assert key !in Elements(keys) && |ids| == |ids.Keys|;
    hide Elements;
  }

  function ScopeKeyList(scopes: seq<ScopeLogs>): (ks: seq<string>)
    ensures |ks| == |scopes| && forall j :: 0 <= j < |scopes| ==> ks[j] == scopes[j].scope.key
  {
    seq(|scopes|, j requires 0 <= j < |scopes| => scopes[j].scope.key)
  }

  function ResourceKeyList(all: seq<ResourceLogs>): (ks: seq<string>)
    ensures |ks| == |all| && forall i :: 0 <= i < |all| ==> ks[i] == all[i].resource.key
  {
    seq(|all|, i requires 0 <= i < |all| => all[i].resource.key)
  }

  /** The texts of all scopes, resource after resource. */
  function AllScopeKeys(all: seq<ResourceLogs>): seq<string> {
    if all == [] then [] else AllScopeKeys(Init(all)) + ScopeKeyList(Last(all).scopes)
  }

  lemma {:induction false} ResourceNumbersMeaning(all: seq<ResourceLogs>)
    ensures FirstCome(ResourceNumbers(all), ResourceKeyList(all))
  {
    if all == [] {
      assert Elements(ResourceKeyList(all)) == {};
    } else {
      ResourceNumbersMeaning(Init(all));
      hide FirstCome, Number;
      NumberFirstCome(ResourceNumbers(Init(all)), ResourceKeyList(Init(all)), Last(all).resource.key);
      assert ResourceKeyList(all) == ResourceKeyList(Init(all)) + [Last(all).resource.key];
    }
  }

  lemma {:induction false} NumberScopesMeaning(ids: map<string, nat>, keys: seq<string>, scopes: seq<ScopeLogs>)
    requires FirstCome(ids, keys)
    ensures FirstCome(NumberScopes(ids, scopes), keys + ScopeKeyList(scopes))
  {
    if scopes == [] {
      assert keys + ScopeKeyList(scopes) == keys;
    } else {
      var init := Init(scopes);
      NumberScopesMeaning(ids, keys, init);
      hide FirstCome, Number;
      NumberFirstCome(NumberScopes(ids, init), keys + ScopeKeyList(init), Last(scopes).scope.key);
      assert keys + ScopeKeyList(scopes) == keys + ScopeKeyList(init) + [Last(scopes).scope.key];
    }
  }

  lemma {:induction false} ScopeNumbersMeaning(all: seq<ResourceLogs>)
    ensures FirstCome(ScopeNumbers(all), AllScopeKeys(all))
  {
    if all == [] {
      assert Elements(AllScopeKeys(all)) == {};
    } else {
      ScopeNumbersMeaning(Init(all));
      NumberScopesMeaning(ScopeNumbers(Init(all)), AllScopeKeys(Init(all)), Last(all).scopes);
    }
  }

  // ---------------------------------------------------------------- The whole batch

  /** Numbers resources and scopes by the texts that identify them, flattens, and sorts. */
  method Optimize(all: seq<ResourceLogs>)
    returns (logs: seq<FlattenedLog>, resIDs: map<string, nat>, scopeIDs: map<string, nat>)
    ensures resIDs == ResourceNumbers(all) && scopeIDs == ScopeNumbers(all)
    ensures FirstCome(resIDs, ResourceKeyList(all)) && FirstCome(scopeIDs, AllScopeKeys(all))
    ensures Dense(resIDs) && Dense(scopeIDs) && Known(all, resIDs, scopeIDs)
    ensures SortOutcome(Flatten(all, resIDs, scopeIDs), logs, ByIds)
    ensures EveryRecordOnce(all, resIDs, scopeIDs, logs)
  {
    var flat: seq<FlattenedLog> := [];
    var resNumbers: map<string, nat>, scopeNumbers: map<string, nat> := map[], map[];
    ghost var done: seq<ResourceLogs> := [];
    NothingNumbered();
    hide Dense, Known, Flatten, FlattenScopes, ScopesKnown, Extends, ByIds, Number, NumberScopes;
    hide ResourceNumbers, ScopeNumbers, SortOutcome, EveryRecordOnce, FirstCome;
    for i := 0 to |all|
      invariant Dense(resNumbers) && Dense(scopeNumbers) && done == all[..i]
      invariant resNumbers == ResourceNumbers(done) && scopeNumbers == ScopeNumbers(done)
      invariant Known(done, resNumbers, scopeNumbers) && flat == Flatten(done, resNumbers, scopeNumbers)
    {
      var r := all[i];
      var nextRes, resID := NumberFor(resNumbers, r.resource.key);
      var next, nextScopes := FlattenOneResource(flat, resID, r.resource, r.scopes, scopeNumbers);
      FlattenStays(done, resNumbers, scopeNumbers, nextRes, nextScopes);
      FlattenNext(done, r, nextRes, nextScopes);
      NumbersNext(done, r);
      flat, resNumbers, scopeNumbers, done := next, nextRes, nextScopes, done + [r];
    }
    assert done == all;
    logs := SortSlice(flat, ByIds);
    resIDs, scopeIDs := resNumbers, scopeNumbers;
    SortedPermutes(flat, logs);
    ResourceNumbersMeaning(all);
    ScopeNumbersMeaning(all);
    OptimizedOnce(all, resIDs, scopeIDs, logs);
  }

  lemma SortedPermutes(flat: seq<FlattenedLog>, logs: seq<FlattenedLog>)
    requires SortOutcome(flat, logs, ByIds)
    ensures multiset(flat) == multiset(logs)
  {
  }

  ghost predicate NumberedBy(f: FlattenedLog, resIDs: map<string, nat>, scopeIDs: map<string, nat>) {
    && f.rs.resource.key in resIDs && f.rs.resourceLogsId == resIDs[f.rs.resource.key]
    && f.rs.scope.key in scopeIDs && f.rs.scopeLogsId == scopeIDs[f.rs.scope.key]
  }

  lemma {:induction false} LogsKeepScope(rs: ResScope, logs: seq<Log>, f: FlattenedLog)
    requires f in FlattenLogs(rs, logs)
    ensures f.rs == rs
  {
    if logs != [] && f != FlattenedLog(rs, Last(logs)) {
      LogsKeepScope(rs, Init(logs), f);
    }
  }

  lemma {:induction false} ScopesAreNumbered(resID: nat, r: Owner, scopes: seq<ScopeLogs>, resIDs: map<string, nat>,
                                             scopeIDs: map<string, nat>, f: FlattenedLog)
    requires ScopesKnown(scopes, scopeIDs) && r.key in resIDs && resID == resIDs[r.key]
    requires f in FlattenScopes(resID, r, scopes, scopeIDs)
    ensures NumberedBy(f, resIDs, scopeIDs)
  {
    if scopes != [] {
      var s := Last(scopes);
      var rs := ResScope(resID, r, IdOf(scopeIDs, s.scope.key), s.scope);
      if f in FlattenLogs(rs, s.logs) {
        LogsKeepScope(rs, s.logs, f);
      } else {
        ScopesAreNumbered(resID, r, Init(scopes), resIDs, scopeIDs, f);
      }
    }
  }

  lemma {:induction false} FlattenIsNumbered(all: seq<ResourceLogs>, resIDs: map<string, nat>,
      scopeIDs: map<string, nat>, f: FlattenedLog)
    requires Known(all, resIDs, scopeIDs) && f in Flatten(all, resIDs, scopeIDs)
    ensures NumberedBy(f, resIDs, scopeIDs)
  {
    if all != [] {
      var r := Last(all);
      if f in FlattenScopes(IdOf(resIDs, r.resource.key), r.resource, r.scopes, scopeIDs) {
        ScopesAreNumbered(resIDs[r.resource.key], r.resource, r.scopes, resIDs, scopeIDs, f);
      } else {
        FlattenIsNumbered(Init(all), resIDs, scopeIDs, f);
      }
    }
  }
}
