/** The server's routing tables: registration, the commit that freezes them, and dispatch. */
module ServerRouter {
  import opened Wire

  type Route = nat

  /** A table key: the structure types a handler takes, and its id. */
  datatype TypeTuple = TypeTuple(sTypes: set<SType>, handlerId: U64)

  /** Key equality belongs to another crate; it is a parameter, called with the sought key first. */
  type KeyEq = (TypeTuple, TypeTuple) -> bool

  /** All that agreement with a linear search needs of key equality. */
  ghost predicate IdRespecting(eq: KeyEq) {
    forall a, b :: eq(a, b) ==> a.handlerId == b.handlerId
  }

  /** How a key holding a single type matches a registered one. */
  ghost predicate MatchesByMembership(eq: KeyEq) {
    forall t: SType, id: U64, k :: eq(TypeTuple({t}, id), k) <==> id == k.handlerId && t in k.sTypes
  }

  datatype Entry = Entry(key: TypeTuple, route: Route)

  /** The contents of a hash table; the order is not observable through `IsGet`. */
  type Table = seq<Entry>

  datatype Registration = Registration(key: TypeTuple, route: Route, name: string)

  /** What a hash-table lookup may return: the value of some entry equal to the key. */
  ghost predicate IsGet(eq: KeyEq, t: Table, key: TypeTuple, r: Option<Route>) {
    match r
    case None => forall i :: 0 <= i < |t| ==> !eq(key, t[i].key)
    case Some(v) => exists i :: 0 <= i < |t| && eq(key, t[i].key) && t[i].route == v
  }

  /** Lookup by scanning from the front. */
  function Scan(eq: KeyEq, t: Table, key: TypeTuple): (r: Option<Route>)
    ensures IsGet(eq, t, key, r)
  {
    if t == [] then None
    else if eq(key, t[0].key) then Some(t[0].route)
    else
      var r := Scan(eq, t[1..], key);
      assert r.Some? ==> exists i :: 0 <= i < |t| && eq(key, t[i].key) && t[i].route == r.value by {
        if r.Some? {
          var j :| 0 <= j < |t[1..]| && eq(key, t[1..][j].key) && t[1..][j].route == r.value;
          assert t[j + 1] == t[1..][j];
        }
      }
      r
  }

  /** Hash-table insertion: an equal key keeps its place and gets the new value. */
  function Insert(eq: KeyEq, t: Table, key: TypeTuple, route: Route): Table {
    if t == [] then [Entry(key, route)]
    else if eq(key, t[0].key) then [Entry(t[0].key, route)] + t[1..]
    else [t[0]] + Insert(eq, t[1..], key, route)
  }

  /** What insertion does: with no equal key there it adds an entry at the end, otherwise the first
      one equal to the key keeps its key and place and gets the new value, and the rest stays. */
  lemma {:induction false} InsertMeans(eq: KeyEq, t: Table, key: TypeTuple, route: Route)
    ensures IsGet(eq, t, key, None) ==> Insert(eq, t, key, route) == t + [Entry(key, route)]
    ensures forall i :: 0 <= i < |t| && eq(key, t[i].key) && IsGet(eq, t[..i], key, None) ==>
                          Insert(eq, t, key, route) == t[i := Entry(t[i].key, route)]
  {
    if t != [] {
      InsertMeans(eq, t[1..], key, route);
      assert IsGet(eq, t, key, None) ==> IsGet(eq, t[1..], key, None) && t == [t[0]] + t[1..];
      forall i | 0 <= i < |t| && eq(key, t[i].key) && IsGet(eq, t[..i], key, None)
        ensures Insert(eq, t, key, route) == t[i := Entry(t[i].key, route)]
      {
        if i > 0 {
          assert !eq(key, t[..i][0].key);
          assert t[1..][..i - 1] == t[..i][1..];
          assert t[i := Entry(t[i].key, route)] == [t[0]] + t[1..][i - 1 := Entry(t[i].key, route)];
        }
      }
    }
  }

  datatype RouterState = RouterState(
    routes: Table, names: map<string, U64>, pending: seq<Registration>, next: U64, committed: bool)

  const FRESH := RouterState([], map[], [], 0, false)

  function Added(s: RouterState, route: Route, name: string, sTypes: set<SType>): RouterState {
    if s.committed then s
    else s.(pending := s.pending + [Registration(TypeTuple(sTypes, s.next), route, name)],
            next := (s.next + 1) % U64_SIZE)
  }

  function TableOf(eq: KeyEq, regs: seq<Registration>): Table {
    if regs == [] then []
    else
      var last := regs[|regs| - 1];
      Insert(eq, TableOf(eq, regs[..|regs| - 1]), last.key, last.route)
  }

  function NamesOf(regs: seq<Registration>): map<string, U64> {
    if regs == [] then map[]
    else
      var last := regs[|regs| - 1];
      NamesOf(regs[..|regs| - 1])[last.name := last.key.handlerId]
  }

  function Committed(eq: KeyEq, s: RouterState): RouterState {
    if s.committed || s.pending == [] then s
    else RouterState(TableOf(eq, s.pending), NamesOf(s.pending), [], s.next, true)
  }

  // ----- Any sequence of calls -----

  datatype RouterCall = Add(route: Route, name: string, sTypes: set<SType>) | Commit

  function AfterCalls(eq: KeyEq, calls: seq<RouterCall>): RouterState {
    if calls == [] then FRESH
    else
      var s := AfterCalls(eq, calls[..|calls| - 1]);
      match calls[|calls| - 1]
      case Add(route, name, sTypes) => Added(s, route, name, sTypes)
      case Commit => Committed(eq, s)
  }

  /** The commit that freezes the router: the first one that has something to commit. */
  predicate Frozen(calls: seq<RouterCall>) {
    exists i, j :: 0 <= i < j < |calls| && calls[i].Add? && calls[j].Commit?
  }

  /** The registrations that count: the `Add` calls before that commit, numbered in order. */
  function Registered(calls: seq<RouterCall>): seq<Registration> {
    if calls == [] then []
    else
      var before := calls[..|calls| - 1];
      var regs := Registered(before);
      match calls[|calls| - 1]
      case Commit => regs
      case Add(route, name, sTypes) =>
        if Frozen(before) then regs
        else regs + [Registration(TypeTuple(sTypes, |regs| % U64_SIZE), route, name)]
  }

  lemma FrozenExtends(calls: seq<RouterCall>)
    requires calls != []
    ensures Frozen(calls[..|calls| - 1]) ==> Frozen(calls)
    ensures calls[|calls| - 1].Add? && Frozen(calls) ==> Frozen(calls[..|calls| - 1])
  {
    var before := calls[..|calls| - 1];
    if Frozen(before) {
      var i, j :| 0 <= i < j < |before| && before[i].Add? && before[j].Commit?;
      assert calls[i].Add? && calls[j].Commit?;
    }
    if calls[|calls| - 1].Add? && Frozen(calls) {
      var i, j :| 0 <= i < j < |calls| && calls[i].Add? && calls[j].Commit?;
      assert before[i].Add? && before[j].Commit?;
    }
  }

  /** Some `Add` was made exactly when something is registered. */
  lemma {:induction false} RegisteredSomething(calls: seq<RouterCall>)
    ensures Registered(calls) != [] <==> exists i :: 0 <= i < |calls| && calls[i].Add?
  {
    if calls != [] {
      var before := calls[..|calls| - 1];
      RegisteredSomething(before);
      if Registered(before) != [] {
        var i :| 0 <= i < |before| && before[i].Add?;
        assert calls[i].Add?;
      }
      if exists i :: 0 <= i < |calls| && calls[i].Add? {
        var i :| 0 <= i < |calls| && calls[i].Add?;
        assert i < |before| ==> before[i].Add?;
      }
      if Frozen(before) {
        var i, j :| 0 <= i < j < |before| && before[i].Add? && before[j].Commit?;
        assert before[i].Add?;
      }
    }
  }

  /** The state a router is in after some calls, said in terms of what was registered. */
  ghost predicate InLife(eq: KeyEq, calls: seq<RouterCall>, s: RouterState) {
    var regs := Registered(calls);
    && s.committed == Frozen(calls)
    && s.next == |regs| % U64_SIZE
    && (!s.committed ==> s.routes == [] && s.names == map[] && s.pending == regs)
    && (s.committed ==> s.routes == TableOf(eq, regs) && s.names == NamesOf(regs) && s.pending == [])
  }

  lemma NextId(n: nat)
    ensures (n % U64_SIZE + 1) % U64_SIZE == (n + 1) % U64_SIZE
  {
  }

  lemma CommitFreezesWhatIsThere(calls: seq<RouterCall>)
    requires calls != [] && calls[|calls| - 1].Commit? && !Frozen(calls[..|calls| - 1])
    ensures Frozen(calls) <==> Registered(calls[..|calls| - 1]) != []
  {
    var before := calls[..|calls| - 1];
    RegisteredSomething(before);
    if Registered(before) != [] {
      var i :| 0 <= i < |before| && before[i].Add?;
      assert calls[i].Add? && calls[|calls| - 1].Commit?;
    }
    if Frozen(calls) {
      var i, j :| 0 <= i < j < |calls| && calls[i].Add? && calls[j].Commit?;
      assert before[i].Add?;
    }
  }

  /** The whole life of a router: ids count registrations, a commit of nothing does not freeze,
      and the tables are set once, by the freezing commit. */
  lemma {:induction false} Lifecycle(eq: KeyEq, calls: seq<RouterCall>)
    ensures InLife(eq, calls, AfterCalls(eq, calls))
  {
    if calls != [] {
      var before := calls[..|calls| - 1];
      Lifecycle(eq, before);
      FrozenExtends(calls);
      NextId(|Registered(before)|);
      if calls[|calls| - 1].Commit? && !Frozen(before) {
        CommitFreezesWhatIsThere(calls);
      }
    }
  }

  /** Once frozen, no later call changes anything. */
  lemma {:induction false} FrozenForGood(eq: KeyEq, calls: seq<RouterCall>, more: seq<RouterCall>)
    requires Frozen(calls)
    ensures AfterCalls(eq, calls + more) == AfterCalls(eq, calls)
    ensures Frozen(calls + more) && Registered(calls + more) == Registered(calls)
  {
    if more == [] {
      assert calls + more == calls;
    } else {
      var shorter := more[..|more| - 1];
      FrozenForGood(eq, calls, shorter);
      assert (calls + more)[..|calls + more| - 1] == calls + shorter;
      FrozenExtends(calls + more);
      Lifecycle(eq, calls + shorter);
    }
  }

  // ----- Lookup in the committed table -----

  /** Registration k has id k modulo 2^64. */
  lemma {:induction false} IdsInOrder(calls: seq<RouterCall>, k: nat)
    requires k < |Registered(calls)|
    ensures Registered(calls)[k].key.handlerId == k % 18446744073709551616
    ensures k < 18446744073709551616 ==> Registered(calls)[k].key.handlerId == k
  {
    var before := calls[..|calls| - 1];
    if k < |Registered(before)| { IdsInOrder(before, k); }
  }

  /** What an `Add` call registers: unless the router is frozen, its route and name under the next
      number, for just the types given. Later calls do not change that. */
  lemma {:induction false} RegisteredAs(calls: seq<RouterCall>, i: nat)
    requires i < |calls| && calls[i].Add? && !Frozen(calls[..i])
    ensures var k := |Registered(calls[..i])|;
      && k < |Registered(calls)|
      && Registered(calls)[k].route == calls[i].route && Registered(calls)[k].name == calls[i].name
      && Registered(calls)[k].key.sTypes == calls[i].sTypes
    decreases |calls|
  {
    var n := |calls| - 1;
    if i < n {
      assert calls[..n][..i] == calls[..i];
      RegisteredAs(calls[..n], i);
    }
  }

  predicate DistinctIds(regs: seq<Registration>) {
    forall i, j :: 0 <= i < j < |regs| ==> regs[i].key.handlerId != regs[j].key.handlerId
  }

  /** Ids are distinct exactly as long as the counter has not wrapped. */
  lemma IdsDistinctIff(calls: seq<RouterCall>)
    ensures DistinctIds(Registered(calls)) <==> |Registered(calls)| <= 18446744073709551616
  {
    var regs := Registered(calls);
    if |regs| <= U64_SIZE {
      forall i, j | 0 <= i < j < |regs|
        ensures regs[i].key.handlerId != regs[j].key.handlerId
      {
        IdsInOrder(calls, i);
        IdsInOrder(calls, j);
      }
    } else {
      IdsInOrder(calls, 0);
      IdsInOrder(calls, U64_SIZE);
      assert regs[0].key.handlerId == regs[U64_SIZE].key.handlerId;
    }
  }

  function Listed(regs: seq<Registration>): Table {
    seq(|regs|, i requires 0 <= i < |regs| => Entry(regs[i].key, regs[i].route))
  }

  lemma {:induction false} InsertNew(eq: KeyEq, t: Table, key: TypeTuple, route: Route)
    requires forall i :: 0 <= i < |t| ==> !eq(key, t[i].key)
    ensures Insert(eq, t, key, route) == t + [Entry(key, route)]
  {
    if t != [] {
      InsertNew(eq, t[1..], key, route);
      assert t == [t[0]] + t[1..];
    }
  }

  /** With distinct ids no insertion replaces another: the table holds every registration. */
  lemma {:induction false} NothingReplaced(eq: KeyEq, regs: seq<Registration>)
    requires IdRespecting(eq) && DistinctIds(regs)
    ensures TableOf(eq, regs) == Listed(regs)
  {
    if regs != [] {
      var shorter, last := regs[..|regs| - 1], regs[|regs| - 1];
      NothingReplaced(eq, shorter);
      forall i | 0 <= i < |shorter|
        ensures !eq(last.key, Listed(shorter)[i].key)
      {
        assert regs[i].key.handlerId != last.key.handlerId;
      }
      InsertNew(eq, Listed(shorter), last.key, last.route);
    }
  }

  lemma CommittedTables(eq: KeyEq, calls: seq<RouterCall>)
    requires IdRespecting(eq) && Frozen(calls) && |Registered(calls)| <= U64_SIZE
    ensures DistinctIds(Registered(calls))
    ensures AfterCalls(eq, calls).routes == Listed(Registered(calls))
    ensures AfterCalls(eq, calls).names == NamesOf(Registered(calls))
  {
    Lifecycle(eq, calls);
    IdsDistinctIff(calls);
    NothingReplaced(eq, Registered(calls));
  }

  /** Matching is not transitive, yet at most one registered key matches: whatever entry the
      hash table answers with, it is the one a scan of the registrations finds. */
  lemma HashLookupIsLinearSearch(eq: KeyEq, calls: seq<RouterCall>, key: TypeTuple, r: Option<Route>)
    requires IdRespecting(eq) && Frozen(calls) && |Registered(calls)| <= U64_SIZE
    requires IsGet(eq, AfterCalls(eq, calls).routes, key, r)
    ensures r == Scan(eq, Listed(Registered(calls)), key)
  {
    var regs := Registered(calls);
    CommittedTables(eq, calls);
    var t := Listed(regs);
    var other := Scan(eq, t, key);
    if r.Some? && other.Some? {
      var i :| 0 <= i < |t| && eq(key, t[i].key) && t[i].route == r.value;
      var j :| 0 <= j < |t| && eq(key, t[j].key) && t[j].route == other.value;
      assert regs[i].key.handlerId == regs[j].key.handlerId;
    }
  }

  /** The natural key equality: the type sets overlap. */
  predicate Overlap(a: TypeTuple, b: TypeTuple) {
    a.handlerId == b.handlerId && a.sTypes * b.sTypes != {}
  }

  /** It meets the assumptions and is not transitive. */
  lemma OverlapIsNotTransitive()
    ensures IdRespecting(Overlap) && MatchesByMembership(Overlap)
    ensures exists a, b, c :: Overlap(a, b) && Overlap(b, c) && !Overlap(a, c)
  {
    forall t: SType, id, k: TypeTuple
      ensures Overlap(TypeTuple({t}, id), k) <==> id == k.handlerId && t in k.sTypes
    {
      assert t in k.sTypes ==> t in {t} * k.sTypes;
      assert t !in k.sTypes ==> {t} * k.sTypes == {};
    }
    var a, b, c := TypeTuple({0}, 0), TypeTuple({0, 1}, 0), TypeTuple({1}, 0);
    assert 0 in a.sTypes * b.sTypes && 1 in b.sTypes * c.sTypes && a.sTypes * c.sTypes == {};
    assert Overlap(a, b) && Overlap(b, c) && !Overlap(a, c);
  }

  /** The last registration under a name. */
  ghost predicate IsLastNamed(regs: seq<Registration>, name: string, k: nat) {
    k < |regs| && regs[k].name == name && forall j :: k < j < |regs| ==> regs[j].name != name
  }

  lemma {:induction false} NamesOfDomain(regs: seq<Registration>, name: string)
    ensures name in NamesOf(regs) <==> exists k :: 0 <= k < |regs| && regs[k].name == name
  {
    if regs != [] {
      var shorter := regs[..|regs| - 1];
      NamesOfDomain(shorter, name);
      if name in NamesOf(shorter) {
        var k :| 0 <= k < |shorter| && shorter[k].name == name;
        assert regs[k].name == name;
      }
      if k :| 0 <= k < |shorter| && regs[k].name == name {
        assert shorter[k].name == name;
      }
    }
  }

  lemma {:induction false} NamesOfLast(regs: seq<Registration>, name: string, k: nat)
    requires IsLastNamed(regs, name, k)
    ensures name in NamesOf(regs) && NamesOf(regs)[name] == regs[k].key.handlerId
  {
    if k < |regs| - 1 {
      assert regs[|regs| - 1].name != name;
      NamesOfLast(regs[..|regs| - 1], name, k);
    }
  }

  /** A name's last registration, if it has any. */
  lemma {:induction false} FindLastNamed(regs: seq<Registration>, name: string) returns (k: nat)
    requires exists j :: 0 <= j < |regs| && regs[j].name == name
    ensures IsLastNamed(regs, name, k)
  {
    var n := |regs| - 1;
    if regs[n].name == name {
      k := n;
    } else {
      var j :| 0 <= j < |regs| && regs[j].name == name;
      assert regs[..n][j].name == name;
      k := FindLastNamed(regs[..n], name);
    }
  }

  lemma OwnEntry(eq: KeyEq, regs: seq<Registration>, k: nat, t: SType, r: Option<Route>)
    requires MatchesByMembership(eq) && DistinctIds(regs) && k < |regs|
    requires IsGet(eq, Listed(regs), TypeTuple({t}, regs[k].key.handlerId), r)
    ensures r == if t in regs[k].key.sTypes then Some(regs[k].route) else None
  {
    var key, table := TypeTuple({t}, regs[k].key.handlerId), Listed(regs);
    assert eq(key, table[k].key) <==> t in regs[k].key.sTypes;
    if r.Some? {
      var i :| 0 <= i < |table| && eq(key, table[i].key) && table[i].route == r.value;
      assert i == k;
    }
  }

  /** Registration k is reachable by its own id, with exactly the types it was registered for. */
  lemma HandlerReachable(eq: KeyEq, calls: seq<RouterCall>, k: nat, t: SType, r: Option<Route>)
    requires IdRespecting(eq) && MatchesByMembership(eq)
    requires Frozen(calls) && k < |Registered(calls)| <= U64_SIZE
    requires IsGet(eq, AfterCalls(eq, calls).routes, TypeTuple({t}, k), r)
    ensures var reg := Registered(calls)[k];
      r == if t in reg.key.sTypes then Some(reg.route) else None
  {
    CommittedTables(eq, calls);
    IdsInOrder(calls, k);
    OwnEntry(eq, Registered(calls), k, t, r);
  }

  /** A number that was not given out reaches no route. */
  lemma UnregisteredIsUnrouted(eq: KeyEq, calls: seq<RouterCall>, id: U64, t: SType, r: Option<Route>)
    requires IdRespecting(eq) && Frozen(calls) && |Registered(calls)| <= U64_SIZE && id >= |Registered(calls)|
    requires IsGet(eq, AfterCalls(eq, calls).routes, TypeTuple({t}, id), r)
    ensures r == None
  {
    CommittedTables(eq, calls);
    hide AfterCalls, Registered, Frozen, DistinctIds;
    var table := Listed(Registered(calls));
    if r.Some? {
      var i :| 0 <= i < |table| && eq(TypeTuple({t}, id), table[i].key) && table[i].route == r.value;
      IdsInOrder(calls, i);
    }
  }

  /** A name is answered exactly when it was registered. */
  lemma NameAnswered(eq: KeyEq, calls: seq<RouterCall>, name: string)
    requires IdRespecting(eq) && Frozen(calls) && |Registered(calls)| <= U64_SIZE
    ensures name in AfterCalls(eq, calls).names <==>
            exists j :: 0 <= j < |Registered(calls)| && Registered(calls)[j].name == name
  {
    CommittedTables(eq, calls);
    NamesOfDomain(Registered(calls), name);
  }

  /** The answer is the id of the name's last registration. */
  lemma NameAnswersLastId(eq: KeyEq, calls: seq<RouterCall>, name: string, k: nat)
    requires IdRespecting(eq) && Frozen(calls) && |Registered(calls)| <= U64_SIZE
    requires IsLastNamed(Registered(calls), name, k)
    ensures name in AfterCalls(eq, calls).names && AfterCalls(eq, calls).names[name] == k
  {
    CommittedTables(eq, calls);
    NamesOfLast(Registered(calls), name, k);
    IdsInOrder(calls, k);
  }

  /** The id a name answers with, and any type of the name's last registration, reach the route
      of that registration. */
  lemma NameReachesHandler(eq: KeyEq, calls: seq<RouterCall>, name: string, k: nat, t: SType, r: Option<Route>)
    requires IdRespecting(eq) && MatchesByMembership(eq)
    requires Frozen(calls) && |Registered(calls)| <= U64_SIZE
    requires IsLastNamed(Registered(calls), name, k) && t in Registered(calls)[k].key.sTypes
    requires name in AfterCalls(eq, calls).names
    requires IsGet(eq, AfterCalls(eq, calls).routes, TypeTuple({t}, AfterCalls(eq, calls).names[name]), r)
    ensures r == Some(Registered(calls)[k].route)
  {
    NameAnswersLastId(eq, calls, name, k);
    HandlerReachable(eq, calls, k, t, r);
  }

  function TypesIn(s: seq<SType>): set<SType> {
    set t | t in s
  }

  /** From the list of types given to the types served: a route added with `sTypes`, before any
      effective commit, is reached by the number of its registration with a type if and only if
      that is in the list. */
  lemma AddedRouteReached(eq: KeyEq, calls: seq<RouterCall>, i: nat, sTypes: seq<SType>, t: SType, r: Option<Route>)
    requires IdRespecting(eq) && MatchesByMembership(eq) && Frozen(calls) && |Registered(calls)| <= U64_SIZE
    requires i < |calls| && calls[i].Add? && calls[i].sTypes == TypesIn(sTypes) && !Frozen(calls[..i])
    requires |Registered(calls[..i])| < U64_SIZE
    requires IsGet(eq, AfterCalls(eq, calls).routes, TypeTuple({t}, |Registered(calls[..i])|), r)
    ensures r == if t in sTypes then Some(calls[i].route) else None
  {
    RegisteredAs(calls, i);
    HandlerReachable(eq, calls, |Registered(calls[..i])|, t, r);
    assert t in TypesIn(sTypes) <==> t in sTypes;
    hide AfterCalls, Registered, Frozen;
  }

  lemma LastPopped(s: seq<SType>)
    requires s != []
    ensures TypesIn(s) == TypesIn(s[..|s| - 1]) + {s[|s| - 1]}
  {
    assert s == s[..|s| - 1] + [s[|s| - 1]];
  }

  // ----- The router object -----

  class TfServerRouter {
    const eq: KeyEq
    var routes: Table
    var names: map<string, U64>
    var pending: seq<Registration>
    var next: U64
    var committed: bool

    ghost function State(): RouterState
      reads this
    {
      RouterState(routes, names, pending, next, committed)
    }

    constructor (eq: KeyEq)
      ensures this.eq == eq && State() == FRESH
    {
      this.eq := eq;
      routes, names, pending, next, committed := [], map[], [], 0, false;
    }

    /** Unless the router is committed, one registration more: the next number, the route, the
        name, and just the types of the list. */
    method AddRoute(route: Route, name: string, sTypes: seq<SType>)
      modifies this
      ensures old(committed) ==> State() == old(State())
      ensures !old(committed) ==>
                && |pending| == |old(pending)| + 1 && pending[..|old(pending)|] == old(pending)
                && var reg := pending[|old(pending)|];
                && reg.route == route && reg.name == name && reg.key.handlerId == old(next)
                && (forall t :: t in reg.key.sTypes <==> t in sTypes)
                && next == (old(next) + 1) % 18446744073709551616
                && routes == old(routes) && names == old(names) && !committed
      ensures State() == Added(old(State()), route, name, TypesIn(sTypes))
    {
      if committed { return; }
      var left := sTypes;
      var types: set<SType> := {};
      while left != []
        invariant types + TypesIn(left) == TypesIn(sTypes)
        invariant State() == old(State())
        decreases |left|
      {
        var t := left[|left| - 1];
        LastPopped(left);
        left := left[..|left| - 1];
        types := types + {t};
      }
      assert types == TypesIn(sTypes);
      pending := pending + [Registration(TypeTuple(types, next), route, name)];
      next := (next + 1) % U64_SIZE;
    }

    method CommitRoutes()
      modifies this
      ensures State() == Committed(eq, old(State()))
    {
      if committed || pending == [] { return; }
      var table: Table := [];
      var texts: map<string, U64> := map[];
      var i := 0;
      while i < |pending|
        invariant 0 <= i <= |pending|
        invariant table == TableOf(eq, pending[..i])
        invariant texts == NamesOf(pending[..i])
        invariant State() == old(State())
      {
        assert pending[..i + 1][..i] == pending[..i];
        table := Insert(eq, table, pending[i].key, pending[i].route);
        texts := texts[pending[i].name := pending[i].key.handlerId];
        i := i + 1;
      }
      assert pending[..i] == pending;
      routes, names, pending, committed := table, texts, [], true;
    }
  }
}
