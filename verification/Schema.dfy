/** The schema registry of pkg/domainevent/schema.go: chains of upcasters that bring old events to the latest version. */
module Schema {
  import opened Wrappers

  const DEFAULT_EVENT_VERSION: int := 1

  type EventType = string
  type Fields = map<string, string>

  datatype Upcaster = Upcaster(from: int, apply: Fields -> Fields)

  // Decoded events carry a map; in-process ones carry a typed value.
  datatype Data = Mapped(fields: Fields) | Typed(value: string)

  datatype Event = Event(eventType: EventType, version: int, data: Data)

  type Chain = seq<Upcaster>
  type Chains = map<EventType, Chain>

  function ChainOf(c: Chains, t: EventType): Chain {
    if t in c then c[t] else []
  }

  ghost predicate Ascending(chain: Chain) {
    forall i, j :: 0 <= i < j < |chain| ==> chain[i].from < chain[j].from
  }

  // Versions 1, 2, ..., n without a gap.
  predicate Continuous(chain: Chain) {
    forall i :: 0 <= i < |chain| ==> chain[i].from == i + 1
  }

  function LatestVersion(c: Chains, t: EventType): int {
    var chain := ChainOf(c, t);
    if chain == [] then DEFAULT_EVENT_VERSION else chain[|chain| - 1].from + 1
  }

  // ---- Registration ----

  datatype Registration = Registration(eventType: EventType, upcaster: Upcaster)

  predicate Taken(chain: Chain, from: int) {
    exists i :: 0 <= i < |chain| && chain[i].from == from
  }

  function Insert(chain: Chain, u: Upcaster): Chain {
    if chain == [] || chain[|chain| - 1].from < u.from then chain + [u]
    else Insert(chain[..|chain| - 1], u) + [chain[|chain| - 1]]
  }

  // Register; None is the panic on a duplicate version.
  function Register(c: Chains, r: Registration): Option<Chains> {
    var chain := ChainOf(c, r.eventType);
    if Taken(chain, r.upcaster.from) then None else Some(c[r.eventType := Insert(chain, r.upcaster)])
  }

  function RegisterAll(regs: seq<Registration>): Option<Chains> {
    if regs == [] then Some(map[])
    else
      var before := RegisterAll(regs[..|regs| - 1]);
      if before.None? then None else Register(before.value, regs[|regs| - 1])
  }

  lemma {:induction false} InsertKeeps(chain: Chain, u: Upcaster)
    requires Ascending(chain) && !Taken(chain, u.from)
    ensures Ascending(Insert(chain, u)) && Insert(chain, u) != []
    ensures forall x :: x in Insert(chain, u) <==> x == u || x in chain
  {
    if chain != [] && chain[|chain| - 1].from >= u.from {
      var n := |chain| - 1;
      InsertKeeps(chain[..n], u);
      var rest := Insert(chain[..n], u);
      assert chain == chain[..n] + [chain[n]];
      forall i | 0 <= i < |rest|
        ensures rest[i].from < chain[n].from
      {
        assert rest[i] in rest;
      }
    }
  }

  lemma LastApart(chain: Chain)
    requires Ascending(chain) && chain != []
    ensures forall x :: x in chain[..|chain| - 1] <==> x in chain && x != chain[|chain| - 1]
  {
    var n := |chain| - 1;
    assert chain == chain[..n] + [chain[n]];
    assert forall i :: 0 <= i < n ==> chain[i] != chain[n];
  }

  lemma LastIsGreatest(chain: Chain, u: Upcaster)
    requires Ascending(chain) && u in chain
    ensures u.from <= chain[|chain| - 1].from
    ensures u.from == chain[|chain| - 1].from ==> u == chain[|chain| - 1]
  {
  }

  ghost predicate Within(a: Chain, b: Chain) {
    forall x :: x in a ==> x in b
  }

  lemma FrontsWithin(a: Chain, b: Chain)
    requires a != [] && b != [] && Ascending(a) && Ascending(b)
    requires a[|a| - 1] == b[|b| - 1] && Within(a, b)
    ensures Within(a[..|a| - 1], b[..|b| - 1])
  {
    LastApart(a);
    LastApart(b);
    var m, n := |a| - 1, |b| - 1;
    assert forall x :: x in a[..m] ==> x in a && x != a[m];
    assert forall x :: x in b && x != b[n] ==> x in b[..n];
  }

  lemma NonEmptyWithin(a: Chain, b: Chain)
    requires Within(a, b)
    ensures a != [] ==> b != []
  {
    if a != [] {
      assert a[0] in b;
    }
  }

  // Only one ascending chain has given members.
  lemma {:induction false} AscendingUnique(a: Chain, b: Chain)
    requires Ascending(a) && Ascending(b) && Within(a, b) && Within(b, a)
    ensures a == b
  {
    if a != [] && b != [] {
      var m, n := |a| - 1, |b| - 1;
      LastIsGreatest(a, b[n]);
      LastIsGreatest(b, a[m]);
      FrontsWithin(a, b);
      FrontsWithin(b, a);
      AscendingUnique(a[..m], b[..n]);
      assert a == a[..m] + [a[m]] && b == b[..n] + [b[n]];
    } else {
      NonEmptyWithin(a, b);
      NonEmptyWithin(b, a);
    }
  }

  lemma SortedIsInsert(chain: Chain, u: Upcaster, sorted: Chain)
    requires Ascending(chain) && !Taken(chain, u.from) && Ascending(sorted)
    requires Within(sorted, chain + [u]) && Within(chain + [u], sorted)
    ensures sorted == Insert(chain, u)
  {
    InsertKeeps(chain, u);
    AscendingUnique(sorted, Insert(chain, u));
  }

  predicate Clash(r: Registration, s: Registration) {
    r.eventType == s.eventType && r.upcaster.from == s.upcaster.from
  }

  ghost predicate NoClash(regs: seq<Registration>) {
    forall i, j :: 0 <= i < j < |regs| ==> !Clash(regs[i], regs[j])
  }

  // The chains hold exactly what was registered, in order, and nothing else.
  ghost predicate Represents(c: Chains, regs: seq<Registration>) {
    && (forall t :: t in c ==> c[t] != [] && Ascending(c[t]))
    && (forall t, u :: u in ChainOf(c, t) <==> Registration(t, u) in regs)
  }

  lemma NoClashSnoc(regs: seq<Registration>, r: Registration)
    ensures NoClash(regs + [r]) <==> NoClash(regs) && !exists s :: s in regs && Clash(s, r)
  {
    var all := regs + [r];
    if NoClash(all) {
      forall i, j | 0 <= i < j < |regs|
        ensures !Clash(regs[i], regs[j])
      {
        assert all[i] == regs[i] && all[j] == regs[j];
      }
      forall s | s in regs
        ensures !Clash(s, r)
      {
        var i :| 0 <= i < |regs| && regs[i] == s;
        assert all[i] == s && all[|regs|] == r;
      }
    }
  }

  lemma RegisterStep(c: Chains, regs: seq<Registration>, r: Registration)
    requires Represents(c, regs)
    ensures Register(c, r).None? <==> exists s :: s in regs && Clash(s, r)
    ensures Register(c, r).Some? ==> Represents(Register(c, r).value, regs + [r])
  {
    var chain := ChainOf(c, r.eventType);
    if Taken(chain, r.upcaster.from) {
      var i :| 0 <= i < |chain| && chain[i].from == r.upcaster.from;
      assert chain[i] in chain;
      assert Clash(Registration(r.eventType, chain[i]), r);
    } else {
      forall s | s in regs
        ensures !Clash(s, r)
      {
        assert s == Registration(s.eventType, s.upcaster);
        assert s.eventType == r.eventType ==> s.upcaster in chain;
      }
      InsertKeeps(chain, r.upcaster);
    }
  }

  /**
   Any number of registrations: it panics exactly when two of them are for the
   same type and version; otherwise every chain is strictly ascending and holds
   exactly the upcasters registered for its type.
   */
  lemma {:induction false} RegisteredExactly(regs: seq<Registration>)
    ensures RegisterAll(regs).Some? <==> NoClash(regs)
    ensures RegisterAll(regs).Some? ==> Represents(RegisterAll(regs).value, regs)
  {
    if regs != [] {
      var n := |regs| - 1;
      var r := regs[n];
      RegisteredExactly(regs[..n]);
      NoClashSnoc(regs[..n], r);
      assert regs == regs[..n] + [r];
      if NoClash(regs[..n]) {
        RegisterStep(RegisterAll(regs[..n]).value, regs[..n], r);
      }
      hide Register, Represents, NoClash, Clash;
    }
  }

  // One more registration of a registry that was built.
  lemma RegisterVerdict(c: Chains, regs: seq<Registration>, r: Registration)
    requires RegisterAll(regs) == Some(c)
    ensures var chain := ChainOf(c, r.eventType);
      && Ascending(chain)
      && (Taken(chain, r.upcaster.from) <==> exists s :: s in regs && Clash(s, r))
      && (!Taken(chain, r.upcaster.from) ==>
            RegisterAll(regs + [r]) == Some(c[r.eventType := Insert(chain, r.upcaster)]))
  {
    RegisteredExactly(regs);
    RegisterStep(c, regs, r);
    assert (regs + [r])[..|regs|] == regs;
  }

  lemma {:induction false} ClashByCount(a: seq<Registration>, i: nat, j: nat)
    requires i < j < |a|
    ensures a[i] == a[j] ==> multiset(a)[a[i]] >= 2
  {
    assert a == a[..j] + [a[j]] + a[j + 1..];
    assert a[..j][i] == a[i];
  }

  lemma NoClashPermuted(a: seq<Registration>, b: seq<Registration>)
    requires multiset(a) == multiset(b) && NoClash(a)
    ensures NoClash(b)
  {
    forall i, j | 0 <= i < j < |b|
      ensures !Clash(b[i], b[j])
    {
      assert b[i] in multiset(b) && b[j] in multiset(b);
      if b[i] == b[j] {
        ClashByCount(b, i, j);
        NoClashCount(a, b[i]);
      } else {
        var k, l :| 0 <= k < |a| && 0 <= l < |a| && a[k] == b[i] && a[l] == b[j];
        assert if k < l then !Clash(a[k], a[l]) else !Clash(a[l], a[k]);
      }
    }
  }

  lemma {:induction false} NoClashCount(a: seq<Registration>, r: Registration)
    requires NoClash(a)
    ensures multiset(a)[r] <= 1
  {
    if a != [] {
      var n := |a| - 1;
      NoClashCount(a[..n], r);
      assert a == a[..n] + [a[n]];
      forall i | 0 <= i < n
        ensures a[i] != a[n]
      {
        assert !Clash(a[i], a[n]);
      }
    }
  }

  /** The order of registration does not matter: neither to whether it panics nor to the chains it builds. */
  lemma OrderIrrelevant(a: seq<Registration>, b: seq<Registration>)
    requires multiset(a) == multiset(b)
    ensures RegisterAll(a) == RegisterAll(b)
  {
    RegisteredExactly(a);
    RegisteredExactly(b);
    if NoClash(a) {
      NoClashPermuted(a, b);
      var c, d := RegisterAll(a).value, RegisterAll(b).value;
      assert forall r :: r in a <==> r in multiset(a);
      assert forall r :: r in b <==> r in multiset(b);
      forall t: EventType
        ensures ChainOf(c, t) == ChainOf(d, t)
      {
        AscendingUnique(ChainOf(c, t), ChainOf(d, t));
      }
      SameChains(c, d);
    } else if NoClash(b) {
      NoClashPermuted(b, a);
    }
  }

  lemma SameChains(c: Chains, d: Chains)
    requires forall t :: t in c ==> c[t] != []
    requires forall t :: t in d ==> d[t] != []
    requires forall t: EventType :: ChainOf(c, t) == ChainOf(d, t)
    ensures c == d
  {
    forall t: EventType
      ensures t in c <==> t in d
      ensures t in c ==> c[t] == d[t]
    {
      assert ChainOf(c, t) == ChainOf(d, t);
    }
  }

  // ---- Upcasting ----

  datatype Progress = Progress(version: int, data: Fields)

  function Step(p: Progress, u: Upcaster): Progress {
    if p.version == u.from then Progress(u.from + 1, u.apply(p.data)) else p
  }

  // After the first k upcasters of the chain.
  function Upcasted(chain: Chain, k: nat, p: Progress): Progress
    requires k <= |chain|
  {
    if k == 0 then p else Step(Upcasted(chain, k - 1, p), chain[k - 1])
  }

  function Upcast(c: Chains, e: Event): Event {
    var chain := ChainOf(c, e.eventType);
    if chain == [] || e.data.Typed? then e
    else
      var p := Upcasted(chain, |chain|, Progress(e.version, e.data.fields));
      e.(version := p.version, data := Mapped(p.data))
  }

  // The upcaster that reads a version, by search.
  function Reader(chain: Chain, version: int): Option<Upcaster> {
    if chain == [] then None
    else if chain[0].from == version then Some(chain[0])
    else Reader(chain[1..], version)
  }

  // The readers of versions v, v + 1, ..., w - 1 applied one after another.
  ghost function Migrated(chain: Chain, v: int, w: int, data: Fields): Fields
    requires v <= w && forall x :: v <= x < w ==> Reader(chain, x).Some?
    decreases w - v
  {
    if v == w then data else Reader(chain, w - 1).value.apply(Migrated(chain, v, w - 1, data))
  }

  lemma {:induction false} ReaderIs(chain: Chain, i: nat)
    requires Ascending(chain) && i < |chain|
    ensures Reader(chain, chain[i].from) == Some(chain[i])
  {
    if i > 0 {
      ReaderIs(chain[1..], i - 1);
    }
  }

  lemma {:induction false} ReaderFound(chain: Chain, version: int)
    ensures Reader(chain, version).Some? <==> Taken(chain, version)
  {
    if chain != [] {
      ReaderFound(chain[1..], version);
      if Taken(chain, version) && chain[0].from != version {
        var i :| 0 <= i < |chain| && chain[i].from == version;
        assert chain[1..][i - 1].from == version;
      }
      if Taken(chain[1..], version) {
        var i :| 0 <= i < |chain[1..]| && chain[1..][i].from == version;
        assert chain[i + 1].from == version;
      }
    }
  }

  lemma {:induction false} UpcastedReaches(chain: Chain, k: nat, p: Progress)
    requires Ascending(chain) && k <= |chain|
    ensures var q := Upcasted(chain, k, p);
      && p.version <= q.version
      && (forall x :: p.version <= x < q.version ==> Reader(chain, x).Some?)
      && (forall i :: 0 <= i < k ==> chain[i].from != q.version)
      && q.data == Migrated(chain, p.version, q.version, p.data)
  {
    if k > 0 {
      UpcastedReaches(chain, k - 1, p);
      ReaderIs(chain, k - 1);
    }
  }

  /**
   What Upcast does to any decoded event, with or without gaps in the chain: the
   readers of its version and the versions after it are applied one after
   another, up to the first version without a reader.
   */
  lemma UpcastExactly(c: Chains, e: Event)
    requires Ascending(ChainOf(c, e.eventType)) && e.data.Mapped?
    ensures var chain, r := ChainOf(c, e.eventType), Upcast(c, e);
      && e.version <= r.version && r.eventType == e.eventType
      && Reader(chain, r.version).None?
      && (forall x :: e.version <= x < r.version ==> Reader(chain, x).Some?)
      && r.data == Mapped(Migrated(chain, e.version, r.version, e.data.fields))
  {
    var chain := ChainOf(c, e.eventType);
    UpcastedReaches(chain, |chain|, Progress(e.version, e.data.fields));
    ReaderFound(chain, Upcast(c, e).version);
  }

  lemma {:induction false} NoReaderNoStep(chain: Chain, k: nat, p: Progress)
    requires k <= |chain| && !Taken(chain, p.version)
    ensures Upcasted(chain, k, p) == p
  {
    if k > 0 {
      NoReaderNoStep(chain, k - 1, p);
    }
  }

  /** In every registry that can be built, upcasting twice is upcasting once, even when a chain has gaps. */
  lemma UpcastIdempotent(regs: seq<Registration>, e: Event)
    requires RegisterAll(regs).Some?
    ensures var c := RegisterAll(regs).value; Upcast(c, Upcast(c, e)) == Upcast(c, e)
  {
    var c := RegisterAll(regs).value;
    var chain, r := ChainOf(c, e.eventType), Upcast(c, e);
    RegisteredExactly(regs);
    if e.data.Mapped? {
      UpcastExactly(c, e);
      ReaderFound(chain, r.version);
      NoReaderNoStep(chain, |chain|, Progress(r.version, r.data.fields));
    }
  }

  lemma ContinuousReaders(chain: Chain, version: int)
    requires Continuous(chain)
    ensures Ascending(chain)
    ensures Reader(chain, version) == if 1 <= version <= |chain| then Some(chain[version - 1]) else None
  {
    ReaderFound(chain, version);
    if 1 <= version <= |chain| {
      ReaderIs(chain, version - 1);
    }
  }

  /**
   On a chain that passes Validate, a decoded event reaches the latest version
   exactly when its version is one of 1, ..., latest. An event with a version
   below 1, such as one without a version field, is never upcast, nor is one
   from the future.
   */
  lemma LatestReachedExactly(c: Chains, e: Event)
    requires Continuous(ChainOf(c, e.eventType)) && e.data.Mapped?
    ensures Upcast(c, e).version == LatestVersion(c, e.eventType) <==> 1 <= e.version <= LatestVersion(c, e.eventType)
    ensures !(1 <= e.version <= LatestVersion(c, e.eventType)) ==> Upcast(c, e) == e
  {
    var chain, r := ChainOf(c, e.eventType), Upcast(c, e);
    ContinuousReaders(chain, e.version);
    UpcastExactly(c, e);
    ContinuousReaders(chain, r.version);
    if r.version > e.version {
      ContinuousReaders(chain, r.version - 1);
    } else {
      assert r.data == Mapped(Migrated(chain, e.version, e.version, e.data.fields));
    }
  }

  // ---- The object ----

  class SchemaRegistry {
    var upcasters: Chains
    // What has been registered so far.
    ghost var registered: seq<Registration>

    ghost predicate Valid()
      reads this
    {
      RegisterAll(registered) == Some(upcasters)
    }

    constructor ()
      ensures Valid() && registered == []
    {
      upcasters, registered := map[], [];
    }

    /** Register; `ok` is false for the panic. */
    method Register(eventType: EventType, u: Upcaster) returns (ok: bool)
      requires Valid()
      modifies this
      ensures Valid()
      ensures ok <==> forall s :: s in old(registered) ==> !Clash(s, Registration(eventType, u))
      ensures registered == if ok then old(registered) + [Registration(eventType, u)] else old(registered)
      ensures !ok ==> upcasters == old(upcasters)
    {
      var chain := ChainOf(upcasters, eventType);
      ghost var r := Registration(eventType, u);
      RegisterVerdict(upcasters, registered, r);
      hide RegisterAll, Insert, Clash, Ascending;
      for i := 0 to |chain|
        invariant forall j :: 0 <= j < i ==> chain[j].from != u.from
      {
        if chain[i].from == u.from {
          return false;
        }
      }
      var sorted := SortByVersion(chain + [u]);
      SortedIsInsert(chain, u, sorted);
      upcasters := upcasters[eventType := sorted];
      registered := registered + [r];
      return true;
    }

    method SortByVersion(chain: Chain) returns (sorted: Chain)
      requires forall i, j :: 0 <= i < j < |chain| ==> chain[i].from != chain[j].from
      ensures Ascending(sorted) && Within(sorted, chain) && Within(chain, sorted)
    {
      sorted := [];
      for i := 0 to |chain|
        invariant Ascending(sorted) && forall u :: u in sorted <==> u in chain[..i]
      {
        forall j | 0 <= j < |sorted|
          ensures sorted[j].from != chain[i].from
        {
          assert sorted[j] in chain[..i];
        }
        InsertKeeps(sorted, chain[i]);
        sorted := Insert(sorted, chain[i]);
        assert chain[..i + 1] == chain[..i] + [chain[i]];
      }
      assert chain[..|chain|] == chain;
    }

    /** Validate: the type and position of a gap, if any chain has one. */
    method Validate() returns (gap: Option<(EventType, nat)>)
      ensures gap.None? <==> forall t :: t in upcasters ==> Continuous(upcasters[t])
      ensures gap.Some? ==>
        && gap.value.0 in upcasters && gap.value.1 < |upcasters[gap.value.0]|
        && Continuous(upcasters[gap.value.0][..gap.value.1])
        && upcasters[gap.value.0][gap.value.1].from != gap.value.1 + 1
    {
      var todo := upcasters.Keys;
      while todo != {}
        invariant todo <= upcasters.Keys
        invariant forall t :: t in upcasters && t !in todo ==> Continuous(upcasters[t])
        decreases |todo|
      {
        var t :| t in todo;
        todo := todo - {t};
        var chain := upcasters[t];
        for i := 0 to |chain|
          invariant Continuous(chain[..i])
        {
          if chain[i].from != i + 1 {
            assert !Continuous(upcasters[t]);
            return Some((t, i));
          }
        }
        assert chain[..|chain|] == chain;
      }
      return None;
    }

    /** Upcast leaves the registry as it is. */
    method UpcastEvent(e: Event) returns (r: Event)
      ensures r == Upcast(upcasters, e)
    {
      var chain := ChainOf(upcasters, e.eventType);
      if |chain| == 0 || e.data.Typed? {
        return e;
      }
      var data, version := e.data.fields, e.version;
      for i := 0 to |chain|
        invariant Progress(version, data) == Upcasted(chain, i, Progress(e.version, e.data.fields))
      {
        var u := chain[i];
        if version > u.from {
          continue;
        }
        if version == u.from {
          data := u.apply(data);
          version := u.from + 1;
        }
      }
      r := e.(version := version, data := Mapped(data));
    }
  }
}
