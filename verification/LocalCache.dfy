/** The least-recently-used cache of vehicle signals. */
module LocalCache {
  import opened Wrappers

  type Signals = seq<bv8>

  const NO_CAPACITY_LIMIT: int := 0

  datatype Item = Item(version: string, signals: Signals)
  datatype Op = Get(version: string) | Set(version: string, signals: Signals) | Delete(version: string)

  // ------------------------------------------------------------------------
  // The cache as a list, most recently used first

  /** The position of `v`, or the length of the list. */
  function Find(s: seq<Item>, v: string): (i: nat)
    ensures i <= |s| && (i < |s| ==> s[i].version == v) && forall j | 0 <= j < i :: s[j].version != v
  {
    if s == [] || s[0].version == v then 0 else 1 + Find(s[1..], v)
  }

  function Without(s: seq<Item>, i: nat): seq<Item> {
    if i < |s| then s[..i] + s[i + 1..] else s
  }

  function Evict(capacity: int, s: seq<Item>): seq<Item> {
    if capacity != NO_CAPACITY_LIMIT && |s| > capacity && s != [] then Front(s) else s
  }

  function Step(capacity: int, s: seq<Item>, op: Op): seq<Item> {
    var i := Find(s, op.version);
    match op
    case Get(v) => if i < |s| then [s[i]] + Without(s, i) else s
    case Set(v, x) => if i < |s| then [Item(v, x)] + Without(s, i) else Evict(capacity, [Item(v, x)] + s)
    case Delete(v) => Without(s, i)
  }

  function Run(capacity: int, ops: seq<Op>): seq<Item> {
    if ops == [] then [] else Step(capacity, Run(capacity, Front(ops)), Last(ops))
  }

  // ------------------------------------------------------------------------
  // What the history of calls says, without the cache

  predicate Touches(op: Op, v: string) { op.version == v && !op.Delete? }

  /** The last call that set or asked for `v`. */
  function LastTouch(ops: seq<Op>, v: string): int {
    if ops == [] then -1 else if Touches(Last(ops), v) then |ops| - 1 else LastTouch(Front(ops), v)
  }

  /** The value set last for `v`, if it has not been deleted since. */
  function Latest(ops: seq<Op>, v: string): Option<Signals> {
    if ops == [] then None
    else match Last(ops)
      case Set(w, x) => if w == v then Some(x) else Latest(Front(ops), v)
      case Delete(w) => if w == v then None else Latest(Front(ops), v)
      case Get(_) => Latest(Front(ops), v)
  }

  /** Ordered by last use, latest first. */
  ghost predicate ByLastTouch(ops: seq<Op>, s: seq<Item>) {
    forall i, j | 0 <= i < j < |s| :: LastTouch(ops, s[i].version) > LastTouch(ops, s[j].version)
  }

  ghost predicate HoldsLatest(ops: seq<Op>, s: seq<Item>) {
    forall i | 0 <= i < |s| :: Latest(ops, s[i].version) == Some(s[i].signals)
  }

  lemma {:induction false} TouchedBefore(ops: seq<Op>, v: string)
    ensures LastTouch(ops, v) < |ops|
  {
    if ops != [] {
      TouchedBefore(Front(ops), v);
    }
  }

  /** What a call that does not concern the versions of `s` leaves of the order. */
  lemma OrderKept(ops: seq<Op>, op: Op, s: seq<Item>)
    requires ByLastTouch(ops, s) && forall i | 0 <= i < |s| :: !Touches(op, s[i].version)
    ensures ByLastTouch(ops + [op], s)
  {
    assert Front(ops + [op]) == ops;
  }

  lemma OrderPushed(ops: seq<Op>, op: Op, s: seq<Item>, x: Item)
    requires ByLastTouch(ops, s) && Touches(op, x.version) && forall i | 0 <= i < |s| :: s[i].version != x.version
    ensures ByLastTouch(ops + [op], [x] + s)
  {
    OrderKept(ops, op, s);
    assert Front(ops + [op]) == ops;
    forall i | 0 <= i < |s| ensures LastTouch(ops + [op], s[i].version) < |ops| {
      TouchedBefore(ops, s[i].version);
    }
  }

  lemma WithoutKeeps(ops: seq<Op>, s: seq<Item>, i: nat)
    requires ByLastTouch(ops, s) && HoldsLatest(ops, s) && i < |s|
    ensures ByLastTouch(ops, Without(s, i)) && HoldsLatest(ops, Without(s, i))
    ensures forall j | 0 <= j < |s| - 1 :: Without(s, i)[j].version != s[i].version
  {
    var w := Without(s, i);
    assert forall j | 0 <= j < |w| :: w[j] == if j < i then s[j] else s[j + 1];
  }

  lemma LatestKept(ops: seq<Op>, op: Op, s: seq<Item>)
    requires HoldsLatest(ops, s) && (op.Get? || forall i | 0 <= i < |s| :: s[i].version != op.version)
    ensures HoldsLatest(ops + [op], s)
  {
    assert Front(ops + [op]) == ops;
  }

  /** After any sequence of calls: the list is ordered by last use, each version holds the value
      set last, and a positive capacity is not exceeded. */
  lemma {:induction false} RunReflectsHistory(capacity: int, ops: seq<Op>)
    ensures ByLastTouch(ops, Run(capacity, ops)) && HoldsLatest(ops, Run(capacity, ops))
    ensures capacity > 0 ==> |Run(capacity, ops)| <= capacity
  {
    if ops != [] {
      var front, op := Front(ops), Last(ops);
      assert ops == front + [op];
      RunReflectsHistory(capacity, front);
      StepReflects(capacity, front, op, Run(capacity, front));
    }
  }

  lemma StepReflects(capacity: int, ops: seq<Op>, op: Op, s: seq<Item>)
    requires ByLastTouch(ops, s) && HoldsLatest(ops, s) && (capacity > 0 ==> |s| <= capacity)
    ensures ByLastTouch(ops + [op], Step(capacity, s, op)) && HoldsLatest(ops + [op], Step(capacity, s, op))
    ensures capacity > 0 ==> |Step(capacity, s, op)| <= capacity
  {
    var i := Find(s, op.version);
    if i == |s| {
      StepAbsent(capacity, ops, op, s);
    } else {
      var w := Without(s, i);
      WithoutKeeps(ops, s, i);
      LatestKept(ops, op, w);
      if op.Delete? {
        OrderKept(ops, op, w);
      } else {
        var x := if op.Set? then Item(op.version, op.signals) else s[i];
        OrderPushed(ops, op, w, x);
        assert Front(ops + [op]) == ops;
      }
    }
  }

  lemma StepAbsent(capacity: int, ops: seq<Op>, op: Op, s: seq<Item>)
    requires ByLastTouch(ops, s) && HoldsLatest(ops, s) && (capacity > 0 ==> |s| <= capacity)
             && Find(s, op.version) == |s|
    ensures ByLastTouch(ops + [op], Step(capacity, s, op)) && HoldsLatest(ops + [op], Step(capacity, s, op))
    ensures capacity > 0 ==> |Step(capacity, s, op)| <= capacity
  {
    LatestKept(ops, op, s);
    if op.Set? {
      OrderPushed(ops, op, s, Item(op.version, op.signals));
      assert Front(ops + [op]) == ops;
    } else {
      OrderKept(ops, op, s);
    }
  }

  /** An insertion beyond the capacity drops exactly the version whose last use is oldest. */
  lemma {:induction false} EvictsOldest(capacity: int, ops: seq<Op>, v: string, x: Signals)
    requires 0 < capacity && |Run(capacity, ops)| == capacity && Find(Run(capacity, ops), v) == capacity
    ensures
      var s := Run(capacity, ops);
      && Run(capacity, ops + [Set(v, x)]) == [Item(v, x)] + Front(s)
      && forall i | 0 <= i < |s| - 1 :: LastTouch(ops, Last(s).version) < LastTouch(ops, s[i].version)
  {
    RunReflectsHistory(capacity, ops);
    assert Front(ops + [Set(v, x)]) == ops;
    var s := Run(capacity, ops);
    assert Front([Item(v, x)] + s) == [Item(v, x)] + Front(s);
  }

  /** Without a limit the cache forgets nothing: it holds just the latest values. */
  lemma {:induction false} UnlimitedHoldsAll(ops: seq<Op>, v: string)
    ensures
      var s := Run(NO_CAPACITY_LIMIT, ops);
      if Find(s, v) < |s| then Latest(ops, v) == Some(s[Find(s, v)].signals) else Latest(ops, v).None?
  {
    RunReflectsHistory(NO_CAPACITY_LIMIT, ops);
    if ops != [] {
      var front := Front(ops);
      UnlimitedHoldsAll(front, v);
      RunReflectsHistory(NO_CAPACITY_LIMIT, front);
      PresentAfter(Run(NO_CAPACITY_LIMIT, front), Last(ops), v, front);
    }
  }

  predicate Present(s: seq<Item>, v: string) { Find(s, v) < |s| }

  function Versions(s: seq<Item>): set<string> { set x | x in s :: x.version }

  lemma PresentIs(s: seq<Item>, v: string)
    ensures Present(s, v) <==> v in Versions(s)
  {
    if Present(s, v) {
      assert s[Find(s, v)] in s;
    }
  }

  lemma WithoutVersions(ops: seq<Op>, s: seq<Item>, i: nat)
    requires ByLastTouch(ops, s) && HoldsLatest(ops, s) && i < |s|
    ensures Versions(Without(s, i)) == Versions(s) - {s[i].version}
  {
    WithoutKeeps(ops, s, i);
    var w := Without(s, i);
    assert forall x :: x in w ==> x in s;
    forall x | x in s && x.version != s[i].version ensures x in w {
      var j :| 0 <= j < |s| && s[j] == x;
      assert w[if j < i then j else j - 1] == x;
    }
  }

  lemma PushVersions(s: seq<Item>, x: Item)
    ensures Versions([x] + s) == {x.version} + Versions(s)
  {
    assert x in [x] + s;
    assert forall y | y in s :: y in [x] + s;
  }

  lemma PresentAfter(s: seq<Item>, op: Op, v: string, ops: seq<Op>)
    requires ByLastTouch(ops, s) && HoldsLatest(ops, s)
    ensures Present(Step(NO_CAPACITY_LIMIT, s, op), v) <==>
            (if op.version == v then op.Set? || (op.Get? && Present(s, v)) else Present(s, v))
  {
    var i := Find(s, op.version);
    PresentIs(s, v);
    PresentIs(Step(NO_CAPACITY_LIMIT, s, op), v);
    if i < |s| {
      WithoutVersions(ops, s, i);
      if !op.Delete? {
        PushVersions(Without(s, i), if op.Set? then Item(op.version, op.signals) else s[i]);
      }
    } else if op.Set? {
      PushVersions(s, Item(op.version, op.signals));
    }
  }

  // ------------------------------------------------------------------------
  // What exactly is held

  lemma {:induction false} RunThen(capacity: int, ops: seq<Op>, op: Op)
    ensures Run(capacity, ops + [op]) == Step(capacity, Run(capacity, ops), op)
    ensures Latest(ops + [op], op.version) == if op.Set? then Some(op.signals) else if op.Delete? then None
                                              else Latest(ops, op.version)
  {
    assert Front(ops + [op]) == ops;
  }

  /** What was just set is held, in front. */
  lemma {:induction false} SetIsHeld(capacity: int, ops: seq<Op>, v: string, x: Signals)
    requires capacity >= 0
    ensures
      var s := Run(capacity, ops + [Set(v, x)]);
      s != [] && s[0] == Item(v, x)
  {
    RunThen(capacity, ops, Set(v, x));
  }

  /** As long as there is room, nothing is lost when a version is added. */
  lemma {:induction false} RoomForAll(capacity: int, ops: seq<Op>, v: string, x: Signals)
    requires |Run(capacity, ops)| < capacity || capacity == NO_CAPACITY_LIMIT
    requires v !in Versions(Run(capacity, ops))
    ensures Versions(Run(capacity, ops + [Set(v, x)])) == Versions(Run(capacity, ops)) + {v}
  {
    var s := Run(capacity, ops);
    RunThen(capacity, ops, Set(v, x));
    PresentIs(s, v);
    PushVersions(s, Item(v, x));
  }

  /** With a negative capacity every insertion drops what it has just inserted. */
  lemma {:induction false} NegativeHoldsNothing(capacity: int, ops: seq<Op>)
    requires capacity < 0
    ensures Run(capacity, ops) == []
  {
    if ops != [] {
      NegativeHoldsNothing(capacity, Front(ops));
    }
  }

  /** The last call that set `v`. */
  function LastSet(ops: seq<Op>, v: string): int {
    if ops == [] then -1
    else if Last(ops).Set? && Last(ops).version == v then |ops| - 1
    else LastSet(Front(ops), v)
  }

  /** Call `k` inserts a version into a full cache in which `v` is the one used longest ago. */
  ghost predicate Drops(capacity: int, ops: seq<Op>, k: nat, v: string)
    requires k < |ops|
  {
    var s := Run(capacity, ops[..k]);
    && ops[k].Set? && ops[k].version !in Versions(s) && |s| == capacity > 0
    && v in Versions(s) && forall w | w in Versions(s) && w != v :: LastTouch(ops[..k], v) < LastTouch(ops[..k], w)
  }

  /** Since it was last set, `v` has been dropped. */
  ghost predicate Dropped(capacity: int, ops: seq<Op>, v: string) {
    exists k: nat | LastSet(ops, v) < k < |ops| :: Drops(capacity, ops, k, v)
  }

  lemma {:induction false} LastSetBefore(ops: seq<Op>, v: string)
    ensures -1 <= LastSet(ops, v) < |ops|
  {
    if ops != [] {
      LastSetBefore(Front(ops), v);
    }
  }

  lemma {:induction false} DropsBefore(capacity: int, ops: seq<Op>, op: Op, k: nat, v: string)
    requires k < |ops|
    ensures Drops(capacity, ops + [op], k, v) <==> Drops(capacity, ops, k, v)
  {
    assert (ops + [op])[..k] == ops[..k];
  }

  /** What the last call adds to the drops of `v`. */
  lemma {:induction false} DroppedThen(capacity: int, ops: seq<Op>, op: Op, v: string)
    ensures
      var all := ops + [op];
      Dropped(capacity, all, v) <==>
        !(op.Set? && op.version == v) && (Dropped(capacity, ops, v) || Drops(capacity, all, |ops|, v))
  {
    var all := ops + [op];
    assert Front(all) == ops;
    LastSetBefore(ops, v);
    forall k: nat | k < |ops| ensures Drops(capacity, all, k, v) <==> Drops(capacity, ops, k, v) {
      DropsBefore(capacity, ops, op, k, v);
    }
    if !(op.Set? && op.version == v) {
      assert LastSet(all, v) == LastSet(ops, v);
      if Dropped(capacity, all, v) {
        var k: nat :| LastSet(all, v) < k < |all| && Drops(capacity, all, k, v);
        assert k < |ops| ==> Drops(capacity, ops, k, v);
      }
    }
  }

  /** The version used longest ago is the last of the list. */
  lemma {:induction false} OldestIsLast(ops: seq<Op>, s: seq<Item>, v: string)
    requires ByLastTouch(ops, s) && s != []
    ensures v == Last(s).version
       <==> v in Versions(s) && forall w | w in Versions(s) && w != v :: LastTouch(ops, v) < LastTouch(ops, w)
  {
    assert Last(s) in s;
    if v in Versions(s) && v != Last(s).version {
      var i :| 0 <= i < |s| && s[i].version == v;
      assert LastTouch(ops, s[i].version) > LastTouch(ops, s[|s| - 1].version);
      assert Last(s).version in Versions(s);
    }
  }

  /** A version that has not been deleted since it was last set is missing just when, since then, an
      insertion met a full cache in which it was the one used longest ago. */
  lemma {:induction false} HeldJustWhen(capacity: int, ops: seq<Op>, v: string)
    requires capacity >= 0
    ensures v in Versions(Run(capacity, ops)) <==> Latest(ops, v).Some? && !Dropped(capacity, ops, v)
  {
    if ops != [] {
      var front, op := Front(ops), Last(ops);
      assert ops == front + [op];
      HeldJustWhen(capacity, front, v);
      RunReflectsHistory(capacity, front);
      DroppedThen(capacity, front, op, v);
      HeldThen(capacity, front, op, v);
    }
  }

  lemma {:induction false} HeldThen(capacity: int, ops: seq<Op>, op: Op, v: string)
    requires capacity >= 0
    requires
      var s := Run(capacity, ops);
      ByLastTouch(ops, s) && HoldsLatest(ops, s) && (capacity > 0 ==> |s| <= capacity)
    ensures v in Versions(Step(capacity, Run(capacity, ops), op))
       <==> if op.version == v then op.Set? || (op.Get? && v in Versions(Run(capacity, ops)))
            else v in Versions(Run(capacity, ops)) && !Drops(capacity, ops + [op], |ops|, v)
  {
    var s := Run(capacity, ops);
    assert (ops + [op])[..|ops|] == ops;
    PresentIs(s, op.version);
    if Find(s, op.version) < |s| {
      StaysHeld(capacity, ops, op, v, s);
    } else if op.Set? {
      var x := Item(op.version, op.signals);
      PushVersions(s, x);
      if capacity > 0 && |s| == capacity {
        OldestIsLast(ops, s, v);
        FrontVersions(ops, s);
        assert Front([x] + s) == [x] + Front(s);
        PushVersions(Front(s), x);
      }
    }
  }

  lemma {:induction false} StaysHeld(capacity: int, ops: seq<Op>, op: Op, v: string, s: seq<Item>)
    requires ByLastTouch(ops, s) && HoldsLatest(ops, s) && Find(s, op.version) < |s|
    ensures v in Versions(Step(capacity, s, op)) <==> (if op.version == v then !op.Delete? else v in Versions(s))
  {
    var i := Find(s, op.version);
    assert s[i] in s;
    WithoutVersions(ops, s, i);
    PushVersions(Without(s, i), if op.Set? then Item(op.version, op.signals) else s[i]);
  }

  lemma {:induction false} FrontVersions(ops: seq<Op>, s: seq<Item>)
    requires ByLastTouch(ops, s) && HoldsLatest(ops, s) && s != []
    ensures Versions(Front(s)) == Versions(s) - {Last(s).version}
  {
    WithoutVersions(ops, s, |s| - 1);
    assert Without(s, |s| - 1) == Front(s);
  }

  // ------------------------------------------------------------------------
  // The cache as it is kept: list elements, and a map that finds them

  class Element {
    const version: string
    var signals: Signals

    constructor (version: string, signals: Signals)
      ensures this.version == version && this.signals == signals
    {
      this.version, this.signals := version, signals;
    }
  }

  function Remove(s: seq<Element>, i: nat): (r: seq<Element>)
    requires i < |s|
    ensures |r| == |s| - 1 && forall j | 0 <= j < |r| :: r[j] == if j < i then s[j] else s[j + 1]
  {
    s[..i] + s[i + 1..]
  }

  /** The map and the list hold the same elements, each once. */
  ghost predicate Linked(m: map<string, Element>, s: seq<Element>) {
    && (forall v | v in m :: m[v] in s && m[v].version == v)
    && (forall i | 0 <= i < |s| :: s[i].version in m && m[s[i].version] == s[i])
    && (forall i, j | 0 <= i < j < |s| :: s[i].version != s[j].version)
  }

  ghost function Items(s: seq<Element>): seq<Item>
    reads s
  {
    seq(|s|, i requires 0 <= i < |s| reads s => Item(s[i].version, s[i].signals))
  }

  lemma RemoveKeeps(s: seq<Element>, i: nat, e: Element)
    requires i < |s| && e in s && e != s[i]
    ensures e in Remove(s, i)
  {
    var j :| 0 <= j < |s| && s[j] == e;
    assert Remove(s, i)[if j < i then j else j - 1] == e;
  }

  lemma ItemsRemove(s: seq<Element>, i: nat)
    requires i < |s|
    ensures Items(Remove(s, i)) == Without(Items(s), i)
  {
    var r, w := Items(Remove(s, i)), Without(Items(s), i);
    assert forall j | 0 <= j < |w| :: w[j] == Items(s)[if j < i then j else j + 1];
    assert forall j | 0 <= j < |r| :: r[j] == Items(s)[if j < i then j else j + 1];
  }

  lemma RemoveLinked(m: map<string, Element>, s: seq<Element>, i: nat)
    requires Linked(m, s) && i < |s|
    ensures Linked(m - {s[i].version}, Remove(s, i)) && Items(Remove(s, i)) == Without(Items(s), i)
  {
    ItemsRemove(s, i);
    var m1, r := m - {s[i].version}, Remove(s, i);
    forall v | v in m1 ensures m1[v] in r && m1[v].version == v {
      RemoveKeeps(s, i, m[v]);
    }
  }

  lemma PushLinked(m: map<string, Element>, s: seq<Element>, e: Element)
    requires Linked(m, s) && e.version !in m
    ensures Linked(m[e.version := e], [e] + s) && Items([e] + s) == [Item(e.version, e.signals)] + Items(s)
  {
    var m1, s1 := m[e.version := e], [e] + s;
    assert e in s1 && forall x | x in s :: x in s1;
    assert forall i | 0 <= i < |s| :: s[i] in s && s[i].version in m;
  }

  lemma MoveLinked(m: map<string, Element>, s: seq<Element>, i: nat)
    requires Linked(m, s) && i < |s|
    ensures Linked(m, [s[i]] + Remove(s, i)) && Items([s[i]] + Remove(s, i)) == [Items(s)[i]] + Without(Items(s), i)
    ensures forall e | e in [s[i]] + Remove(s, i) :: e in s
  {
    RemoveLinked(m, s, i);
    PushLinked(m - {s[i].version}, Remove(s, i), s[i]);
    assert (m - {s[i].version})[s[i].version := s[i]] == m;
  }

  /** Where the map says `v` is, the list has it. */
  lemma Located(m: map<string, Element>, s: seq<Element>, v: string)
    requires Linked(m, s)
    ensures v in m <==> Present(Items(s), v)
    ensures v in m ==> s[Find(Items(s), v)] == m[v]
  {
    var i := Find(Items(s), v);
    if v in m {
      var j :| 0 <= j < |s| && s[j] == m[v];
      assert Items(s)[j].version == v;
    }
    if i < |s| {
      assert Items(s)[i].version == v;
    }
  }

  /** An element is found where its version is. */
  lemma FoundAt(m: map<string, Element>, s: seq<Element>, i: nat)
    requires Linked(m, s) && i < |s|
    ensures Find(Items(s), s[i].version) == i
  {
    var j := Find(Items(s), s[i].version);
    assert Items(s)[i].version == s[i].version;
    assert Items(s)[j].version == s[j].version;
    assert !(j < i);
  }

  class Cache {
    const capacity: int
    var versionsMap: map<string, Element>
    var ordered: seq<Element>

    ghost predicate Valid()
      reads this
    {
      Linked(versionsMap, ordered)
    }

    ghost function Contents(): seq<Item>
      reads this, ordered
    {
      Items(ordered)
    }

    constructor (capacity: int)
      ensures Valid() && this.capacity == capacity && Contents() == Run(capacity, [])
    {
      this.capacity := capacity;
      versionsMap, ordered := map[], [];
    }

    /** Moves an element of the list to its front. */
    method MoveToFront(el: Element)
      requires Valid() && el in ordered
      modifies this
      ensures Valid() && versionsMap == old(versionsMap) && ordered != [] && ordered[0] == el
      ensures forall e | e in ordered :: e in old(ordered)
      ensures Contents() == [Item(el.version, el.signals)] + Without(old(Contents()), Find(old(Contents()), el.version))
    {
      var i :| 0 <= i < |ordered| && ordered[i] == el;
      FoundAt(versionsMap, ordered, i);
      MoveLinked(versionsMap, ordered, i);
      ghost var moved := [ordered[i]] + Remove(ordered, i);
      assert Linked(versionsMap, moved);
      ordered := [ordered[i]] + Remove(ordered, i);
    }

    /** A hit makes the version the most recently used one. */
    method Get(version: string) returns (r: Option<Signals>)
      requires Valid()
      modifies this
      ensures Valid() && Contents() == Step(capacity, old(Contents()), Op.Get(version))
      ensures
        var i := Find(old(Contents()), version);
        r == if i < |old(Contents())| then Some(old(Contents())[i].signals) else None
    {
      Located(versionsMap, ordered, version);
      if version !in versionsMap {
        return None;
      }
      var el := versionsMap[version];
      MoveToFront(el);
      r := Some(el.signals);
    }

    method Set(version: string, signals: Signals)
      requires Valid()
      modifies this, ordered
      ensures Valid() && forall e | e in ordered :: e in old(ordered) || fresh(e)
      ensures Contents() == Step(capacity, old(Contents()), Op.Set(version, signals))
    {
      Located(versionsMap, ordered, version);
      if version in versionsMap {
        Update(version, signals);
      } else {
        var el := new Element(version, signals);
        PushLinked(versionsMap, ordered, el);
        ordered := [el] + ordered;
        versionsMap := versionsMap[version := el];
        EvictLast();
      }
    }

    method Update(version: string, signals: Signals)
      requires Valid() && version in versionsMap
      modifies this, ordered
      ensures Valid() && forall e | e in ordered :: e in old(ordered)
      ensures Contents() == [Item(version, signals)] + Without(old(Contents()), Find(old(Contents()), version))
    {
      var el := versionsMap[version];
      MoveToFront(el);
      assert Contents()[1..] == Without(old(Contents()), Find(old(Contents()), version));
      label before:
      el.signals := signals;
      Changed@before(el);
    }

    /** Changing the signals of the first element changes nothing else. */
    twostate lemma Changed(el: Element)
      requires Valid() && ordered == old(ordered) && ordered != [] && ordered[0] == el
      requires forall e: Element | e in ordered && e != el :: e.signals == old(e.signals)
      ensures Contents() == [Item(el.version, el.signals)] + old(Contents())[1..]
    {
      assert forall i | 0 < i < |ordered| :: ordered[i] != el && ordered[i] in ordered;
    }

    method Delete(version: string) returns (deleted: bool)
      requires Valid()
      modifies this
      ensures Valid() && Contents() == Step(capacity, old(Contents()), Op.Delete(version))
      ensures deleted <==> Present(old(Contents()), version)
    {
      Located(versionsMap, ordered, version);
      if version !in versionsMap {
        return false;
      }
      RemoveElement(versionsMap[version]);
      deleted := true;
    }

    method RemoveElement(el: Element)
      requires Valid() && el in ordered
      modifies this
      ensures Valid() && Contents() == Without(old(Contents()), Find(old(Contents()), el.version))
    {
      var i :| 0 <= i < |ordered| && ordered[i] == el;
      FoundAt(versionsMap, ordered, i);
      RemoveLinked(versionsMap, ordered, i);
      versionsMap := versionsMap - {el.version};
      ordered := Remove(ordered, i);
    }

    /** Drops the least recently used version if there are too many. */
    method EvictLast()
      requires Valid()
      modifies this
      ensures Valid() && Contents() == Evict(capacity, old(Contents()))
      ensures forall e | e in ordered :: e in old(ordered)
    {
      if capacity == NO_CAPACITY_LIMIT || |ordered| <= capacity || ordered == [] {
        return;
      }
      var last := ordered[|ordered| - 1];
      RemoveLinked(versionsMap, ordered, |ordered| - 1);
      assert Remove(ordered, |ordered| - 1) == Front(ordered);
      ordered := Front(ordered);
      versionsMap := versionsMap - {last.version};
      assert Without(old(Contents()), |old(ordered)| - 1) == Front(old(Contents()));
    }
  }
}
