/** Renaming between the legacy and the canonical names of a textproto.

    A pass applies its renames one after the other to the whole tree, children before parents.
    `NodeRenamed` shows that this amounts to one descent in which each node is renamed by the
    table of its own level. */
module Renames {
  import opened Wrappers

  /** The field names that some rename mentions, and all others. */
  datatype Name =
    | Publishers | Sources | ServicePublisher | DataSource | ServiceName | SourceIdentifier
    | AggregationPublisher | Aggregator
    | ExpressionNodes | FieldLeafNode | Triggers | DataTrigger | PublisherName | SourceName | MetricsReportConfigs
    | EndTriggerName | StopTriggerName | FinishTriggerName | DeactivateTriggerName | ConnectionType
    | Other(text: string)

  datatype Value = Getter | OnDemand | OtherValue(text: string)

  datatype TextNode = TextNode(name: Name, values: seq<Value>, children: seq<TextNode>)

  /** A path of names from the top of a tree. */
  datatype Path = Leaf(name: Name) | In(outer: Name, inner: Path)

  datatype Pair = Pair(legacy: Path, canonical: Path)
  datatype Table = Nil | Cons(head: Pair, tail: Table)

  function LastName(p: Path): Name { if p.Leaf? then p.name else LastName(p.inner) }

  function Head(p: Path): Name { if p.Leaf? then p.name else p.outer }

  // ------------------------------------------------------------------------
  // The passes

  /** Renames every node at `path` below the roots `ns`. */
  function RenameAt(ns: seq<TextNode>, path: Path, to: Name): (r: seq<TextNode>)
    ensures |r| == |ns| && forall i | 0 <= i < |r| :: r[i] == RenameNode(ns[i], path, to)
    decreases path, 1
  {
    seq(|ns|, i requires 0 <= i < |ns| => RenameNode(ns[i], path, to))
  }

  function RenameNode(n: TextNode, path: Path, to: Name): TextNode
    decreases path, 0
  {
    match path
    case Leaf(x) => if n.name == x then n.(name := to) else n
    case In(x, rest) => if n.name == x then n.(children := RenameAt(n.children, rest, to)) else n
  }

  /** Replaces the values `from` of every node at `path`. */
  function ReplaceAt(ns: seq<TextNode>, path: Path, from: Value, to: Value): (r: seq<TextNode>)
    ensures |r| == |ns| && forall i | 0 <= i < |r| :: r[i] == ReplaceNode(ns[i], path, from, to)
    decreases path, 1
  {
    seq(|ns|, i requires 0 <= i < |ns| => ReplaceNode(ns[i], path, from, to))
  }

  function ReplaceNode(n: TextNode, path: Path, from: Value, to: Value): TextNode
    decreases path, 0
  {
    match path
    case Leaf(x) => if n.name == x then n.(values := ReplaceValues(n.values, from, to)) else n
    case In(x, rest) => if n.name == x then n.(children := ReplaceAt(n.children, rest, from, to)) else n
  }

  function ReplaceValues(vs: seq<Value>, from: Value, to: Value): seq<Value> {
    seq(|vs|, i requires 0 <= i < |vs| => if vs[i] == from then to else vs[i])
  }

  /** Renames canonical to legacy names, pair after pair. */
  function Rename(t: Table, ns: seq<TextNode>): seq<TextNode> {
    if t.Nil? then ns else Rename(t.tail, RenameAt(ns, t.head.canonical, LastName(t.head.legacy)))
  }

  /** The table read the other way. */
  function Swap(t: Table): Table {
    if t.Nil? then Nil else Cons(Pair(t.head.canonical, t.head.legacy), Swap(t.tail))
  }

  function FieldRenames(): Table {
    Cons(Pair(In(Publishers, In(ServicePublisher, Leaf(ServiceName))),
        In(Sources, In(DataSource, Leaf(SourceIdentifier)))),
    Cons(Pair(In(ExpressionNodes, In(FieldLeafNode, Leaf(PublisherName))),
        In(ExpressionNodes, In(FieldLeafNode, Leaf(SourceName)))),
    Cons(Pair(In(Triggers, In(DataTrigger, Leaf(PublisherName))), In(Triggers, In(DataTrigger, Leaf(SourceName)))),
    Cons(Pair(In(MetricsReportConfigs, Leaf(PublisherName)), In(MetricsReportConfigs, Leaf(SourceName))),
    Cons(Pair(In(Publishers, Leaf(ServicePublisher)), In(Sources, Leaf(DataSource))),
    Cons(Pair(In(Publishers, Leaf(AggregationPublisher)), In(Sources, Leaf(Aggregator))),
    Cons(Pair(In(MetricsReportConfigs, Leaf(Publishers)), In(MetricsReportConfigs, Leaf(Sources))),
    Cons(Pair(Leaf(EndTriggerName), Leaf(StopTriggerName)),
    Cons(Pair(Leaf(FinishTriggerName), Leaf(DeactivateTriggerName)),
    Cons(Pair(Leaf(Publishers), Leaf(Sources)), Nil))))))))))
  }

  const LEGACY_CONNECTION: Path := In(Publishers, In(ServicePublisher, Leaf(ConnectionType)))
  const CANONICAL_CONNECTION: Path := In(Sources, In(DataSource, Leaf(ConnectionType)))

  function CanonicalToLegacy(ns: seq<TextNode>): seq<TextNode> {
    Rename(FieldRenames(), ReplaceAt(ns, CANONICAL_CONNECTION, OnDemand, Getter))
  }

  function LegacyToCanonical(ns: seq<TextNode>): seq<TextNode> {
    Rename(Swap(FieldRenames()), ReplaceAt(ns, LEGACY_CONNECTION, Getter, OnDemand))
  }

  /** Some node lies at `path`. */
  predicate HasPath(ns: seq<TextNode>, path: Path)
    decreases path
  {
    match path
    case Leaf(x) => exists i | 0 <= i < |ns| :: ns[i].name == x
    case In(x, rest) => exists i | 0 <= i < |ns| :: ns[i].name == x && HasPath(ns[i].children, rest)
  }

  predicate InTable(t: Table, p: Pair) { t.Cons? && (t.head == p || InTable(t.tail, p)) }

  /** The check of the v1 interface: no node lies at a canonical path. */
  ghost predicate PassesV1(ns: seq<TextNode>) {
    forall p | InTable(FieldRenames(), p) :: !HasPath(ns, p.canonical)
  }

  // ------------------------------------------------------------------------
  // One level at a time

  /** What the table says below a node named `name`. */
  function Below(t: Table, name: Name): Table {
    if t.Nil? then Nil
    else if t.head.canonical.In? && t.head.legacy.In? && t.head.canonical.outer == name then
      Cons(Pair(t.head.legacy.inner, t.head.canonical.inner), Below(t.tail, name))
    else Below(t.tail, name)
  }

  /** What becomes of the name of a node. */
  function NewName(t: Table, name: Name): Name {
    if t.Nil? then name
    else if t.head.canonical == Leaf(name) then NewName(t.tail, LastName(t.head.legacy))
    else NewName(t.tail, name)
  }

  predicate AllLeaves(t: Table) { t.Cons? ==> t.head.canonical.Leaf? && AllLeaves(t.tail) }

  /** Children are renamed before their parents, and paths correspond in depth. */
  predicate DeepFirst(t: Table) {
    t.Cons? ==>
      && (t.head.canonical.Leaf? <==> t.head.legacy.Leaf?)
      && (t.head.canonical.Leaf? ==> AllLeaves(t.tail))
      && DeepFirst(t.tail)
  }

  function RenameOne(t: Table, n: TextNode): TextNode {
    if t.Nil? then n else RenameOne(t.tail, RenameNode(n, t.head.canonical, LastName(t.head.legacy)))
  }

  lemma {:induction false} RenameEach(t: Table, ns: seq<TextNode>)
    ensures |Rename(t, ns)| == |ns| && forall i | 0 <= i < |ns| :: Rename(t, ns)[i] == RenameOne(t, ns[i])
  {
    if t.Cons? {
      RenameEach(t.tail, RenameAt(ns, t.head.canonical, LastName(t.head.legacy)));
    }
  }

  lemma {:induction false} NothingBelow(t: Table, name: Name)
    requires AllLeaves(t)
    ensures Below(t, name) == Nil
  {
    if t.Cons? {
      NothingBelow(t.tail, name);
    }
  }

  /** The sequence of renames acts on a node as its own level says. */
  lemma {:induction false} NodeRenamed(t: Table, n: TextNode)
    requires DeepFirst(t)
    ensures RenameOne(t, n) == TextNode(NewName(t, n.name), n.values, Rename(Below(t, n.name), n.children))
  {
    if t.Cons? {
      var n1 := RenameNode(n, t.head.canonical, LastName(t.head.legacy));
      NodeRenamed(t.tail, n1);
      if t.head.canonical.Leaf? {
        NothingBelow(t.tail, n.name);
        NothingBelow(t.tail, n1.name);
      }
    }
  }

  // ------------------------------------------------------------------------
  // Tables that can be undone

  predicate LegacyLeaf(t: Table, name: Name) { t.Cons? && (t.head.legacy == Leaf(name) || LegacyLeaf(t.tail, name)) }
  predicate CanonicalLeaf(t: Table, name: Name) {
    t.Cons? && (t.head.canonical == Leaf(name) || CanonicalLeaf(t.tail, name))
  }

  /** Swapping back undoes what the table does to a node named `name`, and the result has a name
      that is not to be renamed. */
  predicate Undone(t: Table, name: Name) {
    var to := NewName(t, name);
    && NewName(Swap(t), to) == name && Below(Swap(t), to) == Swap(Below(t, name))
    && !CanonicalLeaf(t, to)
  }

  /** No path of `t` leads through a legacy name of `all`. */
  predicate OutersApart(t: Table, all: Table) {
    t.Cons? ==> (t.head.canonical.In? ==> !LegacyLeaf(all, t.head.canonical.outer)) && OutersApart(t.tail, all)
  }

  /** A canonical tree has no legacy name where the table renames one. */
  predicate Canonical(t: Table, ns: seq<TextNode>)
    decreases ns
  {
    forall n | n in ns :: !LegacyLeaf(t, n.name) && Canonical(Below(t, n.name), n.children)
  }

  /** Every level of the table, down to depth `d`, can be undone. */
  ghost predicate Invertible(t: Table, d: nat)
    decreases d
  {
    && DeepFirst(t) && DeepFirst(Swap(t)) && OutersApart(t, t)
    && (forall name | !LegacyLeaf(t, name) :: Undone(t, name))
    && (if d == 0 then t == Nil else forall name :: Invertible(Below(t, name), d - 1))
  }

  lemma {:induction false} RoundTrip(t: Table, d: nat, ns: seq<TextNode>)
    requires Invertible(t, d) && Canonical(t, ns)
    ensures Rename(Swap(t), Rename(t, ns)) == ns
    decreases d, 1
  {
    var out := Rename(t, ns);
    RenameEach(t, ns);
    RenameEach(Swap(t), out);
    forall i | 0 <= i < |ns| ensures RenameOne(Swap(t), RenameOne(t, ns[i])) == ns[i] {
      NodeRoundTrip(t, d, ns[i]);
    }
  }

  lemma {:induction false} NodeRoundTrip(t: Table, d: nat, n: TextNode)
    requires Invertible(t, d) && !LegacyLeaf(t, n.name) && Canonical(Below(t, n.name), n.children)
    ensures RenameOne(Swap(t), RenameOne(t, n)) == n
    decreases d, 0
  {
    NodeRenamed(t, n);
    NodeRenamed(Swap(t), RenameOne(t, n));
    assert Undone(t, n.name);
    if d == 0 {
      assert Below(t, n.name) == Nil;
    } else {
      RoundTrip(Below(t, n.name), d - 1, n.children);
    }
  }

  // ------------------------------------------------------------------------
  // The table of the API

  function InSources(): Table {
    Cons(Pair(In(ServicePublisher, Leaf(ServiceName)), In(DataSource, Leaf(SourceIdentifier))),
    Cons(Pair(Leaf(ServicePublisher), Leaf(DataSource)),
    Cons(Pair(Leaf(AggregationPublisher), Leaf(Aggregator)), Nil)))
  }
  function InDataSource(): Table { Cons(Pair(Leaf(ServiceName), Leaf(SourceIdentifier)), Nil)
  }
  function InNodes(): Table {
    Cons(Pair(In(FieldLeafNode, Leaf(PublisherName)), In(FieldLeafNode, Leaf(SourceName))), Nil)
  }
  function InTriggers(): Table {
    Cons(Pair(In(DataTrigger, Leaf(PublisherName)), In(DataTrigger, Leaf(SourceName))), Nil)
  }
  function InReports(): Table {
    Cons(Pair(Leaf(PublisherName), Leaf(SourceName)), Cons(Pair(Leaf(Publishers), Leaf(Sources)), Nil))
  }

  /** The same table, legacy names first. */
  function LegacyFirst(): Table {
    Cons(Pair(In(Sources, In(DataSource, Leaf(SourceIdentifier))),
        In(Publishers, In(ServicePublisher, Leaf(ServiceName)))),
    Cons(Pair(In(ExpressionNodes, In(FieldLeafNode, Leaf(SourceName))),
        In(ExpressionNodes, In(FieldLeafNode, Leaf(PublisherName)))),
    Cons(Pair(In(Triggers, In(DataTrigger, Leaf(SourceName))), In(Triggers, In(DataTrigger, Leaf(PublisherName)))),
    Cons(Pair(In(MetricsReportConfigs, Leaf(SourceName)), In(MetricsReportConfigs, Leaf(PublisherName))),
    Cons(Pair(In(Sources, Leaf(DataSource)), In(Publishers, Leaf(ServicePublisher))),
    Cons(Pair(In(Sources, Leaf(Aggregator)), In(Publishers, Leaf(AggregationPublisher))),
    Cons(Pair(In(MetricsReportConfigs, Leaf(Sources)), In(MetricsReportConfigs, Leaf(Publishers))),
    Cons(Pair(Leaf(StopTriggerName), Leaf(EndTriggerName)),
    Cons(Pair(Leaf(DeactivateTriggerName), Leaf(FinishTriggerName)),
    Cons(Pair(Leaf(Sources), Leaf(Publishers)), Nil))))))))))
  }

  lemma SwappedTop()
    ensures Swap(FieldRenames()) == LegacyFirst()
  {
    var t := FieldRenames();
    assert Swap(t.tail.tail.tail.tail.tail.tail.tail.tail.tail)
        == LegacyFirst().tail.tail.tail.tail.tail.tail.tail.tail.tail;
    assert Swap(t.tail.tail.tail.tail.tail.tail.tail) == LegacyFirst().tail.tail.tail.tail.tail.tail.tail;
    assert Swap(t.tail.tail.tail.tail.tail) == LegacyFirst().tail.tail.tail.tail.tail;
    assert Swap(t.tail.tail.tail) == LegacyFirst().tail.tail.tail;
    assert Swap(t.tail) == LegacyFirst().tail;
  }

  lemma BelowTop(name: Name)
    ensures Below(FieldRenames(), name)
         == match name
            case Sources => InSources()
            case ExpressionNodes => InNodes()
            case Triggers => InTriggers()
            case MetricsReportConfigs => InReports()
            case _ => Nil
  {
    var t := FieldRenames().tail.tail.tail;
    NothingBelow(t.tail.tail.tail.tail, name);
    assert Below(t.tail.tail, name)
        == if name == Sources then InSources().tail.tail
              else if name == MetricsReportConfigs then InReports().tail else Nil;
    assert Below(t, name) == if name == Sources then InSources().tail
          else if name == MetricsReportConfigs then InReports() else Nil;
    assert Below(FieldRenames().tail.tail, name) == if name == Triggers then InTriggers() else Below(t, name);
    assert Below(FieldRenames().tail, name) == if name == ExpressionNodes then InNodes()
          else Below(FieldRenames().tail.tail, name);
  }

  lemma BelowTopSwapped(name: Name)
    ensures Below(LegacyFirst(), name)
         == match name
            case Publishers => Swap(InSources())
            case ExpressionNodes => Swap(InNodes())
            case Triggers => Swap(InTriggers())
            case MetricsReportConfigs => Swap(InReports())
            case _ => Nil
  {
    var t := LegacyFirst().tail.tail.tail;
    NothingBelow(t.tail.tail.tail.tail, name);
    assert Below(t.tail.tail, name)
        == if name == Publishers then Swap(InSources().tail.tail)
              else if name == MetricsReportConfigs then Swap(InReports().tail) else Nil;
    assert Below(t, name)
        == if name == Publishers then Swap(InSources().tail)
              else if name == MetricsReportConfigs then Swap(InReports()) else Nil;
    assert Below(LegacyFirst().tail.tail, name) == if name == Triggers then Swap(InTriggers()) else Below(t, name);
    assert Below(LegacyFirst().tail, name) == if name == ExpressionNodes then Swap(InNodes())
          else Below(LegacyFirst().tail.tail, name);
  }

  /** The table without the paths that lead deeper. */
  function LeafRows(t: Table): Table {
    if t.Cons? && t.head.canonical.In? then LeafRows(t.tail) else t
  }

  lemma {:induction false} NewNameOfLeaves(t: Table, name: Name)
    requires DeepFirst(t)
    ensures NewName(t, name) == NewName(LeafRows(t), name)
    ensures LegacyLeaf(t, name) <==> LegacyLeaf(LeafRows(t), name)
    ensures CanonicalLeaf(t, name) <==> CanonicalLeaf(LeafRows(t), name)
  {
    if t.Cons? && t.head.canonical.In? {
      NewNameOfLeaves(t.tail, name);
    }
  }

  /** Three renames at one level. */
  function Three(l1: Name, c1: Name, l2: Name, c2: Name, l3: Name, c3: Name): Table {
    Cons(Pair(Leaf(l1), Leaf(c1)), Cons(Pair(Leaf(l2), Leaf(c2)), Cons(Pair(Leaf(l3), Leaf(c3)), Nil)))
  }

  lemma {:induction false} ThreeLeaves(l1: Name, c1: Name, l2: Name, c2: Name, l3: Name, c3: Name, name: Name)
    requires l1 != c2 && l1 != c3 && l2 != c3
    ensures
      var t := Three(l1, c1, l2, c2, l3, c3);
      && NewName(t, name) == (if name == c1 then l1 else if name == c2 then l2 else if name == c3 then l3 else name)
      && (LegacyLeaf(t, name) <==> name == l1 || name == l2 || name == l3)
      && (CanonicalLeaf(t, name) <==> name == c1 || name == c2 || name == c3)
  {
    var t3 := Cons(Pair(Leaf(l3), Leaf(c3)), Nil);
    var t2 := Cons(Pair(Leaf(l2), Leaf(c2)), t3);
    var mid := if name == c1 then l1 else name;
    LeafRow(l1, c1, t2, name);
    LeafRow(l2, c2, t3, name);
    LeafRow(l2, c2, t3, mid);
    LeafRow(l3, c3, Nil, name);
    LeafRow(l3, c3, Nil, if mid == c2 then l2 else mid);
  }

  lemma {:induction false} LeafRow(l: Name, c: Name, rest: Table, name: Name)
    ensures
      var t := Cons(Pair(Leaf(l), Leaf(c)), rest);
      && NewName(t, name) == NewName(rest, if name == c then l else name)
      && (LegacyLeaf(t, name) <==> name == l || LegacyLeaf(rest, name))
      && (CanonicalLeaf(t, name) <==> name == c || CanonicalLeaf(rest, name))
  {
  }

  lemma TopShape()
    ensures DeepFirst(FieldRenames()) && DeepFirst(LegacyFirst())
    ensures LeafRows(FieldRenames()) == Three(EndTriggerName, StopTriggerName, FinishTriggerName, DeactivateTriggerName,
            Publishers, Sources)
    ensures LeafRows(LegacyFirst()) == Three(StopTriggerName, EndTriggerName, DeactivateTriggerName, FinishTriggerName,
            Sources, Publishers)
  {
  }

  lemma TopLeaves(name: Name)
    ensures NewName(FieldRenames(), name)
         == match name
            case StopTriggerName => EndTriggerName
            case DeactivateTriggerName => FinishTriggerName
            case Sources => Publishers
            case _ => name
    ensures NewName(LegacyFirst(), name)
         == match name
            case EndTriggerName => StopTriggerName
            case FinishTriggerName => DeactivateTriggerName
            case Publishers => Sources
            case _ => name
    ensures LegacyLeaf(FieldRenames(), name)
            <==> name == EndTriggerName || name == FinishTriggerName || name == Publishers
    ensures CanonicalLeaf(FieldRenames(), name)
            <==> name == StopTriggerName || name == DeactivateTriggerName || name == Sources
  {
    TopShape();
    NewNameOfLeaves(FieldRenames(), name);
    NewNameOfLeaves(LegacyFirst(), name);
    ThreeLeaves(EndTriggerName, StopTriggerName, FinishTriggerName, DeactivateTriggerName, Publishers, Sources, name);
    ThreeLeaves(StopTriggerName, EndTriggerName, DeactivateTriggerName, FinishTriggerName, Sources, Publishers, name);
  }

  lemma UndoneTop(name: Name)
    requires !LegacyLeaf(FieldRenames(), name)
    ensures Undone(FieldRenames(), name)
  {
    SwappedTop();
    TopLeaves(name);
    var to := NewName(FieldRenames(), name);
    TopLeaves(to);
    BelowTop(name);
    BelowTopSwapped(to);
  }

  lemma {:induction false} NilInvertible(d: nat)
    ensures Invertible(Nil, d)
    decreases d
  {
    if d > 0 {
      forall name ensures Invertible(Below(Nil, name), d - 1) {
        NilInvertible(d - 1);
      }
    }
  }

  /** A single rename at one level. */
  lemma {:induction false} OneInvertible(l: Name, c: Name, d: nat)
    requires l != c && d > 0
    ensures Invertible(Cons(Pair(Leaf(l), Leaf(c)), Nil), d)
  {
    var t := Cons(Pair(Leaf(l), Leaf(c)), Nil);
    assert Swap(t) == Cons(Pair(Leaf(c), Leaf(l)), Nil);
    forall name | !LegacyLeaf(t, name) ensures Undone(t, name) {
      LeafRow(l, c, Nil, name);
      LeafRow(l, c, Nil, NewName(t, name));
      LeafRow(c, l, Nil, NewName(t, name));
    }
    forall name ensures Invertible(Below(t, name), d - 1) {
      NilInvertible(d - 1);
    }
  }

  /** A rename further down leaves the names of a level alone, and is all there is below its own. */
  lemma {:induction false} NestedRow(x: Name, a: Name, b: Name, name: Name)
    ensures
      var t := Cons(Pair(In(x, Leaf(a)), In(x, Leaf(b))), Nil);
      && NewName(t, name) == name
      && Below(t, name) == if name == x then Cons(Pair(Leaf(a), Leaf(b)), Nil) else Nil
  {
    assert NewName(Nil, name) == name && Below(Nil, name) == Nil;
  }

  /** A single rename below an unchanged name. */
  lemma {:induction false} NestedInvertible(x: Name, l: Name, c: Name, d: nat)
    requires l != c && d > 1
    ensures Invertible(Cons(Pair(In(x, Leaf(l)), In(x, Leaf(c))), Nil), d)
  {
    var t := Cons(Pair(In(x, Leaf(l)), In(x, Leaf(c))), Nil);
    var u := Cons(Pair(In(x, Leaf(c)), In(x, Leaf(l))), Nil);
    assert Swap(t) == u;
    var below := Cons(Pair(Leaf(l), Leaf(c)), Nil);
    assert Swap(below) == Cons(Pair(Leaf(c), Leaf(l)), Nil);
    forall name ensures Undone(t, name) && Below(t, name) == if name == x then below else Nil {
      NestedRow(x, l, c, name);
      NestedRow(x, c, l, name);
    }
    forall name ensures Invertible(Below(t, name), d - 1) {
      NilInvertible(d - 1);
      OneInvertible(l, c, d - 1);
    }
  }

  lemma ReportsInvertible(d: nat)
    requires d > 0
    ensures Invertible(InReports(), d)
  {
    var t, u := InReports(), Cons(Pair(Leaf(SourceName), Leaf(PublisherName)),
        Cons(Pair(Leaf(Sources), Leaf(Publishers)), Nil));
    assert Swap(t) == u;
    forall name | !LegacyLeaf(t, name) ensures Undone(t, name) {
      ReportNames(name);
      ReportNames(NewName(t, name));
    }
    forall name ensures Invertible(Below(t, name), d - 1) {
      ReportNames(name);
      NilInvertible(d - 1);
    }
  }

  lemma ReportNames(name: Name)
    ensures
      var t, u := InReports(), Cons(Pair(Leaf(SourceName), Leaf(PublisherName)),
          Cons(Pair(Leaf(Sources), Leaf(Publishers)), Nil));
      && NewName(t, name)
         == (if name == SourceName then PublisherName else if name == Sources then Publishers else name)
      && NewName(u, name)
         == (if name == PublisherName then SourceName else if name == Publishers then Sources else name)
      && (LegacyLeaf(t, name) <==> name == PublisherName || name == Publishers)
      && (CanonicalLeaf(t, name) <==> name == SourceName || name == Sources)
      && Below(t, name) == Nil && Below(u, name) == Nil
  {
    LeafRow(Publishers, Sources, Nil, name);
    LeafRow(Publishers, Sources, Nil, PublisherName);
    LeafRow(PublisherName, SourceName, InReports().tail, name);
    LeafRow(Sources, Publishers, Nil, name);
    LeafRow(Sources, Publishers, Nil, SourceName);
    LeafRow(SourceName, PublisherName, Cons(Pair(Leaf(Sources), Leaf(Publishers)), Nil), name);
    NothingBelow(InReports(), name);
    NothingBelow(Cons(Pair(Leaf(SourceName), Leaf(PublisherName)), Cons(Pair(Leaf(Sources), Leaf(Publishers)), Nil)),
        name);
  }

  lemma SourcesInvertible()
    ensures Invertible(InSources(), 2)
  {
    var t := InSources();
    forall name | !LegacyLeaf(t, name) ensures Undone(t, name) {
      SourcesNames(name);
      SourcesNames(NewName(t, name));
    }
    forall name ensures Invertible(Below(t, name), 1) {
      SourcesNames(name);
      NilInvertible(1);
      OneInvertible(ServiceName, SourceIdentifier, 1);
    }
  }

  function SwappedSources(): Table {
    Cons(Pair(In(DataSource, Leaf(SourceIdentifier)), In(ServicePublisher, Leaf(ServiceName))),
    Cons(Pair(Leaf(DataSource), Leaf(ServicePublisher)),
    Cons(Pair(Leaf(Aggregator), Leaf(AggregationPublisher)), Nil)))
  }

  lemma SourcesNames(name: Name)
    ensures
      var t, u := InSources(), SwappedSources();
      && Swap(t) == u
      && NewName(t, name)
         == (if name == DataSource then ServicePublisher else if name == Aggregator then AggregationPublisher else name)
      && NewName(u, name)
         == (if name == ServicePublisher then DataSource else if name == AggregationPublisher then Aggregator else name)
      && (LegacyLeaf(t, name) <==> name == ServicePublisher || name == AggregationPublisher)
      && (CanonicalLeaf(t, name) <==> name == DataSource || name == Aggregator)
      && Below(t, name) == (if name == DataSource then InDataSource() else Nil)
      && Below(u, name) == (if name == ServicePublisher then Swap(InDataSource()) else Nil)
  {
    NewNameOfLeaves(InSources(), name);
    NewNameOfLeaves(SwappedSources(), name);
    LeafRow(AggregationPublisher, Aggregator, Nil, name);
    LeafRow(AggregationPublisher, Aggregator, Nil, ServicePublisher);
    LeafRow(ServicePublisher, DataSource, InSources().tail.tail, name);
    LeafRow(Aggregator, AggregationPublisher, Nil, name);
    LeafRow(Aggregator, AggregationPublisher, Nil, DataSource);
    LeafRow(DataSource, ServicePublisher, SwappedSources().tail.tail, name);
    NothingBelow(InSources().tail, name);
    NothingBelow(SwappedSources().tail, name);
  }

  lemma TopOuters()
    ensures OutersApart(FieldRenames(), FieldRenames())
  {
    var all := FieldRenames();
    TopLeaves(Sources);
    TopLeaves(ExpressionNodes);
    TopLeaves(Triggers);
    TopLeaves(MetricsReportConfigs);
    var t := all.tail.tail.tail;
    assert OutersApart(t.tail.tail.tail.tail.tail.tail.tail, all);
    assert OutersApart(t.tail.tail.tail.tail.tail, all);
    assert OutersApart(t.tail.tail.tail.tail, all);
    assert OutersApart(t.tail.tail, all);
    assert OutersApart(t, all);
    assert OutersApart(all.tail, all);
  }

  lemma TableInvertible()
    ensures Invertible(FieldRenames(), 3)
  {
    TopOuters();
    TopShape();
    SwappedTop();
    forall name | !LegacyLeaf(FieldRenames(), name) ensures Undone(FieldRenames(), name) {
      UndoneTop(name);
    }
    forall name ensures Invertible(Below(FieldRenames(), name), 2) {
      BelowTop(name);
      NilInvertible(2);
      SourcesInvertible();
      NestedInvertible(FieldLeafNode, PublisherName, SourceName, 2);
      NestedInvertible(DataTrigger, PublisherName, SourceName, 2);
      ReportsInvertible(2);
    }
  }

  // ------------------------------------------------------------------------
  // The legacy tree has no canonical path

  lemma {:induction false} ChangedIsLegacy(t: Table, name: Name)
    requires DeepFirst(t) && NewName(t, name) != name
    ensures LegacyLeaf(t, NewName(t, name))
  {
    var next := if t.head.canonical == Leaf(name) then LastName(t.head.legacy) else name;
    if NewName(t.tail, next) != next {
      ChangedIsLegacy(t.tail, next);
    }
  }

  lemma {:induction false} RowFacts(t: Table, all: Table, p: Pair)
    requires DeepFirst(t) && OutersApart(t, all) && InTable(t, p)
    ensures p.canonical.Leaf? ==> CanonicalLeaf(t, p.canonical.name)
    ensures p.canonical.In? ==> p.legacy.In? && !LegacyLeaf(all, p.canonical.outer)
    ensures p.canonical.In? ==> InTable(Below(t, p.canonical.outer), Pair(p.legacy.inner, p.canonical.inner))
  {
    if t.head != p {
      RowFacts(t.tail, all, p);
    }
  }

  lemma {:induction false} NoCanonicalPath(t: Table, d: nat, ns: seq<TextNode>, p: Pair)
    requires Invertible(t, d) && Canonical(t, ns) && InTable(t, p)
    ensures !HasPath(Rename(t, ns), p.canonical)
    decreases d
  {
    var out := Rename(t, ns);
    RenameEach(t, ns);
    RowFacts(t, t, p);
    forall i | 0 <= i < |out| && out[i].name == Head(p.canonical)
      ensures p.canonical.In? && !HasPath(out[i].children, p.canonical.inner) {
      var name := ns[i].name;
      NodeRenamed(t, ns[i]);
      assert ns[i] in ns;
      assert Undone(t, name);
      assert p.canonical.In?;
      if NewName(t, name) != name {
        ChangedIsLegacy(t, name);
      }
      NoCanonicalPath(Below(t, name), d - 1, ns[i].children, Pair(p.legacy.inner, p.canonical.inner));
    }
  }

  // ------------------------------------------------------------------------
  // Values

  /** The two paths stand for the same nodes, before and after renaming. */
  ghost predicate Aligned(t: Table, legacy: Path, canonical: Path)
    decreases canonical
  {
    && (legacy.Leaf? <==> canonical.Leaf?)
    && (forall name | !LegacyLeaf(t, name) :: NewName(t, name) == Head(legacy) <==> name == Head(canonical))
    && (canonical.In? ==> Aligned(Below(t, canonical.outer), legacy.inner, canonical.inner))
  }

  lemma {:induction false} ReplaceCommutes(t: Table, d: nat, legacy: Path, canonical: Path, ns: seq<TextNode>,
                                           from: Value, to: Value)
    requires Invertible(t, d) && Aligned(t, legacy, canonical) && Canonical(t, ns)
    ensures ReplaceAt(Rename(t, ns), legacy, from, to) == Rename(t, ReplaceAt(ns, canonical, from, to))
    decreases canonical
  {
    RenameEach(t, ns);
    RenameEach(t, ReplaceAt(ns, canonical, from, to));
    forall i | 0 <= i < |ns|
      ensures ReplaceNode(RenameOne(t, ns[i]), legacy, from, to)
              == RenameOne(t, ReplaceNode(ns[i], canonical, from, to))
    {
      var n := ns[i];
      assert n in ns;
      NodeRenamed(t, n);
      NodeRenamed(t, ReplaceNode(n, canonical, from, to));
      if canonical.In? && n.name == canonical.outer {
        BelowInvertible(t, d, n.name);
        ReplaceCommutes(Below(t, n.name), if d == 0 then 0 else d - 1, legacy.inner, canonical.inner, n.children,
                        from, to);
      }
    }
  }

  lemma BelowInvertible(t: Table, d: nat, name: Name)
    requires Invertible(t, d)
    ensures Invertible(Below(t, name), if d == 0 then 0 else d - 1)
  {
    NilInvertible(0);
  }

  lemma {:induction false} ReplaceKeepsCanonical(t: Table, path: Path, ns: seq<TextNode>, from: Value, to: Value)
    requires Canonical(t, ns)
    ensures Canonical(t, ReplaceAt(ns, path, from, to))
    decreases path
  {
    var out := ReplaceAt(ns, path, from, to);
    forall n | n in out ensures !LegacyLeaf(t, n.name) && Canonical(Below(t, n.name), n.children) {
      var i :| 0 <= i < |out| && out[i] == n;
      assert ns[i] in ns;
      if path.In? && ns[i].name == path.outer {
        ReplaceKeepsCanonical(Below(t, n.name), path.inner, ns[i].children, from, to);
      }
    }
  }

  /** Some node at `path` has the value `v`. */
  predicate HasValue(ns: seq<TextNode>, path: Path, v: Value)
    decreases path
  {
    match path
    case Leaf(x) => exists i | 0 <= i < |ns| :: ns[i].name == x && v in ns[i].values
    case In(x, rest) => exists i | 0 <= i < |ns| :: ns[i].name == x && HasValue(ns[i].children, rest, v)
  }

  lemma {:induction false} ReplaceBack(ns: seq<TextNode>, path: Path, from: Value, to: Value)
    requires !HasValue(ns, path, to)
    ensures ReplaceAt(ReplaceAt(ns, path, from, to), path, to, from) == ns
    decreases path
  {
    forall i | 0 <= i < |ns| ensures ReplaceNode(ReplaceNode(ns[i], path, from, to), path, to, from) == ns[i] {
      var n := ns[i];
      if n.name == Head(path) {
        if path.In? {
          ReplaceBack(n.children, path.inner, from, to);
        } else {
          assert ReplaceValues(ReplaceValues(n.values, from, to), to, from) == n.values;
        }
      }
    }
  }

  lemma ConnectionAlignedInDataSource()
    ensures Aligned(InDataSource(), Leaf(ConnectionType), Leaf(ConnectionType))
  {
    forall name | !LegacyLeaf(InDataSource(), name)
      ensures NewName(InDataSource(), name) == ConnectionType <==> name == ConnectionType {
      LeafRow(ServiceName, SourceIdentifier, Nil, name);
    }
  }

  lemma ConnectionAlignedInSources()
    ensures Aligned(InSources(), In(ServicePublisher, Leaf(ConnectionType)), In(DataSource, Leaf(ConnectionType)))
  {
    SourcesNames(DataSource);
    ConnectionAlignedInDataSource();
    forall name | !LegacyLeaf(InSources(), name)
      ensures NewName(InSources(), name) == ServicePublisher <==> name == DataSource {
      SourcesNames(name);
    }
  }

  lemma ConnectionAligned()
    ensures Aligned(FieldRenames(), LEGACY_CONNECTION, CANONICAL_CONNECTION)
  {
    BelowTop(Sources);
    ConnectionAlignedInSources();
    forall name | !LegacyLeaf(FieldRenames(), name)
      ensures NewName(FieldRenames(), name) == Publishers <==> name == Sources {
      TopLeaves(name);
    }
  }

  // ------------------------------------------------------------------------

  /** On every canonical tree, renaming to legacy names passes the v1 check, and renaming back
      gives the tree again. */
  lemma {:induction false} LegacyRoundTrip(ns: seq<TextNode>)
    requires Canonical(FieldRenames(), ns) && !HasValue(ns, CANONICAL_CONNECTION, Getter)
    ensures LegacyToCanonical(CanonicalToLegacy(ns)) == ns
    ensures PassesV1(CanonicalToLegacy(ns))
  {
    var t, replaced := FieldRenames(), ReplaceAt(ns, CANONICAL_CONNECTION, OnDemand, Getter);
    TableInvertible();
    ConnectionAligned();
    ReplaceKeepsCanonical(t, CANONICAL_CONNECTION, ns, OnDemand, Getter);
    forall p | InTable(t, p) ensures !HasPath(CanonicalToLegacy(ns), p.canonical) {
      NoCanonicalPath(t, 3, replaced, p);
    }
    ReplaceCommutes(t, 3, LEGACY_CONNECTION, CANONICAL_CONNECTION, replaced, Getter, OnDemand);
    ReplaceBack(ns, CANONICAL_CONNECTION, OnDemand, Getter);
    RoundTrip(t, 3, ns);
  }
}
