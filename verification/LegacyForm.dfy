/** What the passes of `Renames` make of a tree, level by level, by name. */
module LegacyForm {
  import opened Wrappers
  import opened Renames

  // ------------------------------------------------------------------------
  // Canonical to legacy

  function OnDemandIsGetter(vs: seq<Value>): (r: seq<Value>) {
    seq(|vs|, i requires 0 <= i < |vs| => if vs[i].OnDemand? then Getter else vs[i])
  }

  function DataSourceToLegacy(n: TextNode): TextNode {
    match n.name
    case SourceIdentifier => n.(name := ServiceName)
    case ConnectionType => n.(values := OnDemandIsGetter(n.values))
    case _ => n
  }

  function SourceToLegacy(n: TextNode): TextNode {
    match n.name
    case DataSource =>
      TextNode(ServicePublisher, n.values, seq(|n.children|, i requires 0 <= i < |n.children| =>
        DataSourceToLegacy(n.children[i])))
    case Aggregator => n.(name := AggregationPublisher)
    case _ => n
  }

  function ReportToLegacy(n: TextNode): TextNode {
    match n.name
    case SourceName => n.(name := PublisherName)
    case Sources => n.(name := Publishers)
    case _ => n
  }

  function ReferenceToLegacy(n: TextNode): TextNode { if n.name.SourceName? then n.(name := PublisherName) else n }

  /** The references that lie below children called `holder`. */
  function HolderToLegacy(holder: Name, n: TextNode): TextNode {
    if n.name != holder then n
    else n.(children := seq(|n.children|, i requires 0 <= i < |n.children| => ReferenceToLegacy(n.children[i])))
  }

  function TopToLegacy(n: TextNode): TextNode {
    match n.name
    case Sources =>
      TextNode(Publishers, n.values, seq(|n.children|, i requires 0 <= i < |n.children| =>
        SourceToLegacy(n.children[i])))
    case ExpressionNodes =>
      n.(children := seq(|n.children|, i requires 0 <= i < |n.children| =>
        HolderToLegacy(FieldLeafNode, n.children[i])))
    case Triggers =>
      n.(children := seq(|n.children|, i requires 0 <= i < |n.children| => HolderToLegacy(DataTrigger, n.children[i])))
    case MetricsReportConfigs =>
      n.(children := seq(|n.children|, i requires 0 <= i < |n.children| => ReportToLegacy(n.children[i])))
    case StopTriggerName => n.(name := EndTriggerName)
    case DeactivateTriggerName => n.(name := FinishTriggerName)
    case _ => n
  }

  /** A table that renames at most the nodes of one level. */
  lemma {:induction false} FlatRename(t: Table, n: TextNode)
    requires DeepFirst(t) && Below(t, n.name) == Nil
    ensures RenameOne(t, n) == n.(name := NewName(t, n.name))
  {
    NodeRenamed(t, n);
  }

  lemma {:induction false} OneName(l: Name, c: Name, name: Name)
    ensures
      var t := Cons(Pair(Leaf(l), Leaf(c)), Nil);
      DeepFirst(t) && Below(t, name) == Nil && NewName(t, name) == if name == c then l else name
  {
    LeafRow(l, c, Nil, name);
    NothingBelow(Cons(Pair(Leaf(l), Leaf(c)), Nil), name);
  }

  lemma HolderDeepFirst(x: Name, l: Name, c: Name)
    ensures DeepFirst(Cons(Pair(In(x, Leaf(l)), In(x, Leaf(c))), Nil))
  {
  }

  /** Renaming a list is renaming each of it. */
  lemma {:induction false} EachRenamed(t: Table, ns: seq<TextNode>, r: seq<TextNode>)
    requires |r| == |ns| && forall i | 0 <= i < |ns| :: r[i] == RenameOne(t, ns[i])
    ensures Rename(t, ns) == r
  {
    RenameEach(t, ns);
  }

  lemma {:induction false} HolderLegacy(x: Name, n: TextNode)
    ensures RenameOne(Cons(Pair(In(x, Leaf(PublisherName)), In(x, Leaf(SourceName))), Nil), n) == HolderToLegacy(x, n)
  {
    var t, inner := Cons(Pair(In(x, Leaf(PublisherName)), In(x, Leaf(SourceName))), Nil),
        Cons(Pair(Leaf(PublisherName), Leaf(SourceName)), Nil);
    NestedRow(x, PublisherName, SourceName, n.name);
    HolderDeepFirst(x, PublisherName, SourceName);
    NodeRenamed(t, n);
    if n.name == x {
      forall i | 0 <= i < |n.children| ensures RenameOne(inner, n.children[i]) == ReferenceToLegacy(n.children[i]) {
        OneName(PublisherName, SourceName, n.children[i].name);
        FlatRename(inner, n.children[i]);
      }
      EachRenamed(inner, n.children, HolderToLegacy(x, n).children);
    }
  }

  lemma {:induction false} ReportLegacy(n: TextNode)
    ensures RenameOne(InReports(), n) == ReportToLegacy(n)
  {
    ReportNames(n.name);
    FlatRename(InReports(), n);
  }

  lemma {:induction false} DataSourceLegacy(n: TextNode)
    ensures RenameOne(InDataSource(), ReplaceNode(n, Leaf(ConnectionType), OnDemand, Getter)) == DataSourceToLegacy(n)
  {
    var n1 := ReplaceNode(n, Leaf(ConnectionType), OnDemand, Getter);
    OneName(ServiceName, SourceIdentifier, n1.name);
    FlatRename(InDataSource(), n1);
    assert ReplaceValues(n.values, OnDemand, Getter) == OnDemandIsGetter(n.values);
  }

  lemma {:induction false} SourceLegacy(n: TextNode)
    ensures RenameOne(InSources(), ReplaceNode(n, In(DataSource, Leaf(ConnectionType)), OnDemand, Getter))
         == SourceToLegacy(n)
  {
    var n1 := ReplaceNode(n, In(DataSource, Leaf(ConnectionType)), OnDemand, Getter);
    SourcesNames(n.name);
    SourcesDeepFirst();
    NodeRenamed(InSources(), n1);
    if n.name == DataSource {
      forall i | 0 <= i < |n.children|
        ensures RenameOne(InDataSource(), n1.children[i]) == DataSourceToLegacy(n.children[i]) {
        DataSourceLegacy(n.children[i]);
      }
      EachRenamed(InDataSource(), n1.children, SourceToLegacy(n).children);
    }
  }

  lemma SourcesDeepFirst()
    ensures DeepFirst(InSources())
  {
  }

  lemma {:induction false} TopLegacy(n: TextNode)
    ensures RenameOne(FieldRenames(), ReplaceNode(n, CANONICAL_CONNECTION, OnDemand, Getter)) == TopToLegacy(n)
  {
    var n1, r := ReplaceNode(n, CANONICAL_CONNECTION, OnDemand, Getter), TopToLegacy(n);
    TopShape();
    TopLeaves(n.name);
    BelowTop(n.name);
    NodeRenamed(FieldRenames(), n1);
    var below := Below(FieldRenames(), n.name);
    forall i | 0 <= i < |n.children| && below != Nil ensures r.children[i] == RenameOne(below, n1.children[i]) {
      SourceLegacy(n.children[i]);
      HolderLegacy(FieldLeafNode, n.children[i]);
      HolderLegacy(DataTrigger, n.children[i]);
      ReportLegacy(n.children[i]);
    }
    if below != Nil {
      EachRenamed(below, n1.children, r.children);
    }
  }

  /** The pass to legacy names, on every tree: what becomes of each node, by its place. */
  lemma {:induction false} LegacyIs(ns: seq<TextNode>)
    ensures CanonicalToLegacy(ns) == seq(|ns|, i requires 0 <= i < |ns| => TopToLegacy(ns[i]))
  {
    var replaced := ReplaceAt(ns, CANONICAL_CONNECTION, OnDemand, Getter);
    forall i | 0 <= i < |ns| ensures TopToLegacy(ns[i]) == RenameOne(FieldRenames(), replaced[i]) {
      TopLegacy(ns[i]);
    }
    EachRenamed(FieldRenames(), replaced, seq(|ns|, i requires 0 <= i < |ns| => TopToLegacy(ns[i])));
  }

  // ------------------------------------------------------------------------
  // Legacy to canonical

  function GetterIsOnDemand(vs: seq<Value>): (r: seq<Value>) {
    seq(|vs|, i requires 0 <= i < |vs| => if vs[i].Getter? then OnDemand else vs[i])
  }

  function DataSourceToCanonical(n: TextNode): TextNode {
    match n.name
    case ServiceName => n.(name := SourceIdentifier)
    case ConnectionType => n.(values := GetterIsOnDemand(n.values))
    case _ => n
  }

  function SourceToCanonical(n: TextNode): TextNode {
    match n.name
    case ServicePublisher =>
      TextNode(DataSource, n.values, seq(|n.children|, i requires 0 <= i < |n.children| =>
        DataSourceToCanonical(n.children[i])))
    case AggregationPublisher => n.(name := Aggregator)
    case _ => n
  }

  function ReportToCanonical(n: TextNode): TextNode {
    match n.name
    case PublisherName => n.(name := SourceName)
    case Publishers => n.(name := Sources)
    case _ => n
  }

  function ReferenceToCanonical(n: TextNode): TextNode { if n.name.PublisherName? then n.(name := SourceName) else n }

  function HolderToCanonical(holder: Name, n: TextNode): TextNode {
    if n.name != holder then n
    else n.(children := seq(|n.children|, i requires 0 <= i < |n.children| => ReferenceToCanonical(n.children[i])))
  }

  function TopToCanonical(n: TextNode): TextNode {
    match n.name
    case Publishers =>
      TextNode(Sources, n.values, seq(|n.children|, i requires 0 <= i < |n.children| =>
        SourceToCanonical(n.children[i])))
    case ExpressionNodes =>
      n.(children := seq(|n.children|, i requires 0 <= i < |n.children| =>
        HolderToCanonical(FieldLeafNode, n.children[i])))
    case Triggers =>
      n.(children := seq(|n.children|, i requires 0 <= i < |n.children| =>
        HolderToCanonical(DataTrigger, n.children[i])))
    case MetricsReportConfigs =>
      n.(children := seq(|n.children|, i requires 0 <= i < |n.children| => ReportToCanonical(n.children[i])))
    case EndTriggerName => n.(name := StopTriggerName)
    case FinishTriggerName => n.(name := DeactivateTriggerName)
    case _ => n
  }

  lemma {:induction false} HolderCanonical(x: Name, n: TextNode)
    ensures RenameOne(Cons(Pair(In(x, Leaf(SourceName)), In(x, Leaf(PublisherName))), Nil), n)
         == HolderToCanonical(x, n)
  {
    var t, inner := Cons(Pair(In(x, Leaf(SourceName)), In(x, Leaf(PublisherName))), Nil),
        Cons(Pair(Leaf(SourceName), Leaf(PublisherName)), Nil);
    NestedRow(x, SourceName, PublisherName, n.name);
    HolderDeepFirst(x, SourceName, PublisherName);
    NodeRenamed(t, n);
    if n.name == x {
      forall i | 0 <= i < |n.children| ensures RenameOne(inner, n.children[i]) == ReferenceToCanonical(n.children[i]) {
        OneName(SourceName, PublisherName, n.children[i].name);
        FlatRename(inner, n.children[i]);
      }
      EachRenamed(inner, n.children, HolderToCanonical(x, n).children);
    }
  }

  lemma {:induction false} ReportCanonical(n: TextNode)
    ensures RenameOne(Swap(InReports()), n) == ReportToCanonical(n)
  {
    var u := Cons(Pair(Leaf(SourceName), Leaf(PublisherName)), Cons(Pair(Leaf(Sources), Leaf(Publishers)), Nil));
    assert Swap(InReports()) == u;
    ReportNames(n.name);
    FlatRename(u, n);
  }

  lemma {:induction false} DataSourceCanonical(n: TextNode)
    ensures RenameOne(Swap(InDataSource()), ReplaceNode(n, Leaf(ConnectionType), Getter, OnDemand))
         == DataSourceToCanonical(n)
  {
    var n1 := ReplaceNode(n, Leaf(ConnectionType), Getter, OnDemand);
    OneName(SourceIdentifier, ServiceName, n1.name);
    FlatRename(Cons(Pair(Leaf(SourceIdentifier), Leaf(ServiceName)), Nil), n1);
    assert ReplaceValues(n.values, Getter, OnDemand) == GetterIsOnDemand(n.values);
  }

  lemma {:induction false} SourceCanonical(n: TextNode)
    ensures RenameOne(SwappedSources(), ReplaceNode(n, In(ServicePublisher, Leaf(ConnectionType)), Getter, OnDemand))
         == SourceToCanonical(n)
  {
    var n1 := ReplaceNode(n, In(ServicePublisher, Leaf(ConnectionType)), Getter, OnDemand);
    SourcesNames(n.name);
    SwappedDeepFirst();
    NodeRenamed(SwappedSources(), n1);
    if n.name == ServicePublisher {
      forall i | 0 <= i < |n.children|
        ensures RenameOne(Swap(InDataSource()), n1.children[i]) == DataSourceToCanonical(n.children[i]) {
        DataSourceCanonical(n.children[i]);
      }
      EachRenamed(Swap(InDataSource()), n1.children, SourceToCanonical(n).children);
    }
  }

  lemma SwappedDeepFirst()
    ensures DeepFirst(SwappedSources())
  {
  }

  lemma SwappedHolders()
    ensures Swap(InNodes()) == Cons(Pair(In(FieldLeafNode, Leaf(SourceName)), In(FieldLeafNode, Leaf(PublisherName))),
                                    Nil)
    ensures Swap(InTriggers()) == Cons(Pair(In(DataTrigger, Leaf(SourceName)), In(DataTrigger, Leaf(PublisherName))),
                                       Nil)
    ensures Swap(InSources()) == SwappedSources()
  {
    SourcesNames(Sources);
  }

  lemma {:induction false} TopCanonical(n: TextNode)
    ensures RenameOne(LegacyFirst(), ReplaceNode(n, LEGACY_CONNECTION, Getter, OnDemand)) == TopToCanonical(n)
  {
    var n1, r := ReplaceNode(n, LEGACY_CONNECTION, Getter, OnDemand), TopToCanonical(n);
    TopShape();
    TopLeaves(n.name);
    BelowTopSwapped(n.name);
    SwappedHolders();
    NodeRenamed(LegacyFirst(), n1);
    var below := Below(LegacyFirst(), n.name);
    forall i | 0 <= i < |n.children| && below != Nil ensures r.children[i] == RenameOne(below, n1.children[i]) {
      SourceCanonical(n.children[i]);
      HolderCanonical(FieldLeafNode, n.children[i]);
      HolderCanonical(DataTrigger, n.children[i]);
      ReportCanonical(n.children[i]);
    }
    if below != Nil {
      EachRenamed(below, n1.children, r.children);
    }
  }

  /** The pass back, on every tree. */
  lemma {:induction false} CanonicalIs(ns: seq<TextNode>)
    ensures LegacyToCanonical(ns) == seq(|ns|, i requires 0 <= i < |ns| => TopToCanonical(ns[i]))
  {
    var replaced := ReplaceAt(ns, LEGACY_CONNECTION, Getter, OnDemand);
    SwappedTop();
    forall i | 0 <= i < |ns| ensures TopToCanonical(ns[i]) == RenameOne(LegacyFirst(), replaced[i]) {
      TopCanonical(ns[i]);
    }
    EachRenamed(LegacyFirst(), replaced, seq(|ns|, i requires 0 <= i < |ns| => TopToCanonical(ns[i])));
  }
}
