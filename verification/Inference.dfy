/** Type inference over a whole configuration: builders are processed in reverse topological
    order of their dependencies, each generating or reusing an ad-hoc message. */
module Inference {
  import opened Wrappers
  import opened Sorting
  import opened Configuration
  import opened Dependencies
  import opened InferenceGraph
  import opened Resolution
  import opened Schemas
  import opened Graphs
  import opened TopologicalOrdering

  // ------------------------------------------------------------------------
  // What is inferred

  /** `e` has a message builder. */
  predicate IsEntity(config: MetricsConfig, e: Entity) {
    match e
    case OnSource(s) => SourceNamed(config.sources, s).Some? && SourceNamed(config.sources, s).value.Aggregator?
    case OnBuilder(i) => i < |config.nodes| && config.nodes[i].RawBuilder?
    case OnReport(k) => k < |config.reports|
  }

  function Digits(n: nat): string {
    if n < 10 then ["0123456789"[n]] else Digits(n / 10) + ["0123456789"[n % 10]]
  }

  function NameOf(config: MetricsConfig, e: Entity): string
    requires IsEntity(config, e)
  {
    match e
    case OnSource(s) => s
    case OnBuilder(i) => "MsgBuilderNode" + Digits(i)
    case OnReport(k) => config.reports[k].name
  }

  /** The message type the configuration gives a builder; empty if it is to be inferred. */
  function Preset(config: MetricsConfig, e: Entity): string
    requires IsEntity(config, e)
  {
    match e
    case OnSource(s) => SourceNamed(config.sources, s).value.messageType
    case OnBuilder(i) => config.nodes[i].messageType
    case OnReport(k) => config.reports[k].messageType
  }

  /** An inline builder's fields are assigned without aggregation. */
  function AssignsOf(config: MetricsConfig, e: Entity): seq<FieldAssign>
    requires IsEntity(config, e) && Assigned(config)
  {
    match e
    case OnSource(s) => SourceNamed(config.sources, s).value.assigns
    case OnBuilder(i) =>
      var assigns := config.nodes[i].assigns;
      seq(|assigns|, k requires 0 <= k < |assigns| => FieldAssign(assigns[k].name, NoAggregation,
          assigns[k].index.value))
    case OnReport(k) => config.reports[k].assigns
  }

  /** The assignments of inline builders have expressions. */
  predicate Assigned(config: MetricsConfig) {
    forall i | 0 <= i < |config.nodes| && config.nodes[i].RawBuilder? ::
      forall k | 0 <= k < |config.nodes[i].assigns| :: config.nodes[i].assigns[k].index.Some?
  }

  predicate InRange(config: MetricsConfig, assigns: seq<FieldAssign>) {
    forall k | 0 <= k < |assigns| :: IndexOk(config.nodes, assigns[k])
  }

  /** Operands are there, before the nodes that use them, and so is every expression that a type
      is read from. Compiling a session establishes this; the validator has no part in it, for it
      runs after inference, if at all. */
  ghost predicate WellIndexed(config: MetricsConfig) {
    && Resolvable(config.nodes) && Assigned(config)
    && forall e | IsEntity(config, e) :: InRange(config, AssignsOf(config, e))
  }

  /** Builders are given different names, and no supplied message lies in the ad-hoc package. */
  ghost predicate DistinctNames(config: MetricsConfig, resolver: TypeResolver) {
    && (forall e, f | IsEntity(config, e) && IsEntity(config, f) && NameOf(config, e) == NameOf(config, f) :: e == f)
    && (forall n :: Qualified(n) !in resolver.messages)
  }

  // ------------------------------------------------------------------------

  /** The errors that the fields of one builder raise, in order. */
  function FieldErrors(s: Snapshot, assigns: seq<FieldAssign>): seq<InferError>
    requires Resolvable(s.config.nodes) && InRange(s.config, assigns)
  {
    if assigns == [] then []
    else
      var f := FieldOf(s, Last(assigns), |assigns|).field;
      FieldErrors(s, Front(assigns)) + if f.Err? then [f.error] else []
  }

  /** The fields that are raised no error for. */
  function GoodFields(s: Snapshot, assigns: seq<FieldAssign>): seq<Field>
    requires Resolvable(s.config.nodes) && InRange(s.config, assigns)
  {
    if assigns == [] then []
    else
      var f := FieldOf(s, Last(assigns), |assigns|).field;
      GoodFields(s, Front(assigns)) + if f.Ok? then [f.value] else []
  }

  /** The files that the fields of one builder note, in order. */
  function FieldFiles(s: Snapshot, assigns: seq<FieldAssign>): seq<string>
    requires Resolvable(s.config.nodes) && InRange(s.config, assigns)
  {
    if assigns == [] then [] else FieldFiles(s, Front(assigns)) + FieldOf(s, Last(assigns), |assigns|).files
  }

  function FieldEnums(s: Snapshot, assigns: seq<FieldAssign>): set<string>
    requires Resolvable(s.config.nodes) && InRange(s.config, assigns)
  {
    if assigns == [] then {} else FieldEnums(s, Front(assigns)) + FieldOf(s, Last(assigns), |assigns|).enums
  }

  /** What the `i`th field adds to all that. */
  lemma FieldsSnoc(s: Snapshot, assigns: seq<FieldAssign>, i: nat)
    requires Resolvable(s.config.nodes) && InRange(s.config, assigns) && i < |assigns|
    ensures
      var f := FieldOf(s, assigns[i], i + 1);
      var done, more := assigns[..i], assigns[..i + 1];
      && GoodFields(s, more) == GoodFields(s, done) + (if f.field.Ok? then [f.field.value] else [])
      && FieldErrors(s, more) == FieldErrors(s, done) + (if f.field.Err? then [f.field.error] else [])
      && FieldFiles(s, more) == FieldFiles(s, done) + f.files && FieldEnums(s, more) == FieldEnums(s, done) + f.enums
  {
    assert Front(assigns[..i + 1]) == assigns[..i];
  }

  /** What has been noted after the first `i` fields. */
  predicate NotedUpTo(s: Snapshot, assigns: seq<FieldAssign>, i: nat, files0: seq<string>, enums0: set<string>,
                      files: seq<string>, enums: set<string>)
    requires Resolvable(s.config.nodes) && InRange(s.config, assigns) && i <= |assigns|
  {
    files == files0 + FieldFiles(s, assigns[..i]) && enums == enums0 + FieldEnums(s, assigns[..i])
  }

  lemma NotesSnoc(s: Snapshot, assigns: seq<FieldAssign>, i: nat, files0: seq<string>, enums0: set<string>,
                  files: seq<string>, enums: set<string>)
    requires Resolvable(s.config.nodes) && InRange(s.config, assigns) && i < |assigns|
    requires NotedUpTo(s, assigns, i, files0, enums0, files, enums)
    ensures NotedUpTo(s, assigns, i + 1, files0, enums0, files + FieldOf(s, assigns[i], i + 1).files,
                      enums + FieldOf(s, assigns[i], i + 1).enums)
  {
    FieldsSnoc(s, assigns, i);
    NotesJoin(files0, FieldFiles(s, assigns[..i]), FieldOf(s, assigns[i], i + 1).files);
    NotesUnion(enums0, FieldEnums(s, assigns[..i]), FieldOf(s, assigns[i], i + 1).enums);
  }

  lemma NotesJoin(a: seq<string>, b: seq<string>, c: seq<string>)
    ensures a + (b + c) == a + b + c
  {
  }

  lemma NotesUnion(a: set<string>, b: set<string>, c: set<string>)
    ensures a + (b + c) == a + b + c
  {
  }

  lemma FieldLabelled(s: Snapshot, fa: FieldAssign, pos: nat)
    requires Resolvable(s.config.nodes) && IndexOk(s.config.nodes, fa) && FieldOf(s, fa, pos).field.Ok?
    ensures FieldOf(s, fa, pos).field.value.name == fa.fieldName && FieldOf(s, fa, pos).field.value.number == pos
  {
  }

  lemma DescribesOneMore(fields: seq<Field>, assigns: seq<FieldAssign>, f: Field, fa: FieldAssign)
    requires Describes(fields, assigns) && f.name == fa.fieldName && f.number == |assigns| + 1
    ensures Describes(fields + [f], assigns + [fa])
  {
  }

  lemma {:induction false} GoodFieldsDescribe(s: Snapshot, assigns: seq<FieldAssign>)
    requires Resolvable(s.config.nodes) && InRange(s.config, assigns)
    ensures |GoodFields(s, assigns)| + |FieldErrors(s, assigns)| == |assigns|
    ensures FieldErrors(s, assigns) == [] ==> Describes(GoodFields(s, assigns), assigns)
  {
    if assigns != [] {
      var front, last := Front(assigns), Last(assigns);
      var f := FieldOf(s, last, |assigns|).field;
      GoodFieldsDescribe(s, front);
      assert assigns == front + [last];
      if f.Ok? && FieldErrors(s, front) == [] {
        FieldLabelled(s, last, |assigns|);
        DescribesOneMore(GoodFields(s, front), front, f.value, last);
      }
    }
  }

  /** Every error is that of one of the fields. */
  lemma {:induction false} ErrorSource(s: Snapshot, assigns: seq<FieldAssign>, e: InferError) returns (k: nat)
    requires Resolvable(s.config.nodes) && InRange(s.config, assigns) && e in FieldErrors(s, assigns)
    ensures k < |assigns| && FieldOf(s, assigns[k], k + 1).field == Err(e)
  {
    var f := FieldOf(s, Last(assigns), |assigns|).field;
    if f == Err(e) {
      k := |assigns| - 1;
    } else {
      k := ErrorSource(s, Front(assigns), e);
    }
  }

  // ------------------------------------------------------------------------
  // What holds of the registry and of the assigned types, throughout a run

  ghost predicate AllTracked(resolver: TypeResolver, adhoc: seq<Descriptor>, referenced: set<string>,
                             files: seq<string>, enums: set<string>,
                             fields: seq<Field>)
  {
    forall k | 0 <= k < |fields| :: FieldTracked(resolver, adhoc, referenced, files, enums, fields[k].ty)
  }

  /** Names and contents are unique, every named type is accounted for, and every message was
      generated for a builder already processed. */
  ghost predicate RegistryOk(config: MetricsConfig, resolver: TypeResolver, adhoc: seq<Descriptor>,
                             referenced: set<string>,
                             files: seq<string>, enums: set<string>, done: set<Entity>)
  {
    && Registry(adhoc)
    && (forall d | d in adhoc :: AllTracked(resolver, adhoc, referenced, files, enums, d.fields))
    && (forall d | d in adhoc :: exists e | e in done :: IsEntity(config, e) && NameOf(config, e) == d.name)
    && referenced <= resolver.messages.Keys
  }

  /** `e` was given a type, and a definition of it was supplied. */
  predicate Supplied(config: MetricsConfig, resolver: TypeResolver, e: Entity)
    requires IsEntity(config, e)
  {
    Preset(config, e) != "" && Preset(config, e) in resolver.messages
  }

  /** Every such type, of a builder already processed, is in the output. */
  ghost predicate PresetsOut(config: MetricsConfig, resolver: TypeResolver, adhoc: seq<Descriptor>,
                             referenced: set<string>, done: set<Entity>) {
    forall e | e in done && IsEntity(config, e) && Supplied(config, resolver, e) ::
          IsTypeInOutput(adhoc, referenced, Preset(config, e))
  }

  lemma PresetsGrow(config: MetricsConfig, resolver: TypeResolver, adhoc: seq<Descriptor>, more: seq<Descriptor>,
                    referenced: set<string>,
                    referenced1: set<string>, done: set<Entity>, e: Entity)
    requires PresetsOut(config, resolver, adhoc, referenced, done) && IsEntity(config, e)
    requires (forall d | d in adhoc :: d in more) && referenced <= referenced1
    requires Supplied(config, resolver, e) ==> IsTypeInOutput(more, referenced1, Preset(config, e))
    ensures PresetsOut(config, resolver, more, referenced1, done + {e})
  {
    forall f | f in done + {e} && IsEntity(config, f) && Supplied(config, resolver, f)
      ensures IsTypeInOutput(more, referenced1, Preset(config, f))
    {
      if f != e {
        OutputGrows(adhoc, more, referenced, referenced1, Preset(config, f));
      }
    }
  }

  /** `ty` names an ad-hoc message that describes `assigns`. */
  ghost predicate HasSchema(adhoc: seq<Descriptor>, assigns: seq<FieldAssign>, ty: string) {
    exists d | d in adhoc :: ty == Qualified(d.name) && Describes(d.fields, assigns)
  }

  /** A builder keeps the type it was given; else it has none until it is processed, and then
      none or a registered one. */
  ghost predicate TypeOk(config: MetricsConfig, types: map<Entity, string>, adhoc: seq<Descriptor>, done: set<Entity>,
                         e: Entity)
    requires IsEntity(config, e) && Assigned(config)
  {
    && e in types
    && if e !in done || Preset(config, e) != "" then types[e] == Preset(config, e)
       else types[e] != "" ==> HasSchema(adhoc, AssignsOf(config, e), types[e])
  }

  ghost predicate TypesOk(config: MetricsConfig, types: map<Entity, string>, adhoc: seq<Descriptor>, done: set<Entity>)
    requires Assigned(config)
  {
    && (forall e | e in types :: IsEntity(config, e))
    && (forall e | IsEntity(config, e) :: TypeOk(config, types, adhoc, done, e))
  }

  /** A builder that has not been processed finds its name free. */
  lemma NameIsFree(config: MetricsConfig, resolver: TypeResolver, adhoc: seq<Descriptor>, referenced: set<string>,
                   files: seq<string>,
                   enums: set<string>, done: set<Entity>, e: Entity)
    requires RegistryOk(config, resolver, adhoc, referenced, files, enums, done) && DistinctNames(config, resolver)
    requires IsEntity(config, e) && e !in done
    ensures !IsTypeInOutput(adhoc, referenced, Qualified(NameOf(config, e)))
    ensures forall d | d in adhoc :: d.name != NameOf(config, e)
  {
    var name := NameOf(config, e);
    QualifiedNotWellKnown(name);
    forall d | d in adhoc ensures d.name != name && Qualified(d.name) != Qualified(name) {
      var f :| f in done && IsEntity(config, f) && NameOf(config, f) == d.name;
      if Qualified(d.name) == Qualified(name) {
        QualifiedInjective(d.name, name);
      }
    }
    assert Qualified(name) !in resolver.messages;
  }

  lemma SchemaGrows(adhoc: seq<Descriptor>, more: seq<Descriptor>, assigns: seq<FieldAssign>, ty: string)
    requires HasSchema(adhoc, assigns, ty) && forall d | d in adhoc :: d in more
    ensures HasSchema(more, assigns, ty)
  {
  }

  /** Giving `e` a type, and the registry growing, disturbs no other builder's type. */
  lemma TypesGrow(config: MetricsConfig, types: map<Entity, string>, adhoc: seq<Descriptor>, more: seq<Descriptor>,
                  done: set<Entity>,
                  e: Entity, ty: string)
    requires Assigned(config) && TypesOk(config, types, adhoc, done) && IsEntity(config, e)
    requires forall d | d in adhoc :: d in more
    requires TypeOk(config, types[e := ty], more, done + {e}, e)
    ensures TypesOk(config, types[e := ty], more, done + {e})
  {
    forall f | IsEntity(config, f) ensures TypeOk(config, types[e := ty], more, done + {e}, f) {
      assert TypeOk(config, types, adhoc, done, f);
      if f != e && HasSchema(adhoc, AssignsOf(config, f), types[f]) {
        SchemaGrows(adhoc, more, AssignsOf(config, f), types[f]);
      }
    }
  }

  lemma AllTrackedGrows(resolver: TypeResolver, adhoc: seq<Descriptor>, more: seq<Descriptor>, referenced: set<string>,
                        referenced1: set<string>,
                        files: seq<string>, files1: seq<string>, enums: set<string>, enums1: set<string>,
                            fields: seq<Field>)
    requires AllTracked(resolver, adhoc, referenced, files, enums, fields)
    requires (forall d | d in adhoc :: d in more) && referenced <= referenced1 && (forall f | f in files :: f in files1)
             && enums <= enums1
    ensures AllTracked(resolver, more, referenced1, files1, enums1, fields)
  {
    forall k | 0 <= k < |fields| ensures FieldTracked(resolver, more, referenced1, files1, enums1, fields[k].ty) {
      TrackedGrows(resolver, adhoc, more, referenced, referenced1, files, files1, enums, enums1, fields[k].ty);
    }
  }

  lemma RegistryGrows(config: MetricsConfig, resolver: TypeResolver, adhoc: seq<Descriptor>, referenced: set<string>,
                      referenced1: set<string>,
                      files: seq<string>, files1: seq<string>, enums: set<string>, enums1: set<string>,
                          done: set<Entity>, done1: set<Entity>)
    requires RegistryOk(config, resolver, adhoc, referenced, files, enums, done) && done <= done1
    requires referenced <= referenced1 <= resolver.messages.Keys && (forall f | f in files :: f in files1)
             && enums <= enums1
    ensures RegistryOk(config, resolver, adhoc, referenced1, files1, enums1, done1)
  {
    forall d | d in adhoc ensures AllTracked(resolver, adhoc, referenced1, files1, enums1, d.fields) {
      AllTrackedGrows(resolver, adhoc, adhoc, referenced, referenced1, files, files1, enums, enums1, d.fields);
    }
    forall d | d in adhoc ensures exists e | e in done1 :: IsEntity(config, e) && NameOf(config, e) == d.name {
      var e :| e in done && IsEntity(config, e) && NameOf(config, e) == d.name;
    }
  }

  lemma RegistryAdds(config: MetricsConfig, resolver: TypeResolver, adhoc: seq<Descriptor>, referenced: set<string>,
                     files: seq<string>,
                     enums: set<string>, done: set<Entity>, e: Entity, fields: seq<Field>)
    requires RegistryOk(config, resolver, adhoc, referenced, files, enums, done) && IsEntity(config, e)
    requires AllTracked(resolver, adhoc, referenced, files, enums, fields)
    requires forall d | d in adhoc :: d.name != NameOf(config, e) && d.fields != fields
    ensures RegistryOk(config, resolver, adhoc + [Descriptor(NameOf(config, e), fields)], referenced, files, enums,
            done + {e})
  {
    var more := adhoc + [Descriptor(NameOf(config, e), fields)];
    RegistrySnoc(adhoc, Descriptor(NameOf(config, e), fields));
    forall d | d in more ensures AllTracked(resolver, more, referenced, files, enums, d.fields) {
      AllTrackedGrows(resolver, adhoc, more, referenced, referenced, files, files, enums, enums, d.fields);
    }
    forall d | d in more ensures exists f | f in done + {e} :: IsEntity(config, f) && NameOf(config, f) == d.name {
      if d in adhoc {
        var f :| f in done && IsEntity(config, f) && NameOf(config, f) == d.name;
      } else {
        assert e in done + {e};
      }
    }
  }
}
